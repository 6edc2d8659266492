/**
 * The per-instance single-use guard. The LRU cache below it is taken to be a
 * queue in insertion order (`has` refreshes nothing) with a start time for
 * each entry, a ceiling, and expiry after the TTL.
 */
module Seen {
  import opened Prelude

  type Id = string

  const MAX_SEEN := 10000

  datatype Item = Item(id: Id, start: nat)

  /** A TTL of 0 means none, and so does a start time of 0. */
  predicate Stale(ttl: nat, it: Item, now: int) {
    ttl != 0 && it.start != 0 && now - it.start > ttl
  }

  /** Where `id` sits in the queue; the length if nowhere. */
  function Position(q: seq<Item>, id: Id): (k: nat)
    ensures k <= |q|
    ensures k < |q| ==> q[k].id == id
    ensures forall j :: 0 <= j < k ==> q[j].id != id
  {
    if q == [] then 0
    else if q[0].id == id then 0
    else 1 + Position(q[1..], id)
  }

  predicate Has(ttl: nat, q: seq<Item>, id: Id, now: int) {
    var k := Position(q, id);
    k < |q| && !Stale(ttl, q[k], now)
  }

  /** The place a new entry takes over: its own stale one, the oldest when full, or none. */
  function Slot(q: seq<Item>, id: Id): (k: Option<nat>)
    ensures k.Some? ==> k.value < |q|
  {
    if Position(q, id) < |q| then Some(Position(q, id))
    else if |q| >= MAX_SEEN then Some(0)
    else None
  }

  function Vacate<T>(s: seq<T>, k: Option<nat>): seq<T>
    requires k.Some? ==> k.value < |s|
  {
    if k.Some? then s[..k.value] + s[k.value + 1..] else s
  }

  function Put(q: seq<Item>, id: Id, now: nat): seq<Item> {
    Vacate(q, Slot(q, id)) + [Item(id, now)]
  }

  /** The autopurge timer of `id`: takes the entry out if it is stale by now. */
  function Purge(ttl: nat, q: seq<Item>, id: Id, now: int): seq<Item> {
    var k := Position(q, id);
    if k < |q| && Stale(ttl, q[k], now) then Vacate(q, Some(k)) else q
  }

  /** No id twice, and never above the ceiling. */
  ghost predicate Tidy(q: seq<Item>) {
    && |q| <= MAX_SEEN
    && forall i, j :: 0 <= i < j < |q| ==> q[i].id != q[j].id
  }

  lemma PositionIs(q: seq<Item>, k: nat)
    requires Tidy(q) && k < |q|
    ensures Position(q, q[k].id) == k
  {
  }

  /** An id is remembered exactly when an entry of it has not expired. */
  lemma HasExactly(ttl: nat, q: seq<Item>, id: Id, now: int)
    requires Tidy(q)
    ensures Has(ttl, q, id, now) <==> exists it :: it in q && it.id == id && !Stale(ttl, it, now)
  {
    forall j | 0 <= j < |q| && q[j].id == id ensures Position(q, id) == j {
      PositionIs(q, j);
    }
  }

  lemma VacateMembers<T>(s: seq<T>, k: nat)
    requires k < |s| && Distinct(s)
    ensures Distinct(Vacate(s, Some(k)))
    ensures forall x :: x in Vacate(s, Some(k)) <==> x in s && x != s[k]
  {
    var v := Vacate(s, Some(k));
    assert forall i :: 0 <= i < |v| ==> v[i] == s[if i < k then i else i + 1];
    forall x | x in s && x != s[k] ensures x in v {
      var j :| 0 <= j < |s| && s[j] == x;
      assert v[if j < k then j else j - 1] == x;
    }
  }

  lemma VacateKeeps(q: seq<Item>, k: Option<nat>)
    requires Tidy(q) && (k.Some? ==> k.value < |q|)
    ensures Tidy(Vacate(q, k))
    ensures forall it :: it in Vacate(q, k) <==> it in q && (k.Some? ==> it != q[k.value])
  {
    if k.Some? {
      VacateMembers(q, k.value);
      var v := Vacate(q, k);
      assert forall i :: 0 <= i < |v| ==> v[i] == q[if i < k.value then i else i + 1];
    }
  }

  /** After `Put`, the queue is tidy and holds `id`, started now. */
  lemma PutHolds(q: seq<Item>, id: Id, now: nat)
    requires Tidy(q)
    ensures
      var p := Put(q, id, now);
      Tidy(p) && Position(p, id) == |p| - 1 && p[|p| - 1] == Item(id, now)
  {
    var v, p := Vacate(q, Slot(q, id)), Put(q, id, now);
    VacateKeeps(q, Slot(q, id));
    forall i | 0 <= i < |v| ensures v[i].id != id {
      assert v[i] in v;
      var j :| 0 <= j < |q| && q[j] == v[i];
      PositionIs(q, j);
    }
    PositionIs(p, |p| - 1);
  }

  lemma PurgeKeeps(ttl: nat, q: seq<Item>, id: Id, now: int)
    requires Tidy(q)
    ensures Tidy(Purge(ttl, q, id, now))
    ensures forall x :: Has(ttl, Purge(ttl, q, id, now), x, now) <==> Has(ttl, q, x, now)
  {
    var k, p := Position(q, id), Purge(ttl, q, id, now);
    if k < |q| && Stale(ttl, q[k], now) {
      VacateKeeps(q, Some(k));
      forall x ensures Has(ttl, p, x, now) <==> Has(ttl, q, x, now) {
        var i, j := Position(q, x), Position(p, x);
        if i < |q| && i != k {
          assert q[i] in q && q[i] != q[k];
          var m :| 0 <= m < |p| && p[m] == q[i];
          PositionIs(p, m);
        }
        if j < |p| {
          assert p[j] in p;
          var m :| 0 <= m < |q| && q[m] == p[j];
          PositionIs(q, m);
        }
      }
    }
  }

  class SeenSet {
    const ttlMs: nat
    var cache: seq<Item>

    ghost predicate Valid()
      reads this
    {
      Tidy(cache)
    }

    constructor (ttlMs: nat)
      ensures Valid() && this.ttlMs == ttlMs && cache == []
    {
      this.ttlMs, cache := ttlMs, [];
    }

    method Add(id: Id, now: nat) returns (added: bool)
      requires Valid()
      modifies this
      ensures Valid() && added == !Has(ttlMs, old(cache), id, now)
      ensures cache == if added then Put(old(cache), id, now) else old(cache)
      ensures Has(ttlMs, cache, id, now)
    {
      if Has(ttlMs, cache, id, now) {
        return false;
      }
      PutHolds(cache, id, now);
      cache := Put(cache, id, now);
      return true;
    }

    method Contains(id: Id, now: nat) returns (yes: bool)
      requires Valid()
      ensures yes == Has(ttlMs, cache, id, now)
      ensures yes <==> exists it :: it in cache && it.id == id && !Stale(ttlMs, it, now)
    {
      yes := Has(ttlMs, cache, id, now);
      HasExactly(ttlMs, cache, id, now);
    }

    method OnPurgeTimer(id: Id, now: nat)
      requires Valid()
      modifies this
      ensures Valid() && cache == Purge(ttlMs, old(cache), id, now)
      ensures forall x :: Has(ttlMs, cache, x, now) <==> Has(ttlMs, old(cache), x, now)
    {
      PurgeKeeps(ttlMs, cache, id, now);
      cache := Purge(ttlMs, cache, id, now);
    }

    method Clear()
      modifies this
      ensures Valid() && cache == []
    {
      cache := [];
    }
  }

  // -- runs ------------------------------------------------------------------

  datatype Op = AddOp(id: Id, now: nat) | PurgeOp(id: Id, now: nat)

  /** An id accepted, and when. */
  datatype Use = Use(id: Id, at: nat)

  /** The queue, every accepted use so far, and which use each queue entry is. */
  datatype Run = Run(q: seq<Item>, uses: seq<Use>, order: seq<nat>)

  function Apply(ttl: nat, r: Run, op: Op): Run
    requires |r.order| == |r.q|
  {
    match op
    case AddOp(id, now) =>
      if Has(ttl, r.q, id, now) then r
      else Run(Put(r.q, id, now), r.uses + [Use(id, now)], Vacate(r.order, Slot(r.q, id)) + [|r.uses|])
    case PurgeOp(id, now) =>
      var k := Position(r.q, id);
      if k < |r.q| && Stale(ttl, r.q[k], now)
      then Run(Purge(ttl, r.q, id, now), r.uses, Vacate(r.order, Some(k)))
      else r
  }

  function After(ttl: nat, ops: seq<Op>): (r: Run)
    ensures |r.order| == |r.q|
  {
    if ops == [] then Run([], [], [])
    else Apply(ttl, After(ttl, ops[..|ops| - 1]), ops[|ops| - 1])
  }

  ghost predicate Monotone(ops: seq<Op>) {
    forall i, j :: 0 <= i < j < |ops| ==> ops[i].now <= ops[j].now
  }

  /** The ids other than `uses[i]`'s accepted after it and before `uses[j]`. */
  function Others(uses: seq<Use>, i: nat, j: nat): set<Id>
    requires i < j <= |uses|
  {
    (set k | i < k < j :: uses[k].id) - {uses[i].id}
  }

  predicate Lapsed(ttl: nat, u: Use, now: int) {
    ttl != 0 && u.at != 0 && now - u.at > ttl
  }

  /** Enough to accept the id of `uses[i]` again at `now`, when `j` uses have been made. */
  predicate Forgotten(ttl: nat, uses: seq<Use>, i: nat, j: nat, now: int)
    requires i < j <= |uses|
  {
    Lapsed(ttl, uses[i], now) || |Others(uses, i, j)| >= 10000
  }

  // -- the invariant ---------------------------------------------------------

  /** Queue entries are uses, oldest first. */
  ghost predicate Queued(r: Run) {
    && Tidy(r.q) && |r.order| == |r.q|
    && (forall k :: 0 <= k < |r.q| ==>
          r.order[k] < |r.uses| && r.q[k] == Item(r.uses[r.order[k]].id, r.uses[r.order[k]].at))
    && (forall k, m :: 0 <= k < m < |r.order| ==> r.order[k] < r.order[m])
  }

  ghost predicate UsedAgain(uses: seq<Use>, i: nat)
    requires i < |uses|
  {
    exists j :: i < j < |uses| && uses[j].id == uses[i].id
  }

  /** Where use `i` went: it is queued, its id was used again, or it may be forgotten. */
  ghost predicate Traced(ttl: nat, r: Run, i: nat, now: int)
    requires i < |r.uses|
  {
    i in r.order || UsedAgain(r.uses, i) || Forgotten(ttl, r.uses, i, |r.uses|, now)
  }

  ghost predicate Spaced(ttl: nat, uses: seq<Use>) {
    forall i, j :: 0 <= i < j < |uses| && uses[i].id == uses[j].id ==> Forgotten(ttl, uses, i, j, uses[j].at)
  }

  ghost predicate Inv(ttl: nat, r: Run, now: int) {
    && Queued(r) && Spaced(ttl, r.uses)
    && (forall i :: 0 <= i < |r.uses| ==> Traced(ttl, r, i, now) && r.uses[i].at <= now)
  }

  lemma {:induction false} SubsetSize<T>(a: set<T>, b: set<T>)
    requires a <= b
    ensures |a| <= |b|
  {
    assert b == a + (b - a);
  }

  lemma OthersGrow(uses: seq<Use>, i: nat, j: nat, k: nat, longer: seq<Use>)
    requires i < j <= k <= |longer| && j <= |uses| && (forall m :: 0 <= m < j ==> uses[m] == longer[m])
    ensures Others(uses, i, j) <= Others(longer, i, k) && |Others(uses, i, j)| <= |Others(longer, i, k)|
  {
    SubsetSize(Others(uses, i, j), Others(longer, i, k));
  }

  function Ids(q: seq<Item>): set<Id> {
    set k | 0 <= k < |q| :: q[k].id
  }

  lemma {:induction false} TidyCount(q: seq<Item>)
    requires Tidy(q)
    ensures |Ids(q)| == |q|
  {
    if q != [] {
      var before, last := q[..|q| - 1], q[|q| - 1].id;
      TidyCount(before);
      assert Ids(q) == Ids(before) + {last};
      assert last !in Ids(before);
    }
  }

  lemma VacateOrder(r: Run, k: Option<nat>)
    requires Queued(r) && (k.Some? ==> k.value < |r.q|)
    ensures Queued(Run(Vacate(r.q, k), r.uses, Vacate(r.order, k)))
    ensures forall i :: i in Vacate(r.order, k) <==> i in r.order && (k.Some? ==> i != r.order[k.value])
  {
    VacateKeeps(r.q, k);
    if k.Some? {
      VacateMembers(r.order, k.value);
    }
  }

  lemma PurgeTraces(ttl: nat, r: Run, id: Id, now: nat, was: int)
    requires Inv(ttl, r, was) && was <= now
    ensures Inv(ttl, Apply(ttl, r, PurgeOp(id, now)), now)
  {
    var k, r' := Position(r.q, id), Apply(ttl, r, PurgeOp(id, now));
    if k < |r.q| && Stale(ttl, r.q[k], now) {
      VacateOrder(r, Some(k));
    }
    forall i | 0 <= i < |r'.uses| ensures Traced(ttl, r', i, now) && r'.uses[i].at <= now {
      assert Traced(ttl, r, i, was);
    }
  }

  lemma QueuedIsOther(r: Run, k: nat, uses: seq<Use>)
    requires Queued(r) && 0 < k < |r.q| && r.uses <= uses
    ensures r.q[k].id in Others(uses, r.order[0], |uses|)
  {
    assert r.order[0] < r.order[k] && uses[r.order[k]].id == r.q[k].id;
  }

  /** The entry a full queue drops has the ceiling's number of other ids used after it. */
  lemma EvictedIsDisplaced(r: Run, id: Id, now: nat)
    requires Queued(r) && Position(r.q, id) == |r.q| == 10000
    ensures |Others(r.uses + [Use(id, now)], r.order[0], |r.uses| + 1)| >= 10000
  {
    var uses, rest := r.uses + [Use(id, now)], r.q[1..];
    var others := Others(uses, r.order[0], |uses|);
    TidyCount(rest);
    forall x | x in Ids(rest) ensures x in others - {id} {
      var k :| 0 <= k < |rest| && rest[k].id == x;
      QueuedIsOther(r, k + 1, uses);
    }
    assert uses[|r.uses|].id == id && r.q[0].id == uses[r.order[0]].id;
    SubsetSize(Ids(rest), others - {id});
  }

  lemma StaysQueued(r: Run, id: Id, k: nat)
    requires Queued(r) && k < |r.order| && Slot(r.q, id) != Some(k)
    ensures r.order[k] in Vacate(r.order, Slot(r.q, id))
  {
    VacateOrder(r, Slot(r.q, id));
  }

  lemma QueuedUseTraces(ttl: nat, r: Run, id: Id, now: nat, k: nat)
    requires Queued(r) && k < |r.order| && !Has(ttl, r.q, id, now)
    ensures Traced(ttl, Apply(ttl, r, AddOp(id, now)), r.order[k], now)
  {
    hide Put, Lapsed;
    var r', i := Apply(ttl, r, AddOp(id, now)), r.order[k];
    if k == Position(r.q, id) {
      assert r'.uses[|r.uses|].id == r'.uses[i].id;
      assert UsedAgain(r'.uses, i);
    } else if Slot(r.q, id) == Some(k) {
      EvictedIsDisplaced(r, id, now);
      assert Forgotten(ttl, r'.uses, i, |r'.uses|, now);
    } else {
      StaysQueued(r, id, k);
      assert i in r'.order;
    }
  }

  lemma AcceptedTraces(ttl: nat, r: Run, id: Id, now: nat, was: int, i: nat)
    requires Queued(r) && was <= now && i < |r.uses| && Traced(ttl, r, i, was) && !Has(ttl, r.q, id, now)
    ensures Traced(ttl, Apply(ttl, r, AddOp(id, now)), i, now)
  {
    hide Put, Vacate, Has;
    var r' := Apply(ttl, r, AddOp(id, now));
    if i in r.order {
      var k :| 0 <= k < |r.order| && r.order[k] == i;
      QueuedUseTraces(ttl, r, id, now, k);
    } else if UsedAgain(r.uses, i) {
      var j :| i < j < |r.uses| && r.uses[j].id == r.uses[i].id;
      assert r'.uses[j].id == r'.uses[i].id;
    } else {
      OthersGrow(r.uses, i, |r.uses|, |r'.uses|, r'.uses);
    }
  }

  /** An id is accepted again only after its earlier uses may have been forgotten. */
  lemma AcceptedSpaces(ttl: nat, r: Run, id: Id, now: nat, was: int, i: nat)
    requires Inv(ttl, r, was) && was <= now && i < |r.uses| && r.uses[i].id == id && !Has(ttl, r.q, id, now)
    ensures Forgotten(ttl, r.uses, i, |r.uses|, now)
  {
    assert Traced(ttl, r, i, was);
    if i in r.order {
      var k :| 0 <= k < |r.order| && r.order[k] == i;
      PositionIs(r.q, k);
    } else if UsedAgain(r.uses, i) {
      var j :| i < j < |r.uses| && r.uses[j].id == r.uses[i].id;
      assert r.uses[j].at <= was;
      OthersGrow(r.uses, i, j, |r.uses|, r.uses);
    }
  }

  lemma ForgottenInLonger(ttl: nat, uses: seq<Use>, i: nat, j: nat, now: int, u: Use)
    requires i < j <= |uses|
    ensures Forgotten(ttl, uses, i, j, now) ==> Forgotten(ttl, uses + [u], i, j, now)
  {
    OthersGrow(uses, i, j, j, uses + [u]);
  }

  lemma AddSpaces(ttl: nat, r: Run, id: Id, now: nat, was: int)
    requires Inv(ttl, r, was) && was <= now && !Has(ttl, r.q, id, now)
    ensures Spaced(ttl, r.uses + [Use(id, now)])
  {
    var uses, n := r.uses + [Use(id, now)], |r.uses|;
    forall i, j | 0 <= i < j < |uses| && uses[i].id == uses[j].id
      ensures Forgotten(ttl, uses, i, j, uses[j].at)
    {
      if j == n {
        AcceptedSpaces(ttl, r, id, now, was, i);
      }
      ForgottenInLonger(ttl, r.uses, i, j, uses[j].at, Use(id, now));
    }
  }

  lemma AddQueued(ttl: nat, r: Run, id: Id, now: nat)
    requires Queued(r) && !Has(ttl, r.q, id, now)
    ensures Queued(Apply(ttl, r, AddOp(id, now)))
  {
    PutHolds(r.q, id, now);
    VacateOrder(r, Slot(r.q, id));
  }

  lemma AddTraces(ttl: nat, r: Run, id: Id, now: nat, was: int)
    requires Inv(ttl, r, was) && was <= now && !Has(ttl, r.q, id, now)
    ensures Inv(ttl, Apply(ttl, r, AddOp(id, now)), now)
  {
    var r', n := Apply(ttl, r, AddOp(id, now)), |r.uses|;
    AddQueued(ttl, r, id, now);
    AddSpaces(ttl, r, id, now, was);
    assert r'.order[|r'.order| - 1] == n;
    forall i | 0 <= i < |r'.uses| ensures Traced(ttl, r', i, now) && r'.uses[i].at <= now {
      if i < n { AcceptedTraces(ttl, r, id, now, was, i); }
    }
  }

  lemma Later(ttl: nat, r: Run, was: int, now: int)
    requires Inv(ttl, r, was) && was <= now
    ensures Inv(ttl, r, now)
  {
    forall i | 0 <= i < |r.uses| ensures Traced(ttl, r, i, now) {
      assert Traced(ttl, r, i, was);
    }
  }

  lemma {:induction false} RunTraces(ttl: nat, ops: seq<Op>, now: nat)
    requires Monotone(ops) && (forall i :: 0 <= i < |ops| ==> ops[i].now <= now)
    ensures Inv(ttl, After(ttl, ops), now)
  {
    if ops != [] {
      var before, op := ops[..|ops| - 1], ops[|ops| - 1];
      RunTraces(ttl, before, op.now);
      match op {
        case AddOp(id, t) =>
          if !Has(ttl, After(ttl, before).q, id, t) { AddTraces(ttl, After(ttl, before), id, t, t); }
        case PurgeOp(id, t) => PurgeTraces(ttl, After(ttl, before), id, t, t);
      }
      Later(ttl, After(ttl, ops), op.now, now);
    }
  }

  lemma {:induction false} UsesInOrder(ttl: nat, ops: seq<Op>, i: nat, j: nat)
    requires Monotone(ops) && i < j < |After(ttl, ops).uses|
    ensures After(ttl, ops).uses[i].at <= After(ttl, ops).uses[j].at
  {
    var before, op := ops[..|ops| - 1], ops[|ops| - 1];
    RunTraces(ttl, before, op.now);
    if j < |After(ttl, before).uses| { UsesInOrder(ttl, before, i, j); }
  }

  // -- what the guard guarantees ---------------------------------------------

  /** Two uses of one id are more than the TTL apart unless 10,000 other ids were used between them. */
  lemma SingleUse(ttl: nat, ops: seq<Op>, i: nat, j: nat)
    requires Monotone(ops)
    requires i < j < |After(ttl, ops).uses| && After(ttl, ops).uses[i].id == After(ttl, ops).uses[j].id
    ensures
      var uses := After(ttl, ops).uses;
      || (ttl != 0 && uses[j].at - uses[i].at > ttl)
      || |Others(uses, i, j)| >= 10000
  {
    var now := if ops == [] then 0 else ops[|ops| - 1].now;
    RunTraces(ttl, ops, now);
  }

  // -- when the guard accepts ------------------------------------------------

  /** A clock that does not run backwards and, as a clock of this century, never reads 0. */
  ghost predicate Dated(ops: seq<Op>) {
    Monotone(ops) && forall i :: 0 <= i < |ops| ==> ops[i].now > 0
  }

  ghost predicate UsesDated(uses: seq<Use>) {
    && (forall i :: 0 <= i < |uses| ==> uses[i].at > 0)
    && (forall i, j :: 0 <= i < j < |uses| ==> uses[i].at <= uses[j].at)
  }

  lemma {:induction false} RunDated(ttl: nat, ops: seq<Op>)
    requires Dated(ops)
    ensures UsesDated(After(ttl, ops).uses)
  {
    hide Inv;
    if ops != [] {
      var before, op := ops[..|ops| - 1], ops[|ops| - 1];
      RunDated(ttl, before);
      RunTraces(ttl, before, op.now);
    }
  }

  predicate HeldBehind(q: seq<Item>, k: nat, id: Id) {
    exists m :: k < m < |q| && q[m].id == id
  }

  /** The ids used after the `k`-th entry's are all queued behind it, until the entry lapses. */
  ghost predicate FollowedAt(ttl: nat, r: Run, k: nat, now: int)
    requires k < |r.order| && r.order[k] < |r.uses|
  {
    Lapsed(ttl, r.uses[r.order[k]], now) ||
    forall j :: r.order[k] < j < |r.uses| ==> HeldBehind(r.q, k, r.uses[j].id)
  }

  ghost predicate Followed(ttl: nat, r: Run, now: int)
    requires Queued(r)
  {
    forall k :: 0 <= k < |r.order| ==> FollowedAt(ttl, r, k, now)
  }

  lemma BehindAfterVacate(q: seq<Item>, p: nat, k: nat, m: nat)
    requires p < |q| && k < m < |q| && k != p && m != p
    ensures
      var v, k' := Vacate(q, Some(p)), if k < p then k else k - 1;
      v[k'] == q[k] && HeldBehind(v, k', q[m].id)
  {
    var v := Vacate(q, Some(p));
    assert v[if m < p then m else m - 1] == q[m];
  }

  /** When an expired entry goes: an older one has expired too, and a younger one loses nothing behind it. */
  lemma PurgeFollowsAt(ttl: nat, r: Run, p: nat, now: int, was: int, k: nat)
    requires Queued(r) && UsesDated(r.uses) && was <= now && p < |r.q| && Stale(ttl, r.q[p], now)
    requires k < |r.order| && k != p && FollowedAt(ttl, r, k, was)
    ensures
      var k', r' := if k < p then k else k - 1, Run(Vacate(r.q, Some(p)), r.uses, Vacate(r.order, Some(p)));
      k' < |r'.order| && r'.order[k'] == r.order[k] && FollowedAt(ttl, r', k', now)
  {
    var k', v := if k < p then k else k - 1, Vacate(r.q, Some(p));
    if !Lapsed(ttl, r.uses[r.order[k]], now) {
      forall j | r.order[k] < j < |r.uses| ensures HeldBehind(v, k', r.uses[j].id) {
        assert HeldBehind(r.q, k, r.uses[j].id);
        var m :| k < m < |r.q| && r.q[m].id == r.uses[j].id;
        BehindAfterVacate(r.q, p, k, m);
      }
    }
  }

  lemma FollowedLater(ttl: nat, r: Run, was: int, now: int)
    requires Queued(r) && Followed(ttl, r, was) && was <= now
    ensures Followed(ttl, r, now)
  {
    forall k | 0 <= k < |r.order| ensures FollowedAt(ttl, r, k, now) { assert FollowedAt(ttl, r, k, was); }
  }

  lemma PurgeFollowsEach(ttl: nat, r: Run, r': Run, p: nat, now: int, was: int, k': nat)
    requires Queued(r) && UsesDated(r.uses) && Followed(ttl, r, was) && was <= now
    requires p < |r.q| && Stale(ttl, r.q[p], now) && Queued(r')
    requires r' == Run(Vacate(r.q, Some(p)), r.uses, Vacate(r.order, Some(p))) && k' < |r'.order|
    ensures FollowedAt(ttl, r', k', now)
  {
    hide FollowedAt, Stale;
    var k := if k' < p then k' else k' + 1;
    assert FollowedAt(ttl, r, k, was);
    PurgeFollowsAt(ttl, r, p, now, was, k);
  }

  lemma PurgeFollows(ttl: nat, r: Run, id: Id, now: nat, was: int)
    requires Queued(r) && UsesDated(r.uses) && Followed(ttl, r, was) && was <= now
    requires Position(r.q, id) < |r.q| && Stale(ttl, r.q[Position(r.q, id)], now)
    ensures Queued(Apply(ttl, r, PurgeOp(id, now))) && Followed(ttl, Apply(ttl, r, PurgeOp(id, now)), now)
  {
    hide FollowedAt, Stale, Vacate;
    var p, r' := Position(r.q, id), Apply(ttl, r, PurgeOp(id, now));
    VacateOrder(r, Some(p));
    forall k' | 0 <= k' < |r'.order| ensures FollowedAt(ttl, r', k', now) {
      PurgeFollowsEach(ttl, r, r', p, now, was, k');
    }
  }

  /** Where the `k`-th entry is once `slot` is vacated. */
  function Shifted(slot: Option<nat>, k: nat): (k': nat)
    requires slot != Some(k)
  {
    if slot.Some? && slot.value < k then k - 1 else k
  }

  lemma ShiftedStays(q: seq<Item>, id: Id, now: nat, k: nat)
    requires k < |q| && Slot(q, id) != Some(k)
    ensures
      var p, k' := Put(q, id, now), Shifted(Slot(q, id), k);
      k' < |p| - 1 && p[k'] == q[k] && p[|p| - 1] == Item(id, now)
  {
  }

  lemma ShiftedInOrder(slot: Option<nat>, k: nat, m: nat)
    requires k < m && slot != Some(k) && slot != Some(m)
    ensures Shifted(slot, k) < Shifted(slot, m)
  {
  }

  lemma BehindAfterPut(q: seq<Item>, id: Id, now: nat, k: nat, x: Id)
    requires k < |q| && Slot(q, id) != Some(k)
    requires x == id || HeldBehind(q, k, x)
    ensures HeldBehind(Put(q, id, now), Shifted(Slot(q, id), k), x)
  {
    hide Put, Shifted;
    var slot, p := Slot(q, id), Put(q, id, now);
    if x == id {
      ShiftedStays(q, id, now, k);
      assert p[|p| - 1].id == x;
    } else {
      var m :| k < m < |q| && q[m].id == x;
      ShiftedStays(q, id, now, m);
      ShiftedInOrder(slot, k, m);
      assert p[Shifted(slot, m)].id == x;
    }
  }

  lemma VacateShifts(order: seq<nat>, slot: Option<nat>, p: nat, k: nat)
    requires k < |order| && slot != Some(k) && (slot.Some? ==> slot.value < |order|)
    ensures
      var k', order' := Shifted(slot, k), Vacate(order, slot) + [p];
      k' < |order'| - 1 && order'[k'] == order[k]
  {
  }

  /** A new use goes to the end; what it displaces is its own id's entry, or the oldest. */
  lemma AddFollowsAt(ttl: nat, r: Run, id: Id, now: nat, was: int, k: nat)
    requires Queued(r) && was <= now && k < |r.order| && FollowedAt(ttl, r, k, was) && Slot(r.q, id) != Some(k)
    ensures
      var r' := Run(Put(r.q, id, now), r.uses + [Use(id, now)], Vacate(r.order, Slot(r.q, id)) + [|r.uses|]);
      var k' := Shifted(Slot(r.q, id), k);
      k' < |r'.order| && r'.order[k'] == r.order[k] && FollowedAt(ttl, r', k', now)
  {
    var uses, k' := r.uses + [Use(id, now)], Shifted(Slot(r.q, id), k);
    VacateShifts(r.order, Slot(r.q, id), |r.uses|, k);
    assert uses[r.order[k]] == r.uses[r.order[k]];
    if !Lapsed(ttl, r.uses[r.order[k]], now) {
      forall j | r.order[k] < j < |uses| ensures HeldBehind(Put(r.q, id, now), k', uses[j].id) {
        if j < |r.uses| { assert HeldBehind(r.q, k, r.uses[j].id); }
        BehindAfterPut(r.q, id, now, k, uses[j].id);
      }
    }
  }

  lemma NewestFollows(ttl: nat, r: Run, now: int)
    requires r.order != [] && r.order[|r.order| - 1] == |r.uses| - 1
    ensures FollowedAt(ttl, r, |r.order| - 1, now)
  {
  }

  /** Where entry `k'` was before `slot` was vacated. */
  function Unshifted(slot: Option<nat>, k': nat): (k: nat)
    ensures slot != Some(k) && Shifted(slot, k) == k'
  {
    if slot.Some? && slot.value <= k' then k' + 1 else k'
  }

  lemma VacateLength<T>(s: seq<T>, slot: Option<nat>)
    requires slot.Some? ==> slot.value < |s|
    ensures |Vacate(s, slot)| == |s| - (if slot.Some? then 1 else 0)
  {
  }

  lemma AddFollowsEach(ttl: nat, r: Run, r': Run, id: Id, now: nat, was: int, k': nat)
    requires Queued(r) && Followed(ttl, r, was) && was <= now && Queued(r')
    requires r'.q == Put(r.q, id, now) && r'.uses == r.uses + [Use(id, now)]
    requires r'.order == Vacate(r.order, Slot(r.q, id)) + [|r.uses|]
    requires k' < |r'.order|
    ensures FollowedAt(ttl, r', k', now)
  {
    hide FollowedAt, Put, Vacate;
    VacateLength<int>(r.order, Slot(r.q, id));
    if k' < |r'.order| - 1 {
      var k := Unshifted(Slot(r.q, id), k');
      assert FollowedAt(ttl, r, k, was);
      AddFollowsAt(ttl, r, id, now, was, k);
    } else {
      NewestFollows(ttl, r', now);
    }
  }

  lemma AddFollows(ttl: nat, r: Run, id: Id, now: nat, was: int)
    requires Queued(r) && Followed(ttl, r, was) && was <= now && !Has(ttl, r.q, id, now)
    ensures Queued(Apply(ttl, r, AddOp(id, now))) && Followed(ttl, Apply(ttl, r, AddOp(id, now)), now)
  {
    hide FollowedAt, Has, Put, Vacate, Slot;
    var r' := Apply(ttl, r, AddOp(id, now));
    AddQueued(ttl, r, id, now);
    forall k' | 0 <= k' < |r'.order| ensures FollowedAt(ttl, r', k', now) {
      AddFollowsEach(ttl, r, r', id, now, was, k');
    }
  }

  lemma {:induction false} RunFollows(ttl: nat, ops: seq<Op>, now: nat)
    requires Dated(ops) && (forall i :: 0 <= i < |ops| ==> ops[i].now <= now)
    ensures Queued(After(ttl, ops)) && Followed(ttl, After(ttl, ops), now)
  {
    if ops != [] {
      var before, op := ops[..|ops| - 1], ops[|ops| - 1];
      var r := After(ttl, before);
      RunFollows(ttl, before, op.now);
      RunDated(ttl, before);
      match op {
        case AddOp(id, t) => if !Has(ttl, r.q, id, t) { AddFollows(ttl, r, id, t, t); }
        case PurgeOp(id, t) =>
          if Position(r.q, id) < |r.q| && Stale(ttl, r.q[Position(r.q, id)], t) { PurgeFollows(ttl, r, id, t, t); }
      }
      FollowedLater(ttl, After(ttl, ops), op.now, now);
    }
  }

  /** A queued use that has not lapsed has fewer than the ceiling of other ids after it. */
  lemma QueuedIsRemembered(ttl: nat, r: Run, k: nat, now: int)
    requires Queued(r) && k < |r.order| && FollowedAt(ttl, r, k, now) && !Lapsed(ttl, r.uses[r.order[k]], now)
    ensures !Forgotten(ttl, r.uses, r.order[k], |r.uses|, now)
  {
    var behind := r.q[k + 1..];
    TidyCount(behind);
    forall x | x in Others(r.uses, r.order[k], |r.uses|) ensures x in Ids(behind) {
      var j :| r.order[k] < j < |r.uses| && r.uses[j].id == x;
      assert HeldBehind(r.q, k, r.uses[j].id);
      var m :| k < m < |r.q| && r.q[m].id == x;
      assert behind[m - k - 1].id == x;
    }
    SubsetSize(Others(r.uses, r.order[k], |r.uses|), Ids(behind));
  }

  /**
   * However many ids the guard has seen: an id is accepted exactly when each earlier use
   * of it has lapsed or has had 10,000 other ids used after it.
   */
  lemma AcceptedExactly(ttl: nat, ops: seq<Op>, id: Id, now: nat)
    requires Dated(ops) && (forall i :: 0 <= i < |ops| ==> ops[i].now <= now)
    ensures
      var r := After(ttl, ops);
      !Has(ttl, r.q, id, now) <==>
        forall i :: 0 <= i < |r.uses| && r.uses[i].id == id ==> Forgotten(ttl, r.uses, i, |r.uses|, now)
  {
    var r := After(ttl, ops);
    RunTraces(ttl, ops, now);
    RunFollows(ttl, ops, now);
    if Has(ttl, r.q, id, now) {
      var k := Position(r.q, id);
      assert FollowedAt(ttl, r, k, now);
      QueuedIsRemembered(ttl, r, k, now);
      assert r.uses[r.order[k]].id == id;
    } else {
      forall i | 0 <= i < |r.uses| && r.uses[i].id == id ensures Forgotten(ttl, r.uses, i, |r.uses|, now) {
        AcceptedSpaces(ttl, r, id, now, now, i);
      }
    }
  }

  lemma {:induction false} UsesGrow(ttl: nat, ops: seq<Op>, more: seq<Op>)
    ensures After(ttl, ops).uses <= After(ttl, ops + more).uses
    decreases |more|
  {
    if more == [] {
      assert ops + more == ops;
    } else {
      assert (ops + more)[..|ops + more| - 1] == ops + more[..|more| - 1];
      UsesGrow(ttl, ops, more[..|more| - 1]);
    }
  }

  lemma UseStays(ttl: nat, ops: seq<Op>, id: Id, first: nat, more: seq<Op>)
    requires !Has(ttl, After(ttl, ops).q, id, first)
    ensures
      var p, uses := |After(ttl, ops).uses|, After(ttl, ops + [AddOp(id, first)] + more).uses;
      p < |uses| && uses[p] == Use(id, first)
  {
    assert (ops + [AddOp(id, first)])[..|ops|] == ops;
    UsesGrow(ttl, ops + [AddOp(id, first)], more);
  }

  /** What was forgotten before a later use of its id is still forgotten when that use is. */
  lemma EarlierForgotten(ttl: nat, uses: seq<Use>, i: nat, p: nat, now: int)
    requires i < p < |uses| && uses[i].id == uses[p].id && uses[p].at <= now
    requires Forgotten(ttl, uses, i, p, uses[p].at)
    ensures Forgotten(ttl, uses, i, |uses|, now)
  {
    OthersGrow(uses, i, p, |uses|, uses);
  }

  /**
   * After a use of `id`, whatever else happens: `id` is accepted again exactly when every
   * use of it from that one on has lapsed or has had 10,000 other ids used after it.
   */
  lemma AcceptedAgainExactly(ttl: nat, ops: seq<Op>, id: Id, first: nat, more: seq<Op>, again: nat)
    requires !Has(ttl, After(ttl, ops).q, id, first)
    requires
      var all := ops + [AddOp(id, first)] + more;
      Dated(all) && forall i :: 0 <= i < |all| ==> all[i].now <= again
    ensures
      var p, r := |After(ttl, ops).uses|, After(ttl, ops + [AddOp(id, first)] + more);
      && p < |r.uses| && r.uses[p] == Use(id, first)
      && (!Has(ttl, r.q, id, again) <==>
            forall i :: p <= i < |r.uses| && r.uses[i].id == id ==> Forgotten(ttl, r.uses, i, |r.uses|, again))
  {
    var all := ops + [AddOp(id, first)] + more;
    var p, r := |After(ttl, ops).uses|, After(ttl, all);
    UseStays(ttl, ops, id, first, more);
    AcceptedExactly(ttl, all, id, again);
    RunTraces(ttl, all, again);
    forall i | 0 <= i < p && r.uses[i].id == id ensures Forgotten(ttl, r.uses, i, |r.uses|, again) {
      EarlierForgotten(ttl, r.uses, i, p, again);
    }
  }
}
