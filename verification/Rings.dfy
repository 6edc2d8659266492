/**
 * The ring buffers of the metrics: N counters, the index of the current one,
 * and the epoch (second or hour) it stands for. Rings advance lazily; the
 * reference meaning is a log of the times at which requests were recorded.
 */
module Rings {
  import opened Prelude

  datatype Ring = Ring(cells: seq<nat>, index: nat, epoch: nat)

  ghost predicate Ok(r: Ring) {
    r.index < |r.cells|
  }

  function NewRing(n: nat, epoch: nat): Ring {
    Ring(seq(n, _ => 0), 0, epoch)
  }

  /** How many steps cell `j` lies ahead of cell `index`: 1..n, n for the cell itself. */
  function Ahead(n: nat, index: nat, j: nat): (d: int)
    requires index < n && j < n
    ensures 1 <= d <= n
  {
    if j > index then j - index else j - index + n
  }

  /** Advance to `now`: zero the cells the index passes (all of them after a full turn), move the index. */
  function Advance(r: Ring, now: nat): (r': Ring)
    requires Ok(r)
    ensures Ok(r') && |r'.cells| == |r.cells|
  {
    if now <= r.epoch then r
    else
      var n, elapsed := |r.cells|, now - r.epoch;
      Ring(seq(n, j requires 0 <= j < n => if Ahead(n, r.index, j) <= elapsed then 0 else r.cells[j]),
           (r.index + elapsed) % n,
           now)
  }

  /** One more event in the current cell: the buckets are 32 bits wide. */
  function Bump(r: Ring): (r': Ring)
    requires Ok(r)
    ensures Ok(r') && |r'.cells| == |r.cells|
  {
    r.(cells := r.cells[r.index := (r.cells[r.index] + 1) % TWO_TO_THE_32])
  }

  // -- the age view ----------------------------------------------------------

  /** The cell `k` places behind the index. */
  function Back(n: nat, index: nat, k: nat): (j: nat)
    requires index < n && k < n
    ensures j < n
  {
    if k <= index then index - k else index + n - k
  }

  function At(r: Ring, k: nat): nat
    requires Ok(r) && k < |r.cells|
  {
    r.cells[Back(|r.cells|, r.index, k)]
  }

  lemma MulAtLeast(a: int, n: nat)
    requires a >= 1
    ensures a * n >= n
  {
    assert a * n == (a - 1) * n + n;
  }

  lemma ModUnique(x: nat, n: nat, q: nat, m: nat)
    requires 0 < n && x == q * n + m && m < n
    ensures x % n == m
  {
    var d := q - x / n;
    assert x == (x / n) * n + x % n;
    assert d * n == q * n - (x / n) * n;
    assert (-d) * n == -(d * n);
    if d >= 1 { MulAtLeast(d, n); }
    if d <= -1 { MulAtLeast(-d, n); }
  }

  lemma ModPlus(x: nat, n: nat)
    requires 0 < n
    ensures (x + n) % n == x % n
  {
    var q, m := x / n, x % n;
    assert x + n == (q + 1) * n + m;
    ModUnique(x + n, n, q + 1, m);
  }

  lemma ModOnce(x: nat, n: nat)
    requires 0 < n && x < 2 * n
    ensures x % n == if x < n then x else x - n
  {
    if x >= n {
      assert x == n + (x - n);
      ModPlus(x - n, n);
    }
  }

  lemma ModTwice(a: nat, b: nat, n: nat)
    requires 0 < n
    ensures (a % n + b) % n == (a + b) % n
  {
    var q, s := a / n, a % n + b;
    assert a + b == q * n + s;
    var q', m := s / n, s % n;
    assert a + b == (q + q') * n + m;
    ModUnique(a + b, n, q + q', m);
  }

  /** Advancing by `e` shifts every age by `e`; the youngest `e` ages are empty. */
  lemma AdvanceShiftsAges(r: Ring, now: nat, k: nat)
    requires Ok(r) && k < |r.cells| && now > r.epoch
    ensures At(Advance(r, now), k) == if k < now - r.epoch then 0 else At(r, k - (now - r.epoch))
  {
    var n, e := |r.cells|, now - r.epoch;
    if e < n {
      ModOnce(r.index + e, n);
    }
  }

  /** Advancing in two hops is advancing at once: array, index and epoch, across any number of turns. */
  lemma AdvanceComposes(r: Ring, t1: nat, t2: nat)
    requires Ok(r)
    ensures Advance(Advance(r, t1), t2) == Advance(r, Max(t1, t2))
  {
    if r.epoch < t1 < t2 {
      var n, e1 := |r.cells|, t1 - r.epoch;
      var a, b := Advance(Advance(r, t1), t2), Advance(r, t2);
      ModTwice(r.index + e1, t2 - t1, n);
      if e1 < n {
        ModOnce(r.index + e1, n);
      }
      assert a.cells == b.cells;
    }
  }

  // -- refinement of a log ---------------------------------------------------

  /** How many entries of the log carry time `t`. */
  function CountAt(log: seq<nat>, t: int): nat {
    if log == [] then 0
    else CountAt(log[..|log| - 1], t) + (if log[|log| - 1] == t then 1 else 0)
  }

  /** How many entries lie in (after, upto]. */
  function CountIn(log: seq<nat>, after: int, upto: int): nat {
    if log == [] then 0
    else CountIn(log[..|log| - 1], after, upto) + (if after < log[|log| - 1] <= upto then 1 else 0)
  }

  ghost predicate NotAfter(log: seq<nat>, t: int) {
    forall i :: 0 <= i < |log| ==> log[i] <= t
  }

  /** The cell of age k holds the number of entries k before the epoch, in 32 bits. */
  ghost predicate Refines(r: Ring, log: seq<nat>) {
    && Ok(r)
    && NotAfter(log, r.epoch)
    && (forall k :: 0 <= k < |r.cells| ==> At(r, k) == CountAt(log, r.epoch - k) % TWO_TO_THE_32)
  }

  lemma {:induction false} NothingLater(log: seq<nat>, bound: int, t: int)
    requires NotAfter(log, bound) && t > bound
    ensures CountAt(log, t) == 0
  {
    if log != [] {
      NothingLater(log[..|log| - 1], bound, t);
    }
  }

  lemma NewRefines(n: nat, epoch: nat)
    requires 0 < n
    ensures Refines(NewRing(n, epoch), [])
  {
  }

  lemma AdvanceRefines(r: Ring, log: seq<nat>, now: nat)
    requires Refines(r, log)
    ensures Refines(Advance(r, now), log)
  {
    if now > r.epoch {
      var r' := Advance(r, now);
      forall k | 0 <= k < |r'.cells| ensures At(r', k) == CountAt(log, r'.epoch - k) % TWO_TO_THE_32 {
        AdvanceShiftsAges(r, now, k);
        if k < now - r.epoch {
          NothingLater(log, r.epoch, now - k);
        } else {
          assert At(r, k - (now - r.epoch)) == CountAt(log, r.epoch - (k - (now - r.epoch))) % TWO_TO_THE_32;
        }
      }
    }
  }

  lemma BumpRefines(r: Ring, log: seq<nat>)
    requires Refines(r, log)
    ensures Refines(Bump(r), log + [r.epoch])
  {
    var r', log' := Bump(r), log + [r.epoch];
    assert log'[..|log|] == log;
    forall k | 0 <= k < |r'.cells| ensures At(r', k) == CountAt(log', r'.epoch - k) % TWO_TO_THE_32 {
      assert At(r, k) == CountAt(log, r.epoch - k) % TWO_TO_THE_32;
      assert k == 0 <==> Back(|r.cells|, r.index, k) == r.index;
      if k == 0 {
        ModTwice(CountAt(log, r.epoch), 1, TWO_TO_THE_32);
      }
    }
  }

  // -- sums ------------------------------------------------------------------

  function Sum(s: seq<nat>): nat {
    if s == [] then 0 else Sum(s[..|s| - 1]) + s[|s| - 1]
  }

  lemma {:induction false} SumAppend(a: seq<nat>, b: seq<nat>)
    ensures Sum(a + b) == Sum(a) + Sum(b)
  {
    if b == [] {
      assert a + b == a;
    } else {
      assert (a + b)[..|a + b| - 1] == a + b[..|b| - 1];
      SumAppend(a, b[..|b| - 1]);
    }
  }

  /** The sum of the `m` youngest ages. */
  function SumAges(r: Ring, m: nat): nat
    requires Ok(r) && m <= |r.cells|
  {
    if m == 0 then 0 else SumAges(r, m - 1) + At(r, m - 1)
  }

  lemma SumNone()
    ensures Sum([]) == 0
  {
  }

  lemma SumOne(x: nat)
    ensures Sum([x]) == x
  {
    assert [x][..0] == [];
  }

  lemma {:induction false} SumAgesUpToIndex(r: Ring, m: nat)
    requires Ok(r) && m <= r.index + 1
    ensures SumAges(r, m) == Sum(r.cells[r.index + 1 - m..r.index + 1])
  {
    if m == 0 {
      assert r.cells[r.index + 1..r.index + 1] == [];
    } else {
      SumAgesUpToIndex(r, m - 1);
      var i := r.index + 1 - m;
      assert r.cells[i..r.index + 1] == [r.cells[i]] + r.cells[i + 1..r.index + 1];
      SumAppend([r.cells[i]], r.cells[i + 1..r.index + 1]);
      SumOne(r.cells[i]);
    }
  }

  lemma {:induction false} SumAgesPastIndex(r: Ring, m: nat)
    requires Ok(r) && r.index + 1 <= m <= |r.cells|
    ensures SumAges(r, m) == Sum(r.cells[..r.index + 1]) + Sum(r.cells[|r.cells| - (m - r.index - 1)..])
  {
    hide Sum;
    var n := |r.cells|;
    if m == r.index + 1 {
      SumAgesUpToIndex(r, m);
      assert r.cells[0..r.index + 1] == r.cells[..r.index + 1] && r.cells[n..] == [];
      SumNone();
    } else {
      SumAgesPastIndex(r, m - 1);
      var i := n - (m - r.index - 1);
      assert At(r, m - 1) == r.cells[i];
      assert r.cells[i..] == [r.cells[i]] + r.cells[i + 1..];
      SumAppend([r.cells[i]], r.cells[i + 1..]);
      SumOne(r.cells[i]);
    }
  }

  /** Summing the array is summing all ages. */
  lemma SumIsSumOfAges(r: Ring)
    requires Ok(r)
    ensures Sum(r.cells) == SumAges(r, |r.cells|)
  {
    SumAgesPastIndex(r, |r.cells|);
    assert r.cells == r.cells[..r.index + 1] + r.cells[r.index + 1..];
    SumAppend(r.cells[..r.index + 1], r.cells[r.index + 1..]);
  }

  lemma {:induction false} CountAtBound(log: seq<nat>, t: int)
    ensures CountAt(log, t) <= |log|
  {
    if log != [] { CountAtBound(log[..|log| - 1], t); }
  }

  lemma {:induction false} CountInSplits(log: seq<nat>, after: int, upto: int)
    requires after < upto
    ensures CountIn(log, after, upto) == CountIn(log, after + 1, upto) + CountAt(log, after + 1)
  {
    if log != [] { CountInSplits(log[..|log| - 1], after, upto); }
  }

  lemma {:induction false} CountInEmpty(log: seq<nat>, t: int)
    ensures CountIn(log, t, t) == 0
  {
    if log != [] { CountInEmpty(log[..|log| - 1], t); }
  }

  lemma {:induction false} SumAgesCounts(r: Ring, log: seq<nat>, m: nat)
    requires Refines(r, log) && m <= |r.cells| && |log| < TWO_TO_THE_32
    ensures SumAges(r, m) == CountIn(log, r.epoch - m, r.epoch)
  {
    if m == 0 {
      CountInEmpty(log, r.epoch);
    } else {
      SumAgesCounts(r, log, m - 1);
      CountInSplits(log, r.epoch - m, r.epoch);
      CountAtBound(log, r.epoch - (m - 1));
      assert At(r, m - 1) == CountAt(log, r.epoch - (m - 1)) % TWO_TO_THE_32;
    }
  }

  /** The sum of a ring is the exact number of entries in its window. */
  lemma SumCountsWindow(r: Ring, log: seq<nat>, n: nat)
    requires Refines(r, log) && |r.cells| == n && |log| < TWO_TO_THE_32
    ensures Sum(r.cells) == CountIn(log, r.epoch - n, r.epoch)
  {
    SumIsSumOfAges(r);
    SumAgesCounts(r, log, n);
  }

  /** The current cell is the exact number of entries at the epoch. */
  lemma CurrentCountsEpoch(r: Ring, log: seq<nat>)
    requires Refines(r, log) && |log| < TWO_TO_THE_32
    ensures r.cells[r.index] == CountAt(log, r.epoch)
  {
    CountAtBound(log, r.epoch);
    assert At(r, 0) == CountAt(log, r.epoch - 0) % TWO_TO_THE_32;
  }

  lemma {:induction false} CountInBound(log: seq<nat>, after: int, upto: int)
    ensures CountIn(log, after, upto) <= |log|
  {
    if log != [] { CountInBound(log[..|log| - 1], after, upto); }
  }

  lemma {:induction false} MemberAtMostSum(s: seq<nat>, i: nat)
    requires i < |s|
    ensures s[i] <= Sum(s)
  {
    if i < |s| - 1 { MemberAtMostSum(s[..|s| - 1], i); }
  }
}
