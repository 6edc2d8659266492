/** MetricsCollector as the object it is: arrays advanced in place, one entry object per client. */
module MetricsObject {
  import opened Prelude
  import opened Rings
  import opened Metrics

  lemma AheadOfStep(n: nat, index: nat, i: nat)
    requires index < n && 1 <= i <= n
    ensures (index + i) % n < n && Ahead(n, index, (index + i) % n) == i
  {
    if i < n {
      ModOnce(index + i, n);
    } else {
      ModPlus(index, n);
      ModOnce(index, n);
    }
  }

  lemma OnlyOneStepAhead(n: nat, index: nat, j: nat, i: nat)
    requires index < n && j < n && 1 <= i <= n && Ahead(n, index, j) == i
    ensures (index + i) % n == j
  {
    ModOnce(index + i, n);
  }

  /** The zeroing loop of both advance functions. */
  method ZeroAhead(buckets: array<nat>, index: nat, elapsed: nat)
    requires index < buckets.Length
    modifies buckets
    ensures forall j :: 0 <= j < buckets.Length ==>
              buckets[j] == if Ahead(buckets.Length, index, j) <= elapsed then 0 else old(buckets[j])
  {
    var n := buckets.Length;
    var toZero := Min(elapsed, n);
    var i := 1;
    while i <= toZero
      invariant 1 <= i <= toZero + 1
      invariant forall j :: 0 <= j < n ==>
                  buckets[j] == if Ahead(n, index, j) < i then 0 else old(buckets[j])
    {
      AheadOfStep(n, index, i);
      var idx := (index + i) % n;
      forall j | 0 <= j < n && Ahead(n, index, j) == i ensures j == idx {
        OnlyOneStepAhead(n, index, j, i);
      }
      buckets[idx] := 0;
      i := i + 1;
    }
  }

  method SumUint32Array(arr: array<nat>) returns (sum: nat)
    ensures sum == Sum(arr[..])
  {
    sum := 0;
    var i := 0;
    while i < arr.Length
      invariant 0 <= i <= arr.Length && sum == Sum(arr[..i])
    {
      assert arr[..i + 1][..i] == arr[..i];
      sum := sum + arr[i];
      i := i + 1;
    }
    assert arr[..arr.Length] == arr[..];
  }

  class ClientMetricsEntry {
    const uuid: Uuid
    const connectedAt: nat
    const secondBuckets: array<nat>
    var secondIndex: nat
    var secondEpoch: nat
    const hourBuckets: array<nat>
    var hourIndex: nat
    var hourEpoch: nat
    var totalRequests: nat
    var peakReqPerSec: nat
    var peakReqPerHour: nat
    var peakReqPerDay: nat

    ghost predicate Valid()
      reads this
    {
      && secondBuckets.Length == SECONDS_PER_HOUR && hourBuckets.Length == HOURS_PER_DAY
      && secondIndex < SECONDS_PER_HOUR && hourIndex < HOURS_PER_DAY
    }

    ghost function State(): (e: Entry)
      requires Valid()
      reads this, secondBuckets, hourBuckets
      ensures EntryOk(e)
    {
      Entry(Ring(secondBuckets[..], secondIndex, secondEpoch), Ring(hourBuckets[..], hourIndex, hourEpoch),
            totalRequests, peakReqPerSec, peakReqPerHour, peakReqPerDay)
    }

    constructor (uuid: Uuid, nowMs: nat)
      ensures Valid() && State() == NewEntry(nowMs / 1000)
      ensures fresh(secondBuckets) && fresh(hourBuckets)
      ensures this.uuid == uuid && connectedAt == nowMs
    {
      this.uuid, connectedAt := uuid, nowMs;
      secondBuckets := new nat[SECONDS_PER_HOUR](_ => 0);
      hourBuckets := new nat[HOURS_PER_DAY](_ => 0);
      secondIndex, secondEpoch, hourIndex, hourEpoch := 0, nowMs / 1000, 0, nowMs / 1000 / 3600;
      totalRequests, peakReqPerSec, peakReqPerHour, peakReqPerDay := 0, 0, 0, 0;
    }

    method AdvanceSecondBuckets(nowSec: nat)
      requires Valid()
      modifies this`secondIndex, this`secondEpoch, secondBuckets
      ensures Valid() && State() == old(State()).(seconds := Advance(old(State()).seconds, nowSec))
    {
      var elapsed := nowSec - secondEpoch;
      if elapsed <= 0 {
        return;
      }
      ZeroAhead(secondBuckets, secondIndex, elapsed);
      secondIndex := (secondIndex + elapsed) % SECONDS_PER_HOUR;
      secondEpoch := nowSec;
      assert secondBuckets[..] == Advance(old(State()).seconds, nowSec).cells;
      assert hourBuckets[..] == old(hourBuckets[..]);
    }

    method AdvanceHourBuckets(nowHour: nat)
      requires Valid()
      modifies this`hourIndex, this`hourEpoch, hourBuckets
      ensures Valid() && State() == old(State()).(hours := Advance(old(State()).hours, nowHour))
    {
      var elapsed := nowHour - hourEpoch;
      if elapsed <= 0 {
        return;
      }
      ZeroAhead(hourBuckets, hourIndex, elapsed);
      hourIndex := (hourIndex + elapsed) % HOURS_PER_DAY;
      hourEpoch := nowHour;
      assert hourBuckets[..] == Advance(old(State()).hours, nowHour).cells;
      assert secondBuckets[..] == old(secondBuckets[..]);
    }

    /** The body of `record` for a known client. */
    method Record(nowSec: nat)
      requires Valid()
      modifies this, secondBuckets, hourBuckets
      ensures Valid() && State() == Metrics.Record(old(State()), nowSec)
    {
      AdvanceSecondBuckets(nowSec);
      AdvanceHourBuckets(nowSec / 3600);
      label advanced:
      secondBuckets[secondIndex] := (secondBuckets[secondIndex] + 1) % TWO_TO_THE_32;
      hourBuckets[hourIndex] := (hourBuckets[hourIndex] + 1) % TWO_TO_THE_32;
      totalRequests := totalRequests + 1;
      assert secondBuckets[..] == Bump(old@advanced(State()).seconds).cells;
      assert hourBuckets[..] == Bump(old@advanced(State()).hours).cells;
    }

    /** The body of the snapshot loop: advance, read the three figures, raise the peaks. */
    method Observe(nowSec: nat) returns (reqPerSec: nat, reqPerHour: nat, reqPerDay: nat)
      requires Valid()
      modifies this, secondBuckets, hourBuckets
      ensures Valid() && State() == Metrics.Observe(old(State()), nowSec)
      ensures reqPerSec == ReqPerSec(State()) && reqPerHour == ReqPerHour(State()) && reqPerDay == ReqPerDay(State())
    {
      AdvanceSecondBuckets(nowSec);
      AdvanceHourBuckets(nowSec / 3600);
      reqPerSec := secondBuckets[secondIndex];
      reqPerHour := SumUint32Array(secondBuckets);
      reqPerDay := SumUint32Array(hourBuckets);
      peakReqPerSec := Max(peakReqPerSec, reqPerSec);
      peakReqPerHour := Max(peakReqPerHour, reqPerHour);
      peakReqPerDay := Max(peakReqPerDay, reqPerDay);
    }
  }

  datatype ClientSnapshot = ClientSnapshot(
    uuid: Uuid,
    connectedAt: nat,
    reqPerSec: nat,
    reqPerHour: nat,
    reqPerDay: nat,
    totalRequests: nat,
    peakReqPerSec: nat,
    peakReqPerHour: nat,
    peakReqPerDay: nat)

  datatype Figures = Figures(connectedClients: nat, reqPerSec: nat, reqPerHour: nat, reqPerDay: nat)

  /** The column sums of a client list. */
  function Totals(clients: seq<ClientSnapshot>): Figures {
    if clients == [] then Figures(0, 0, 0, 0)
    else
      var t, c := Totals(clients[..|clients| - 1]), clients[|clients| - 1];
      Figures(t.connectedClients + 1, t.reqPerSec + c.reqPerSec, t.reqPerHour + c.reqPerHour, t.reqPerDay + c.reqPerDay)
  }

  /** One column of a client list. */
  function Column(clients: seq<ClientSnapshot>, figure: ClientSnapshot -> nat): seq<nat> {
    seq(|clients|, i requires 0 <= i < |clients| => figure(clients[i]))
  }

  /** The global figures: how many clients there are, and each other figure added up over its own column. */
  ghost predicate AddsUp(global: Figures, clients: seq<ClientSnapshot>) {
    && global.connectedClients == |clients|
    && global.reqPerSec == Sum(Column(clients, (c: ClientSnapshot) => c.reqPerSec))
    && global.reqPerHour == Sum(Column(clients, (c: ClientSnapshot) => c.reqPerHour))
    && global.reqPerDay == Sum(Column(clients, (c: ClientSnapshot) => c.reqPerDay))
  }

  lemma ColumnSum(clients: seq<ClientSnapshot>, figure: ClientSnapshot -> nat)
    requires clients != []
    ensures
      var n := |clients| - 1;
      Sum(Column(clients, figure)) == Sum(Column(clients[..n], figure)) + figure(clients[n])
  {
    var n := |clients| - 1;
    assert Column(clients, figure)[..n] == Column(clients[..n], figure);
  }

  lemma {:induction false} TotalsExactly(clients: seq<ClientSnapshot>)
    ensures AddsUp(Totals(clients), clients)
  {
    if clients != [] {
      TotalsExactly(clients[..|clients| - 1]);
      ColumnSum(clients, (c: ClientSnapshot) => c.reqPerSec);
      ColumnSum(clients, (c: ClientSnapshot) => c.reqPerHour);
      ColumnSum(clients, (c: ClientSnapshot) => c.reqPerDay);
    }
  }

  /** Figures that are ordered in every line are ordered in the sums. */
  lemma {:induction false} TotalsAreOrdered(clients: seq<ClientSnapshot>)
    requires forall i :: 0 <= i < |clients| ==>
               clients[i].reqPerSec <= clients[i].reqPerHour <= clients[i].reqPerDay
    ensures Totals(clients).reqPerSec <= Totals(clients).reqPerHour <= Totals(clients).reqPerDay
  {
    if clients != [] { TotalsAreOrdered(clients[..|clients| - 1]); }
  }

  function Raised(peak: Figures, now: Figures): Figures {
    Figures(Max(peak.connectedClients, now.connectedClients), Max(peak.reqPerSec, now.reqPerSec),
            Max(peak.reqPerHour, now.reqPerHour), Max(peak.reqPerDay, now.reqPerDay))
  }

  predicate AtLeast(a: Figures, b: Figures) {
    && a.connectedClients >= b.connectedClients && a.reqPerSec >= b.reqPerSec
    && a.reqPerHour >= b.reqPerHour && a.reqPerDay >= b.reqPerDay
  }

  /** The raised peak is the least that is at least the old peak and the current figures. */
  lemma RaisedIsLeast(peak: Figures, now: Figures, other: Figures)
    ensures AtLeast(Raised(peak, now), peak) && AtLeast(Raised(peak, now), now)
    ensures AtLeast(other, peak) && AtLeast(other, now) ==> AtLeast(other, Raised(peak, now))
  {
  }

  /** Reported line `c` tells the truth about entry `e`, observed at this snapshot. */
  ghost predicate Reports(c: ClientSnapshot, e: Entry)
    requires EntryOk(e)
  {
    && c.reqPerSec == ReqPerSec(e) && c.reqPerHour == ReqPerHour(e) && c.reqPerDay == ReqPerDay(e)
    && c.totalRequests == e.totalRequests
    && c.peakReqPerSec == e.peakReqPerSec >= c.reqPerSec
    && c.peakReqPerHour == e.peakReqPerHour >= c.reqPerHour
    && c.peakReqPerDay == e.peakReqPerDay >= c.reqPerDay
  }

  /** The global figures of a snapshot, added up as the lines are collected. */
  method AddUp(clients: seq<ClientSnapshot>) returns (global: Figures)
    ensures global == Totals(clients)
  {
    global := Figures(0, 0, 0, 0);
    var i := 0;
    while i < |clients|
      invariant 0 <= i <= |clients| && global == Totals(clients[..i])
    {
      assert clients[..i + 1][..i] == clients[..i];
      var c := clients[i];
      global := Figures(global.connectedClients + 1, global.reqPerSec + c.reqPerSec,
                        global.reqPerHour + c.reqPerHour, global.reqPerDay + c.reqPerDay);
      i := i + 1;
    }
    assert clients[..|clients|] == clients;
  }

  /** A line for each client in `us`, once, true of `m`. */
  ghost predicate OneLineEach(clients: seq<ClientSnapshot>, m: Collector, us: set<Uuid>) {
    && us <= m.Keys
    && (forall i :: 0 <= i < |clients| ==> clients[i].uuid in us && Reports(clients[i], m[clients[i].uuid]))
    && (forall i, j :: 0 <= i < j < |clients| ==> clients[i].uuid != clients[j].uuid)
    && |clients| == |us|
  }

  lemma OneMoreLine(
    clients: seq<ClientSnapshot>, m: Collector, u: Uuid, e: GoodEntry, us: set<Uuid>, line: ClientSnapshot)
    requires OneLineEach(clients, m, us) && u in m && u !in us && line.uuid == u && Reports(line, e)
    ensures OneLineEach(clients + [line], m[u := e], us + {u})
  {
    var all := clients + [line];
    forall i | 0 <= i < |all| ensures all[i].uuid in us + {u} && Reports(all[i], m[u := e][all[i].uuid]) {
      if i < |clients| { assert all[i] == clients[i]; }
    }
  }

  lemma NothingObservedYet(m: Collector, nowSec: nat)
    ensures ObserveClients(m, {}, nowSec) == m && OneLineEach([], m, {})
  {
  }

  ghost predicate Divides<T>(done: set<T>, left: set<T>, all: set<T>) {
    done + left == all && done !! left
  }

  lemma EndDivision<T>(done: set<T>, left: set<T>, all: set<T>)
    requires Divides(done, left, all) && left == {}
    ensures done == all
  {
  }

  lemma MoveOne<T>(done: set<T>, left: set<T>, u: T, all: set<T>)
    requires Divides(done, left, all) && u in left
    ensures Divides(done + {u}, left - {u}, all) && u !in done && u in all
  {
  }

  lemma StartDivision<T>(all: set<T>)
    ensures Divides({}, all, all)
  {
  }

  /** Below 2^32 requests the line's figures are exact, and within each other, for its client's own calls. */
  ghost predicate Exact(line: ClientSnapshot, calls: seq<CollectorCall>) {
    line.totalRequests < TWO_TO_THE_32 ==>
      ExactFigures(line.reqPerSec, line.reqPerHour, line.reqPerDay, line.totalRequests,
                   StartOf(calls, line.uuid), CallsOf(calls, line.uuid))
  }

  lemma LinesAreExact(clients: seq<ClientSnapshot>, m: Collector, us: set<Uuid>, calls: seq<CollectorCall>)
    requires OneLineEach(clients, m, us) && m == Collect(calls)
    ensures forall i :: 0 <= i < |clients| ==> Exact(clients[i], calls)
  {
    forall i | 0 <= i < |clients| ensures Exact(clients[i], calls) {
      EveryEntryIsExact(calls, clients[i].uuid);
    }
  }

  /** Every line says when its client was registered. */
  ghost predicate ConnectedSince(clients: seq<ClientSnapshot>, entries: map<Uuid, ClientMetricsEntry>) {
    forall i :: 0 <= i < |clients| ==>
      clients[i].uuid in entries && clients[i].connectedAt == entries[clients[i].uuid].connectedAt
  }

  lemma OneMoreSince(clients: seq<ClientSnapshot>, entries: map<Uuid, ClientMetricsEntry>, line: ClientSnapshot)
    requires ConnectedSince(clients, entries)
    requires line.uuid in entries && line.connectedAt == entries[line.uuid].connectedAt
    ensures ConnectedSince(clients + [line], entries)
  {
  }

  /** Below 2^32 requests a client the global figures are within each other, like those of the lines. */
  lemma TotalsOfExactLines(clients: seq<ClientSnapshot>, calls: seq<CollectorCall>)
    requires forall i :: 0 <= i < |clients| ==> Exact(clients[i], calls) && clients[i].totalRequests < TWO_TO_THE_32
    ensures Totals(clients).reqPerSec <= Totals(clients).reqPerHour <= Totals(clients).reqPerDay
  {
    forall i | 0 <= i < |clients| ensures clients[i].reqPerSec <= clients[i].reqPerHour <= clients[i].reqPerDay {
      assert Exact(clients[i], calls);
    }
    TotalsAreOrdered(clients);
  }

  class MetricsCollector {
    var entries: map<Uuid, ClientMetricsEntry>
    var peak: Figures
    /** Every call so far, and the entries as values. */
    ghost var calls: seq<CollectorCall>
    ghost var view: Collector
    /** Whose entry each object of ours belongs to, so entries share no storage. */
    ghost var owner: map<object, Uuid>

    ghost predicate Owns(u: Uuid, o: object)
      reads this`owner
    {
      o in owner && owner[o] == u
    }

    /** `u`'s entry is well formed, its storage is `u`'s, and `view` shows its state. */
    ghost predicate Owned(u: Uuid)
      requires u in entries
      reads this`entries, this`view, this`owner, owner.Keys
    {
      var e := entries[u];
      && Owns(u, e) && Owns(u, e.secondBuckets) && Owns(u, e.hourBuckets)
      && e.Valid()
      && u in view && view[u] == e.State()
    }

    /** An entry nobody touched is still what it was. */
    twostate lemma StillOwned(u: Uuid)
      requires u in old(entries) && old(Owned(u))
      requires u in entries && entries[u] == old(entries[u]) && u in view && view[u] == old(view[u])
      requires Owns(u, entries[u]) && Owns(u, entries[u].secondBuckets) && Owns(u, entries[u].hourBuckets)
      requires unchanged(entries[u], entries[u].secondBuckets, entries[u].hourBuckets)
      ensures Owned(u)
    {
    }

    /** Only `u`'s storage changed, and `view` at `u` with it. */
    twostate predicate ChangedOnly(u: Uuid)
      reads this`entries, this`view, this`owner, owner.Keys
    {
      && entries == old(entries) && owner == old(owner) && view.Keys == old(view).Keys
      && (forall v :: v in view && v != u ==> view[v] == old(view)[v])
      && (forall o :: o in owner && owner[o] != u ==> unchanged(o))
    }

    ghost predicate Valid()
      reads this`entries, this`view, this`owner, owner.Keys
    {
      && this !in owner
      && view.Keys == entries.Keys
      && (forall u :: u in entries ==> Owned(u))
    }

    twostate lemma StillValid(u: Uuid)
      requires old(Valid()) && ChangedOnly(u) && u in entries && Owned(u)
      ensures Valid()
    {
      forall v | v in entries && v != u ensures Owned(v) {
        assert old(Owned(v));
        StillOwned(v);
      }
    }

    /** The entries are what the calls so far make of them. */
    ghost predicate Current()
      reads this`calls, this`view
    {
      view == Collect(calls)
    }

    constructor ()
      ensures Valid() && Current() && owner == map[] && calls == [] && peak == Figures(0, 0, 0, 0)
    {
      entries, peak, calls, view, owner := map[], Figures(0, 0, 0, 0), [], map[], map[];
    }

    ghost method Note(c: CollectorCall)
      modifies this`calls
      ensures calls == old(calls) + [c] && Collect(calls) == ApplyAll(Collect(old(calls)), c)
    {
      assert (calls + [c])[..|calls|] == calls;
      calls := calls + [c];
    }

    method Install(u: Uuid, e: ClientMetricsEntry)
      requires Valid() && e.Valid() && Owns(u, e) && Owns(u, e.secondBuckets) && Owns(u, e.hourBuckets)
      modifies this`entries, this`view
      ensures Valid() && view == old(view)[u := e.State()] && entries == old(entries)[u := e]
    {
      entries := entries[u := e];
      view := view[u := e.State()];
      assert Owned(u);
      forall v | v in entries && v != u ensures Owned(v) { StillOwned(v); }
    }

    /** The storage of `e`, so far nobody's, becomes `u`'s. */
    ghost method Adopt(u: Uuid, e: ClientMetricsEntry)
      requires Valid() && e !in owner && e.secondBuckets !in owner && e.hourBuckets !in owner
      modifies this`owner
      ensures Valid() && Owns(u, e) && Owns(u, e.secondBuckets) && Owns(u, e.hourBuckets)
      ensures owner.Keys == old(owner.Keys) + {e, e.secondBuckets, e.hourBuckets}
    {
      owner := owner[e := u][e.secondBuckets := u][e.hourBuckets := u];
      forall v | v in entries ensures Owned(v) { StillOwned(v); }
    }

    method RegisterClient(uuid: Uuid, nowMs: nat)
      requires Valid() && Current()
      modifies this`entries, this`view, this`owner, this`calls
      ensures Valid() && fresh(owner.Keys - old(owner.Keys))
      ensures view == Metrics.RegisterClient(old(view), uuid, nowMs / 1000)
      ensures Current() && calls == old(calls) + [RegisterCall(uuid, nowMs / 1000)]
      ensures uuid in entries && entries[uuid].connectedAt == nowMs
    {
      Note(RegisterCall(uuid, nowMs / 1000));
      var e := new ClientMetricsEntry(uuid, nowMs);
      Adopt(uuid, e);
      Install(uuid, e);
    }

    method Drop(uuid: Uuid)
      requires Valid()
      modifies this`entries, this`view
      ensures Valid() && view == Without(old(view), uuid)
    {
      entries, view := entries - {uuid}, view - {uuid};
      forall u | u in entries ensures Owned(u) { StillOwned(u); }
    }

    method RemoveClient(uuid: Uuid)
      requires Valid() && Current()
      modifies this`entries, this`view, this`calls
      ensures Valid() && view == Without(old(view), uuid)
      ensures Current() && calls == old(calls) + [RemoveCall(uuid)]
    {
      Note(RemoveCall(uuid));
      Drop(uuid);
    }

    /** The storage of `u` takes the record; no other storage is touched. */
    method RecordStorage(u: Uuid, nowSec: nat)
      requires Valid() && u in entries
      modifies owner.Keys
      ensures entries[u].Valid() && entries[u].State() == Metrics.Record(old(view)[u], nowSec)
      ensures forall o :: o in owner && owner[o] != u ==> unchanged(o)
    {
      hide Metrics.Record;
      assert Owned(u);
      entries[u].Record(nowSec);
    }

    method RecordEntry(uuid: Uuid, nowMs: nat)
      requires Valid()
      modifies this`view, owner.Keys
      ensures Valid() && view == RecordClient(old(view), uuid, nowMs / 1000)
    {
      hide Metrics.Record;
      if uuid !in entries {
        return;
      }
      assert this !in owner && Owned(uuid);
      RecordStorage(uuid, nowMs / 1000);
      view := view[uuid := entries[uuid].State()];
      assert Owned(uuid);
      StillValid(uuid);
    }

    method Record(uuid: Uuid, nowMs: nat)
      requires Valid() && Current()
      modifies this`view, this`calls, owner.Keys
      ensures Valid() && view == RecordClient(old(view), uuid, nowMs / 1000)
      ensures Current() && calls == old(calls) + [RecordForCall(uuid, nowMs / 1000)]
    {
      assert this !in owner;
      Note(RecordForCall(uuid, nowMs / 1000));
      RecordEntry(uuid, nowMs);
    }

    /** The storage of `u` is observed; no other storage is touched. */
    method ObserveStorage(u: Uuid, nowSec: nat) returns (line: ClientSnapshot)
      requires Valid() && u in entries
      modifies owner.Keys
      ensures entries[u].Valid() && entries[u].State() == Metrics.Observe(old(view)[u], nowSec)
      ensures line.uuid == u && line.connectedAt == entries[u].connectedAt && Reports(line, entries[u].State())
      ensures forall o :: o in owner && owner[o] != u ==> unchanged(o)
    {
      assert Owned(u);
      var entry := entries[u];
      var s, h, d := entry.Observe(nowSec);
      line := ClientSnapshot(u, entry.connectedAt, s, h, d, entry.totalRequests,
                             entry.peakReqPerSec, entry.peakReqPerHour, entry.peakReqPerDay);
    }

    /** The body of the snapshot loop for client `u`. */
    method ObserveClient(u: Uuid, nowSec: nat) returns (line: ClientSnapshot)
      requires Valid() && u in entries
      modifies this`view, owner.Keys
      ensures Valid() && u in old(view) && view == old(view)[u := Observer(nowSec)(old(view)[u])]
      ensures line.uuid == u && line.connectedAt == entries[u].connectedAt && Reports(line, view[u])
    {
      hide Metrics.Observe, Reports;
      assert this !in owner && Owned(u);
      line := ObserveStorage(u, nowSec);
      view := view[u := entries[u].State()];
      assert Owned(u);
      StillValid(u);
    }

    /** Part way through the loop: exactly the clients in `done` are observed and listed. */
    ghost predicate Collected(clients: seq<ClientSnapshot>, was: Collector, done: set<Uuid>, nowSec: nat)
      reads this`entries, this`view, this`owner, owner.Keys
    {
      && Valid() && view == ObserveClients(was, done, nowSec) && OneLineEach(clients, view, done)
      && ConnectedSince(clients, entries)
    }

    /** One turn of the loop. */
    method AppendLine(clients: seq<ClientSnapshot>, u: Uuid, ghost was: Collector, ghost done: set<Uuid>, nowSec: nat)
      returns (more: seq<ClientSnapshot>)
      requires Collected(clients, was, done, nowSec) && u in entries && u !in done
      modifies this`view, owner.Keys
      ensures Collected(more, was, done + {u}, nowSec)
    {
      hide ConnectedSince;
      ghost var before := view;
      var line := ObserveClient(u, nowSec);
      UpdatedOneMore(was, done, Observer(nowSec), u);
      OneMoreLine(clients, before, u, view[u], done, line);
      OneMoreSince(clients, entries, line);
      more := clients + [line];
    }

    /** The next client of those left to visit. */
    method VisitNext(
      clients: seq<ClientSnapshot>, left: set<Uuid>, ghost was: Collector, ghost done: set<Uuid>, nowSec: nat)
      returns (more: seq<ClientSnapshot>, rest: set<Uuid>, ghost now: set<Uuid>)
      requires Collected(clients, was, done, nowSec) && Divides(done, left, entries.Keys) && left != {}
      modifies this`view, owner.Keys
      ensures Collected(more, was, now, nowSec) && Divides(now, rest, entries.Keys) && rest < left
    {
      var u :| u in left;
      MoveOne(done, left, u, entries.Keys);
      more := AppendLine(clients, u, was, done, nowSec);
      rest, now := left - {u}, done + {u};
    }

    method CollectLines(nowSec: nat) returns (clients: seq<ClientSnapshot>)
      requires Valid()
      modifies this`view, owner.Keys
      ensures Collected(clients, old(view), entries.Keys, nowSec)
    {
      hide OneLineEach, ObserveClients;
      clients := [];
      var left := entries.Keys;
      ghost var was, done := view, {};
      NothingObservedYet(view, nowSec);
      StartDivision(left);
      while left != {}
        invariant Divides(done, left, entries.Keys)
        invariant Collected(clients, was, done, nowSec)
      {
        clients, left, done := VisitNext(clients, left, was, done, nowSec);
      }
      EndDivision(done, left, entries.Keys);
    }

    /** The global figures, and the peaks raised to them; the entries stay as they are. */
    method Aggregate(clients: seq<ClientSnapshot>, ghost was: Collector, ghost done: set<Uuid>, nowSec: nat)
      returns (global: Figures)
      requires Collected(clients, was, done, nowSec)
      modifies this`peak
      ensures Collected(clients, was, done, nowSec)
      ensures global == Totals(clients) && peak == Raised(old(peak), global)
    {
      assert this !in owner;
      global := AddUp(clients);
      peak := Raised(peak, global);
    }

    /** The whole snapshot: observe and list every client, add up, raise the peaks. */
    method ObserveAll(nowSec: nat) returns (global: Figures, clients: seq<ClientSnapshot>)
      requires Valid()
      modifies this`view, this`peak, owner.Keys
      ensures Collected(clients, old(view), old(view).Keys, nowSec)
      ensures global == Totals(clients) && peak == Raised(old(peak), global)
    {
      hide Owned;
      ghost var was := view;
      assert this !in owner && was.Keys == entries.Keys;
      clients := CollectLines(nowSec);
      global := Aggregate(clients, was, was.Keys, nowSec);
    }

    /** One line for every client and no other, exact and ordered; the column sums; the raised peaks. */
    method Snapshot(nowMs: nat) returns (global: Figures, clients: seq<ClientSnapshot>)
      requires Valid() && Current()
      modifies this`view, this`peak, this`calls, owner.Keys
      ensures Collected(clients, old(view), old(view).Keys, nowMs / 1000)
      ensures global == Totals(clients) && peak == Raised(old(peak), global)
      ensures Current() && calls == old(calls) + [SnapshotAllCall(nowMs / 1000)]
      ensures AddsUp(global, clients)
      ensures forall i :: 0 <= i < |clients| ==> Exact(clients[i], calls)
      ensures (forall i :: 0 <= i < |clients| ==> clients[i].totalRequests < TWO_TO_THE_32) ==>
                global.reqPerSec <= global.reqPerHour <= global.reqPerDay
    {
      hide AddsUp, Exact, ConnectedSince, OneLineEach;
      assert this !in owner;
      Note(SnapshotAllCall(nowMs / 1000));
      global, clients := ObserveAll(nowMs / 1000);
      LinesAreExact(clients, view, old(view).Keys, calls);
      TotalsExactly(clients);
      if forall i :: 0 <= i < |clients| ==> clients[i].totalRequests < TWO_TO_THE_32 {
        TotalsOfExactLines(clients, calls);
      }
    }
  }
}
