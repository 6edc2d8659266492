/** One client's metrics as a value: two rings, a total and three peaks. */
module Metrics {
  import opened Prelude
  import opened Rings

  const SECONDS_PER_HOUR := 3600
  const HOURS_PER_DAY := 24

  datatype Entry = Entry(
    seconds: Ring,
    hours: Ring,
    totalRequests: nat,
    peakReqPerSec: nat,
    peakReqPerHour: nat,
    peakReqPerDay: nat)

  ghost predicate EntryOk(e: Entry) {
    && Ok(e.seconds) && |e.seconds.cells| == SECONDS_PER_HOUR
    && Ok(e.hours) && |e.hours.cells| == HOURS_PER_DAY
  }

  function NewEntry(nowSec: nat): Entry {
    Entry(NewRing(SECONDS_PER_HOUR, nowSec), NewRing(HOURS_PER_DAY, nowSec / 3600), 0, 0, 0, 0)
  }

  function Touch(e: Entry, nowSec: nat): Entry
    requires EntryOk(e)
  {
    e.(seconds := Advance(e.seconds, nowSec), hours := Advance(e.hours, nowSec / 3600))
  }

  /** `record` at second `nowSec`. */
  function Record(e: Entry, nowSec: nat): Entry
    requires EntryOk(e)
  {
    var t := Touch(e, nowSec);
    t.(seconds := Bump(t.seconds), hours := Bump(t.hours), totalRequests := t.totalRequests + 1)
  }

  function ReqPerSec(e: Entry): nat
    requires EntryOk(e)
  {
    e.seconds.cells[e.seconds.index]
  }

  function ReqPerHour(e: Entry): nat {
    Sum(e.seconds.cells)
  }

  function ReqPerDay(e: Entry): nat {
    Sum(e.hours.cells)
  }

  /** What `snapshot` does to an entry at second `nowSec`: advance, then raise the peaks. */
  function Observe(e: Entry, nowSec: nat): Entry
    requires EntryOk(e)
  {
    var t := Touch(e, nowSec);
    t.(peakReqPerSec := Max(t.peakReqPerSec, ReqPerSec(t)),
       peakReqPerHour := Max(t.peakReqPerHour, ReqPerHour(t)),
       peakReqPerDay := Max(t.peakReqPerDay, ReqPerDay(t)))
  }

  // -- calls -----------------------------------------------------------------

  /** A call that reaches the entry, with the second the clock showed. */
  datatype Call = RecordCall(nowSec: nat) | SnapshotCall(nowSec: nat)

  function Apply(e: Entry, c: Call): Entry
    requires EntryOk(e)
  {
    match c
    case RecordCall(t) => Record(e, t)
    case SnapshotCall(t) => Observe(e, t)
  }

  ghost function After(start: nat, calls: seq<Call>): (e: Entry)
    ensures EntryOk(e)
  {
    if calls == [] then NewEntry(start)
    else Apply(After(start, calls[..|calls| - 1]), calls[|calls| - 1])
  }

  /** The running maximum of the clock readings since registration at `start`. */
  function Clock(start: nat, calls: seq<Call>): nat {
    if calls == [] then start
    else Max(Clock(start, calls[..|calls| - 1]), calls[|calls| - 1].nowSec)
  }

  /** The log of recorded requests, each with its effective second. */
  function Log(start: nat, calls: seq<Call>): seq<nat> {
    if calls == [] then []
    else
      var before := Log(start, calls[..|calls| - 1]);
      if calls[|calls| - 1].RecordCall? then before + [Clock(start, calls)] else before
  }

  function HourLog(log: seq<nat>): seq<nat> {
    seq(|log|, i requires 0 <= i < |log| => log[i] / 3600)
  }

  ghost predicate EntryRefines(e: Entry, log: seq<nat>) {
    && EntryOk(e)
    && Refines(e.seconds, log)
    && Refines(e.hours, HourLog(log))
    && e.hours.epoch == e.seconds.epoch / 3600
    && e.totalRequests == |log|
  }

  lemma HoursFollowSeconds(a: nat, b: nat)
    ensures Max(a, b) / 3600 == Max(a / 3600, b / 3600)
  {
  }

  lemma TouchRefines(e: Entry, log: seq<nat>, t: nat)
    requires EntryRefines(e, log)
    ensures EntryRefines(Touch(e, t), log)
    ensures Touch(e, t).seconds.epoch == Max(e.seconds.epoch, t)
  {
    AdvanceRefines(e.seconds, log, t);
    AdvanceRefines(e.hours, HourLog(log), t / 3600);
    HoursFollowSeconds(e.seconds.epoch, t);
  }

  lemma ApplyRefines(e: Entry, log: seq<nat>, c: Call)
    requires EntryRefines(e, log)
    ensures
      var e' := Apply(e, c);
      && e'.seconds.epoch == Max(e.seconds.epoch, c.nowSec)
      && EntryRefines(e', if c.RecordCall? then log + [e'.seconds.epoch] else log)
  {
    TouchRefines(e, log, c.nowSec);
    if c.RecordCall? {
      var t := Touch(e, c.nowSec);
      BumpRefines(t.seconds, log);
      BumpRefines(t.hours, HourLog(log));
      assert HourLog(log + [t.seconds.epoch]) == HourLog(log) + [t.hours.epoch];
    }
  }

  /**
   * Over any calls and any clock, the bucket k places behind the current one holds (in 32 bits)
   * the number of requests whose effective second (hour) is the epoch minus k.
   */
  lemma {:induction false} WindowsRefineTheLog(start: nat, calls: seq<Call>)
    ensures EntryRefines(After(start, calls), Log(start, calls))
    ensures After(start, calls).seconds.epoch == Clock(start, calls)
  {
    if calls == [] {
      NewRefines(SECONDS_PER_HOUR, start);
      NewRefines(HOURS_PER_DAY, start / 3600);
    } else {
      WindowsRefineTheLog(start, calls[..|calls| - 1]);
      ApplyRefines(After(start, calls[..|calls| - 1]), Log(start, calls[..|calls| - 1]), calls[|calls| - 1]);
    }
  }

  lemma DayReport(e: Entry, log: seq<nat>)
    requires EntryRefines(e, log) && |log| < TWO_TO_THE_32
    ensures ReqPerDay(e) == CountIn(HourLog(log), e.hours.epoch - 24, e.hours.epoch)
  {
    SumCountsWindow(e.hours, HourLog(log), HOURS_PER_DAY);
  }

  lemma HourReport(e: Entry, log: seq<nat>)
    requires EntryRefines(e, log) && |log| < TWO_TO_THE_32
    ensures ReqPerHour(e) == CountIn(log, e.seconds.epoch - 3600, e.seconds.epoch)
  {
    SumCountsWindow(e.seconds, log, SECONDS_PER_HOUR);
  }

  lemma SecondReport(e: Entry, log: seq<nat>)
    requires EntryRefines(e, log) && |log| < TWO_TO_THE_32
    ensures ReqPerSec(e) == CountAt(log, e.seconds.epoch)
  {
    CurrentCountsEpoch(e.seconds, log);
  }

  /** What a snapshot reports are exact counts over the last second, 3600 seconds and 24 hours. */
  lemma ReportsAreExactCounts(start: nat, calls: seq<Call>)
    requires |Log(start, calls)| < TWO_TO_THE_32
    ensures
      var e, log, now := After(start, calls), Log(start, calls), Clock(start, calls);
      && ReqPerSec(e) == CountAt(log, now)
      && ReqPerHour(e) == CountIn(log, now - 3600, now)
      && ReqPerDay(e) == CountIn(HourLog(log), now / 3600 - 24, now / 3600)
      && e.totalRequests == |log|
  {
    hide After, Log, Clock;
    WindowsRefineTheLog(start, calls);
    var e, log := After(start, calls), Log(start, calls);
    SecondReport(e, log);
    HourReport(e, log);
    DayReport(e, log);
  }

  // -- the three windows -----------------------------------------------------

  lemma {:induction false} HourWindowInDayWindow(log: seq<nat>, now: nat)
    ensures CountIn(log, now - 3600, now) <= CountIn(HourLog(log), now / 3600 - 24, now / 3600)
  {
    if log != [] {
      var k := |log| - 1;
      HourWindowInDayWindow(log[..k], now);
      assert HourLog(log)[..k] == HourLog(log[..k]);
    }
  }

  lemma {:induction false} CurrentInHourWindow(log: seq<nat>, now: nat)
    ensures CountAt(log, now) <= CountIn(log, now - 3600, now)
  {
    if log != [] { CurrentInHourWindow(log[..|log| - 1], now); }
  }

  lemma RefinedIsOrdered(e: Entry, log: seq<nat>)
    requires EntryRefines(e, log) && |log| < TWO_TO_THE_32
    ensures ReqPerSec(e) <= ReqPerHour(e) <= ReqPerDay(e) <= e.totalRequests
  {
    SecondReport(e, log);
    HourReport(e, log);
    DayReport(e, log);
    CurrentInHourWindow(log, e.seconds.epoch);
    HourWindowInDayWindow(log, e.seconds.epoch);
    var hour: int := e.hours.epoch;
    CountInBound(HourLog(log), hour - 24, hour);
  }

  /** In every state: one second is within the hour, the hour within the day, the day within the total. */
  lemma WindowsAreOrdered(start: nat, calls: seq<Call>)
    requires |Log(start, calls)| < TWO_TO_THE_32
    ensures
      var e := After(start, calls);
      && ReqPerSec(e) <= ReqPerHour(e) <= ReqPerDay(e) <= e.totalRequests
      && e.hours.epoch == e.seconds.epoch / 3600
  {
    WindowsRefineTheLog(start, calls);
    RefinedIsOrdered(After(start, calls), Log(start, calls));
  }

  /** Peaks never fall, and after a snapshot each is at least what that snapshot reports. */
  lemma {:induction false} PeaksNeverFall(start: nat, calls: seq<Call>, more: seq<Call>)
    ensures
      var a, b := After(start, calls), After(start, calls + more);
      && a.peakReqPerSec <= b.peakReqPerSec
      && a.peakReqPerHour <= b.peakReqPerHour
      && a.peakReqPerDay <= b.peakReqPerDay
    ensures more != [] && more[|more| - 1].SnapshotCall? ==>
              var b := After(start, calls + more);
              ReqPerSec(b) <= b.peakReqPerSec && ReqPerHour(b) <= b.peakReqPerHour && ReqPerDay(b) <= b.peakReqPerDay
    decreases |more|
  {
    if more == [] {
      assert calls + more == calls;
    } else {
      assert (calls + more)[..|calls + more| - 1] == calls + more[..|more| - 1];
      PeaksNeverFall(start, calls, more[..|more| - 1]);
    }
  }

  predicate SnapshotAt(calls: seq<Call>, i: nat) {
    i < |calls| && calls[i].SnapshotCall?
  }

  /** The figure that the entry had right after call number `i`. */
  ghost function Shown(start: nat, calls: seq<Call>, figure: Entry -> nat, i: nat): nat
    requires i < |calls|
  {
    figure(After(start, calls[..i + 1]))
  }

  /** `peak` is the largest figure at the snapshots so far, or 0 before the first. */
  ghost predicate PeakOf(start: nat, calls: seq<Call>, figure: Entry -> nat, peak: nat) {
    && (forall i: nat :: SnapshotAt(calls, i) ==> Shown(start, calls, figure, i) <= peak)
    && (peak == 0 || exists i: nat :: SnapshotAt(calls, i) && Shown(start, calls, figure, i) == peak)
  }

  lemma ShownSoFar(start: nat, calls: seq<Call>, figure: Entry -> nat, i: nat)
    requires i < |calls| - 1
    ensures SnapshotAt(calls[..|calls| - 1], i) == SnapshotAt(calls, i)
    ensures Shown(start, calls[..|calls| - 1], figure, i) == Shown(start, calls, figure, i)
  {
    assert calls[..|calls| - 1][..i + 1] == calls[..i + 1];
  }

  lemma ShownLast(start: nat, calls: seq<Call>, figure: Entry -> nat)
    requires calls != []
    ensures Shown(start, calls, figure, |calls| - 1) == figure(After(start, calls))
  {
    hide After;
    assert calls[..|calls|] == calls;
  }

  lemma PeakByLast(start: nat, calls: seq<Call>, figure: Entry -> nat, before: nat, peak: nat)
    requires calls != [] && PeakOf(start, calls[..|calls| - 1], figure, before)
    requires peak == if calls[|calls| - 1].SnapshotCall? then Max(before, figure(After(start, calls))) else before
    ensures PeakOf(start, calls, figure, peak)
  {
    hide Shown, After;
    var n := |calls| - 1;
    ShownLast(start, calls, figure);
    forall i: nat | SnapshotAt(calls, i) ensures Shown(start, calls, figure, i) <= peak {
      if i < n { ShownSoFar(start, calls, figure, i); }
    }
    if peak == before && peak != 0 {
      var i: nat :| SnapshotAt(calls[..n], i) && Shown(start, calls[..n], figure, i) == peak;
      ShownSoFar(start, calls, figure, i);
    } else if peak != 0 {
      assert SnapshotAt(calls, n);
    }
  }

  function SecondOf(e: Entry): nat {
    if e.seconds.index < |e.seconds.cells| then e.seconds.cells[e.seconds.index] else 0
  }

  /** The three peaks are the largest figures that any snapshot has shown. */
  lemma {:induction false} PeaksExactly(start: nat, calls: seq<Call>)
    ensures
      var e := After(start, calls);
      && PeakOf(start, calls, SecondOf, e.peakReqPerSec)
      && PeakOf(start, calls, ReqPerHour, e.peakReqPerHour)
      && PeakOf(start, calls, ReqPerDay, e.peakReqPerDay)
  {
    if calls != [] {
      var before, e := After(start, calls[..|calls| - 1]), After(start, calls);
      PeaksExactly(start, calls[..|calls| - 1]);
      PeakByLast(start, calls, SecondOf, before.peakReqPerSec, e.peakReqPerSec);
      PeakByLast(start, calls, ReqPerHour, before.peakReqPerHour, e.peakReqPerHour);
      PeakByLast(start, calls, ReqPerDay, before.peakReqPerDay, e.peakReqPerDay);
    }
  }

  // -- when snapshots disturb ------------------------------------------------

  function OnlyRecords(calls: seq<Call>): seq<Call> {
    if calls == [] then []
    else
      var before := OnlyRecords(calls[..|calls| - 1]);
      if calls[|calls| - 1].RecordCall? then before + [calls[|calls| - 1]] else before
  }

  ghost predicate SameCounts(a: Entry, b: Entry) {
    a.seconds == b.seconds && a.hours == b.hours && a.totalRequests == b.totalRequests
  }

  /** Looked at in second `t`, the entry counts what it would without any snapshot. */
  ghost predicate InvisibleAt(start: nat, calls: seq<Call>, t: nat) {
    SameCounts(Touch(After(start, calls), t), Touch(After(start, OnlyRecords(calls)), t))
  }

  /** The snapshots among `calls` change no count at any later moment. */
  ghost predicate SnapshotsInvisible(start: nat, calls: seq<Call>) {
    forall p, t: nat :: 0 <= p <= |calls| && t >= Clock(start, calls[..p]) ==> InvisibleAt(start, calls[..p], t)
  }

  /** The reading of snapshot `i` is ahead of the registration's and of every record's up to the later record `j`. */
  ghost predicate AheadOf(start: nat, calls: seq<Call>, i: nat, j: nat)
    requires i < j < |calls|
  {
    calls[i].SnapshotCall? && calls[j].RecordCall? && calls[i].nowSec > Clock(start, OnlyRecords(calls[..j + 1]))
  }

  ghost predicate NoneAhead(start: nat, calls: seq<Call>) {
    forall i, j :: 0 <= i < j < |calls| ==> !AheadOf(start, calls, i, j)
  }

  lemma TouchComposes(e: Entry, t1: nat, t2: nat)
    requires EntryOk(e) && t1 <= t2
    ensures Touch(Touch(e, t1), t2) == Touch(e, t2)
  {
    AdvanceComposes(e.seconds, t1, t2);
    AdvanceComposes(e.hours, t1 / 3600, t2 / 3600);
  }

  lemma ObserveIsTouch(e: Entry, t1: nat, t2: nat)
    requires EntryOk(e) && t1 <= t2
    ensures SameCounts(Touch(Observe(e, t1), t2), Touch(e, t2))
  {
    TouchComposes(e, t1, t2);
  }

  lemma TouchAfterRecord(x: Entry, y: Entry, t1: nat, t2: nat)
    requires EntryOk(x) && EntryOk(y) && SameCounts(Touch(x, t1), Touch(y, t1))
    ensures SameCounts(Touch(Record(x, t1), t2), Touch(Record(y, t1), t2))
  {
  }

  /** A reading behind the entry's clock counts as that clock. */
  lemma TouchAtClock(start: nat, calls: seq<Call>, t: nat)
    ensures Touch(After(start, calls), t) == Touch(After(start, calls), Max(Clock(start, calls), t))
  {
    WindowsRefineTheLog(start, calls);
  }

  lemma OnlyRecordsSnoc(calls: seq<Call>, c: Call)
    ensures OnlyRecords(calls + [c]) == if c.RecordCall? then OnlyRecords(calls) + [c] else OnlyRecords(calls)
  {
    assert (calls + [c])[..|calls|] == calls;
  }

  lemma ClockSnoc(start: nat, calls: seq<Call>, c: Call)
    ensures Clock(start, calls + [c]) == Max(Clock(start, calls), c.nowSec)
  {
    assert (calls + [c])[..|calls|] == calls;
  }

  lemma {:induction false} ClockBounds(start: nat, calls: seq<Call>)
    ensures Clock(start, OnlyRecords(calls)) <= Clock(start, calls)
    ensures forall i :: 0 <= i < |calls| ==> calls[i].nowSec <= Clock(start, calls)
  {
    if calls != [] {
      var before, c := calls[..|calls| - 1], calls[|calls| - 1];
      ClockBounds(start, before);
      if c.RecordCall? { ClockSnoc(start, OnlyRecords(before), c); }
    }
  }

  /** The clock is that of the records, unless some snapshot's reading went beyond it. */
  lemma {:induction false} SnapshotThatLeads(start: nat, calls: seq<Call>) returns (i: nat)
    requires Clock(start, OnlyRecords(calls)) < Clock(start, calls)
    ensures i < |calls| && calls[i].SnapshotCall? && calls[i].nowSec == Clock(start, calls)
  {
    var before, c := calls[..|calls| - 1], calls[|calls| - 1];
    if c.RecordCall? { ClockSnoc(start, OnlyRecords(before), c); }
    if c.SnapshotCall? && c.nowSec == Clock(start, calls) {
      i := |calls| - 1;
    } else {
      i := SnapshotThatLeads(start, before);
    }
  }

  lemma AheadSoFar(start: nat, calls: seq<Call>, i: nat, j: nat)
    requires i < j < |calls| - 1
    ensures AheadOf(start, calls, i, j) == AheadOf(start, calls[..|calls| - 1], i, j)
  {
    assert calls[..|calls| - 1][..j + 1] == calls[..j + 1];
  }

  lemma LastAhead(start: nat, calls: seq<Call>, i: nat)
    requires i < |calls| - 1 && AheadOf(start, calls, i, |calls| - 1)
    ensures calls[|calls| - 1].RecordCall? && Clock(start, OnlyRecords(calls)) < Clock(start, calls)
  {
    assert calls[..|calls|] == calls;
    ClockBounds(start, calls);
  }

  lemma LeaderIsAhead(start: nat, calls: seq<Call>, i: nat)
    requires i < |calls| - 1 && calls[i].SnapshotCall? && calls[|calls| - 1].RecordCall?
    requires calls[i].nowSec > Clock(start, OnlyRecords(calls))
    ensures AheadOf(start, calls, i, |calls| - 1)
  {
    assert calls[..|calls|] == calls;
  }

  /** What the last call adds to the condition. */
  lemma NoneAheadByLast(start: nat, calls: seq<Call>)
    requires calls != []
    ensures
      var n := |calls| - 1;
      NoneAhead(start, calls) <==>
        NoneAhead(start, calls[..n])
        && (calls[n].RecordCall? ==> Clock(start, calls) == Clock(start, OnlyRecords(calls)))
  {
    hide AheadOf, Clock;
    var n := |calls| - 1;
    forall i, j | 0 <= i < j < n ensures AheadOf(start, calls, i, j) == AheadOf(start, calls[..n], i, j) {
      AheadSoFar(start, calls, i, j);
    }
    forall i | 0 <= i < n && AheadOf(start, calls, i, n)
      ensures calls[n].RecordCall? && Clock(start, OnlyRecords(calls)) < Clock(start, calls)
    {
      LastAhead(start, calls, i);
    }
    ClockBounds(start, calls);
    if calls[n].RecordCall? && Clock(start, OnlyRecords(calls)) < Clock(start, calls) {
      var i := SnapshotThatLeads(start, calls);
      LeaderIsAhead(start, calls, i);
    }
  }

  /** What the last call adds to the effect. */
  lemma InvisibleByLast(start: nat, calls: seq<Call>)
    requires calls != []
    ensures
      var n := |calls| - 1;
      SnapshotsInvisible(start, calls) <==>
        SnapshotsInvisible(start, calls[..n])
        && forall t: nat :: t >= Clock(start, calls) ==> InvisibleAt(start, calls, t)
  {
    hide InvisibleAt, Clock;
    var n := |calls| - 1;
    assert calls[..|calls|] == calls;
    assert forall p :: 0 <= p <= n ==> calls[..n][..p] == calls[..p];
  }

  /** Two entries that count alike at a call's effective second count alike after it. */
  lemma RecordKeepsInvisible(start: nat, before: seq<Call>, r: nat, t: nat)
    requires
      var only := OnlyRecords(before);
      Max(Clock(start, before), r) == Max(Clock(start, only), r)
    requires InvisibleAt(start, before, Max(Clock(start, before), r))
    ensures InvisibleAt(start, before + [RecordCall(r)], t)
  {
    var only := OnlyRecords(before);
    OnlyRecordsSnoc(before, RecordCall(r));
    assert (before + [RecordCall(r)])[..|before|] == before && (only + [RecordCall(r)])[..|only|] == only;
    TouchAtClock(start, before, r);
    TouchAtClock(start, only, r);
    TouchAfterRecord(After(start, before), After(start, only), r, t);
  }

  lemma {:induction false} NoneAheadIsInvisible(start: nat, calls: seq<Call>)
    requires NoneAhead(start, calls)
    ensures SnapshotsInvisible(start, calls)
  {
    if calls != [] {
      var n := |calls| - 1;
      var before, c := calls[..n], calls[n];
      NoneAheadByLast(start, calls);
      InvisibleByLast(start, calls);
      NoneAheadIsInvisible(start, before);
      assert before[..n] == before && calls == before + [c];
      forall t: nat | t >= Clock(start, calls) ensures InvisibleAt(start, calls, t) {
        if c.RecordCall? {
          ClockSnoc(start, OnlyRecords(before), c);
          assert InvisibleAt(start, before[..n], Clock(start, calls));
          RecordKeepsInvisible(start, before, c.nowSec, t);
        } else {
          assert InvisibleAt(start, before[..n], t);
          ObserveIsTouch(After(start, before), c.nowSec, t);
        }
      }
    }
  }

  lemma {:induction false} NoneAheadSameLog(start: nat, calls: seq<Call>)
    requires NoneAhead(start, calls)
    ensures Log(start, calls) == Log(start, OnlyRecords(calls))
  {
    if calls != [] {
      var before, c := calls[..|calls| - 1], calls[|calls| - 1];
      NoneAheadByLast(start, calls);
      NoneAheadSameLog(start, before);
      if c.RecordCall? {
        assert (OnlyRecords(before) + [c])[..|OnlyRecords(before)|] == OnlyRecords(before);
      }
    }
  }

  /** A request counted in second `late` by one entry and in an earlier one by the other shows in second `late`. */
  lemma ShiftShows(a: Entry, b: Entry, log: seq<nat>, late: nat, early: nat)
    requires early < late && NotAfter(log, early)
    requires EntryRefines(a, log + [late]) && a.seconds.epoch == late
    requires EntryRefines(b, log + [early]) && b.seconds.epoch <= late
    ensures !SameCounts(Touch(a, late), Touch(b, late))
  {
    TouchRefines(a, log + [late], late);
    TouchRefines(b, log + [early], late);
    var x, y := Touch(a, late).seconds, Touch(b, late).seconds;
    assert (log + [late])[..|log|] == log && (log + [early])[..|log|] == log;
    NothingLater(log, early, late);
    assert At(x, 0) == CountAt(log + [late], x.epoch - 0) % TWO_TO_THE_32;
    assert At(y, 0) == CountAt(log + [early], y.epoch - 0) % TWO_TO_THE_32;
  }

  /** A record made after a snapshot has read ahead of it lands in another second than it would have. */
  lemma LedRecordShows(start: nat, before: seq<Call>, c: Call)
    requires c.RecordCall? && NoneAhead(start, before)
    requires Clock(start, OnlyRecords(before) + [c]) < Clock(start, before + [c])
    ensures
      var late := Clock(start, before + [c]);
      !SameCounts(Touch(After(start, before + [c]), late), Touch(After(start, OnlyRecords(before) + [c]), late))
  {
    hide After;
    var only, log := OnlyRecords(before), Log(start, before);
    var late, early := Clock(start, before + [c]), Clock(start, only + [c]);
    assert (before + [c])[..|before|] == before && (only + [c])[..|only|] == only;
    NoneAheadSameLog(start, before);
    ClockSnoc(start, only, c);
    ClockBounds(start, before + [c]);
    WindowsRefineTheLog(start, only);
    WindowsRefineTheLog(start, before + [c]);
    WindowsRefineTheLog(start, only + [c]);
    ShiftShows(After(start, before + [c]), After(start, only + [c]), log, late, early);
  }

  lemma {:induction false} InvisibleIsNoneAhead(start: nat, calls: seq<Call>)
    requires SnapshotsInvisible(start, calls)
    ensures NoneAhead(start, calls)
  {
    if calls != [] {
      var n := |calls| - 1;
      var before, c := calls[..n], calls[n];
      assert calls == before + [c];
      NoneAheadByLast(start, calls);
      InvisibleByLast(start, calls);
      InvisibleIsNoneAhead(start, before);
      ClockBounds(start, calls);
      if c.RecordCall? && Clock(start, OnlyRecords(calls)) < Clock(start, calls) {
        LedRecordShows(start, before, c);
        assert InvisibleAt(start, calls, Clock(start, calls));
      }
    }
  }

  /**
   * Snapshots change no later count if and only if none reads the clock ahead of the
   * registration and of every record up to some later record.
   */
  lemma SnapshotsDisturbExactly(start: nat, calls: seq<Call>)
    ensures SnapshotsInvisible(start, calls) <==> NoneAhead(start, calls)
  {
    if NoneAhead(start, calls) { NoneAheadIsInvisible(start, calls); }
    if SnapshotsInvisible(start, calls) { InvisibleIsNoneAhead(start, calls); }
  }

  /** The clock never runs backwards. */
  ghost predicate Monotone(calls: seq<Call>) {
    forall i, j :: 0 <= i < j < |calls| ==> calls[i].nowSec <= calls[j].nowSec
  }

  /** In particular, with a clock that does not run backwards snapshots at any times never change a later count. */
  lemma SnapshotsDoNotDisturb(start: nat, calls: seq<Call>)
    requires Monotone(calls)
    ensures SnapshotsInvisible(start, calls)
  {
    forall i, j | 0 <= i < j < |calls| ensures !AheadOf(start, calls, i, j) {
      var upTo := calls[..j + 1];
      if calls[j].RecordCall? {
        assert upTo[..|upTo| - 1] == calls[..j] && upTo[j] == calls[j];
        ClockSnoc(start, OnlyRecords(calls[..j]), calls[j]);
      }
    }
    NoneAheadIsInvisible(start, calls);
  }

  /** With a clock that steps back it does: a snapshot a second ahead moves the next request to its second. */
  lemma SnapshotDisturbsBackwardClock(start: nat)
    ensures
      var with, without := [SnapshotCall(start + 1), RecordCall(start)], [RecordCall(start)];
      && ReqPerSec(Touch(After(start, with), start + 1)) == 1
      && ReqPerSec(Touch(After(start, without), start + 1)) == 0
  {
    hide After;
    var with, without := [SnapshotCall(start + 1), RecordCall(start)], [RecordCall(start)];
    assert with[..1] == [SnapshotCall(start + 1)] && with[..1][..0] == [] && without[..0] == [];
    var a, b := After(start, with), After(start, without);
    WindowsRefineTheLog(start, with);
    WindowsRefineTheLog(start, without);
    assert Log(start, with[..1]) == [];
    assert Clock(start, with) == start + 1 && Clock(start, without) == start;
    assert Log(start, with) == [start + 1] && Log(start, without) == [start];
    TouchRefines(a, [start + 1], start + 1);
    TouchRefines(b, [start], start + 1);
    var a', b' := Touch(a, start + 1), Touch(b, start + 1);
    assert At(a'.seconds, 0) == CountAt([start + 1], a'.seconds.epoch - 0) % TWO_TO_THE_32;
    assert At(b'.seconds, 0) == CountAt([start], b'.seconds.epoch - 0) % TWO_TO_THE_32;
    assert [start + 1][..0] == [] && [start][..0] == [];
  }

  // -- all clients -----------------------------------------------------------

  type Uuid = string

  /** Only well-formed entries. */
  type GoodEntry = e: Entry | EntryOk(e) ghost witness NewEntry(0)

  type Collector = map<Uuid, GoodEntry>

  ghost function RegisterClient(m: Collector, u: Uuid, nowSec: nat): Collector {
    m[u := NewEntry(nowSec)]
  }

  ghost function RecordClient(m: Collector, u: Uuid, nowSec: nat): Collector {
    if u in m then m[u := Record(m[u], nowSec)] else m
  }

  /** `m` with `f` applied to the entries of `us`. */
  ghost function Updated<K, V>(m: map<K, V>, us: set<K>, f: V -> V): map<K, V> {
    map u | u in m :: if u in us then f(m[u]) else m[u]
  }

  ghost function Observer(nowSec: nat): GoodEntry -> GoodEntry {
    (e: GoodEntry) => Observe(e, nowSec)
  }

  ghost function ObserveClients(m: Collector, us: set<Uuid>, nowSec: nat): Collector {
    Updated(m, us, Observer(nowSec))
  }

  lemma UpdatedOneMore<K, V>(m: map<K, V>, us: set<K>, f: V -> V, u: K)
    requires u in m && u !in us
    ensures Updated(m, us + {u}, f) == Updated(m, us, f)[u := f(m[u])]
  {
  }

  // -- runs of the collector -------------------------------------------------

  /** A call of the collector, with the second the clock showed. */
  datatype CollectorCall =
    | RegisterCall(u: Uuid, nowSec: nat)
    | RemoveCall(u: Uuid)
    | RecordForCall(u: Uuid, nowSec: nat)
    | SnapshotAllCall(nowSec: nat)

  ghost function ApplyAll(m: Collector, c: CollectorCall): Collector {
    match c
    case RegisterCall(u, t) => RegisterClient(m, u, t)
    case RemoveCall(u) => Without(m, u)
    case RecordForCall(u, t) => RecordClient(m, u, t)
    case SnapshotAllCall(t) => ObserveClients(m, m.Keys, t)
  }

  ghost function Collect(calls: seq<CollectorCall>): Collector {
    if calls == [] then map[] else ApplyAll(Collect(calls[..|calls| - 1]), calls[|calls| - 1])
  }

  /** The second `u` was last registered. */
  function StartOf(calls: seq<CollectorCall>, u: Uuid): nat {
    if calls == [] then 0
    else
      match calls[|calls| - 1]
      case RegisterCall(v, t) => if v == u then t else StartOf(calls[..|calls| - 1], u)
      case _ => StartOf(calls[..|calls| - 1], u)
  }

  /** What has reached `u`'s entry since: the records for `u` and every snapshot, in order. */
  function CallsOf(calls: seq<CollectorCall>, u: Uuid): seq<Call> {
    if calls == [] then []
    else
      var before := CallsOf(calls[..|calls| - 1], u);
      match calls[|calls| - 1]
      case RegisterCall(v, _) => if v == u then [] else before
      case RemoveCall(_) => before
      case RecordForCall(v, t) => if v == u then before + [RecordCall(t)] else before
      case SnapshotAllCall(t) => before + [SnapshotCall(t)]
  }

  lemma AfterSnoc(start: nat, calls: seq<Call>, c: Call)
    ensures After(start, calls + [c]) == Apply(After(start, calls), c)
  {
    assert (calls + [c])[..|calls|] == calls;
  }

  /** Over any run of the collector, an entry is what its own registration, records and the snapshots make of it. */
  lemma {:induction false} EntryIsItsCalls(calls: seq<CollectorCall>, u: Uuid)
    requires u in Collect(calls)
    ensures Collect(calls)[u] == After(StartOf(calls, u), CallsOf(calls, u))
  {
    var before, c := calls[..|calls| - 1], calls[|calls| - 1];
    if !(c.RegisterCall? && c.u == u) {
      EntryIsItsCalls(before, u);
      var start, own := StartOf(before, u), CallsOf(before, u);
      match c
      case RecordForCall(v, t) => if v == u { AfterSnoc(start, own, RecordCall(t)); }
      case SnapshotAllCall(t) => AfterSnoc(start, own, SnapshotCall(t));
      case _ =>
    }
  }

  /** Exact counts of the last second, 3600 seconds and 24 hours of the calls' requests, each within the next. */
  ghost predicate ExactFigures(perSec: nat, perHour: nat, perDay: nat, total: nat, start: nat, calls: seq<Call>) {
    var log, now := Log(start, calls), Clock(start, calls);
    && perSec == CountAt(log, now)
    && perHour == CountIn(log, now - 3600, now)
    && perDay == CountIn(HourLog(log), now / 3600 - 24, now / 3600)
    && perSec <= perHour <= perDay <= total == |log|
  }

  lemma AfterIsExact(start: nat, calls: seq<Call>)
    ensures
      var e := After(start, calls);
      e.totalRequests < TWO_TO_THE_32 ==>
        ExactFigures(ReqPerSec(e), ReqPerHour(e), ReqPerDay(e), e.totalRequests, start, calls)
  {
    WindowsRefineTheLog(start, calls);
    if After(start, calls).totalRequests < TWO_TO_THE_32 {
      ReportsAreExactCounts(start, calls);
      WindowsAreOrdered(start, calls);
    }
  }

  /** In every run each entry below 2^32 requests shows exact and ordered windows of its own calls. */
  lemma EveryEntryIsExact(calls: seq<CollectorCall>, u: Uuid)
    requires u in Collect(calls)
    ensures
      var e := Collect(calls)[u];
      e.totalRequests < TWO_TO_THE_32 ==>
        ExactFigures(ReqPerSec(e), ReqPerHour(e), ReqPerDay(e), e.totalRequests, StartOf(calls, u), CallsOf(calls, u))
  {
    EntryIsItsCalls(calls, u);
    AfterIsExact(StartOf(calls, u), CallsOf(calls, u));
  }
}
