/**
 * The wiring between the relay and the metrics: connect and disconnect events
 * create and remove entries, a forward over HTTP is recorded before it is tried,
 * and the status pages take snapshots at any time.
 */
module Status {
  import opened Prelude
  import opened Relay
  import opened RelayInvariants
  import RT = RelayTheorems
  import opened RelayTrace
  import M = Metrics

  /** What the listeners and `forwardToClient` hear of: closing the server emits nothing. */
  function Heard(events: seq<Event>): seq<Event> {
    if events == [] then []
    else
      var before := Heard(events[..|events| - 1]);
      if events[|events| - 1].Shutdown? then before else before + [events[|events| - 1]]
  }

  /** What the collector's calls answer to. Snapshots answer to nothing the relay does. */
  function Prompts(calls: seq<M.CollectorCall>): seq<Event> {
    if calls == [] then []
    else
      var before := Prompts(calls[..|calls| - 1]);
      match calls[|calls| - 1]
      case RegisterCall(u, _) => before + [Connected(u)]
      case RemoveCall(u) => before + [Disconnected(u)]
      case RecordForCall(u, _) => before + [Recorded(u)]
      case SnapshotAllCall(_) => before
  }

  /** The collector was called once for every event, in order, with snapshots in between. */
  ghost predicate Wired(events: seq<Event>, calls: seq<M.CollectorCall>) {
    Prompts(calls) == Heard(events)
  }

  // -- which clients have an entry -------------------------------------------

  /** The last connect or disconnect event of `u` is a connect. */
  predicate Up(events: seq<Event>, u: Uuid) {
    events != [] &&
    (var e := events[|events| - 1];
     e == Connected(u) || (e != Disconnected(u) && Up(events[..|events| - 1], u)))
  }

  lemma UpSnoc(events: seq<Event>, e: Event, u: Uuid)
    ensures Up(events + [e], u) <==> e == Connected(u) || (e != Disconnected(u) && Up(events, u))
  {
    assert (events + [e])[..|events|] == events;
  }

  lemma {:induction false} UpHeard(events: seq<Event>, u: Uuid)
    ensures Up(Heard(events), u) == Up(events, u)
  {
    if events != [] {
      var before, e := events[..|events| - 1], events[|events| - 1];
      UpHeard(before, u);
      UpSnoc(Heard(before), e, u);
    }
  }

  lemma {:induction false} EntryIfUp(calls: seq<M.CollectorCall>, u: Uuid)
    ensures u in M.Collect(calls) <==> Up(Prompts(calls), u)
  {
    if calls != [] {
      var before := calls[..|calls| - 1];
      EntryIfUp(before, u);
      match calls[|calls| - 1]
      case RegisterCall(v, _) => UpSnoc(Prompts(before), Connected(v), u);
      case RemoveCall(v) => UpSnoc(Prompts(before), Disconnected(v), u);
      case RecordForCall(v, _) => UpSnoc(Prompts(before), Recorded(v), u);
      case SnapshotAllCall(_) =>
    }
  }

  lemma {:induction false} UpIsLast(events: seq<Event>, u: Uuid)
    ensures Up(events, u) <==> Trace(events, u) != [] && Trace(events, u)[|Trace(events, u)| - 1]
  {
    if events != [] {
      UpIsLast(events[..|events| - 1], u);
    }
  }

  /**
   * In every run, shutdowns included, and whenever snapshots are taken: a daemon has an
   * entry exactly if it is registered or some `close()` left it behind, and never both.
   */
  lemma EntryExactly(cfg: Config, steps: seq<Step>, calls: seq<M.CollectorCall>, u: Uuid)
    requires Runs(cfg, steps) && Wired(After(cfg, steps).events, calls)
    ensures
      var s := After(cfg, steps);
      && (u in M.Collect(calls) <==> u in s.clients || LeftBehind(cfg, steps, u))
      && (LeftBehind(cfg, steps, u) ==> u !in s.clients)
  {
    EntryIfUp(calls, u);
    UpHeard(After(cfg, steps).events, u);
    UpIsLast(After(cfg, steps).events, u);
    LastEventTells(cfg, steps, u);
  }

  /** So entries and registry agree if and only if no `close()` left anyone behind; at first, none has run. */
  lemma EntriesAreClients(cfg: Config, steps: seq<Step>, calls: seq<M.CollectorCall>)
    requires Runs(cfg, steps) && Wired(After(cfg, steps).events, calls)
    ensures
      var s := After(cfg, steps);
      && s.clients.Keys <= M.Collect(calls).Keys
      && (M.Collect(calls).Keys == s.clients.Keys <==> forall u: Uuid :: !LeftBehind(cfg, steps, u))
      && ((forall i :: 0 <= i < |steps| ==> !steps[i].CloseServerStep?) ==> M.Collect(calls).Keys == s.clients.Keys)
  {
    var s := After(cfg, steps);
    forall u: Uuid
      ensures u in M.Collect(calls).Keys <==> u in s.clients.Keys || LeftBehind(cfg, steps, u)
      ensures LeftBehind(cfg, steps, u) ==> u !in s.clients.Keys
      ensures LeftBehind(cfg, steps, u) ==> exists i :: 0 <= i < |steps| && steps[i].CloseServerStep?
    {
      EntryExactly(cfg, steps, calls, u);
      if LeftBehind(cfg, steps, u) {
        var i :| 0 <= i < |steps| && LeftBehindAt(cfg, steps, i, u);
        assert steps[i].CloseServerStep?;
      }
    }
  }

  /**
   * Any `close()` empties the registry behind the metrics' back: they agree after it only
   * if nobody was connected and no earlier one had left anyone behind.
   */
  lemma CloseLeavesEntries(cfg: Config, steps: seq<Step>, order: seq<ReqId>, calls: seq<M.CollectorCall>)
    requires Runs(cfg, steps) && ListsPending(After(cfg, steps), order)
    ensures
      var s := After(cfg, steps);
      var s' := Next(cfg, s, CloseServerStep(order));
      && (Wired(s'.events, calls) <==> Wired(s.events, calls))
      && (Wired(s'.events, calls) ==>
            && s.clients.Keys <= M.Collect(calls).Keys
            && (M.Collect(calls).Keys == s'.clients.Keys <==>
                  s.clients == map[] && forall u: Uuid :: !LeftBehind(cfg, steps, u)))
  {
    var s := After(cfg, steps);
    var s' := Next(cfg, s, CloseServerStep(order));
    assert s'.events[..|s.events|] == s.events && s'.events[|s.events|] == Shutdown;
    if Wired(s.events, calls) { EntriesAreClients(cfg, steps, calls); }
  }

  // -- what an entry counts --------------------------------------------------

  /** How many HTTP forwards found `u` registered since the hello that registered it. */
  ghost function Forwards(cfg: Config, steps: seq<Step>, u: Uuid): nat
    requires Runs(cfg, steps)
  {
    if steps == [] then 0
    else
      var before, step := steps[..|steps| - 1], steps[|steps| - 1];
      if RT.AcceptedHello(cfg, After(cfg, before), step, u) then 0
      else Forwards(cfg, before, u) +
           if step.HttpForwardStep? && step.u == u && u in After(cfg, before).clients then 1 else 0
  }

  function Tally(events: seq<Event>, u: Uuid): nat {
    if events == [] then 0
    else
      var n := |events| - 1;
      if events[n] == Connected(u) then 0
      else Tally(events[..n], u) + if events[n] == Recorded(u) then 1 else 0
  }

  lemma TallyOfEmit(events: seq<Event>, e: Event, u: Uuid)
    ensures Tally(events + [e], u) ==
              if e == Connected(u) then 0 else Tally(events, u) + if e == Recorded(u) then 1 else 0
  {
    assert (events + [e])[..|events|] == events;
  }

  lemma CleanupTally(s: Server, w: Sock, u: Uuid)
    requires w in s.conns
    ensures Tally(Relay.Cleanup(s, w).events, u) == Tally(s.events, u)
  {
    var c := s.conns[w];
    if c.registered.Some? && c.registered.value in s.clients && s.clients[c.registered.value].sock == w {
      TallyOfEmit(s.events, Disconnected(c.registered.value), u);
    }
  }

  lemma EvictTally(s: Server, v: Uuid, u: Uuid)
    ensures Tally(Evict(s, v).events, u) == Tally(s.events, u)
  {
    TallyOfEmit(s.events, Disconnected(v), u);
  }

  lemma RegisterTally(cfg: Config, s: Server, w: Sock, key: Bytes, now: nat, u: Uuid)
    requires w in s.conns && s.conns[w].cert.P256?
    ensures
      Tally(Relay.Register(cfg, s, w, key, now).events, u) ==
        if cfg.uuidOf(s.conns[w].cert.point) == u then 0 else Tally(s.events, u)
  {
    hide Tally, Evict;
    var v := cfg.uuidOf(s.conns[w].cert.point);
    EvictTally(s, v, u);
    EvictLeavesBooks(s, v);
    TallyOfEmit(Evict(s, v).events, Connected(v), u);
  }

  lemma MessageTally(cfg: Config, s: Server, w: Sock, f: ClientFrame, now: nat, u: Uuid)
    requires Live(s, w)
    ensures
      Tally(OnMessage(cfg, s, w, f, now).events, u) ==
        if RT.AcceptedHello(cfg, s, MessageStep(w, f, now), u) then 0 else Tally(s.events, u)
  {
    if f.Hello? && s.conns[w].registered == None && ValidateDecryptPubkey(cfg, f.decryptPubkey) == None {
      RegisterTally(cfg, s, w, f.decryptPubkey, now, u);
    }
  }

  lemma ForwardEmitsNothing(cfg: Config, s: Server, v: Uuid, req: Request, b: nat)
    ensures Relay.Forward(cfg, s, v, req, b).events == s.events
  {
  }

  lemma ForwardTally(cfg: Config, s: Server, v: Uuid, req: Request, b: nat, u: Uuid)
    ensures
      Tally(HttpForward(cfg, s, v, req, b).events, u) ==
        Tally(s.events, u) + if v == u && u in s.clients then 1 else 0
  {
    hide Tally, Relay.Forward;
    TallyOfEmit(s.events, Recorded(v), u);
    ForwardEmitsNothing(cfg, Emit(s, Recorded(v)), v, req, b);
  }

  lemma StepTally(cfg: Config, s: Server, step: Step, u: Uuid)
    requires Enabled(s, step)
    ensures
      Tally(Next(cfg, s, step).events, u) ==
        if RT.AcceptedHello(cfg, s, step, u) then 0
        else Tally(s.events, u) + if step.HttpForwardStep? && step.u == u && u in s.clients then 1 else 0
  {
    hide Tally, Cleanup, OnMessage, Forward;
    match step
    case MessageStep(w, f, now) => MessageTally(cfg, s, w, f, now, u);
    case PingTickStep(w, _) => CleanupTally(s, w, u);
    case PongTimeoutStep(w, h) =>
      var c := s.conns[w].(keepalive := K.Fire(s.conns[w].keepalive, h));
      CleanupTally(SetConn(SetConn(s, w, c), w, Shut(c)), w, u);
    case CloseEventStep(w) => CleanupTally(SetConn(s, w, s.conns[w].(ready := Closed)), w, u);
    case ErrorEventStep(w) => CleanupTally(SetConn(s, w, Shut(s.conns[w])), w, u);
    case ForwardStep(v, req, b) => ForwardEmitsNothing(cfg, s, v, req, b);
    case HttpForwardStep(v, req, b) => ForwardTally(cfg, s, v, req, b, u);
    case CloseServerStep(order) => TallyOfEmit(s.events, Shutdown, u);
    case _ =>
  }

  lemma {:induction false} TallyIsForwards(cfg: Config, steps: seq<Step>, u: Uuid)
    requires Runs(cfg, steps)
    ensures Tally(After(cfg, steps).events, u) == Forwards(cfg, steps, u)
  {
    if steps != [] {
      var before := steps[..|steps| - 1];
      TallyIsForwards(cfg, before, u);
      StepTally(cfg, After(cfg, before), steps[|steps| - 1], u);
    }
  }

  lemma {:induction false} TallyHeard(events: seq<Event>, u: Uuid)
    ensures Tally(Heard(events), u) == Tally(events, u)
  {
    if events != [] {
      var before, e := events[..|events| - 1], events[|events| - 1];
      TallyHeard(before, u);
      TallyOfEmit(Heard(before), e, u);
    }
  }

  /** An entry's total is the tally of the events behind the calls; snapshots leave it alone. */
  lemma {:induction false} TotalIsTally(calls: seq<M.CollectorCall>, u: Uuid)
    requires u in M.Collect(calls)
    ensures M.Collect(calls)[u].totalRequests == Tally(Prompts(calls), u)
  {
    var before, c := calls[..|calls| - 1], calls[|calls| - 1];
    if !(c.RegisterCall? && c.u == u) { TotalIsTally(before, u); }
    match c
    case RegisterCall(v, _) => TallyOfEmit(Prompts(before), Connected(v), u);
    case RemoveCall(v) => TallyOfEmit(Prompts(before), Disconnected(v), u);
    case RecordForCall(v, _) => TallyOfEmit(Prompts(before), Recorded(v), u);
    case SnapshotAllCall(_) =>
  }

  /**
   * A registered daemon's `totalRequests` counts the HTTP forwards of its current
   * registration, whatever became of them; below 2^32 of them its windows are exact.
   */
  lemma TotalCountsCurrentRegistration(cfg: Config, steps: seq<Step>, calls: seq<M.CollectorCall>, u: Uuid)
    requires Runs(cfg, steps) && Wired(After(cfg, steps).events, calls) && u in After(cfg, steps).clients
    ensures u in M.Collect(calls) && M.Collect(calls)[u].totalRequests == Forwards(cfg, steps, u)
    ensures
      var e := M.Collect(calls)[u];
      Forwards(cfg, steps, u) < TWO_TO_THE_32 ==>
        M.ExactFigures(M.ReqPerSec(e), M.ReqPerHour(e), M.ReqPerDay(e), Forwards(cfg, steps, u),
                       M.StartOf(calls, u), M.CallsOf(calls, u))
  {
    EntriesAreClients(cfg, steps, calls);
    TotalIsTally(calls, u);
    TallyHeard(After(cfg, steps).events, u);
    TallyIsForwards(cfg, steps, u);
    M.EveryEntryIsExact(calls, u);
  }
}
