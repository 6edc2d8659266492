/** The whole connect and disconnect trace of one daemon, shutdowns included. */
module RelayTrace {
  import opened Prelude
  import opened Relay
  import opened RelayInvariants
  import RT = RelayTheorems
  import K = Keepalive

  /** Every connected (true) and disconnected (false) event of `u`. A shutdown leaves no mark. */
  function Trace(events: seq<Event>, u: Uuid): seq<bool> {
    if events == [] then []
    else
      var before := Trace(events[..|events| - 1], u);
      match events[|events| - 1]
      case Connected(v) => if v == u then before + [true] else before
      case Disconnected(v) => if v == u then before + [false] else before
      case Recorded(_) => before
      case Shutdown => before
  }

  lemma TraceOfEmit(events: seq<Event>, e: Event, u: Uuid)
    ensures Trace(events + [e], u) ==
              if e == Connected(u) then Trace(events, u) + [true]
              else if e == Disconnected(u) then Trace(events, u) + [false]
              else Trace(events, u)
  {
    assert (events + [e])[..|events|] == events;
  }

  // -- what one step emits ---------------------------------------------------

  /**
   * A hello announces its daemon, after the end of the registration it replaces; a
   * registration lost otherwise is announced once, except by a shutdown.
   */
  function Emitted(hello: bool, close: bool, up: bool, stillUp: bool): seq<bool> {
    if hello then (if up then [false, true] else [true])
    else if up && !stillUp && !close then [false]
    else []
  }

  lemma CleanupEmits(s: Server, w: Sock, u: Uuid)
    requires w in s.conns
    ensures
      var s' := Cleanup(s, w);
      && s'.clients.Keys <= s.clients.Keys
      && Trace(s'.events, u) ==
           if u in s.clients && u !in s'.clients then Trace(s.events, u) + [false] else Trace(s.events, u)
  {
    var r := s.conns[w].registered;
    if r.Some? && r.value in s.clients && s.clients[r.value].sock == w {
      TraceOfEmit(s.events, Disconnected(r.value), u);
    }
  }

  lemma EvictEmits(s: Server, v: Uuid, u: Uuid)
    ensures
      var s' := Evict(s, v);
      && s'.clients.Keys == s.clients.Keys - {v}
      && Trace(s'.events, u) == if u == v && u in s.clients then Trace(s.events, u) + [false] else Trace(s.events, u)
  {
    TraceOfEmit(s.events, Disconnected(v), u);
  }

  lemma RegisterAfterEvict(cfg: Config, s: Server, w: Sock, key: Bytes, now: nat)
    requires w in s.conns && s.conns[w].cert.P256?
    ensures
      var v, s' := cfg.uuidOf(s.conns[w].cert.point), Register(cfg, s, w, key, now);
      && s'.clients.Keys == Evict(s, v).clients.Keys + {v}
      && s'.events == Evict(s, v).events + [Connected(v)]
  {
  }

  lemma RegisterEmits(cfg: Config, s: Server, w: Sock, key: Bytes, now: nat, u: Uuid)
    requires w in s.conns && s.conns[w].cert.P256?
    ensures
      var v, s' := cfg.uuidOf(s.conns[w].cert.point), Register(cfg, s, w, key, now);
      && (u in s'.clients <==> u == v || u in s.clients)
      && Trace(s'.events, u) ==
           if u == v then Trace(s.events, u) + Emitted(true, false, u in s.clients, true) else Trace(s.events, u)
  {
    var v := cfg.uuidOf(s.conns[w].cert.point);
    RegisterAfterEvict(cfg, s, w, key, now);
    EvictEmits(s, v, u);
    TraceOfEmit(Evict(s, v).events, Connected(v), u);
    assert Trace(s.events, u) + [false] + [true] == Trace(s.events, u) + [false, true];
  }

  lemma MessageEmits(cfg: Config, s: Server, w: Sock, f: ClientFrame, now: nat, u: Uuid)
    requires Live(s, w)
    ensures
      var s', hello := OnMessage(cfg, s, w, f, now), RT.AcceptedHello(cfg, s, MessageStep(w, f, now), u);
      && (u in s'.clients <==> hello || u in s.clients)
      && Trace(s'.events, u) == Trace(s.events, u) + Emitted(hello, false, u in s.clients, u in s'.clients)
  {
    if f.Hello? && s.conns[w].registered == None && ValidateDecryptPubkey(cfg, f.decryptPubkey) == None {
      RegisterEmits(cfg, s, w, f.decryptPubkey, now, u);
    }
  }

  lemma ForwardEmits(cfg: Config, s: Server, v: Uuid, req: Request, b: nat, u: Uuid)
    ensures Forward(cfg, s, v, req, b).events == s.events && Forward(cfg, s, v, req, b).clients == s.clients
    ensures HttpForward(cfg, s, v, req, b).clients == s.clients
    ensures Trace(HttpForward(cfg, s, v, req, b).events, u) == Trace(s.events, u)
  {
    TraceOfEmit(s.events, Recorded(v), u);
  }

  lemma SocketEventEmits(cfg: Config, s: Server, step: Step, u: Uuid)
    requires Enabled(s, step)
    requires step.PingTickStep? || step.PongTimeoutStep? || step.CloseEventStep? || step.ErrorEventStep?
    ensures
      var s' := Next(cfg, s, step);
      && s'.clients.Keys <= s.clients.Keys
      && Trace(s'.events, u) == Trace(s.events, u) + Emitted(false, false, u in s.clients, u in s'.clients)
  {
    hide Cleanup, Trace;
    match step
    case PingTickStep(w, _) => CleanupEmits(s, w, u);
    case PongTimeoutStep(w, h) =>
      var c := s.conns[w].(keepalive := K.Fire(s.conns[w].keepalive, h));
      CleanupEmits(SetConn(SetConn(s, w, c), w, Shut(c)), w, u);
    case CloseEventStep(w) => CleanupEmits(SetConn(s, w, s.conns[w].(ready := Closed)), w, u);
    case ErrorEventStep(w) => CleanupEmits(SetConn(s, w, Shut(s.conns[w])), w, u);
  }

  lemma QuietStepEmits(cfg: Config, s: Server, step: Step, u: Uuid)
    requires Enabled(s, step)
    requires step.AcceptStep? || step.PongStep? || step.PeerClosingStep? || step.RequestTimeoutStep?
    ensures Next(cfg, s, step).clients == s.clients && Next(cfg, s, step).events == s.events
  {
    hide OnMessage, Cleanup, Forward;
  }

  /** What any step adds to the trace, and how it changes the registry. */
  lemma StepEmits(cfg: Config, s: Server, step: Step, u: Uuid)
    requires Enabled(s, step)
    ensures
      var s', hello := Next(cfg, s, step), RT.AcceptedHello(cfg, s, step, u);
      && (hello ==> u in s'.clients) && (u in s'.clients ==> hello || u in s.clients)
      && (step.CloseServerStep? ==> u !in s'.clients)
      && Trace(s'.events, u) ==
           Trace(s.events, u) + Emitted(hello, step.CloseServerStep?, u in s.clients, u in s'.clients)
  {
    match step
    case MessageStep(w, f, now) => MessageEmits(cfg, s, w, f, now, u);
    case PingTickStep(_, _) => SocketEventEmits(cfg, s, step, u);
    case PongTimeoutStep(_, _) => SocketEventEmits(cfg, s, step, u);
    case CloseEventStep(_) => SocketEventEmits(cfg, s, step, u);
    case ErrorEventStep(_) => SocketEventEmits(cfg, s, step, u);
    case ForwardStep(v, req, b) => ForwardEmits(cfg, s, v, req, b, u);
    case HttpForwardStep(v, req, b) => ForwardEmits(cfg, s, v, req, b, u);
    case CloseServerStep(order) => TraceOfEmit(s.events, Shutdown, u);
    case _ => QuietStepEmits(cfg, s, step, u);
  }

  // -- when the whole trace alternates ---------------------------------------

  lemma {:induction false} PrefixRuns(cfg: Config, steps: seq<Step>, k: nat)
    requires Runs(cfg, steps) && k <= |steps|
    ensures Runs(cfg, steps[..k])
  {
    if k == |steps| {
      assert steps[..k] == steps;
    } else {
      PrefixRuns(cfg, steps[..|steps| - 1], k);
      assert steps[..|steps| - 1][..k] == steps[..k];
    }
  }

  /** Step `i` is a `close()` while `u` is in the registry. */
  ghost predicate ClosedOn(cfg: Config, steps: seq<Step>, i: nat, u: Uuid)
    requires i < |steps|
  {
    steps[i].CloseServerStep? && Runs(cfg, steps[..i]) && u in After(cfg, steps[..i]).clients
  }

  /** Step `j` is an accepted hello of `u`. */
  ghost predicate HelloAt(cfg: Config, steps: seq<Step>, j: nat, u: Uuid)
    requires j < |steps|
  {
    Runs(cfg, steps[..j]) && RT.AcceptedHello(cfg, After(cfg, steps[..j]), steps[j], u)
  }

  ghost predicate Stranded(cfg: Config, steps: seq<Step>, u: Uuid) {
    exists i :: 0 <= i < |steps| && ClosedOn(cfg, steps, i, u)
  }

  /** A `close()` that took `u`'s registration away is followed by a hello of `u`. */
  ghost predicate Revived(cfg: Config, steps: seq<Step>, u: Uuid) {
    exists i, j :: 0 <= i < j < |steps| && ClosedOn(cfg, steps, i, u) && HelloAt(cfg, steps, j, u)
  }

  lemma SamePast(cfg: Config, steps: seq<Step>, i: nat, u: Uuid)
    requires i < |steps| - 1
    ensures ClosedOn(cfg, steps, i, u) == ClosedOn(cfg, steps[..|steps| - 1], i, u)
    ensures HelloAt(cfg, steps, i, u) == HelloAt(cfg, steps[..|steps| - 1], i, u)
  {
    assert steps[..|steps| - 1][..i] == steps[..i];
  }

  lemma StrandedByLast(cfg: Config, steps: seq<Step>, u: Uuid)
    requires steps != []
    ensures
      var n := |steps| - 1;
      Stranded(cfg, steps, u) <==> Stranded(cfg, steps[..n], u) || ClosedOn(cfg, steps, n, u)
  {
    var n := |steps| - 1;
    if Stranded(cfg, steps, u) && !ClosedOn(cfg, steps, n, u) {
      var i :| 0 <= i < |steps| && ClosedOn(cfg, steps, i, u);
      SamePast(cfg, steps, i, u);
      assert ClosedOn(cfg, steps[..n], i, u);
    }
    if Stranded(cfg, steps[..n], u) {
      var i :| 0 <= i < n && ClosedOn(cfg, steps[..n], i, u);
      SamePast(cfg, steps, i, u);
      assert ClosedOn(cfg, steps, i, u);
    }
  }

  lemma RevivedEarlier(cfg: Config, steps: seq<Step>, u: Uuid)
    requires steps != []
    ensures
      var n := |steps| - 1;
      Revived(cfg, steps[..n], u) || (Stranded(cfg, steps[..n], u) && HelloAt(cfg, steps, n, u)) ==>
        Revived(cfg, steps, u)
  {
    hide ClosedOn, HelloAt;
    var n := |steps| - 1;
    if Revived(cfg, steps[..n], u) {
      var i, j :| 0 <= i < j < n && ClosedOn(cfg, steps[..n], i, u) && HelloAt(cfg, steps[..n], j, u);
      SamePast(cfg, steps, i, u);
      SamePast(cfg, steps, j, u);
      assert ClosedOn(cfg, steps, i, u) && HelloAt(cfg, steps, j, u);
    } else if Stranded(cfg, steps[..n], u) && HelloAt(cfg, steps, n, u) {
      var i :| 0 <= i < n && ClosedOn(cfg, steps[..n], i, u);
      SamePast(cfg, steps, i, u);
      assert ClosedOn(cfg, steps, i, u);
    }
  }

  lemma RevivedByLast(cfg: Config, steps: seq<Step>, u: Uuid)
    requires steps != []
    ensures
      var n := |steps| - 1;
      Revived(cfg, steps, u) <==>
        Revived(cfg, steps[..n], u) || (Stranded(cfg, steps[..n], u) && HelloAt(cfg, steps, n, u))
  {
    hide ClosedOn, HelloAt;
    RevivedEarlier(cfg, steps, u);
    var n := |steps| - 1;
    if Revived(cfg, steps, u) {
      var i, j :| 0 <= i < j < |steps| && ClosedOn(cfg, steps, i, u) && HelloAt(cfg, steps, j, u);
      SamePast(cfg, steps, i, u);
      assert ClosedOn(cfg, steps[..n], i, u);
      if j < n {
        SamePast(cfg, steps, j, u);
        assert HelloAt(cfg, steps[..n], j, u);
      }
    }
  }

  lemma AlternatingSnoc(life: seq<bool>, b: bool)
    ensures Alternating(life + [b]) <==> Alternating(life) && b == (|life| % 2 == 0)
  {
    var all := life + [b];
    if Alternating(all) {
      forall i | 0 <= i < |life| ensures life[i] == (i % 2 == 0) { assert all[i] == life[i]; }
      assert all[|life|] == b;
    }
  }

  /** How trace, registry and the two conditions hang together. */
  ghost predicate TraceTells(trace: seq<bool>, up: bool, stranded: bool, revived: bool) {
    if revived then !Alternating(trace)
    else Alternating(trace) && (|trace| % 2 == 1 <==> up || stranded) && (stranded ==> !up)
  }

  lemma TellsAfterEmit(
    trace: seq<bool>, hello: bool, close: bool, up: bool, stillUp: bool, stranded: bool, revived: bool)
    requires TraceTells(trace, up, stranded, revived)
    requires (hello ==> stillUp && !close) && (stillUp ==> hello || up) && (close ==> !stillUp)
    ensures
      TraceTells(trace + Emitted(hello, close, up, stillUp),
                 stillUp, stranded || (close && up), revived || (stranded && hello))
  {
    AlternatingSnoc(trace, true);
    AlternatingSnoc(trace, false);
    AlternatingSnoc(trace + [false], true);
    assert trace + [false, true] == trace + [false] + [true] && trace + [] == trace;
  }

  lemma {:induction false} RunTells(cfg: Config, steps: seq<Step>, u: Uuid)
    requires Runs(cfg, steps)
    ensures
      TraceTells(Trace(After(cfg, steps).events, u), u in After(cfg, steps).clients,
                 Stranded(cfg, steps, u), Revived(cfg, steps, u))
  {
    if steps != [] {
      var n := |steps| - 1;
      var s := After(cfg, steps[..n]);
      RunTells(cfg, steps[..n], u);
      StrandedByLast(cfg, steps, u);
      RevivedByLast(cfg, steps, u);
      StepEmits(cfg, s, steps[n], u);
      TellsAfterEmit(Trace(s.events, u), RT.AcceptedHello(cfg, s, steps[n], u), steps[n].CloseServerStep?,
                     u in s.clients, u in After(cfg, steps).clients,
                     Stranded(cfg, steps[..n], u), Revived(cfg, steps[..n], u));
    }
  }

  /**
   * Over every run the events of a daemon alternate, connected first, if and only if
   * no `close()` that finds it registered is followed by an accepted hello of it.
   */
  lemma AlternatesExactly(cfg: Config, steps: seq<Step>, u: Uuid)
    requires Runs(cfg, steps)
    ensures Alternating(Trace(After(cfg, steps).events, u)) <==> !Revived(cfg, steps, u)
    ensures forall k :: 0 <= k <= |steps| ==> Runs(cfg, steps[..k])
  {
    forall k | 0 <= k <= |steps| ensures Runs(cfg, steps[..k]) {
      PrefixRuns(cfg, steps, k);
    }
    RunTells(cfg, steps, u);
  }

  // -- who a close leaves behind ---------------------------------------------

  ghost predicate LeftBehindAt(cfg: Config, steps: seq<Step>, i: nat, u: Uuid)
    requires i < |steps|
  {
    ClosedOn(cfg, steps, i, u) && forall j :: i < j < |steps| ==> !HelloAt(cfg, steps, j, u)
  }

  /** Some `close()` found `u` registered, and no accepted hello of `u` followed. */
  ghost predicate LeftBehind(cfg: Config, steps: seq<Step>, u: Uuid) {
    exists i :: 0 <= i < |steps| && LeftBehindAt(cfg, steps, i, u)
  }

  lemma LeftBehindByLast(cfg: Config, steps: seq<Step>, u: Uuid)
    requires steps != []
    ensures
      var n := |steps| - 1;
      LeftBehind(cfg, steps, u) <==>
        ClosedOn(cfg, steps, n, u) || (LeftBehind(cfg, steps[..n], u) && !HelloAt(cfg, steps, n, u))
  {
    hide ClosedOn, HelloAt;
    var n := |steps| - 1;
    forall i: nat | i < n
      ensures LeftBehindAt(cfg, steps, i, u) <==>
                LeftBehindAt(cfg, steps[..n], i, u) && !HelloAt(cfg, steps, n, u)
    {
      SamePast(cfg, steps, i, u);
      forall j: nat | i < j < n ensures HelloAt(cfg, steps, j, u) == HelloAt(cfg, steps[..n], j, u) {
        SamePast(cfg, steps, j, u);
      }
    }
    if ClosedOn(cfg, steps, n, u) { assert LeftBehindAt(cfg, steps, n, u); }
    if LeftBehind(cfg, steps[..n], u) && !HelloAt(cfg, steps, n, u) {
      var i :| 0 <= i < n && LeftBehindAt(cfg, steps[..n], i, u);
      assert LeftBehindAt(cfg, steps, i, u);
    }
  }

  lemma TellsLast(trace: seq<bool>, hello: bool, close: bool, up: bool, stillUp: bool, behind: bool)
    requires up || behind <==> trace != [] && trace[|trace| - 1]
    requires behind ==> !up
    requires (hello ==> stillUp && !close) && (stillUp ==> hello || up) && (close ==> !stillUp)
    ensures
      var trace', behind' := trace + Emitted(hello, close, up, stillUp), (close && up) || (behind && !hello);
      (stillUp || behind' <==> trace' != [] && trace'[|trace'| - 1]) && (behind' ==> !stillUp)
  {
    assert trace + [] == trace;
  }

  /** In every run the last event of `u` is a connect exactly if `u` is registered or was left behind, never both. */
  lemma {:induction false} LastEventTells(cfg: Config, steps: seq<Step>, u: Uuid)
    requires Runs(cfg, steps)
    ensures
      var s := After(cfg, steps);
      var trace := Trace(s.events, u);
      && (u in s.clients || LeftBehind(cfg, steps, u) <==> trace != [] && trace[|trace| - 1])
      && (LeftBehind(cfg, steps, u) ==> u !in s.clients)
  {
    hide Next;
    if steps != [] {
      var n := |steps| - 1;
      var s := After(cfg, steps[..n]);
      LastEventTells(cfg, steps[..n], u);
      LeftBehindByLast(cfg, steps, u);
      StepEmits(cfg, s, steps[n], u);
      TellsLast(Trace(s.events, u), RT.AcceptedHello(cfg, s, steps[n], u), steps[n].CloseServerStep?,
                u in s.clients, u in After(cfg, steps).clients, LeftBehind(cfg, steps[..n], u));
    }
  }
}
