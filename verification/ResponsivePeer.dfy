/**
 * A daemon that answers every ping before that ping's timeout. Does keepalive
 * ever terminate its socket? Exactly when the pong timeout is longer than the
 * ping interval: a tick then overwrites `pongTimer` while the earlier timer is
 * still armed, and no pong can clear that timer any more.
 */
module ResponsivePeer {
  import opened Prelude
  import opened Relay
  import opened RelayInvariants
  import opened KeepaliveTiming
  import RT = RelayTheorems
  import K = Keepalive

  ghost function AfterMove(c: Clocked, m: Move, w: Sock, unanswered: seq<nat>): seq<nat> {
    if m.Do? && m.step.PingTickStep? && m.step.w == w && w in c.server.conns && c.server.conns[w].ready == Open
    then unanswered + [c.now]
    else if m == Do(PongStep(w)) && unanswered != [] then unanswered[1..]
    else unanswered
  }

  /** When each ping on `w` that no pong has followed yet was sent. A pong nobody asked for is allowed. */
  ghost function Unanswered(cfg: Config, moves: seq<Move>, w: Sock): seq<nat>
    requires Timeline(cfg, moves)
  {
    if moves == [] then []
    else
      var before, m := moves[..|moves| - 1], moves[|moves| - 1];
      AfterMove(At(cfg, before), m, w, Unanswered(cfg, before, w))
  }

  ghost predicate IsOpen(s: Server, w: Sock) {
    w in s.conns && s.conns[w].ready == Open
  }

  ghost predicate BeforeTimeout(cfg: Config, now: nat, unanswered: seq<nat>) {
    forall i :: 0 <= i < |unanswered| ==> now < unanswered[i] + K.Delay(cfg.timing.pongTimeoutMs)
  }

  /** At this moment no unanswered ping of the open socket `w` has reached its timeout. */
  ghost predicate InTime(cfg: Config, moves: seq<Move>, w: Sock)
    requires Timeline(cfg, moves)
  {
    IsOpen(At(cfg, moves).server, w) ==> BeforeTimeout(cfg, At(cfg, moves).now, Unanswered(cfg, moves, w))
  }

  /** At no moment so far has one. */
  ghost predicate Responsive(cfg: Config, moves: seq<Move>, w: Sock)
    requires Timeline(cfg, moves)
    decreases |moves|
  {
    InTime(cfg, moves, w) && (moves != [] ==> Responsive(cfg, moves[..|moves| - 1], w))
  }

  /** While the socket is open: no ping outstanding and no timer, or one of each, the timer in the variable. */
  ghost predicate Quiet(cfg: Config, c: Conn, unanswered: seq<nat>) {
    && (unanswered != [] ==> c.registered.Some?)
    && match |unanswered|
       case 0 => c.keepalive.armed == map[] && c.keepalive.pongTimer == None
       case 1 =>
         && c.keepalive.pongTimer.Some?
         && c.keepalive.armed ==
              map[c.keepalive.pongTimer.value := unanswered[0] + K.Delay(cfg.timing.pongTimeoutMs)]
         && c.keepalive.pingDue == Some(unanswered[0] + K.Delay(cfg.timing.pingIntervalMs))
       case _ => false
  }

  ghost predicate QuietAt(cfg: Config, c: Clocked, w: Sock, unanswered: seq<nat>) {
    IsOpen(c.server, w) ==> Quiet(cfg, c.server.conns[w], unanswered)
  }

  lemma CleanupOpensNothing(s: Server, w: Sock, v: Sock)
    requires w in s.conns && v in s.conns
    ensures v in Cleanup(s, w).conns && Cleanup(s, w).conns[v].ready == s.conns[v].ready
  {
  }

  lemma EvictOpensNothing(s: Server, u: Uuid, v: Sock)
    requires v in s.conns && IsOpen(Evict(s, u), v)
    ensures IsOpen(s, v)
  {
  }

  lemma MessageOpensNothing(cfg: Config, s: Server, w: Sock, f: ClientFrame, now: nat, v: Sock)
    requires Live(s, w) && v in s.conns && IsOpen(OnMessage(cfg, s, w, f, now), v)
    ensures IsOpen(s, v)
  {
    if f.Hello? && s.conns[w].registered == None && ValidateDecryptPubkey(cfg, f.decryptPubkey) == None {
      EvictOpensNothing(s, cfg.uuidOf(s.conns[w].cert.point), v);
    }
  }

  lemma ForwardOpensNothing(cfg: Config, s: Server, u: Uuid, req: Request, b: nat, v: Sock)
    requires v in s.conns && IsOpen(Forward(cfg, s, u, req, b), v)
    ensures IsOpen(s, v)
  {
  }

  lemma CloseOpensNothing(s: Server, order: seq<ReqId>, v: Sock)
    requires v in s.conns && IsOpen(CloseServer(s, order), v)
    ensures IsOpen(s, v)
  {
  }

  lemma PongTimeoutShuts(s: Server, w: Sock, h: K.Handle)
    requires w in s.conns
    ensures !IsOpen(OnPongTimeout(s, w, h), w)
  {
    var c := s.conns[w].(keepalive := K.Fire(s.conns[w].keepalive, h));
    CleanupOpensNothing(SetConn(SetConn(s, w, c), w, Shut(c)), w, w);
  }

  lemma EndsAreNotOpen(cfg: Config, s: Server, step: Step)
    requires Enabled(s, step)
    requires step.PongTimeoutStep? || step.PeerClosingStep? || step.CloseEventStep? || step.ErrorEventStep?
    ensures !IsOpen(Next(cfg, s, step), step.w)
  {
    match step
    case PongTimeoutStep(w, h) => PongTimeoutShuts(s, w, h);
    case CloseEventStep(w) => CleanupOpensNothing(SetConn(s, w, s.conns[w].(ready := Closed)), w, w);
    case ErrorEventStep(w) => CleanupOpensNothing(SetConn(s, w, Shut(s.conns[w])), w, w);
    case PeerClosingStep(_) =>
  }

  lemma StaysShut(cfg: Config, s: Server, step: Step)
    requires Enabled(s, step) && IsSocketEvent(step) && step.w in s.conns && !IsOpen(s, step.w)
    ensures !IsOpen(Next(cfg, s, step), step.w)
  {
    if step.PongTimeoutStep? || step.PeerClosingStep? || step.CloseEventStep? || step.ErrorEventStep? {
      EndsAreNotOpen(cfg, s, step);
    } else if step.PingTickStep? {
      CleanupOpensNothing(s, step.w, step.w);
    }
  }

  lemma OpenBefore(cfg: Config, s: Server, step: Step, v: Sock)
    requires Enabled(s, step) && v in s.conns && IsOpen(Next(cfg, s, step), v)
    ensures IsOpen(s, v)
  {
    match step
    case MessageStep(w, f, now) => MessageOpensNothing(cfg, s, w, f, now, v);
    case ForwardStep(u, req, b) => ForwardOpensNothing(cfg, s, u, req, b, v);
    case HttpForwardStep(u, req, b) =>
      if u in s.clients { ForwardOpensNothing(cfg, Emit(s, Recorded(u)), u, req, b, v); }
    case RequestTimeoutStep(_) =>
    case CloseServerStep(order) => CloseOpensNothing(s, order, v);
    case _ =>
      EventTouchesOneSocket(cfg, s, step);
      if step.w == v && !IsOpen(s, v) { StaysShut(cfg, s, step); }
  }

  lemma AcceptedIsQuiet(cfg: Config, c: Clocked, w: Sock, cert: Certificate)
    requires Enabled(c.server, AcceptStep(w, cert))
    ensures QuietAt(cfg, Advance(cfg, c, Do(AcceptStep(w, cert))), w, [])
  {
  }

  lemma FrameKeepsQuiet(cfg: Config, c: Clocked, w: Sock, step: Step, unanswered: seq<nat>)
    requires Inv(cfg, c.server) && Allowed(c, Do(step)) && step.MessageStep? && step.w == w
    requires QuietAt(cfg, c, w, unanswered)
    ensures QuietAt(cfg, Advance(cfg, c, Do(step)), w, unanswered)
  {
    if IsOpen(Next(cfg, c.server, step), w) {
      OpenBefore(cfg, c.server, step, w);
      MessageOwnClosure(cfg, c.server, w, step.frame, step.now);
    }
  }

  lemma TickKeepsQuiet(cfg: Config, c: Clocked, w: Sock, step: Step, unanswered: seq<nat>)
    requires K.Delay(cfg.timing.pongTimeoutMs) <= K.Delay(cfg.timing.pingIntervalMs)
    requires Inv(cfg, c.server) && Allowed(c, Do(step)) && step.PingTickStep? && step.w == w
    requires QuietAt(cfg, c, w, unanswered)
    requires IsOpen(c.server, w) ==> BeforeTimeout(cfg, c.now, unanswered)
    ensures QuietAt(cfg, Advance(cfg, c, Do(step)), w, AfterMove(c, Do(step), w, unanswered))
  {
    assert GoodConn(cfg, c.server.conns[w]);
  }

  lemma PongKeepsQuiet(cfg: Config, s: Server, w: Sock, unanswered: seq<nat>)
    requires IsOpen(s, w) && Quiet(cfg, s.conns[w], unanswered)
    ensures Quiet(cfg, OnPong(s, w).conns[w], if unanswered == [] then [] else unanswered[1..])
  {
  }

  lemma EventKeepsQuiet(cfg: Config, c: Clocked, w: Sock, step: Step, unanswered: seq<nat>)
    requires Allowed(c, Do(step)) && IsSocketEvent(step) && !step.PingTickStep? && step.w == w
    requires w in c.server.conns && QuietAt(cfg, c, w, unanswered)
    ensures QuietAt(cfg, Advance(cfg, c, Do(step)), w, AfterMove(c, Do(step), w, unanswered))
  {
    if step.PongStep? {
      if IsOpen(c.server, w) { PongKeepsQuiet(cfg, c.server, w, unanswered); }
    } else {
      EndsAreNotOpen(cfg, c.server, step);
    }
  }

  lemma OthersKeepQuiet(cfg: Config, c: Clocked, w: Sock, step: Step, unanswered: seq<nat>)
    requires Allowed(c, Do(step)) && w in c.server.conns && QuietAt(cfg, c, w, unanswered)
    requires (IsSocketEvent(step) || step.MessageStep?) ==> step.w != w
    ensures QuietAt(cfg, Advance(cfg, c, Do(step)), w, unanswered)
  {
    OthersUntouched(cfg, c.server, step, w);
    if IsOpen(Next(cfg, c.server, step), w) {
      OpenBefore(cfg, c.server, step, w);
    }
  }

  lemma StepKeepsQuiet(cfg: Config, c: Clocked, w: Sock, step: Step, unanswered: seq<nat>)
    requires K.Delay(cfg.timing.pongTimeoutMs) <= K.Delay(cfg.timing.pingIntervalMs)
    requires Inv(cfg, c.server) && Allowed(c, Do(step)) && QuietAt(cfg, c, w, unanswered)
    requires IsOpen(c.server, w) ==> BeforeTimeout(cfg, c.now, unanswered)
    requires w !in c.server.conns ==> unanswered == []
    ensures QuietAt(cfg, Advance(cfg, c, Do(step)), w, AfterMove(c, Do(step), w, unanswered))
  {
    hide Quiet, Next;
    if step.AcceptStep? && step.w == w {
      AcceptedIsQuiet(cfg, c, w, step.cert);
    } else if w !in c.server.conns {
      OnlyAcceptAddsSockets(cfg, c.server, step);
    } else if step.MessageStep? && step.w == w {
      FrameKeepsQuiet(cfg, c, w, step, unanswered);
    } else if step.PingTickStep? && step.w == w {
      TickKeepsQuiet(cfg, c, w, step, unanswered);
    } else if IsSocketEvent(step) && step.w == w {
      EventKeepsQuiet(cfg, c, w, step, unanswered);
    } else {
      OthersKeepQuiet(cfg, c, w, step, unanswered);
    }
  }

  lemma {:induction false} UnknownHasNoPings(cfg: Config, moves: seq<Move>, w: Sock)
    requires Timeline(cfg, moves) && w !in At(cfg, moves).server.conns
    ensures Unanswered(cfg, moves, w) == []
    decreases |moves|
  {
    if moves != [] {
      var before, m := moves[..|moves| - 1], moves[|moves| - 1];
      var c := At(cfg, before);
      if m.Do? { OnlyAcceptAddsSockets(cfg, c.server, m.step); }
      UnknownHasNoPings(cfg, before, w);
    }
  }

  lemma {:induction false} ResponsiveIsQuiet(cfg: Config, moves: seq<Move>, w: Sock)
    requires K.Delay(cfg.timing.pongTimeoutMs) <= K.Delay(cfg.timing.pingIntervalMs)
    requires Timeline(cfg, moves) && Responsive(cfg, moves, w)
    ensures QuietAt(cfg, At(cfg, moves), w, Unanswered(cfg, moves, w))
    decreases |moves|
  {
    if moves != [] {
      var before, m := moves[..|moves| - 1], moves[|moves| - 1];
      ResponsiveIsQuiet(cfg, before, w);
      TimelineKeepsWatch(cfg, before);
      if m.Do? {
        if w !in At(cfg, before).server.conns { UnknownHasNoPings(cfg, before, w); }
        StepKeepsQuiet(cfg, At(cfg, before), w, m.step, Unanswered(cfg, before, w));
      }
    }
  }

  /**
   * In every relay timeline with the timeout within the interval, an open socket whose
   * pings were all answered in time has at most one pong timer armed, and none fires.
   */
  lemma AtMostOnePongTimer(cfg: Config, moves: seq<Move>, w: Sock)
    requires K.Delay(cfg.timing.pongTimeoutMs) <= K.Delay(cfg.timing.pingIntervalMs)
    requires Timeline(cfg, moves) && Responsive(cfg, moves, w) && IsOpen(At(cfg, moves).server, w)
    ensures |At(cfg, moves).server.conns[w].keepalive.armed| <= 1
    ensures forall h :: !Allowed(At(cfg, moves), Do(PongTimeoutStep(w, h)))
  {
    ResponsiveIsQuiet(cfg, moves, w);
  }

  // -- a schedule that goes wrong --------------------------------------------

  /** `moves` is a responsive timeline with one socket `w`, open, now with closure `k` and these pings out. */
  ghost predicate Alone(cfg: Config, moves: seq<Move>, w: Sock, now: nat, k: K.Keepalive, unanswered: seq<nat>) {
    && Timeline(cfg, moves) && Responsive(cfg, moves, w) && Unanswered(cfg, moves, w) == unanswered
    && At(cfg, moves).now == now && At(cfg, moves).server.conns.Keys == {w}
    && At(cfg, moves).server.requestTimers == {}
    && var c := At(cfg, moves).server.conns[w];
       c.keepalive == k && c.ready == Open && c.cert.P256?
  }

  lemma AppendMove(cfg: Config, moves: seq<Move>, m: Move)
    requires Timeline(cfg, moves) && Allowed(At(cfg, moves), m)
    ensures Timeline(cfg, moves + [m]) && At(cfg, moves + [m]) == Advance(cfg, At(cfg, moves), m)
  {
    hide Allowed, Advance;
    var all := moves + [m];
    assert all[..|all| - 1] == moves && all[|all| - 1] == m;
  }

  lemma Append(cfg: Config, moves: seq<Move>, m: Move, w: Sock)
    requires Timeline(cfg, moves) && Allowed(At(cfg, moves), m)
    ensures Timeline(cfg, moves + [m]) && At(cfg, moves + [m]) == Advance(cfg, At(cfg, moves), m)
    ensures Unanswered(cfg, moves + [m], w) == AfterMove(At(cfg, moves), m, w, Unanswered(cfg, moves, w))
    ensures Responsive(cfg, moves, w) && InTime(cfg, moves + [m], w) ==> Responsive(cfg, moves + [m], w)
  {
    AppendMove(cfg, moves, m);
    assert (moves + [m])[..|moves + [m]| - 1] == moves;
  }

  lemma AloneWaits(cfg: Config, moves: seq<Move>, w: Sock, now: nat, k: K.Keepalive, unanswered: seq<nat>, ms: nat)
    requires Alone(cfg, moves, w, now, k, unanswered) && Punctual(k, now + ms)
    requires BeforeTimeout(cfg, now + ms, unanswered)
    ensures Alone(cfg, moves + [Elapse(ms)], w, now + ms, k, unanswered)
  {
    Append(cfg, moves, Elapse(ms), w);
  }

  lemma AlonePings(cfg: Config, moves: seq<Move>, w: Sock, now: nat, k: K.Keepalive, unanswered: seq<nat>)
    requires Alone(cfg, moves, w, now, k, unanswered) && k.pingDue == Some(now)
    ensures Alone(cfg, moves + [Do(PingTickStep(w, now))], w, now, K.Ping(k, cfg.timing, now), unanswered + [now])
  {
    Append(cfg, moves, Do(PingTickStep(w, now)), w);
    assert BeforeTimeout(cfg, now, unanswered);
  }

  lemma AlonePongs(cfg: Config, moves: seq<Move>, w: Sock, now: nat, k: K.Keepalive, unanswered: seq<nat>)
    requires Alone(cfg, moves, w, now, k, unanswered) && unanswered != []
    ensures Alone(cfg, moves + [Do(PongStep(w))], w, now, K.ClearPong(k), unanswered[1..])
  {
    Append(cfg, moves, Do(PongStep(w)), w);
    assert BeforeTimeout(cfg, now, unanswered);
  }

  /** The socket's daemon connects and says an acceptable hello at time 0. */
  lemma AloneStarts(cfg: Config, w: Sock, point: Bytes, key: Bytes) returns (moves: seq<Move>)
    requires RT.GoodKey(cfg, key)
    ensures Alone(cfg, moves, w, 0, K.Start(K.IDLE, cfg.timing, 0), [])
  {
    var accept, hello := Do(AcceptStep(w, P256(point))), Do(MessageStep(w, Hello(key), 0));
    Append(cfg, [], accept, w);
    assert [] + [accept] == [accept];
    Append(cfg, [accept], hello, w);
    moves := [accept] + [hello];
  }

  /** A timer `h0` is armed that no variable refers to, and every ping is answered. */
  ghost predicate Orphaned(cfg: Config, now: nat, k: K.Keepalive, h0: K.Handle) {
    && K.Ok(k) && k.pingDue == Some(now + K.Delay(cfg.timing.pingIntervalMs)) && k.pongTimer == None
    && h0 in k.armed && k.armed == map[h0 := k.armed[h0]] && now < k.armed[h0]
  }

  /** `w` is open and responsive, and its pong timer is about to fire. */
  ghost predicate Doomed(cfg: Config, moves: seq<Move>, w: Sock) {
    && Timeline(cfg, moves) && Responsive(cfg, moves, w) && IsOpen(At(cfg, moves).server, w)
    && exists h :: Allowed(At(cfg, moves), Do(PongTimeoutStep(w, h)))
  }

  lemma PongLeavesOrphan(cfg: Config, now: nat, k: K.Keepalive, h0: K.Handle)
    requires Orphaned(cfg, now, k, h0) && now + K.Delay(cfg.timing.pingIntervalMs) < k.armed[h0]
    ensures
      var later := now + K.Delay(cfg.timing.pingIntervalMs);
      var k' := K.ClearPong(K.Ping(k, cfg.timing, later));
      Orphaned(cfg, later, k', h0) && k'.armed[h0] == k.armed[h0]
  {
    var later := now + K.Delay(cfg.timing.pingIntervalMs);
    assert K.ClearPong(K.Ping(k, cfg.timing, later)).armed == k.armed;
  }

  /** An interval passes, and the next ping goes out. */
  lemma AlonePingsNext(
    cfg: Config, moves: seq<Move>, w: Sock, now: nat, k: K.Keepalive, unanswered: seq<nat>, next: nat)
    returns (more: seq<Move>)
    requires Alone(cfg, moves, w, now, k, unanswered) && now <= next && k.pingDue == Some(next)
    requires Punctual(k, next) && BeforeTimeout(cfg, next, unanswered)
    ensures Alone(cfg, more, w, next, K.Ping(k, cfg.timing, next), unanswered + [next])
  {
    var waited := moves + [Elapse(next - now)];
    AloneWaits(cfg, moves, w, now, k, unanswered, next - now);
    AlonePings(cfg, waited, w, next, k, unanswered);
    more := waited + [Do(PingTickStep(w, next))];
  }

  /** Another interval passes, with a ping and its pong. */
  lemma OrphanStays(cfg: Config, moves: seq<Move>, w: Sock, now: nat, k: K.Keepalive, h0: K.Handle)
    returns (more: seq<Move>)
    requires Alone(cfg, moves, w, now, k, []) && Orphaned(cfg, now, k, h0)
    requires now + K.Delay(cfg.timing.pingIntervalMs) < k.armed[h0]
    ensures
      var next := now + K.Delay(cfg.timing.pingIntervalMs);
      Alone(cfg, more, w, next, K.ClearPong(K.Ping(k, cfg.timing, next)), [])
  {
    hide Alone;
    var next := now + K.Delay(cfg.timing.pingIntervalMs);
    var pinged := AlonePingsNext(cfg, moves, w, now, k, [], next);
    AlonePongs(cfg, pinged, w, next, K.Ping(k, cfg.timing, next), [] + [next]);
    more := pinged + [Do(PongStep(w))];
  }

  lemma OrphanDooms(cfg: Config, moves: seq<Move>, w: Sock, now: nat, k: K.Keepalive, h0: K.Handle)
    requires Alone(cfg, moves, w, now, k, []) && h0 in k.armed && now == k.armed[h0]
    ensures Doomed(cfg, moves, w)
  {
    assert Allowed(At(cfg, moves), Do(PongTimeoutStep(w, h0)));
  }

  /** An orphaned timer fires in the end, however promptly the pings in between are answered. */
  lemma {:induction false} OrphanFires(cfg: Config, moves: seq<Move>, w: Sock, now: nat, k: K.Keepalive, h0: K.Handle)
    returns (all: seq<Move>)
    requires Alone(cfg, moves, w, now, k, []) && Orphaned(cfg, now, k, h0)
    ensures Doomed(cfg, all, w)
    decreases k.armed[h0] - now
  {
    hide Alone, Doomed;
    var due, next := k.armed[h0], now + K.Delay(cfg.timing.pingIntervalMs);
    if due <= next {
      AloneWaits(cfg, moves, w, now, k, [], due - now);
      all := moves + [Elapse(due - now)];
      OrphanDooms(cfg, all, w, due, k, h0);
    } else {
      var more := OrphanStays(cfg, moves, w, now, k, h0);
      PongLeavesOrphan(cfg, now, k, h0);
      all := OrphanFires(cfg, more, w, next, K.ClearPong(K.Ping(k, cfg.timing, next)), h0);
    }
  }

  /** With a timeout longer than the interval the second ping may go out while the first is unanswered. */
  lemma TwoPings(cfg: Config, w: Sock, point: Bytes, key: Bytes) returns (moves: seq<Move>)
    requires K.Delay(cfg.timing.pongTimeoutMs) > K.Delay(cfg.timing.pingIntervalMs)
    requires RT.GoodKey(cfg, key)
    ensures
      var i, t := K.Delay(cfg.timing.pingIntervalMs), cfg.timing;
      Alone(cfg, moves, w, 2 * i, K.Ping(K.Ping(K.Start(K.IDLE, t, 0), t, i), t, 2 * i), [i, 2 * i])
  {
    hide Alone;
    var i, t := K.Delay(cfg.timing.pingIntervalMs), cfg.timing;
    var k0 := K.Start(K.IDLE, t, 0);
    moves := AloneStarts(cfg, w, point, key);
    moves := AlonePingsNext(cfg, moves, w, 0, k0, [], i);
    moves := AlonePingsNext(cfg, moves, w, i, K.Ping(k0, t, i), [] + [i], 2 * i);
    assert [] + [i] + [2 * i] == [i, 2 * i];
  }

  /** Ping, ping, and only then the two pongs. Each is in time; the first timer is lost, and fires. */
  lemma SlowPongsOrphanATimer(cfg: Config, w: Sock, point: Bytes, key: Bytes) returns (all: seq<Move>)
    requires K.Delay(cfg.timing.pongTimeoutMs) > K.Delay(cfg.timing.pingIntervalMs)
    requires RT.GoodKey(cfg, key)
    ensures Doomed(cfg, all, w)
  {
    hide Alone, Doomed;
    var i, t := K.Delay(cfg.timing.pingIntervalMs), cfg.timing;
    var k := K.Ping(K.Ping(K.Start(K.IDLE, t, 0), t, i), t, 2 * i);
    all := TwoPings(cfg, w, point, key);
    AlonePongs(cfg, all, w, 2 * i, k, [i, 2 * i]);
    all := all + [Do(PongStep(w))];
    assert [i, 2 * i][1..] == [2 * i];
    AlonePongs(cfg, all, w, 2 * i, K.ClearPong(k), [2 * i]);
    assert [2 * i][1..] == [];
    all := OrphanFires(cfg, all + [Do(PongStep(w))], w, 2 * i, K.ClearPong(K.ClearPong(k)), 0);
  }

  /** No timeline leads a responsive open socket to a firing pong timer. */
  ghost predicate SparesResponsive(cfg: Config) {
    forall moves, w :: !Doomed(cfg, moves, w)
  }

  /** The exact condition under which keepalive spares every responsive daemon. */
  lemma SparesExactly(cfg: Config, key: Bytes)
    requires RT.GoodKey(cfg, key)
    ensures SparesResponsive(cfg) <==> K.Delay(cfg.timing.pongTimeoutMs) <= K.Delay(cfg.timing.pingIntervalMs)
  {
    if K.Delay(cfg.timing.pongTimeoutMs) <= K.Delay(cfg.timing.pingIntervalMs) {
      forall moves, w | Timeline(cfg, moves) && Responsive(cfg, moves, w) && IsOpen(At(cfg, moves).server, w)
        ensures !Doomed(cfg, moves, w)
      {
        AtMostOnePongTimer(cfg, moves, w);
      }
    } else {
      var moves := SlowPongsOrphanATimer(cfg, 0, [], key);
    }
  }
}
