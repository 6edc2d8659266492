/**
 * Time. The relay's steps are interleaved with the passing of milliseconds;
 * no time passes while a timer is due, so timers fire when they should.
 */
module KeepaliveTiming {
  import opened Prelude
  import opened Relay
  import opened RelayInvariants
  import RT = RelayTheorems
  import K = Keepalive

  /**
   * heard - when each socket last gave a sign of life: its accepted hello or a pong
   * due   - the deadline each request timer was armed with
   */
  datatype Clocked = Clocked(now: nat, server: Server, heard: map<Sock, nat>, due: map<ReqId, nat>)

  datatype Move = Elapse(ms: nat) | Do(step: Step)

  /** No timer of `k` is due before `at`. */
  ghost predicate Punctual(k: K.Keepalive, at: nat) {
    && (k.pingDue.Some? ==> at <= k.pingDue.value)
    && (forall h :: h in k.armed ==> at <= k.armed[h])
  }

  /** Handlers read the clock, and timers fire at their deadline. */
  ghost predicate OnTime(c: Clocked, step: Step)
    requires Enabled(c.server, step)
  {
    match step
    case MessageStep(_, _, at) => at == c.now
    case PingTickStep(w, at) => at == c.now == c.server.conns[w].keepalive.pingDue.value
    case PongTimeoutStep(w, h) => c.server.conns[w].keepalive.armed[h] == c.now
    case RequestTimeoutStep(id) => id in c.due && c.due[id] == c.now
    case _ => true
  }

  ghost predicate Allowed(c: Clocked, m: Move) {
    match m
    case Elapse(ms) =>
      && (forall w :: w in c.server.conns ==> Punctual(c.server.conns[w].keepalive, c.now + ms))
      && (forall id :: id in c.server.requestTimers ==> id in c.due && c.now + ms <= c.due[id])
    case Do(step) => Enabled(c.server, step) && OnTime(c, step)
  }

  /** A pong, or a hello that the server accepts. */
  predicate SignOfLife(cfg: Config, s: Server, step: Step) {
    || step.PongStep?
    || (step.MessageStep? && Live(s, step.w)
        && RT.AcceptedHello(cfg, s, step, cfg.uuidOf(s.conns[step.w].cert.point)))
  }

  /** A forward past its checks. */
  ghost predicate ArmsRequestTimer(cfg: Config, s: Server, step: Step)
    requires Enabled(s, step)
  {
    IsForward(step) && step.req.id in Next(cfg, s, step).requestTimers
  }

  ghost function Advance(cfg: Config, c: Clocked, m: Move): Clocked
    requires Allowed(c, m)
  {
    match m
    case Elapse(ms) => c.(now := c.now + ms)
    case Do(step) =>
      c.(server := Next(cfg, c.server, step),
         heard := if SignOfLife(cfg, c.server, step) then c.heard[step.w := c.now] else c.heard,
         due := if ArmsRequestTimer(cfg, c.server, step)
                then c.due[step.req.id := c.now + K.Delay(cfg.requestTimeoutMs)] else c.due)
  }

  ghost predicate Timeline(cfg: Config, moves: seq<Move>)
    decreases |moves|, 0
  {
    moves == [] ||
    (var before := moves[..|moves| - 1];
     Timeline(cfg, before) && Allowed(At(cfg, before), moves[|moves| - 1]))
  }

  ghost function At(cfg: Config, moves: seq<Move>): Clocked
    requires Timeline(cfg, moves)
    decreases |moves|, 1
  {
    if moves == [] then Clocked(0, INITIAL, map[], map[])
    else Advance(cfg, At(cfg, moves[..|moves| - 1]), moves[|moves| - 1])
  }

  /** The longest silence: one interval until the next ping, one timeout after it. */
  function Patience(t: K.Timing): nat {
    K.Delay(t.pingIntervalMs) + K.Delay(t.pongTimeoutMs)
  }

  /** A timer that will end the silence since `heard` in time is armed, or will be. */
  ghost predicate Watched(t: K.Timing, k: K.Keepalive, heard: nat, now: nat) {
    && heard <= now
    && k.pingDue.Some?
    && k.pingDue.value <= now + K.Delay(t.pingIntervalMs)
    && (|| k.pingDue.value <= heard + K.Delay(t.pingIntervalMs)
        || exists h :: h in k.armed && k.armed[h] <= heard + Patience(t))
  }

  ghost predicate WatchedConn(cfg: Config, c: Clocked, w: Sock)
    requires w in c.server.conns
  {
    var conn := c.server.conns[w];
    && Punctual(conn.keepalive, c.now)
    && (conn.registered.Some? ==> w in c.heard && Watched(cfg.timing, conn.keepalive, c.heard[w], c.now))
  }

  ghost predicate AllWatched(cfg: Config, c: Clocked) {
    && Inv(cfg, c.server)
    && (forall w :: w in c.server.conns ==> WatchedConn(cfg, c, w))
  }

  ghost predicate SameClosure(s: Server, t: Server, v: Sock) {
    && v in s.conns && v in t.conns
    && t.conns[v].keepalive == s.conns[v].keepalive && t.conns[v].registered == s.conns[v].registered
  }

  lemma EvictLeavesClosures(s: Server, u: Uuid, v: Sock)
    requires v in s.conns
    ensures SameClosure(s, Evict(s, u), v)
  {
  }

  lemma RegisterLeavesOthers(cfg: Config, s: Server, w: Sock, key: Bytes, now: nat, v: Sock)
    requires Live(s, w) && v in s.conns && w != v
    ensures SameClosure(s, Register(cfg, s, w, key, now), v)
  {
    hide Evict;
    EvictLeavesClosures(s, cfg.uuidOf(s.conns[w].cert.point), v);
    EvictLeavesBooks(s, cfg.uuidOf(s.conns[w].cert.point));
  }

  lemma MessageLeavesOthers(cfg: Config, s: Server, w: Sock, f: ClientFrame, now: nat, v: Sock)
    requires Live(s, w) && v in s.conns && w != v
    ensures SameClosure(s, OnMessage(cfg, s, w, f, now), v)
  {
    if f.Hello? && s.conns[w].registered == None && ValidateDecryptPubkey(cfg, f.decryptPubkey) == None {
      RegisterLeavesOthers(cfg, s, w, f.decryptPubkey, now, v);
    }
  }

  lemma ForwardLeavesClosures(cfg: Config, s: Server, u: Uuid, req: Request, b: nat, v: Sock)
    requires v in s.conns
    ensures SameClosure(s, Forward(cfg, s, u, req, b), v)
  {
  }

  lemma HttpForwardLeavesClosures(cfg: Config, s: Server, u: Uuid, req: Request, b: nat, v: Sock)
    requires v in s.conns
    ensures SameClosure(s, HttpForward(cfg, s, u, req, b), v)
  {
    if u in s.clients { ForwardLeavesClosures(cfg, Emit(s, Recorded(u)), u, req, b, v); }
  }

  lemma CloseLeavesClosures(s: Server, order: seq<ReqId>, v: Sock)
    requires v in s.conns
    ensures SameClosure(s, CloseServer(s, order), v)
  {
  }

  /** The closure of `v` is untouched by an event of any other socket. */
  lemma OthersUntouched(cfg: Config, s: Server, step: Step, v: Sock)
    requires Enabled(s, step) && v in s.conns
    requires (IsSocketEvent(step) || step.MessageStep?) ==> step.w != v
    ensures SameClosure(s, Next(cfg, s, step), v)
  {
    match step
    case MessageStep(w, f, now) => MessageLeavesOthers(cfg, s, w, f, now, v);
    case ForwardStep(u, req, b) => ForwardLeavesClosures(cfg, s, u, req, b, v);
    case HttpForwardStep(u, req, b) => HttpForwardLeavesClosures(cfg, s, u, req, b, v);
    case RequestTimeoutStep(_) =>
    case CloseServerStep(order) => CloseLeavesClosures(s, order, v);
    case _ => EventTouchesOneSocket(cfg, s, step);
  }

  lemma RefusalKeepsClosure(s: Server, w: Sock)
    requires w in s.conns
    ensures forall reason :: SameClosure(s, Reject(s, w, reason), w)
  {
  }

  lemma RegisterOwnClosure(cfg: Config, s: Server, w: Sock, key: Bytes, now: nat)
    requires Directory(cfg, s) && Live(s, w) && s.conns[w].registered == None
    ensures w in Register(cfg, s, w, key, now).conns
    ensures Register(cfg, s, w, key, now).conns[w].keepalive == K.Start(s.conns[w].keepalive, cfg.timing, now)
  {
    EvictKeeps(cfg, s, cfg.uuidOf(s.conns[w].cert.point));
  }

  /** What a frame does to the closure of its own socket. */
  lemma MessageOwnClosure(cfg: Config, s: Server, w: Sock, f: ClientFrame, now: nat)
    requires Directory(cfg, s) && Live(s, w)
    ensures
      var c, c' := s.conns[w], OnMessage(cfg, s, w, f, now).conns[w];
      || (c'.keepalive == c.keepalive && c'.registered == c.registered)
      || (c.registered == None && SignOfLife(cfg, s, MessageStep(w, f, now))
          && c'.keepalive == K.Start(c.keepalive, cfg.timing, now))
  {
    if f.Hello? && s.conns[w].registered == None && ValidateDecryptPubkey(cfg, f.decryptPubkey) == None {
      RegisterOwnClosure(cfg, s, w, f.decryptPubkey, now);
    } else {
      RefusalKeepsClosure(s, w);
    }
  }

  /** Nothing, a cleanup, a pong or a ping. */
  ghost predicate EventEffect(cfg: Config, c: Conn, step: Step, c': Conn) {
    || (c'.keepalive == c.keepalive && c'.registered == c.registered)
    || (c'.registered == None && c'.keepalive.pingDue == None
        && forall h :: h in c'.keepalive.armed ==>
             h in c.keepalive.armed && c'.keepalive.armed[h] == c.keepalive.armed[h])
    || (step.PongStep? && c'.registered == c.registered && c'.keepalive == K.ClearPong(c.keepalive))
    || (step.PingTickStep? && c'.registered == c.registered
        && c'.keepalive == K.Ping(c.keepalive, cfg.timing, step.now))
  }

  /** `cleanup` after a change that arms no timer. */
  lemma CleanupEffect(cfg: Config, s: Server, w: Sock, c: Conn, step: Step)
    requires w in s.conns && c.keepalive.armed.Keys <= s.conns[w].keepalive.armed.Keys
    requires forall h :: h in c.keepalive.armed ==> c.keepalive.armed[h] == s.conns[w].keepalive.armed[h]
    ensures EventEffect(cfg, s.conns[w], step, Cleanup(SetConn(s, w, c), w).conns[w])
  {
  }

  lemma PingTickEffect(cfg: Config, s: Server, w: Sock, now: nat)
    requires w in s.conns
    ensures EventEffect(cfg, s.conns[w], PingTickStep(w, now), OnPingTick(cfg, s, w, now).conns[w])
  {
    assert SetConn(s, w, s.conns[w]) == s;
    CleanupEffect(cfg, s, w, s.conns[w], PingTickStep(w, now));
  }

  lemma PongTimeoutEffect(cfg: Config, s: Server, w: Sock, h: K.Handle)
    requires w in s.conns
    ensures EventEffect(cfg, s.conns[w], PongTimeoutStep(w, h), OnPongTimeout(s, w, h).conns[w])
  {
    var fired := s.conns[w].(keepalive := K.Fire(s.conns[w].keepalive, h));
    SetConnTwice(s, w, fired, Shut(fired));
    CleanupEffect(cfg, s, w, Shut(fired), PongTimeoutStep(w, h));
  }

  /** What any other event does to the closure of its own socket. */
  lemma EventOwnClosure(cfg: Config, s: Server, step: Step)
    requires Enabled(s, step) && IsSocketEvent(step) && step.w in s.conns
    ensures step.w in Next(cfg, s, step).conns
    ensures EventEffect(cfg, s.conns[step.w], step, Next(cfg, s, step).conns[step.w])
  {
    EventTouchesOneSocket(cfg, s, step);
    match step
    case PingTickStep(w, now) => PingTickEffect(cfg, s, w, now);
    case PongTimeoutStep(w, h) => PongTimeoutEffect(cfg, s, w, h);
    case CloseEventStep(w) => CleanupEffect(cfg, s, w, s.conns[w].(ready := Closed), step);
    case ErrorEventStep(w) => CleanupEffect(cfg, s, w, Shut(s.conns[w]), step);
    case PongStep(_) =>
    case PeerClosingStep(_) =>
  }

  lemma PingWatched(t: K.Timing, k: K.Keepalive, heard: nat, now: nat)
    requires Watched(t, k, heard, now) && k.pingDue == Some(now) && K.Ok(k)
    ensures Watched(t, K.Ping(k, t, now), heard, now)
  {
    var k' := K.Ping(k, t, now);
    if k.pingDue.value <= heard + K.Delay(t.pingIntervalMs) {
      assert k'.armed[k.next] <= heard + Patience(t);
    } else {
      var h :| h in k.armed && k.armed[h] <= heard + Patience(t);
      assert k'.armed[h] == k.armed[h];
    }
  }

  lemma RegisterAddsNoSocket(cfg: Config, s: Server, w: Sock, key: Bytes, now: nat)
    requires Live(s, w)
    ensures Register(cfg, s, w, key, now).conns.Keys == s.conns.Keys
  {
  }

  lemma MessageAddsNoSocket(cfg: Config, s: Server, w: Sock, f: ClientFrame, now: nat)
    requires Live(s, w)
    ensures OnMessage(cfg, s, w, f, now).conns.Keys == s.conns.Keys
  {
    if f.Hello? && s.conns[w].registered == None && ValidateDecryptPubkey(cfg, f.decryptPubkey) == None {
      RegisterAddsNoSocket(cfg, s, w, f.decryptPubkey, now);
    }
  }

  lemma FrameKeepsWatch(cfg: Config, c: Clocked, step: Step)
    requires AllWatched(cfg, c) && Allowed(c, Do(step)) && step.MessageStep?
    ensures step.w in Next(cfg, c.server, step).conns
    ensures WatchedConn(cfg, Advance(cfg, c, Do(step)), step.w)
  {
    assert WatchedConn(cfg, c, step.w);
    MessageAddsNoSocket(cfg, c.server, step.w, step.frame, step.now);
    MessageOwnClosure(cfg, c.server, step.w, step.frame, step.now);
  }

  lemma EventKeepsWatch(cfg: Config, c: Clocked, step: Step)
    requires AllWatched(cfg, c) && Allowed(c, Do(step)) && IsSocketEvent(step) && step.w in c.server.conns
    requires step.w in Next(cfg, c.server, step).conns
    ensures WatchedConn(cfg, Advance(cfg, c, Do(step)), step.w)
  {
    var s, v := c.server, step.w;
    assert WatchedConn(cfg, c, v) && GoodConn(cfg, s.conns[v]);
    EventOwnClosure(cfg, s, step);
    if step.PingTickStep? && s.conns[v].registered.Some? {
      PingWatched(cfg.timing, s.conns[v].keepalive, c.heard[v], c.now);
    }
  }

  lemma ForwardAddsNoSocket(cfg: Config, s: Server, u: Uuid, req: Request, b: nat)
    ensures Forward(cfg, s, u, req, b).conns.Keys == s.conns.Keys
  {
  }

  lemma OnlyAcceptAddsSockets(cfg: Config, s: Server, step: Step)
    requires Enabled(s, step)
    ensures Next(cfg, s, step).conns.Keys == s.conns.Keys + if step.AcceptStep? then {step.w} else {}
  {
    match step
    case MessageStep(w, f, now) => MessageAddsNoSocket(cfg, s, w, f, now);
    case ForwardStep(u, req, b) => ForwardAddsNoSocket(cfg, s, u, req, b);
    case HttpForwardStep(u, req, b) =>
      if u in s.clients { ForwardAddsNoSocket(cfg, Emit(s, Recorded(u)), u, req, b); }
    case RequestTimeoutStep(_) =>
    case CloseServerStep(_) =>
    case _ => EventTouchesOneSocket(cfg, s, step);
  }

  lemma UntouchedStaysWatched(cfg: Config, c: Clocked, step: Step, v: Sock)
    requires AllWatched(cfg, c) && Allowed(c, Do(step)) && v in c.server.conns
    requires (IsSocketEvent(step) || step.MessageStep?) ==> step.w != v
    ensures v in Next(cfg, c.server, step).conns
    ensures WatchedConn(cfg, Advance(cfg, c, Do(step)), v)
  {
    assert WatchedConn(cfg, c, v);
    OthersUntouched(cfg, c.server, step, v);
  }

  lemma AcceptedIsWatched(cfg: Config, c: Clocked, v: Sock, cert: Certificate)
    requires Enabled(c.server, AcceptStep(v, cert))
    ensures WatchedConn(cfg, Advance(cfg, c, Do(AcceptStep(v, cert))), v)
  {
  }

  lemma StepKeepsWatch(cfg: Config, c: Clocked, step: Step, v: Sock)
    requires AllWatched(cfg, c) && Allowed(c, Do(step)) && v in Next(cfg, c.server, step).conns
    ensures WatchedConn(cfg, Advance(cfg, c, Do(step)), v)
  {
    hide Next;
    if step.AcceptStep? && step.w == v {
      AcceptedIsWatched(cfg, c, v, step.cert);
    } else if v !in c.server.conns {
      OnlyAcceptAddsSockets(cfg, c.server, step);
    } else if step.MessageStep? && step.w == v {
      FrameKeepsWatch(cfg, c, step);
    } else if IsSocketEvent(step) && step.w == v {
      EventKeepsWatch(cfg, c, step);
    } else {
      UntouchedStaysWatched(cfg, c, step, v);
    }
  }

  lemma {:induction false} TimelineKeepsWatch(cfg: Config, moves: seq<Move>)
    requires Timeline(cfg, moves)
    ensures AllWatched(cfg, At(cfg, moves))
    decreases |moves|
  {
    if moves == [] {
      RunKeeps(cfg, []);
    } else {
      var before, m := moves[..|moves| - 1], moves[|moves| - 1];
      TimelineKeepsWatch(cfg, before);
      var c, c' := At(cfg, before), At(cfg, moves);
      match m
      case Elapse(ms) =>
        forall w | w in c'.server.conns ensures WatchedConn(cfg, c', w) {
          assert WatchedConn(cfg, c, w);
        }
      case Do(step) =>
        StepKeeps(cfg, c.server, step);
        forall v | v in c'.server.conns ensures WatchedConn(cfg, c', v) {
          StepKeepsWatch(cfg, c, step, v);
        }
    }
  }

  /**
   * At every moment, a registered daemon was heard (its hello or a pong) no longer
   * than one ping interval and one pong timeout ago: after that it is unregistered.
   */
  lemma RegisteredWasHeardRecently(cfg: Config, moves: seq<Move>, u: Uuid)
    requires Timeline(cfg, moves) && u in At(cfg, moves).server.clients
    ensures
      var c := At(cfg, moves);
      var w := c.server.clients[u].sock;
      && w in c.heard && c.now <= c.heard[w] + K.Delay(cfg.timing.pingIntervalMs) + K.Delay(cfg.timing.pongTimeoutMs)
      && (1 <= cfg.timing.pingIntervalMs <= 2147483647 && 1 <= cfg.timing.pongTimeoutMs <= 2147483647 ==>
            c.now <= c.heard[w] + cfg.timing.pingIntervalMs + cfg.timing.pongTimeoutMs)
  {
    TimelineKeepsWatch(cfg, moves);
    var c := At(cfg, moves);
    assert GoodClient(cfg, c.server, u);
    assert WatchedConn(cfg, c, c.server.clients[u].sock);
  }
}
