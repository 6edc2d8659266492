/** The relay's promises, over every run and for every step. */
module RelayTheorems {
  import opened Prelude
  import opened Relay
  import opened RelayInvariants
  import K = Keepalive

  // -- requests --------------------------------------------------------------

  lemma SettledCount(log: seq<Settlement>)
    requires SettledOnce(log)
    ensures |SettledIds(log)| == |log|
  {
    if log != [] {
      var before, last := log[..|log| - 1], log[|log| - 1];
      SettledCount(before);
      assert log == before + [last];
      SettledIdsAppend(before, [last]);
      assert SettledIds([last]) == {last.id} by { assert [last][0].id == last.id; }
      assert last.id !in SettledIds(before);
    }
  }

  lemma AccountedCount(s: Server)
    requires Accounted(s)
    ensures |s.admitted| == |s.pending| + |s.settlements|
  {
    SettledCount(s.settlements);
    assert |s.admitted.Keys| == |s.pending.Keys| + |SettledIds(s.settlements)|;
  }

  /** Armed timers are the pending ids, nothing settles twice, and admitted = settled + pending. */
  lemma RequestsConserved(cfg: Config, steps: seq<Step>)
    requires Runs(cfg, steps)
    ensures
      var s := After(cfg, steps);
      && s.requestTimers == s.pending.Keys
      && SettledOnce(s.settlements)
      && s.pending.Keys !! SettledIds(s.settlements)
      && s.admitted.Keys == s.pending.Keys + SettledIds(s.settlements)
      && |s.admitted| == |s.pending| + |s.settlements|
  {
    RunKeeps(cfg, steps);
    AccountedCount(After(cfg, steps));
  }

  /** Nothing is pending, nothing is armed, nobody is registered, and all that was admitted is settled. */
  ghost predicate Quiesced(s: Server) {
    && s.pending == map[] && s.pendingByClient == map[] && s.requestTimers == {} && s.clients == map[]
    && |s.settlements| == |s.admitted|
  }

  lemma CloseQuiesces(cfg: Config, s: Server, order: seq<ReqId>)
    requires Books(cfg, s) && ListsPending(s, order)
    ensures Quiesced(CloseServer(s, order))
  {
    CloseServerKeepsBooks(cfg, s, order);
    AccountedCount(CloseServer(s, order));
  }

  /** Whatever happened before, `close()` settles every pending request and disarms its timer. */
  lemma CloseLeavesNothingPending(cfg: Config, steps: seq<Step>)
    requires Runs(cfg, steps) && steps != [] && steps[|steps| - 1].CloseServerStep?
    ensures Quiesced(After(cfg, steps))
  {
    var before := steps[..|steps| - 1];
    RunKeeps(cfg, before);
    CloseQuiesces(cfg, After(cfg, before), steps[|steps| - 1].order);
  }

  /** The outstanding count is the number of pending entries, absent at zero and never above the cap. */
  lemma CountMatchesPending(cfg: Config, steps: seq<Step>, u: Uuid)
    requires Runs(cfg, steps)
    ensures
      var s := After(cfg, steps);
      && CountOf(s.pendingByClient, u) == |PendingOf(s.pending, u)| <= cfg.maxPendingPerClient
      && (u in s.pendingByClient <==> PendingOf(s.pending, u) != {})
  {
    RunKeeps(cfg, steps);
    assert InStep(After(cfg, steps).pending, After(cfg, steps).pendingByClient, u);
  }

  /** `o` resolves with the status, the headers and the body of `r`. */
  predicate ResolvesWith(o: Outcome, r: Response) {
    o.Resolved? && o.response.status == r.status && o.response.headers == r.headers && o.response.body == r.body
  }

  /** What settles a pending request, and how: nothing else does. */
  ghost predicate SettlesAs(s: Server, step: Step, id: ReqId, o: Outcome)
    requires Enabled(s, step) && id in s.pending
  {
    match step
    case MessageStep(w, f, _) =>
      && f.ResponseFrame? && s.conns[w].registered.Some? && f.resp.id == id
      && 100 <= f.resp.status <= 599 && ResolvesWith(o, f.resp)
    case RequestTimeoutStep(t) => t == id && o == TimedOut
    case CloseServerStep(_) => o == ServerClosing
    case _ => false
  }

  lemma CloseSettles(s: Server, order: seq<ReqId>, id: ReqId)
    requires ListsPending(s, order) && id in s.pending
    requires forall i :: 0 <= i < |s.settlements| ==> s.settlements[i].id != id
    ensures forall o :: o == ServerClosing <==> Settlement(id, o) in CloseServer(s, order).settlements
  {
    assert id in order;
    var k :| 0 <= k < |order| && order[k] == id;
    assert Rejected(order)[k] == Settlement(id, ServerClosing);
    assert Settlement(id, ServerClosing) in Rejected(order);
  }

  /** Settling `t` takes `t` and nothing else out of `pending`. */
  lemma SettlesOne(s: Server, t: ReqId, o: Outcome, id: ReqId)
    requires t in s.pending && id in s.pending
    requires forall i :: 0 <= i < |s.settlements| ==> s.settlements[i].id != id
    ensures
      var s' := Settle(RemovePending(s, t), t, o);
      && (id !in s'.pending <==> t == id)
      && (forall x :: (t == id && x == o) <==> Settlement(id, x) in s'.settlements)
  {
    var s' := Settle(RemovePending(s, t), t, o);
    assert s'.settlements[|s.settlements|] == Settlement(t, o);
  }

  lemma UnsettledSoFar(s: Server, id: ReqId)
    requires Accounted(s) && id in s.pending
    ensures forall i :: 0 <= i < |s.settlements| ==> s.settlements[i].id != id
  {
    forall i | 0 <= i < |s.settlements| ensures s.settlements[i].id != id {
      assert s.settlements[i].id in SettledIds(s.settlements);
    }
  }

  lemma MessageSettlesExactly(cfg: Config, s: Server, w: Sock, f: ClientFrame, now: nat, id: ReqId)
    requires Accounted(s) && Live(s, w) && id in s.pending
    ensures
      var s' := OnMessage(cfg, s, w, f, now);
      && (id !in s'.pending <==> Answers(s, w, f, id))
      && (forall o :: Answers(s, w, f, id) && ResolvesWith(o, f.resp) <==> Settlement(id, o) in s'.settlements)
  {
    UnsettledSoFar(s, id);
    if f.ResponseFrame? && Answers(s, w, f, f.resp.id) {
      SettlesOne(s, f.resp.id, Resolved(Flatten(f.resp)), id);
    } else {
      OtherMessagesLeaveBooks(cfg, s, w, f, now);
    }
  }

  lemma ForwardSettlesNothing(cfg: Config, s: Server, u: Uuid, req: Request, b: nat, id: ReqId)
    requires id in s.pending
    ensures id in Forward(cfg, s, u, req, b).pending && Forward(cfg, s, u, req, b).settlements == s.settlements
  {
  }

  lemma SettlesExactly(cfg: Config, s: Server, step: Step, id: ReqId)
    requires Inv(cfg, s) && Enabled(s, step) && id in s.pending
    ensures
      var s' := Next(cfg, s, step);
      && (id !in s'.pending <==> exists o :: SettlesAs(s, step, id, o))
      && (forall o :: SettlesAs(s, step, id, o) <==> Settlement(id, o) in s'.settlements)
  {
    UnsettledSoFar(s, id);
    if IsSocketEvent(step) {
      SocketEventKeeps(cfg, s, step);
    } else {
      hide OnMessage, Forward;
      match step
      case MessageStep(w, f, now) =>
        MessageSettlesExactly(cfg, s, w, f, now, id);
        if Answers(s, w, f, id) { assert SettlesAs(s, step, id, Resolved(Flatten(f.resp))); }
      case RequestTimeoutStep(t) =>
        SettlesOne(s, t, TimedOut, id);
        assert SettlesAs(s, step, id, TimedOut) <==> t == id;
      case CloseServerStep(order) =>
        CloseSettles(s, order, id);
        assert SettlesAs(s, step, id, ServerClosing);
      case ForwardStep(u, req, b) => ForwardSettlesNothing(cfg, s, u, req, b, id);
      case HttpForwardStep(u, req, b) => ForwardSettlesNothing(cfg, Emit(s, Recorded(u)), u, req, b, id);
    }
  }

  /** A forward is admitted exactly when the daemon is registered, its socket drains, and it is below its cap. */
  lemma AdmittedExactly(cfg: Config, s: Server, u: Uuid, req: Request, buffered: nat)
    requires Inv(cfg, s) && req.id !in s.admitted
    ensures
      var s' := Forward(cfg, s, u, req, buffered);
      && (req.id in s'.pending <==>
            u in s.clients && buffered <= cfg.maxBufferedBytes && |PendingOf(s.pending, u)| < cfg.maxPendingPerClient)
      && (req.id !in s'.pending ==> s' == s)
  {
    assert InStep(s.pending, s.pendingByClient, u);
  }

  // -- registry --------------------------------------------------------------

  /** An uncompressed point of the curve. */
  predicate GoodKey(cfg: Config, key: Bytes) {
    |key| == 65 && key[0] == 0x04 && cfg.onCurve(key)
  }

  /** In every reachable state a registered socket is live, is its own certificate's, and knows it. */
  lemma RegistrationsAreSound(cfg: Config, steps: seq<Step>, u: Uuid)
    requires Runs(cfg, steps) && u in After(cfg, steps).clients
    ensures
      var s := After(cfg, steps);
      var c := s.clients[u];
      && c.uuid == u == cfg.uuidOf(c.pubkey)
      && c.sock in s.conns
      && s.conns[c.sock].cert == P256(c.pubkey)
      && s.conns[c.sock].registered == Some(u)
      && s.conns[c.sock].ready != Closed
      && s.conns[c.sock].keepalive.pingDue.Some?
      && GoodKey(cfg, c.decryptPubkey)
  {
    RunKeeps(cfg, steps);
    var s := After(cfg, steps);
    assert GoodClient(cfg, s, u) && GoodConn(cfg, s.conns[s.clients[u].sock]);
  }

  /** A hello that the server accepts for `u`. */
  predicate AcceptedHello(cfg: Config, s: Server, step: Step, u: Uuid) {
    && step.MessageStep? && Live(s, step.w) && step.frame.Hello?
    && s.conns[step.w].registered == None
    && GoodKey(cfg, step.frame.decryptPubkey)
    && cfg.uuidOf(s.conns[step.w].cert.point) == u
  }

  /** Why a frame is refused: on any socket if it is no JSON, before registration if it is no acceptable hello. */
  predicate Refuses(cfg: Config, f: ClientFrame, registered: bool, reason: Refusal) {
    match f
    case NotJson => reason == InvalidJson
    case HelloWithoutKey => !registered && reason == DecryptPubkeyRequired
    case Hello(key) =>
      && !registered && !GoodKey(cfg, key)
      && reason == if |key| == 65 && key[0] == 0x04 then DecryptPubkeyNotOnCurve else DecryptPubkeyMustBe65Bytes
    case _ => !registered && reason == ExpectedHello
  }

  ghost predicate RefusedFrame(cfg: Config, f: ClientFrame, registered: bool) {
    exists reason :: Refuses(cfg, f, registered, reason)
  }

  lemma RefusedByKind(cfg: Config, f: ClientFrame, registered: bool)
    ensures RefusedFrame(cfg, f, registered) <==>
              f.NotJson? || (!registered && !(f.Hello? && GoodKey(cfg, f.decryptPubkey)))
  {
    var reason :=
      match f
      case NotJson => InvalidJson
      case HelloWithoutKey => DecryptPubkeyRequired
      case Hello(key) => if |key| == 65 && key[0] == 0x04 then DecryptPubkeyNotOnCurve else DecryptPubkeyMustBe65Bytes
      case _ => ExpectedHello;
    assert f.NotJson? || (!registered && !(f.Hello? && GoodKey(cfg, f.decryptPubkey))) ==>
      Refuses(cfg, f, registered, reason);
  }

  lemma AcceptedIsWelcomed(cfg: Config, s: Server, w: Sock, key: Bytes, now: nat)
    requires Directory(cfg, s) && Live(s, w) && s.conns[w].ready == Open && s.conns[w].registered == None
    ensures w in Register(cfg, s, w, key, now).conns
    ensures
      var c, c' := s.conns[w], Register(cfg, s, w, key, now).conns[w];
      var u := cfg.uuidOf(c.cert.point);
      c'.sent == c.sent + [Welcome(u)] && c'.ready == Open && c'.registered == Some(u)
  {
    EvictKeeps(cfg, s, cfg.uuidOf(s.conns[w].cert.point));
    hide Evict, Directory;
  }

  lemma RefusedIsRejected(cfg: Config, s: Server, w: Sock, f: ClientFrame, now: nat, reason: Refusal)
    requires Live(s, w) && Refuses(cfg, f, s.conns[w].registered.Some?, reason)
    ensures OnMessage(cfg, s, w, f, now) == Reject(s, w, reason)
  {
  }

  lemma OthersAreIgnored(cfg: Config, s: Server, w: Sock, f: ClientFrame, now: nat)
    requires Live(s, w) && !RefusedFrame(cfg, f, s.conns[w].registered.Some?)
    requires !AcceptedHello(cfg, s, MessageStep(w, f, now), cfg.uuidOf(s.conns[w].cert.point))
    ensures OnMessage(cfg, s, w, f, now).conns == s.conns
  {
    RefusedByKind(cfg, f, s.conns[w].registered.Some?);
    hide RefusedFrame;
  }

  /** What an open socket gets for a frame: one error and the end, if it is refused, or a welcome, or nothing. */
  lemma FramesAnsweredExactly(cfg: Config, s: Server, w: Sock, f: ClientFrame, now: nat)
    requires Directory(cfg, s) && Live(s, w) && s.conns[w].ready == Open
    ensures w in OnMessage(cfg, s, w, f, now).conns
    ensures
      var c, c' := s.conns[w], OnMessage(cfg, s, w, f, now).conns[w];
      var u := cfg.uuidOf(c.cert.point);
      var accepted := AcceptedHello(cfg, s, MessageStep(w, f, now), u);
      var refused := RefusedFrame(cfg, f, c.registered.Some?);
      && (accepted ==> c'.sent == c.sent + [Welcome(u)] && c'.ready == Open && c'.registered == Some(u))
      && (forall reason :: Refuses(cfg, f, c.registered.Some?, reason) ==>
            c'.sent == c.sent + [Error(reason)] && c'.ready == Closing && c'.registered == c.registered)
      && (!accepted && !refused ==> c' == c)
  {
    var registered := s.conns[w].registered.Some?;
    RefusedByKind(cfg, f, registered);
    if AcceptedHello(cfg, s, MessageStep(w, f, now), cfg.uuidOf(s.conns[w].cert.point)) {
      AcceptedIsWelcomed(cfg, s, w, f.decryptPubkey, now);
      hide Register, RefusedFrame;
    } else if RefusedFrame(cfg, f, registered) {
      hide OnMessage;
      forall reason | Refuses(cfg, f, registered, reason)
        ensures OnMessage(cfg, s, w, f, now) == Reject(s, w, reason)
      {
        RefusedIsRejected(cfg, s, w, f, now, reason);
      }
    } else {
      hide OnMessage;
      OthersAreIgnored(cfg, s, w, f, now);
    }
  }

  /** The steps that end the registration of socket `w0`: its own end of life, a shutdown, a newer hello. */
  predicate Displaces(cfg: Config, s: Server, step: Step, u: Uuid, w0: Sock)
    requires w0 in s.conns
  {
    || step == CloseEventStep(w0)
    || step == ErrorEventStep(w0)
    || (step.PongTimeoutStep? && step.w == w0)
    || (step.PingTickStep? && step.w == w0 && s.conns[w0].ready != Open)
    || step.CloseServerStep?
    || AcceptedHello(cfg, s, step, u)
  }

  ghost predicate Keeps(s: Server, t: Server, u: Uuid)
    requires u in s.clients
  {
    u in t.clients && t.clients[u] == s.clients[u]
  }

  /** `cleanup` of `w` drops `u` exactly when `u` is registered on `w`. */
  lemma CleanupAndRegistration(cfg: Config, s: Server, mid: Server, w: Sock, u: Uuid)
    requires Directory(cfg, s) && u in s.clients && w in s.conns
    requires mid.clients == s.clients && w in mid.conns && mid.conns[w].registered == s.conns[w].registered
    ensures
      var s' := Cleanup(mid, w);
      if s.clients[u].sock == w then u !in s'.clients else u in s'.clients && s'.clients[u] == s.clients[u]
  {
    assert GoodClient(cfg, s, u) && GoodConn(cfg, s.conns[w]);
  }

  lemma PongTimeoutAndRegistration(cfg: Config, s: Server, w: Sock, h: K.Handle, u: Uuid)
    requires Directory(cfg, s) && u in s.clients && w in s.conns
    ensures Keeps(s, OnPongTimeout(s, w, h), u) <==> s.clients[u].sock != w
  {
    var c := s.conns[w].(keepalive := K.Fire(s.conns[w].keepalive, h));
    CleanupAndRegistration(cfg, s, SetConn(SetConn(s, w, c), w, Shut(c)), w, u);
  }

  lemma SocketEndAndRegistration(cfg: Config, s: Server, w: Sock, u: Uuid)
    requires Directory(cfg, s) && u in s.clients && w in s.conns
    ensures Keeps(s, OnClose(s, w), u) <==> s.clients[u].sock != w
    ensures Keeps(s, OnError(s, w), u) <==> s.clients[u].sock != w
  {
    assert GoodClient(cfg, s, u);
    CleanupAndRegistration(cfg, s, SetConn(s, w, s.conns[w].(ready := Closed)), w, u);
    CleanupAndRegistration(cfg, s, SetConn(s, w, Shut(s.conns[w])), w, u);
  }

  lemma SocketEventAndRegistration(cfg: Config, s: Server, step: Step, u: Uuid)
    requires Directory(cfg, s) && Enabled(s, step) && u in s.clients && s.clients[u].sock in s.conns
    requires step.PingTickStep? || step.PongTimeoutStep? || step.CloseEventStep? || step.ErrorEventStep?
    ensures Keeps(s, Next(cfg, s, step), u) <==> !Displaces(cfg, s, step, u, s.clients[u].sock)
  {
    hide Cleanup, Directory;
    match step
    case PingTickStep(w, _) => CleanupAndRegistration(cfg, s, s, w, u);
    case PongTimeoutStep(w, h) => PongTimeoutAndRegistration(cfg, s, w, h, u);
    case CloseEventStep(w) => SocketEndAndRegistration(cfg, s, w, u);
    case ErrorEventStep(w) => SocketEndAndRegistration(cfg, s, w, u);
  }

  lemma OtherStepAndRegistration(cfg: Config, s: Server, step: Step, u: Uuid)
    requires Enabled(s, step) && u in s.clients && s.clients[u].sock in s.conns
    requires !step.MessageStep?
    requires !(step.PingTickStep? || step.PongTimeoutStep? || step.CloseEventStep? || step.ErrorEventStep?)
    ensures Keeps(s, Next(cfg, s, step), u) <==> !step.CloseServerStep?
  {
  }

  /** An accepted hello replaces or adds its own entry. */
  lemma RegisterClients(cfg: Config, s: Server, w: Sock, key: Bytes, now: nat)
    requires w in s.conns && s.conns[w].cert.P256?
    ensures
      var point := s.conns[w].cert.point;
      var u := cfg.uuidOf(point);
      Register(cfg, s, w, key, now).clients == s.clients[u := Client(w, u, point, key)]
  {
  }

  lemma OtherFramesRegisterNobody(cfg: Config, s: Server, w: Sock, f: ClientFrame, now: nat)
    requires Live(s, w) && !AcceptedHello(cfg, s, MessageStep(w, f, now), cfg.uuidOf(s.conns[w].cert.point))
    ensures OnMessage(cfg, s, w, f, now).clients == s.clients
  {
  }

  lemma MessageAndRegistration(cfg: Config, s: Server, w: Sock, f: ClientFrame, now: nat, u: Uuid)
    requires Directory(cfg, s) && u in s.clients && Live(s, w)
    ensures
      var s' := OnMessage(cfg, s, w, f, now);
      (u in s'.clients && s'.clients[u] == s.clients[u]) <==> !AcceptedHello(cfg, s, MessageStep(w, f, now), u)
  {
    assert GoodClient(cfg, s, u);
    if AcceptedHello(cfg, s, MessageStep(w, f, now), cfg.uuidOf(s.conns[w].cert.point)) {
      RegisterClients(cfg, s, w, f.decryptPubkey, now);
    } else {
      OtherFramesRegisterNobody(cfg, s, w, f, now);
    }
  }

  /** A registration changes exactly then: no event of any other socket ever removes it. */
  lemma RegistrationEndsExactly(cfg: Config, s: Server, step: Step, u: Uuid)
    requires Directory(cfg, s) && Enabled(s, step) && u in s.clients
    ensures s.clients[u].sock in s.conns
    ensures Keeps(s, Next(cfg, s, step), u) <==> !Displaces(cfg, s, step, u, s.clients[u].sock)
  {
    assert GoodClient(cfg, s, u);
    if step.MessageStep? {
      MessageAndRegistration(cfg, s, step.w, step.frame, step.now, u);
    } else if step.PingTickStep? || step.PongTimeoutStep? || step.CloseEventStep? || step.ErrorEventStep? {
      SocketEventAndRegistration(cfg, s, step, u);
    } else {
      OtherStepAndRegistration(cfg, s, step, u);
    }
  }

  /** Over any continuation without such a step, the registration stands, however stale sockets behave. */
  lemma {:induction false} RegistrationSurvives(cfg: Config, steps: seq<Step>, more: seq<Step>, u: Uuid)
    requires Runs(cfg, steps) && Runs(cfg, steps + more) && u in After(cfg, steps).clients
    requires forall k :: 0 <= k < |more| && Runs(cfg, steps + more[..k]) ==>
               var s := After(cfg, steps + more[..k]);
               var w0 := After(cfg, steps).clients[u].sock;
               w0 in s.conns ==> !Displaces(cfg, s, more[k], u, w0)
    ensures u in After(cfg, steps + more).clients
    ensures After(cfg, steps + more).clients[u] == After(cfg, steps).clients[u]
    decreases |more|
  {
    hide Next, Displaces;
    if more == [] {
      assert steps + more == steps;
    } else {
      var k := |more| - 1;
      assert (steps + more)[..|steps + more| - 1] == steps + more[..k];
      assert forall i :: 0 <= i <= k ==> more[..k][..i] == more[..i];
      RegistrationSurvives(cfg, steps, more[..k], u);
      RunKeeps(cfg, steps + more[..k]);
      RegistrationEndsExactly(cfg, After(cfg, steps + more[..k]), more[k], u);
    }
  }

  ghost predicate OnlyFewer(s: Server, t: Server) {
    t.clients.Keys <= s.clients.Keys && forall u :: u in t.clients ==> t.clients[u] == s.clients[u]
  }

  lemma CleanupOnlyUnregisters(s: Server, mid: Server, w: Sock)
    requires mid.clients == s.clients && w in mid.conns
    ensures OnlyFewer(s, Cleanup(mid, w))
  {
  }

  lemma EventOnlyUnregisters(cfg: Config, s: Server, step: Step)
    requires Enabled(s, step) && IsSocketEvent(step)
    ensures OnlyFewer(s, Next(cfg, s, step))
  {
    match step
    case PingTickStep(w, _) => CleanupOnlyUnregisters(s, s, w);
    case PongTimeoutStep(w, h) =>
      var c := s.conns[w].(keepalive := K.Fire(s.conns[w].keepalive, h));
      CleanupOnlyUnregisters(s, SetConn(SetConn(s, w, c), w, Shut(c)), w);
    case CloseEventStep(w) => CleanupOnlyUnregisters(s, SetConn(s, w, s.conns[w].(ready := Closed)), w);
    case ErrorEventStep(w) => CleanupOnlyUnregisters(s, SetConn(s, w, Shut(s.conns[w])), w);
    case PongStep(_) =>
    case AcceptStep(_, _) =>
    case PeerClosingStep(_) =>
  }

  lemma OthersOnlyUnregister(cfg: Config, s: Server, step: Step, u: Uuid)
    requires Enabled(s, step) && !step.MessageStep? && u in Next(cfg, s, step).clients
    ensures u in s.clients && Next(cfg, s, step).clients[u] == s.clients[u]
  {
    if IsSocketEvent(step) { EventOnlyUnregisters(cfg, s, step); }
  }

  lemma MessageEntry(cfg: Config, s: Server, w: Sock, f: ClientFrame, now: nat, u: Uuid)
    requires Live(s, w)
    ensures
      var t := OnMessage(cfg, s, w, f, now);
      if AcceptedHello(cfg, s, MessageStep(w, f, now), u)
      then u in t.clients && t.clients[u] == Client(w, u, s.conns[w].cert.point, f.decryptPubkey)
      else u in t.clients ==> u in s.clients && t.clients[u] == s.clients[u]
  {
    if AcceptedHello(cfg, s, MessageStep(w, f, now), cfg.uuidOf(s.conns[w].cert.point)) {
      RegisterClients(cfg, s, w, f.decryptPubkey, now);
    } else {
      OtherFramesRegisterNobody(cfg, s, w, f, now);
    }
  }

  /** A daemon becomes registered only by its own accepted hello, and then with the key it announced. */
  lemma RegisteredExactlyByHello(cfg: Config, s: Server, step: Step, u: Uuid)
    requires Directory(cfg, s) && Enabled(s, step) && u !in s.clients
    ensures u in Next(cfg, s, step).clients <==> AcceptedHello(cfg, s, step, u)
    ensures AcceptedHello(cfg, s, step, u) ==>
              Next(cfg, s, step).clients[u] ==
              Client(step.w, u, s.conns[step.w].cert.point, step.frame.decryptPubkey)
  {
    if step.MessageStep? {
      MessageEntry(cfg, s, step.w, step.frame, step.now, u);
    } else {
      if u in Next(cfg, s, step).clients { OthersOnlyUnregister(cfg, s, step, u); }
    }
  }

  /** `steps[k]` is a hello on the socket, under the certificate, and with the key of registry entry `c`. */
  ghost predicate HelloOf(cfg: Config, steps: seq<Step>, k: nat, c: Client)
    requires k < |steps|
  {
    && Runs(cfg, steps[..k]) && AcceptedHello(cfg, After(cfg, steps[..k]), steps[k], c.uuid)
    && steps[k].w == c.sock && steps[k].frame.decryptPubkey == c.decryptPubkey
    && After(cfg, steps[..k]).conns[c.sock].cert == P256(c.pubkey)
  }

  ghost predicate StandsAt(cfg: Config, steps: seq<Step>, m: nat, c: Client)
    requires m < |steps|
  {
    && Runs(cfg, steps[..m]) && c.sock in After(cfg, steps[..m]).conns
    && !Displaces(cfg, After(cfg, steps[..m]), steps[m], c.uuid, c.sock)
  }

  /** That hello still stands: no later step ended its registration. */
  ghost predicate StandingHello(cfg: Config, steps: seq<Step>, k: nat, c: Client) {
    && k < |steps| && HelloOf(cfg, steps, k, c)
    && forall m :: k < m < |steps| ==> StandsAt(cfg, steps, m, c)
  }

  /** Standing so far, and after one more step. */
  lemma StandsOn(cfg: Config, steps: seq<Step>, k: nat, c: Client)
    requires steps != [] && k < |steps| - 1
    ensures
      var n := |steps| - 1;
      StandingHello(cfg, steps, k, c) <==> StandingHello(cfg, steps[..n], k, c) && StandsAt(cfg, steps, n, c)
  {
    var n := |steps| - 1;
    assert forall m :: 0 <= m <= n ==> steps[..n][..m] == steps[..m];
    assert HelloOf(cfg, steps, k, c) == HelloOf(cfg, steps[..n], k, c);
    assert forall m :: k < m < n ==> StandsAt(cfg, steps, m, c) == StandsAt(cfg, steps[..n], m, c);
  }

  lemma NewestHelloStands(cfg: Config, steps: seq<Step>, c: Client)
    requires steps != []
    ensures var n := |steps| - 1; StandingHello(cfg, steps, n, c) <==> HelloOf(cfg, steps, n, c)
  {
  }

  lemma HelloOfLast(cfg: Config, steps: seq<Step>, c: Client)
    requires Runs(cfg, steps) && steps != []
    ensures
      var n := |steps| - 1;
      var s, step := After(cfg, steps[..n]), steps[n];
      HelloOf(cfg, steps, n, c) <==>
        AcceptedHello(cfg, s, step, c.uuid)
        && c == Client(step.w, c.uuid, s.conns[step.w].cert.point, step.frame.decryptPubkey)
  {
  }

  /** A step that leaves the entry alone, and a step that makes it. */
  lemma EntryAfterStep(cfg: Config, s: Server, step: Step, u: Uuid, c: Client)
    requires Directory(cfg, s) && Enabled(s, step)
    ensures
      var t := Next(cfg, s, step);
      (u in t.clients && t.clients[u] == c) <==>
        || (u in s.clients && s.clients[u] == c && c.sock in s.conns && !Displaces(cfg, s, step, u, c.sock))
        || (AcceptedHello(cfg, s, step, u)
            && c == Client(step.w, u, s.conns[step.w].cert.point, step.frame.decryptPubkey))
  {
    if u in s.clients { RegistrationEndsExactly(cfg, s, step, u); }
    if step.MessageStep? {
      MessageEntry(cfg, s, step.w, step.frame, step.now, u);
    } else if u in Next(cfg, s, step).clients {
      OthersOnlyUnregister(cfg, s, step, u);
    }
  }

  /**
   * The registry of every run, read off its steps: `u` is registered as `c` exactly
   * when some hello announced `c` and no step since has ended that registration.
   */
  lemma {:induction false} RegisteredExactly(cfg: Config, steps: seq<Step>, u: Uuid, c: Client)
    requires Runs(cfg, steps)
    ensures
      (u in After(cfg, steps).clients && After(cfg, steps).clients[u] == c) <==>
        c.uuid == u && exists k :: StandingHello(cfg, steps, k, c)
  {
    hide HelloOf, Displaces, Next;
    if steps != [] {
      var n := |steps| - 1;
      var before, step := steps[..n], steps[n];
      var s := After(cfg, before);
      RunKeeps(cfg, before);
      RegisteredExactly(cfg, before, u, c);
      EntryAfterStep(cfg, s, step, u, c);
      NewestHelloStands(cfg, steps, c);
      forall k: nat | k < n
        ensures StandingHello(cfg, steps, k, c) <==> StandingHello(cfg, before, k, c) && StandsAt(cfg, steps, n, c)
      {
        StandsOn(cfg, steps, k, c);
      }
      if u in s.clients && s.clients[u] == c {
        assert GoodClient(cfg, s, u);
        var k :| StandingHello(cfg, before, k, c);
        assert StandingHello(cfg, steps, k, c) <==> StandsAt(cfg, steps, n, c);
      }
      HelloOfLast(cfg, steps, c);
    }
  }

  // -- events ----------------------------------------------------------------

  lemma LastTellsRegistration(events: seq<Event>, up: set<Uuid>, u: Uuid)
    requires TraceAgrees(events, up)
    ensures Alternating(Life(events, u))
    ensures var life := Life(events, u); u in up <==> life != [] && life[|life| - 1]
  {
    assert LifeAgrees(events, up, u);
    var life := Life(events, u);
    if life != [] {
      assert life[|life| - 1] == ((|life| - 1) % 2 == 0);
    }
  }

  /** Between shutdowns, connected and disconnected alternate, connected first; the last is connected iff registered. */
  lemma EventsAlternate(cfg: Config, steps: seq<Step>, u: Uuid)
    requires Runs(cfg, steps)
    ensures
      var s := After(cfg, steps);
      var life := Life(s.events, u);
      && Alternating(life)
      && (u in s.clients <==> life != [] && life[|life| - 1])
  {
    RunKeeps(cfg, steps);
    LastTellsRegistration(After(cfg, steps).events, After(cfg, steps).clients.Keys, u);
  }

  lemma Extend(cfg: Config, steps: seq<Step>, step: Step)
    requires Runs(cfg, steps) && Enabled(After(cfg, steps), step)
    ensures Runs(cfg, steps + [step])
    ensures After(cfg, steps + [step]) == Next(cfg, After(cfg, steps), step)
  {
    assert (steps + [step])[..|steps|] == steps;
  }

  lemma NoStepsYet(cfg: Config)
    ensures Runs(cfg, []) && After(cfg, []) == INITIAL
  {
  }

  /** One of two sockets with the same certificate registers, and the server closes. */
  lemma ConnectThenClose(cfg: Config, w: Sock, w': Sock, point: Bytes, key: Bytes)
    requires w != w' && GoodKey(cfg, key)
    ensures
      var u := cfg.uuidOf(point);
      var steps := [AcceptStep(w, P256(point)), AcceptStep(w', P256(point)),
                    MessageStep(w, Hello(key), 0), CloseServerStep([])];
      && Runs(cfg, steps) && After(cfg, steps).events == [Connected(u), Shutdown]
      && After(cfg, steps).clients == map[]
      && w' in After(cfg, steps).conns && After(cfg, steps).conns[w'] == Conn(P256(point), None, K.IDLE, Open, [])
  {
    var a, b, h := AcceptStep(w, P256(point)), AcceptStep(w', P256(point)), MessageStep(w, Hello(key), 0);
    hide Runs, After;
    NoStepsYet(cfg);
    Extend(cfg, [], a);
    assert [] + [a] == [a];
    Extend(cfg, [a], b);
    assert [a] + [b] == [a, b];
    Extend(cfg, [a, b], h);
    assert [a, b] + [h] == [a, b, h];
    Extend(cfg, [a, b, h], CloseServerStep([]));
    assert [a, b, h] + [CloseServerStep([])] == [a, b, h, CloseServerStep([])];
  }

  /** A run with `close()` in it may emit connected twice in a row: no disconnected is emitted for its clients. */
  lemma CloseBreaksAlternation(cfg: Config, w: Sock, w': Sock, point: Bytes, key: Bytes)
    requires w != w' && GoodKey(cfg, key)
    ensures
      var u := cfg.uuidOf(point);
      var steps := [AcceptStep(w, P256(point)), AcceptStep(w', P256(point)),
                    MessageStep(w, Hello(key), 0), CloseServerStep([]), MessageStep(w', Hello(key), 0)];
      Runs(cfg, steps) && After(cfg, steps).events == [Connected(u), Shutdown, Connected(u)]
  {
    var steps := [AcceptStep(w, P256(point)), AcceptStep(w', P256(point)),
                  MessageStep(w, Hello(key), 0), CloseServerStep([])];
    var h' := MessageStep(w', Hello(key), 0);
    ConnectThenClose(cfg, w, w', point, key);
    Extend(cfg, steps, h');
    assert steps + [h'] == [steps[0], steps[1], steps[2], steps[3], h'];
  }
}
