/** What the server writes on one socket, and which of a daemon's sockets may still be open. */
module RelayFrames {
  import opened Prelude
  import opened Relay
  import opened RelayInvariants
  import K = Keepalive

  /** Nothing; or one error; or a welcome, then requests, then at most one error. */
  predicate Shape(sent: seq<ServerFrame>) {
    forall i :: 0 <= i < |sent| ==>
      && (sent[i].Welcome? <==> i == 0 && !sent[0].Error?)
      && (sent[i].Error? ==> i == |sent| - 1)
  }

  predicate NoError(sent: seq<ServerFrame>) {
    forall i :: 0 <= i < |sent| ==> !sent[i].Error?
  }

  /**
   * A welcome names the certificate's own daemon. While a socket is open it was not
   * refused, it was welcomed exactly if its hello was accepted, and then it is the
   * daemon's registered socket.
   */
  predicate WireOk(cfg: Config, clients: map<Uuid, Client>, w: Sock, c: Conn) {
    && Shape(c.sent)
    && (c.sent != [] && c.sent[0].Welcome? ==> c.cert.P256? && c.sent[0].uuid == cfg.uuidOf(c.cert.point))
    && (c.ready == Open ==>
          && c.cert.P256? && NoError(c.sent)
          && (c.sent == [] <==> c.registered == None)
          && (c.registered.Some? ==> c.registered.value in clients && clients[c.registered.value].sock == w))
  }

  ghost predicate Wired(cfg: Config, s: Server) {
    forall w :: w in s.conns ==> WireOk(cfg, s.clients, w, s.conns[w])
  }

  lemma SetConnWired(cfg: Config, s: Server, w: Sock, c: Conn)
    requires Wired(cfg, s) && WireOk(cfg, s.clients, w, c)
    ensures Wired(cfg, SetConn(s, w, c))
  {
  }

  /** Refused sockets get the error as their last frame. */
  lemma RejectWired(cfg: Config, s: Server, w: Sock, reason: Refusal)
    requires Wired(cfg, s) && w in s.conns
    ensures Wired(cfg, Reject(s, w, reason))
  {
    var c := s.conns[w];
    assert WireOk(cfg, s.clients, w, c);
    SetConnWired(cfg, s, w, Shut(Send(c, Error(reason))));
  }

  /** A cleanup of a socket that is not open. */
  lemma CleanupWired(cfg: Config, s: Server, w: Sock)
    requires Wired(cfg, s) && w in s.conns && s.conns[w].ready != Open
    ensures Wired(cfg, Cleanup(s, w))
  {
    var s' := Cleanup(s, w);
    forall v | v in s'.conns ensures WireOk(cfg, s'.clients, v, s'.conns[v]) {
      assert WireOk(cfg, s.clients, v, s.conns[v]);
    }
  }

  lemma ChangeCleanupWired(cfg: Config, s: Server, w: Sock, c: Conn)
    requires Wired(cfg, s) && w in s.conns && c.ready != Open && c.sent == s.conns[w].sent && c.cert == s.conns[w].cert
    ensures Wired(cfg, SetConn(s, w, c)) && Wired(cfg, Cleanup(SetConn(s, w, c), w))
  {
    assert WireOk(cfg, s.clients, w, s.conns[w]);
    SetConnWired(cfg, s, w, c);
    CleanupWired(cfg, SetConn(s, w, c), w);
  }

  lemma EvictedSocket(s: Server, u: Uuid, v: Sock)
    requires v in s.conns
    ensures v in Evict(s, u).conns
    ensures Evict(s, u).conns[v] == if u in s.clients && s.clients[u].sock == v then Shut(s.conns[v]) else s.conns[v]
  {
  }

  /** After an eviction no open socket claims the daemon any more. */
  lemma EvictWired(cfg: Config, s: Server, u: Uuid)
    requires Wired(cfg, s)
    ensures Wired(cfg, Evict(s, u))
  {
    var s' := Evict(s, u);
    forall v | v in s'.conns ensures WireOk(cfg, s'.clients, v, s'.conns[v]) {
      assert v in s.conns;
      EvictedSocket(s, u, v);
      assert WireOk(cfg, s.clients, v, s.conns[v]);
    }
  }

  lemma RegisterWired(cfg: Config, s: Server, w: Sock, key: Bytes, now: nat)
    requires Directory(cfg, s) && Wired(cfg, s) && Live(s, w) && s.conns[w].registered == None
    ensures Wired(cfg, Register(cfg, s, w, key, now))
  {
    var u := cfg.uuidOf(s.conns[w].cert.point);
    var s1, s' := Evict(s, u), Register(cfg, s, w, key, now);
    EvictWired(cfg, s, u);
    EvictKeeps(cfg, s, u);
    forall v | v in s'.conns ensures WireOk(cfg, s'.clients, v, s'.conns[v]) {
      assert WireOk(cfg, s1.clients, v, s1.conns[v]);
    }
  }

  lemma MessageWired(cfg: Config, s: Server, w: Sock, f: ClientFrame, now: nat)
    requires Directory(cfg, s) && Wired(cfg, s) && Live(s, w)
    ensures Wired(cfg, OnMessage(cfg, s, w, f, now))
  {
    var refused := s.conns[w].registered == None;
    match f
    case NotJson => RejectWired(cfg, s, w, InvalidJson);
    case NotAnEnvelope => RejectWired(cfg, s, w, ExpectedHello);
    case EmptyEnvelope => RejectWired(cfg, s, w, ExpectedHello);
    case HelloWithoutKey => RejectWired(cfg, s, w, DecryptPubkeyRequired);
    case ResponseFrame(_) => RejectWired(cfg, s, w, ExpectedHello);
    case Hello(key) =>
      if refused {
        match ValidateDecryptPubkey(cfg, key)
        case Some(err) => RejectWired(cfg, s, w, err);
        case None => RegisterWired(cfg, s, w, key, now);
      }
  }

  lemma ForwardWired(cfg: Config, s: Server, u: Uuid, req: Request, b: nat)
    requires Directory(cfg, s) && Wired(cfg, s)
    ensures Wired(cfg, Forward(cfg, s, u, req, b))
  {
    if u in s.clients {
      assert GoodClient(cfg, s, u);
      var w := s.clients[u].sock;
      assert WireOk(cfg, s.clients, w, s.conns[w]);
      SetConnWired(cfg, s, w, Send(s.conns[w], RequestFrame(req)));
    }
  }

  lemma CloseWired(cfg: Config, s: Server, order: seq<ReqId>)
    requires Wired(cfg, s)
    ensures Wired(cfg, CloseServer(s, order))
  {
    var s' := CloseServer(s, order);
    forall w | w in s'.conns ensures WireOk(cfg, s'.clients, w, s'.conns[w]) {
      assert WireOk(cfg, s.clients, w, s.conns[w]);
    }
  }

  lemma AcceptWired(cfg: Config, s: Server, w: Sock, cert: Certificate)
    requires Wired(cfg, s) && w !in s.conns
    ensures Wired(cfg, Accept(s, w, cert))
  {
    SetConnWired(cfg, s, w, Accept(s, w, cert).conns[w]);
  }

  lemma PingTickWired(cfg: Config, s: Server, w: Sock, now: nat)
    requires Wired(cfg, s) && w in s.conns
    ensures Wired(cfg, OnPingTick(cfg, s, w, now))
  {
    assert WireOk(cfg, s.clients, w, s.conns[w]);
    if s.conns[w].ready != Open {
      CleanupWired(cfg, s, w);
    } else {
      SetConnWired(cfg, s, w, s.conns[w].(keepalive := K.Ping(s.conns[w].keepalive, cfg.timing, now)));
    }
  }

  lemma PongTimeoutWired(cfg: Config, s: Server, w: Sock, h: K.Handle)
    requires Wired(cfg, s) && w in s.conns
    ensures Wired(cfg, OnPongTimeout(s, w, h))
  {
    var c := s.conns[w].(keepalive := K.Fire(s.conns[w].keepalive, h));
    assert WireOk(cfg, s.clients, w, s.conns[w]);
    SetConnWired(cfg, s, w, c);
    ChangeCleanupWired(cfg, SetConn(s, w, c), w, Shut(c));
  }

  lemma SocketEndWired(cfg: Config, s: Server, w: Sock)
    requires Wired(cfg, s) && w in s.conns
    ensures Wired(cfg, OnClose(s, w)) && Wired(cfg, OnError(s, w))
  {
    assert WireOk(cfg, s.clients, w, s.conns[w]);
    ChangeCleanupWired(cfg, s, w, s.conns[w].(ready := Closed));
    ChangeCleanupWired(cfg, s, w, Shut(s.conns[w]));
  }

  lemma StepWired(cfg: Config, s: Server, step: Step)
    requires Inv(cfg, s) && Wired(cfg, s) && Enabled(s, step)
    ensures Wired(cfg, Next(cfg, s, step))
  {
    match step
    case AcceptStep(w, cert) => AcceptWired(cfg, s, w, cert);
    case MessageStep(w, f, now) => MessageWired(cfg, s, w, f, now);
    case PingTickStep(w, now) => PingTickWired(cfg, s, w, now);
    case PongTimeoutStep(w, h) => PongTimeoutWired(cfg, s, w, h);
    case PongStep(w) => SetConnWired(cfg, s, w, s.conns[w].(keepalive := K.ClearPong(s.conns[w].keepalive)));
    case PeerClosingStep(w) => SetConnWired(cfg, s, w, Shut(s.conns[w]));
    case CloseEventStep(w) => SocketEndWired(cfg, s, w);
    case ErrorEventStep(w) => SocketEndWired(cfg, s, w);
    case ForwardStep(u, req, b) => ForwardWired(cfg, s, u, req, b);
    case HttpForwardStep(u, req, b) =>
      if u in s.clients {
        RecordedKeepsDirectory(cfg, s, u);
        ForwardWired(cfg, Emit(s, Recorded(u)), u, req, b);
      }
    case RequestTimeoutStep(_) =>
    case CloseServerStep(order) => CloseWired(cfg, s, order);
  }

  lemma {:induction false} RunWired(cfg: Config, steps: seq<Step>)
    requires Runs(cfg, steps)
    ensures Wired(cfg, After(cfg, steps))
  {
    if steps != [] {
      var before := steps[..|steps| - 1];
      RunWired(cfg, before);
      RunKeeps(cfg, before);
      StepWired(cfg, After(cfg, before), steps[|steps| - 1]);
    }
  }

  /** On every socket of every run the server follows the protocol: a welcome to its own daemon first, an error last. */
  lemma ServerFollowsProtocol(cfg: Config, steps: seq<Step>, w: Sock)
    requires Runs(cfg, steps) && w in After(cfg, steps).conns
    ensures
      var c := After(cfg, steps).conns[w];
      && Shape(c.sent)
      && (forall i :: 0 <= i < |c.sent| && c.sent[i].Welcome? ==>
            c.cert.P256? && c.sent[i].uuid == cfg.uuidOf(c.cert.point))
      && (!NoError(c.sent) ==> c.ready != Open)
  {
    RunWired(cfg, steps);
    assert WireOk(cfg, After(cfg, steps).clients, w, After(cfg, steps).conns[w]);
  }

  /** A daemon has at most one open socket past its hello, and that one is registered. */
  lemma OneOpenSocketPerDaemon(cfg: Config, steps: seq<Step>, w: Sock, w': Sock)
    requires Runs(cfg, steps) && w in After(cfg, steps).conns && w' in After(cfg, steps).conns
    ensures
      var s := After(cfg, steps);
      var c, c' := s.conns[w], s.conns[w'];
      && (c.ready == Open && c.registered.Some? ==>
            c.registered.value in s.clients && s.clients[c.registered.value].sock == w)
      && (c.ready == c'.ready == Open && c.registered.Some? && c.registered == c'.registered ==> w == w')
  {
    RunWired(cfg, steps);
    var s := After(cfg, steps);
    assert WireOk(cfg, s.clients, w, s.conns[w]) && WireOk(cfg, s.clients, w', s.conns[w']);
  }
}
