/** What the relay writes to its sockets: each admitted request at most once, on the socket of its daemon. */
module RelayWrites {
  import opened Prelude
  import opened Relay
  import opened RelayInvariants
  import K = Keepalive

  /** `b` is `a` with frames other than requests appended. */
  ghost predicate SentGrows(a: seq<ServerFrame>, b: seq<ServerFrame>) {
    a <= b && forall i :: |a| <= i < |b| ==> !b[i].RequestFrame?
  }

  ghost predicate ConnGrows(s: Server, t: Server, w: Sock)
    requires w in t.conns
  {
    if w in s.conns then t.conns[w].cert == s.conns[w].cert && SentGrows(s.conns[w].sent, t.conns[w].sent)
    else SentGrows([], t.conns[w].sent)
  }

  ghost predicate NoNewRequests(s: Server, t: Server) {
    && t.admitted == s.admitted
    && s.conns.Keys <= t.conns.Keys
    && (forall w :: w in t.conns ==> ConnGrows(s, t, w))
  }

  /** A request on the wire is the admitted one, on the socket it was admitted for. */
  ghost predicate Genuine(s: Server, w: Sock, i: nat)
    requires w in s.conns && i < |s.conns[w].sent|
  {
    var f := s.conns[w].sent[i];
    f.RequestFrame? ==> f.req.id in s.admitted && s.admitted[f.req.id].sock == w && s.admitted[f.req.id].req == f.req
  }

  ghost predicate NoRepeat(sent: seq<ServerFrame>) {
    forall i, j :: 0 <= i < j < |sent| && sent[i].RequestFrame? && sent[j].RequestFrame? ==>
      sent[i].req.id != sent[j].req.id
  }

  ghost predicate GoodAdmission(cfg: Config, s: Server, id: ReqId)
    requires id in s.admitted
  {
    var a := s.admitted[id];
    a.sock in s.conns && s.conns[a.sock].cert.P256? && cfg.uuidOf(s.conns[a.sock].cert.point) == a.uuid
  }

  ghost predicate Written(cfg: Config, s: Server) {
    && (forall w, i: nat :: w in s.conns && i < |s.conns[w].sent| ==> Genuine(s, w, i))
    && (forall w :: w in s.conns ==> NoRepeat(s.conns[w].sent))
    && (forall id :: id in s.admitted ==> GoodAdmission(cfg, s, id))
  }

  lemma NoNewRequestsKeeps(cfg: Config, s: Server, t: Server)
    requires Written(cfg, s) && NoNewRequests(s, t)
    ensures Written(cfg, t)
  {
    forall w, i: nat | w in t.conns && i < |t.conns[w].sent| ensures Genuine(t, w, i) {
      assert ConnGrows(s, t, w);
      if w in s.conns && i < |s.conns[w].sent| { assert Genuine(s, w, i); }
    }
    forall w | w in t.conns ensures NoRepeat(t.conns[w].sent) {
      assert ConnGrows(s, t, w);
      if w in s.conns { assert NoRepeat(s.conns[w].sent); }
    }
    forall id | id in t.admitted ensures GoodAdmission(cfg, t, id) {
      assert GoodAdmission(cfg, s, id) && ConnGrows(s, t, s.admitted[id].sock);
    }
  }

  lemma SetConnWrites(s: Server, w: Sock, c: Conn)
    requires w in s.conns ==> c.cert == s.conns[w].cert
    requires SentGrows(if w in s.conns then s.conns[w].sent else [], c.sent)
    ensures NoNewRequests(s, SetConn(s, w, c))
  {
  }

  lemma EvictWritesNoRequest(s: Server, u: Uuid)
    ensures NoNewRequests(s, Evict(s, u))
  {
  }

  lemma SameWire(s: Server, t: Server, r: Server)
    requires NoNewRequests(s, t) && r.conns == t.conns && r.admitted == t.admitted
    ensures NoNewRequests(s, r)
  {
    forall w | w in r.conns ensures ConnGrows(s, r, w) { assert ConnGrows(s, t, w); }
  }

  lemma NoNewRequestsTwice(s: Server, t: Server, r: Server)
    requires NoNewRequests(s, t) && NoNewRequests(t, r)
    ensures NoNewRequests(s, r)
  {
    forall w | w in r.conns ensures ConnGrows(s, r, w) {
      assert ConnGrows(t, r, w);
      if w in t.conns { assert ConnGrows(s, t, w); }
    }
  }

  lemma RegisterWritesNoRequest(cfg: Config, s: Server, w: Sock, key: Bytes, now: nat)
    requires Live(s, w)
    ensures NoNewRequests(s, Register(cfg, s, w, key, now))
  {
    var t := Evict(s, cfg.uuidOf(s.conns[w].cert.point));
    EvictWritesNoRequest(s, cfg.uuidOf(s.conns[w].cert.point));
    var r := Register(cfg, s, w, key, now);
    var c := r.conns[w];
    assert ConnGrows(s, t, w);
    SetConnWrites(t, w, c);
    SameWire(t, SetConn(t, w, c), r);
    NoNewRequestsTwice(s, t, r);
  }

  lemma NothingWritten(s: Server)
    ensures NoNewRequests(s, s)
  {
  }

  lemma RejectWritesNoRequest(s: Server, w: Sock, reason: Refusal)
    requires w in s.conns
    ensures NoNewRequests(s, Reject(s, w, reason))
  {
    SetConnWrites(s, w, Shut(Send(s.conns[w], Error(reason))));
  }

  lemma ResponseWritesNoRequest(s: Server, r: Response)
    ensures NoNewRequests(s, OnResponse(s, r))
  {
    NothingWritten(s);
    SameWire(s, s, OnResponse(s, r));
  }

  lemma MessageWritesNoRequest(cfg: Config, s: Server, w: Sock, f: ClientFrame, now: nat)
    requires Live(s, w)
    ensures NoNewRequests(s, OnMessage(cfg, s, w, f, now))
  {
    hide NoNewRequests;
    NothingWritten(s);
    match f
    case NotJson => RejectWritesNoRequest(s, w, InvalidJson);
    case NotAnEnvelope => RejectWritesNoRequest(s, w, ExpectedHello);
    case EmptyEnvelope => RejectWritesNoRequest(s, w, ExpectedHello);
    case HelloWithoutKey => RejectWritesNoRequest(s, w, DecryptPubkeyRequired);
    case ResponseFrame(r) =>
      RejectWritesNoRequest(s, w, ExpectedHello);
      ResponseWritesNoRequest(s, r);
    case Hello(key) =>
      if s.conns[w].registered == None {
        match ValidateDecryptPubkey(cfg, key)
        case Some(err) => RejectWritesNoRequest(s, w, err);
        case None => RegisterWritesNoRequest(cfg, s, w, key, now);
      }
  }

  lemma CleanupWritesNoRequest(s: Server, w: Sock)
    requires w in s.conns
    ensures NoNewRequests(s, Cleanup(s, w))
  {
  }

  /** A cleanup after a change to the same socket that writes nothing. */
  lemma ChangeThenCleanup(s: Server, w: Sock, c: Conn)
    requires w in s.conns && c.cert == s.conns[w].cert && c.sent == s.conns[w].sent
    ensures NoNewRequests(s, SetConn(s, w, c)) && NoNewRequests(s, Cleanup(SetConn(s, w, c), w))
  {
    CleanupWritesNoRequest(SetConn(s, w, c), w);
    NoNewRequestsTwice(s, SetConn(s, w, c), Cleanup(SetConn(s, w, c), w));
  }

  lemma CloseWritesNoRequest(s: Server, order: seq<ReqId>)
    ensures NoNewRequests(s, CloseServer(s, order))
  {
  }

  lemma PongTimeoutWritesNoRequest(s: Server, w: Sock, h: K.Handle)
    requires w in s.conns
    ensures NoNewRequests(s, OnPongTimeout(s, w, h))
  {
    var c := s.conns[w].(keepalive := K.Fire(s.conns[w].keepalive, h));
    SetConnTwice(s, w, c, Shut(c));
    ChangeThenCleanup(s, w, Shut(c));
  }

  lemma PingTickWritesNoRequest(cfg: Config, s: Server, w: Sock, now: nat)
    requires w in s.conns
    ensures NoNewRequests(s, OnPingTick(cfg, s, w, now))
  {
    if s.conns[w].ready != Open {
      CleanupWritesNoRequest(s, w);
    } else {
      SetConnWrites(s, w, OnPingTick(cfg, s, w, now).conns[w]);
    }
  }

  lemma TimeoutWritesNoRequest(s: Server, id: ReqId)
    ensures NoNewRequests(s, OnRequestTimeout(s, id))
  {
  }

  lemma ErrorEventWritesNoRequest(s: Server, w: Sock)
    requires w in s.conns
    ensures NoNewRequests(s, OnError(s, w))
  {
    ChangeThenCleanup(s, w, Shut(s.conns[w]));
  }

  lemma CloseEventWritesNoRequest(s: Server, w: Sock)
    requires w in s.conns
    ensures NoNewRequests(s, OnClose(s, w))
  {
    ChangeThenCleanup(s, w, s.conns[w].(ready := Closed));
  }

  lemma AcceptWritesNoRequest(s: Server, w: Sock, cert: Certificate)
    requires w !in s.conns
    ensures NoNewRequests(s, Accept(s, w, cert))
  {
    SetConnWrites(s, w, Accept(s, w, cert).conns[w]);
  }

  lemma OthersWriteNoRequest(cfg: Config, s: Server, step: Step)
    requires Enabled(s, step) && !IsForward(step)
    ensures NoNewRequests(s, Next(cfg, s, step))
  {
    match step
    case AcceptStep(w, cert) => AcceptWritesNoRequest(s, w, cert);
    case MessageStep(w, f, now) => MessageWritesNoRequest(cfg, s, w, f, now);
    case PingTickStep(w, now) => PingTickWritesNoRequest(cfg, s, w, now);
    case PongTimeoutStep(w, h) => PongTimeoutWritesNoRequest(s, w, h);
    case PongStep(w) => SetConnWrites(s, w, OnPong(s, w).conns[w]);
    case PeerClosingStep(w) => SetConnWrites(s, w, Shut(s.conns[w]));
    case CloseEventStep(w) => CloseEventWritesNoRequest(s, w);
    case ErrorEventStep(w) => ErrorEventWritesNoRequest(s, w);
    case RequestTimeoutStep(id) => TimeoutWritesNoRequest(s, id);
    case CloseServerStep(order) => CloseWritesNoRequest(s, order);
  }

  /** A fresh id appended to a wire is no repeat. */
  lemma FreshRequest(s: Server, w: Sock, req: Request)
    requires w in s.conns && NoRepeat(s.conns[w].sent) && req.id !in s.admitted
    requires forall i: nat :: i < |s.conns[w].sent| ==> Genuine(s, w, i)
    ensures NoRepeat(Send(s.conns[w], RequestFrame(req)).sent)
  {
    forall i: nat | i < |s.conns[w].sent| && s.conns[w].sent[i].RequestFrame?
      ensures s.conns[w].sent[i].req.id != req.id
    {
      assert Genuine(s, w, i);
    }
  }

  /** Writing the frame of a request just admitted for `w`. */
  lemma AdmissionIsGenuine(s: Server, t: Server, w: Sock, u: Uuid, req: Request, v: Sock, i: nat)
    requires v in t.conns && i < |t.conns[v].sent| && v in s.conns && req.id !in s.admitted
    requires t.admitted == s.admitted[req.id := Admission(u, w, req)]
    requires t.conns[v].sent == s.conns[v].sent || (v == w && t.conns[v].sent == s.conns[v].sent + [RequestFrame(req)])
    requires i < |s.conns[v].sent| ==> Genuine(s, v, i)
    ensures Genuine(t, v, i)
  {
  }

  lemma ForwardOnWire(cfg: Config, s: Server, u: Uuid, req: Request, b: nat)
    requires Directory(cfg, s) && Forward(cfg, s, u, req, b) != s
    ensures u in s.clients && s.clients[u].sock in s.conns
    ensures
      var w, t := s.clients[u].sock, Forward(cfg, s, u, req, b);
      && t.conns == s.conns[w := Send(s.conns[w], RequestFrame(req))]
      && t.admitted == s.admitted[req.id := Admission(u, w, req)]
      && s.conns[w].cert.P256? && cfg.uuidOf(s.conns[w].cert.point) == u
  {
    assert GoodClient(cfg, s, u);
  }

  lemma ForwardWrites(cfg: Config, s: Server, u: Uuid, req: Request, b: nat)
    requires Written(cfg, s) && Directory(cfg, s) && req.id !in s.admitted
    ensures Written(cfg, Forward(cfg, s, u, req, b))
  {
    hide Forward, Directory;
    var t := Forward(cfg, s, u, req, b);
    if t != s {
      ForwardOnWire(cfg, s, u, req, b);
      var w := s.clients[u].sock;
      forall v, i: nat | v in t.conns && i < |t.conns[v].sent| ensures Genuine(t, v, i) {
        AdmissionIsGenuine(s, t, w, u, req, v, i);
      }
      forall v | v in t.conns ensures NoRepeat(t.conns[v].sent) {
        assert NoRepeat(s.conns[v].sent);
        if v == w { FreshRequest(s, w, req); }
      }
      forall id | id in t.admitted ensures GoodAdmission(cfg, t, id) {
        if id != req.id { assert GoodAdmission(cfg, s, id); }
      }
    }
  }

  lemma HttpForwardWrites(cfg: Config, s: Server, u: Uuid, req: Request, b: nat)
    requires Written(cfg, s) && Directory(cfg, s) && req.id !in s.admitted
    ensures Written(cfg, HttpForward(cfg, s, u, req, b))
  {
    if u in s.clients {
      RecordedKeepsDirectory(cfg, s, u);
      NoNewRequestsKeeps(cfg, s, Emit(s, Recorded(u)));
      ForwardWrites(cfg, Emit(s, Recorded(u)), u, req, b);
    }
  }

  lemma StepWrites(cfg: Config, s: Server, step: Step)
    requires Written(cfg, s) && Inv(cfg, s) && Enabled(s, step)
    ensures Written(cfg, Next(cfg, s, step))
  {
    if step.ForwardStep? {
      ForwardWrites(cfg, s, step.u, step.req, step.buffered);
    } else if step.HttpForwardStep? {
      HttpForwardWrites(cfg, s, step.u, step.req, step.buffered);
    } else {
      OthersWriteNoRequest(cfg, s, step);
      NoNewRequestsKeeps(cfg, s, Next(cfg, s, step));
    }
  }

  lemma {:induction false} RunWrites(cfg: Config, steps: seq<Step>)
    requires Runs(cfg, steps)
    ensures Written(cfg, After(cfg, steps))
    decreases |steps|
  {
    if steps != [] {
      RunWrites(cfg, steps[..|steps| - 1]);
      RunKeeps(cfg, steps[..|steps| - 1]);
      StepWrites(cfg, After(cfg, steps[..|steps| - 1]), steps[|steps| - 1]);
    }
  }

  /** Over every run, an admitted request is on the wire at most once, and only on a socket of its daemon. */
  lemma RequestsGoToTheirDaemonOnce(cfg: Config, steps: seq<Step>, w: Sock, i: nat, w': Sock, j: nat)
    requires Runs(cfg, steps)
    requires w in After(cfg, steps).conns && i < |After(cfg, steps).conns[w].sent|
    requires w' in After(cfg, steps).conns && j < |After(cfg, steps).conns[w'].sent|
    requires After(cfg, steps).conns[w].sent[i].RequestFrame? && After(cfg, steps).conns[w'].sent[j].RequestFrame?
    ensures
      var s := After(cfg, steps);
      var f, f' := s.conns[w].sent[i], s.conns[w'].sent[j];
      && (f.req.id == f'.req.id ==> w == w' && i == j)
      && f.req.id in s.admitted && s.admitted[f.req.id].req == f.req
      && s.conns[w].cert.P256? && cfg.uuidOf(s.conns[w].cert.point) == s.admitted[f.req.id].uuid
  {
    RunWrites(cfg, steps);
    var s := After(cfg, steps);
    assert Genuine(s, w, i) && Genuine(s, w', j) && NoRepeat(s.conns[w].sent);
    assert GoodAdmission(cfg, s, s.conns[w].sent[i].req.id);
  }
}
