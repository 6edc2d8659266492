/**
 * The composed system is not idle: from every state it can reach, a daemon can
 * connect and be served, and a forward to a served daemon can be called and answered.
 */
module Progress {
  import opened Prelude
  import opened Relay
  import opened RelayInvariants
  import opened Forwarder
  import opened EndToEnd
  import H = Handover
  import K = Keepalive
  import RT = RelayTheorems

  lemma Append(cfg: Config, moves: seq<Move>, m: Move) returns (all: seq<Move>)
    requires History(cfg, moves) && Can(Reached(cfg, moves), m)
    ensures moves <= all && History(cfg, all) && Reached(cfg, all) == Do(cfg, Reached(cfg, moves), m)
  {
    hide Can, Do;
    all := moves + [m];
    assert all[..|all| - 1] == moves && all[|all| - 1] == m;
  }

  /** The server never reads past what a peer wrote. */
  ghost predicate ReadsWritten(y: System) {
    forall w :: w in y.peers ==> w in y.read && y.read[w] <= WireLength(y.peers[w])
  }

  lemma MoveReadsWritten(cfg: Config, y: System, m: Move)
    requires ReadsWritten(y) && Can(y, m)
    ensures ReadsWritten(Do(cfg, y, m))
  {
    hide Next, Enabled;
  }

  lemma {:induction false} HistoryReadsWritten(cfg: Config, moves: seq<Move>)
    requires History(cfg, moves)
    ensures ReadsWritten(Reached(cfg, moves))
    decreases |moves|
  {
    if moves != [] {
      hide Do, Can, ReadsWritten;
      HistoryReadsWritten(cfg, moves[..|moves| - 1]);
      MoveReadsWritten(cfg, Reached(cfg, moves[..|moves| - 1]), moves[|moves| - 1]);
    }
  }

  /** Daemon `u` is registered on the open socket `w`, and its honest peer is served. */
  ghost predicate Attached(y: System, w: Sock, u: Uuid) {
    && HonestAt(y, w) && y.peers[w].d.link.phase == H.Serving
    && u in y.server.clients && y.server.clients[u].sock == w
    && w in y.server.conns && y.server.conns[w].ready == Open
    && y.server.conns[w].registered.Some? && y.server.conns[w].cert.P256?
  }

  // -- catching up -------------------------------------------------------------

  lemma ResponseReads(cfg: Config, s: Server, r: Response)
    requires Books(cfg, s)
    ensures
      var t := OnResponse(s, r);
      && t.conns == s.conns && t.clients == s.clients && t.admitted == s.admitted
      && forall u :: CountOf(t.pendingByClient, u) <= CountOf(s.pendingByClient, u)
  {
    RemovePendingKeepsLockstep(s, r.id);
  }

  /** A registered socket's frame, if it is JSON, touches no socket and no registration. */
  lemma RegisteredReads(cfg: Config, s: Server, w: Sock, f: ClientFrame, now: nat)
    requires Books(cfg, s) && Live(s, w) && s.conns[w].registered.Some? && !f.NotJson?
    ensures
      var t := OnMessage(cfg, s, w, f, now);
      && t.conns == s.conns && t.clients == s.clients && t.admitted == s.admitted
      && forall u :: CountOf(t.pendingByClient, u) <= CountOf(s.pendingByClient, u)
  {
    hide Books;
    if f.ResponseFrame? { ResponseReads(cfg, s, f.resp); }
  }

  /** What catching up leaves as it is; counts may only fall. */
  ghost predicate SameButBehind(y: System, y': System, w: Sock) {
    && y'.server.conns == y.server.conns && y'.server.clients == y.server.clients
    && y'.server.admitted == y.server.admitted
    && (forall u :: CountOf(y'.server.pendingByClient, u) <= CountOf(y.server.pendingByClient, u))
    && y'.peers.Keys == y.peers.Keys && (forall v :: v in y.peers && v != w ==> y'.peers[v] == y.peers[v])
    && HonestAt(y', w)
  }

  lemma AttachedIsLive(y: System, w: Sock, u: Uuid)
    requires Attached(y, w, u)
    ensures Live(y.server, w) && w in y.peers
  {
  }

  lemma AttachedReads(cfg: Config, y: System, w: Sock, u: Uuid, i: nat)
    requires Books(cfg, y.server) && Attached(y, w, u) && i < WireLength(y.peers[w])
    ensures
      var server := OnMessage(cfg, y.server, w, WireFrame(y.peers[w], i), 0);
      SameButBehind(y, y.(server := server, read := y.read[w := i + 1]), w)
  {
    hide OnMessage;
    RegisteredReads(cfg, y.server, w, WireFrame(y.peers[w], i), 0);
  }

  lemma AttachedMayRead(cfg: Config, y: System, w: Sock, u: Uuid)
    requires AllGood(cfg, y) && Attached(y, w, u) && w in y.read && y.read[w] < WireLength(y.peers[w])
    ensures Can(y, ReadFrame(w, 0))
    ensures
      var y' := Do(cfg, y, ReadFrame(w, 0));
      SameButBehind(y, y', w) && y'.peers == y.peers && y'.read == y.read[w := y.read[w] + 1]
  {
    hide SameButBehind, OnMessage, Correlated, Books, Directory;
    AttachedReads(cfg, y, w, u, y.read[w]);
  }

  lemma ReadNext(cfg: Config, moves: seq<Move>, w: Sock, u: Uuid) returns (all: seq<Move>)
    requires History(cfg, moves) && Attached(Reached(cfg, moves), w, u)
    requires w in Reached(cfg, moves).read && Reached(cfg, moves).read[w] < WireLength(Reached(cfg, moves).peers[w])
    ensures moves <= all && History(cfg, all)
    ensures
      var y, y' := Reached(cfg, moves), Reached(cfg, all);
      SameButBehind(y, y', w) && y'.peers == y.peers && y'.read == y.read[w := y.read[w] + 1]
  {
    hide AllGood, SameButBehind, Attached, Can, Do;
    HistoryKeeps(cfg, moves);
    AttachedMayRead(cfg, Reached(cfg, moves), w, u);
    all := Append(cfg, moves, ReadFrame(w, 0));
  }

  lemma {:induction false} ReadAll(cfg: Config, moves: seq<Move>, w: Sock, u: Uuid) returns (all: seq<Move>)
    requires History(cfg, moves) && Attached(Reached(cfg, moves), w, u)
    ensures moves <= all && History(cfg, all)
    ensures
      var y, y' := Reached(cfg, moves), Reached(cfg, all);
      && SameButBehind(y, y', w) && y'.peers == y.peers
      && w in y'.read && y'.read[w] == WireLength(y'.peers[w])
    decreases
      var y := Reached(cfg, moves);
      if w in y.read then WireLength(y.peers[w]) - y.read[w] else 0
  {
    var y := Reached(cfg, moves);
    HistoryReadsWritten(cfg, moves);
    if y.read[w] == WireLength(y.peers[w]) {
      all := moves;
    } else {
      var next := ReadNext(cfg, moves, w, u);
      all := ReadAll(cfg, next, w, u);
    }
  }

  lemma DeliverNext(cfg: Config, moves: seq<Move>, w: Sock) returns (all: seq<Move>)
    requires History(cfg, moves) && HonestAt(Reached(cfg, moves), w) && w in Reached(cfg, moves).server.conns
    requires Reached(cfg, moves).peers[w].d.arrived < |Reached(cfg, moves).server.conns[w].sent|
    ensures moves <= all && History(cfg, all)
    ensures
      var y, y' := Reached(cfg, moves), Reached(cfg, all);
      var d := y.peers[w].d;
      y' == SetDaemon(y, w, Arrived(d, y.server.conns[w].sent[d.arrived]))
  {
    all := Append(cfg, moves, Deliver(w));
  }

  /** The peer of `w` has got `arrived` frames, is served, and has written nothing more. */
  ghost predicate Delivered(y: System, y': System, w: Sock, arrived: nat) {
    && y'.server == y.server && y'.read == y.read && y'.peers.Keys == y.peers.Keys
    && (forall v :: v in y.peers && v != w ==> y'.peers[v] == y.peers[v])
    && HonestAt(y, w) && HonestAt(y', w) && y'.peers[w].d.link.phase == H.Serving
    && y'.peers[w].d.sent == y.peers[w].d.sent && y'.peers[w].d.arrived == arrived
  }

  lemma DeliveredOneMore(y: System, y': System, w: Sock, f: ServerFrame, arrived: nat)
    requires Delivered(y, y', w, arrived)
    ensures Delivered(y, SetDaemon(y', w, Arrived(y'.peers[w].d, f)), w, arrived + 1)
  {
  }

  lemma {:induction false} DeliverAll(cfg: Config, moves: seq<Move>, w: Sock, y: System, n: nat)
    returns (all: seq<Move>)
    requires History(cfg, moves) && Delivered(y, Reached(cfg, moves), w, n) && w in y.server.conns
    requires n <= |y.server.conns[w].sent|
    ensures moves <= all && History(cfg, all)
    ensures Delivered(y, Reached(cfg, all), w, |y.server.conns[w].sent|)
    decreases |y.server.conns[w].sent| - n
  {
    if n == |y.server.conns[w].sent| {
      all := moves;
    } else {
      var y' := Reached(cfg, moves);
      var next := DeliverNext(cfg, moves, w);
      DeliveredOneMore(y, y', w, y.server.conns[w].sent[n], n);
      all := DeliverAll(cfg, next, w, y, n + 1);
    }
  }

  /** Everything written on `w` has been read, in both directions. */
  ghost predicate CaughtUp(y: System, w: Sock) {
    && HonestAt(y, w) && w in y.server.conns && y.peers[w].d.arrived == |y.server.conns[w].sent|
    && w in y.read && y.read[w] == WireLength(y.peers[w])
  }

  lemma StillAttached(y: System, y': System, w: Sock, u: Uuid)
    requires Attached(y, w, u) && SameButBehind(y, y', w) && y'.peers[w].d.link.phase == H.Serving
    ensures Attached(y', w, u)
  {
  }

  lemma DeliveredCatchesUp(y: System, y': System, y'': System, w: Sock, u: Uuid)
    requires Attached(y, w, u) && SameButBehind(y, y', w) && y'.peers == y.peers
    requires w in y'.read && y'.read[w] == WireLength(y'.peers[w])
    requires w in y'.server.conns && Delivered(y', y'', w, |y'.server.conns[w].sent|)
    ensures SameButBehind(y, y'', w) && Attached(y'', w, u) && CaughtUp(y'', w)
  {
  }

  lemma CatchUp(cfg: Config, moves: seq<Move>, w: Sock, u: Uuid) returns (all: seq<Move>)
    requires History(cfg, moves) && Attached(Reached(cfg, moves), w, u)
    ensures moves <= all && History(cfg, all)
    ensures
      var y, y' := Reached(cfg, moves), Reached(cfg, all);
      SameButBehind(y, y', w) && Attached(y', w, u) && CaughtUp(y', w)
  {
    hide Do, Can;
    var read := ReadAll(cfg, moves, w, u);
    var y := Reached(cfg, read);
    HistoryKeeps(cfg, read);
    assert GoodPeer(y, w);
    all := DeliverAll(cfg, read, w, y, y.peers[w].d.arrived);
    DeliveredCatchesUp(Reached(cfg, moves), y, Reached(cfg, all), w, u);
  }

  // -- a new daemon -------------------------------------------------------------

  /** A socket with a peer that has said nothing yet, and a link that has seen nothing. */
  ghost predicate Dialled(y: System, w: Sock, point: Bytes) {
    && w in y.peers && y.peers[w] == Honest(NEW_DAEMON) && w in y.read && y.read[w] == 0
    && w in y.server.conns && y.server.conns[w] == Conn(P256(point), None, K.IDLE, Open, [])
  }

  lemma MayDial(cfg: Config, y: System, w: Sock, point: Bytes)
    requires Correlated(y) && w !in y.server.conns
    ensures Can(y, Dial(w, P256(point), false))
    ensures Dialled(Do(cfg, y, Dial(w, P256(point), false)), w, point)
  {
  }

  ghost predicate Greeting(y: System, w: Sock, point: Bytes, key: Bytes) {
    && w in y.peers && y.peers[w] == Honest(Greeted(NEW_DAEMON, key)) && w in y.read && y.read[w] == 0
    && w in y.server.conns && y.server.conns[w] == Conn(P256(point), None, K.IDLE, Open, [])
  }

  lemma MayGreet(cfg: Config, y: System, w: Sock, point: Bytes, key: Bytes)
    requires Dialled(y, w, point)
    ensures Can(y, SayHello(w, key))
    ensures Greeting(Do(cfg, y, SayHello(w, key)), w, point, key)
  {
  }

  /** Registered and welcomed; the daemon has got the first `arrived` frames, which made its link `link`. */
  ghost predicate Welcomed(y: System, w: Sock, u: Uuid, link: H.Link<ServerFrame>, arrived: nat) {
    && HonestAt(y, w) && y.peers[w].d.link == link && y.peers[w].d.arrived == arrived
    && u in y.server.clients && y.server.clients[u].sock == w
    && w in y.server.conns && y.server.conns[w].ready == Open && y.server.conns[w].sent == [Welcome(u)]
    && y.server.conns[w].registered.Some? && y.server.conns[w].cert.P256?
  }

  lemma MayRegister(cfg: Config, y: System, w: Sock, point: Bytes, key: Bytes)
    requires Directory(cfg, y.server) && Greeting(y, w, point, key) && RT.GoodKey(cfg, key)
    ensures Can(y, ReadFrame(w, 0))
    ensures Welcomed(Do(cfg, y, ReadFrame(w, 0)), w, cfg.uuidOf(point), H.NewLink(), 0)
  {
    EvictKeeps(cfg, y.server, cfg.uuidOf(point));
  }

  lemma MayReceive(cfg: Config, y: System, w: Sock, u: Uuid, link: H.Link<ServerFrame>)
    requires Welcomed(y, w, u, link, 0) && link.phase == H.Buffering
    ensures Can(y, LinkMove(w, H.RecvEvent))
    ensures Welcomed(Do(cfg, y, LinkMove(w, H.RecvEvent)), w, u, H.Recv(link), 0)
  {
  }

  lemma MayTakeWelcome(cfg: Config, y: System, w: Sock, u: Uuid, link: H.Link<ServerFrame>)
    requires Welcomed(y, w, u, link, 0)
    ensures Can(y, Deliver(w))
    ensures Welcomed(Do(cfg, y, Deliver(w)), w, u, H.Arrive(link, Welcome(u)), 1)
  {
  }

  lemma MayHandOver(cfg: Config, y: System, w: Sock, u: Uuid, link: H.Link<ServerFrame>)
    requires Welcomed(y, w, u, link, 1) && link.phase == H.Buffering
    ensures Can(y, LinkMove(w, H.HandOverEvent(false)))
    ensures Attached(Do(cfg, y, LinkMove(w, H.HandOverEvent(false))), w, u)
  {
  }

  lemma DirectoryOf(cfg: Config, y: System)
    requires AllGood(cfg, y)
    ensures Directory(cfg, y.server)
  {
  }

  lemma DaemonCanRegister(cfg: Config, moves: seq<Move>, w: Sock, point: Bytes, key: Bytes) returns (all: seq<Move>)
    requires History(cfg, moves) && w !in Reached(cfg, moves).server.conns && RT.GoodKey(cfg, key)
    ensures moves <= all && History(cfg, all)
    ensures Welcomed(Reached(cfg, all), w, cfg.uuidOf(point), H.NewLink(), 0)
  {
    hide Do, Can, Dialled, Greeting, Welcomed, Inv, Directory, Correlated;
    HistoryKeeps(cfg, moves);
    MayDial(cfg, Reached(cfg, moves), w, point);
    all := Append(cfg, moves, Dial(w, P256(point), false));
    MayGreet(cfg, Reached(cfg, all), w, point, key);
    all := Append(cfg, all, SayHello(w, key));
    HistoryKeeps(cfg, all);
    assert Directory(cfg, Reached(cfg, all).server) by { DirectoryOf(cfg, Reached(cfg, all)); }
    MayRegister(cfg, Reached(cfg, all), w, point, key);
    all := Append(cfg, all, ReadFrame(w, 0));
  }

  /** From every reachable state a daemon can dial in on a new socket, register, and be served. */
  lemma DaemonCanAttach(cfg: Config, moves: seq<Move>, w: Sock, point: Bytes, key: Bytes) returns (all: seq<Move>)
    requires History(cfg, moves) && w !in Reached(cfg, moves).server.conns && RT.GoodKey(cfg, key)
    ensures moves <= all && History(cfg, all)
    ensures Attached(Reached(cfg, all), w, cfg.uuidOf(point))
  {
    hide Do, Can, Welcomed, Attached;
    var u := cfg.uuidOf(point);
    all := DaemonCanRegister(cfg, moves, w, point, key);
    MayReceive(cfg, Reached(cfg, all), w, u, H.NewLink());
    all := Append(cfg, all, LinkMove(w, H.RecvEvent));
    MayTakeWelcome(cfg, Reached(cfg, all), w, u, H.Recv(H.NewLink()));
    all := Append(cfg, all, Deliver(w));
    MayHandOver(cfg, Reached(cfg, all), w, u, H.Arrive(H.Recv(H.NewLink()), Welcome(u)));
    all := Append(cfg, all, LinkMove(w, H.HandOverEvent(false)));
  }

  // -- one forward, from the call to its settlement -----------------------------

  /** `forward` would admit `req` for `u` now. */
  ghost predicate Admits(cfg: Config, y: System, u: Uuid, req: Request, buffered: nat) {
    && u in y.server.clients && buffered <= cfg.maxBufferedBytes
    && CountOf(y.server.pendingByClient, u) < cfg.maxPendingPerClient
    && req.id !in y.server.admitted && Unguessed(y, req.id)
  }

  lemma UnguessedStays(y: System, y': System, w: Sock, id: ReqId)
    requires Unguessed(y, id) && HonestAt(y', w) && y'.peers.Keys == y.peers.Keys
    requires forall v :: v in y.peers && v != w ==> y'.peers[v] == y.peers[v]
    ensures Unguessed(y', id)
  {
  }

  /** The request is pending, and the last thing written on its daemon's socket. */
  ghost predicate Asked(y: System, w: Sock, u: Uuid, req: Request) {
    && Attached(y, w, u) && w in y.read && y.read[w] == WireLength(y.peers[w])
    && y.server.conns[w].sent != [] && y.server.conns[w].sent[|y.server.conns[w].sent| - 1] == RequestFrame(req)
    && y.peers[w].d.arrived == |y.server.conns[w].sent| - 1 && req.id in y.server.pending
  }

  lemma MayForward(cfg: Config, y: System, w: Sock, u: Uuid, req: Request, buffered: nat)
    requires Attached(y, w, u) && CaughtUp(y, w) && Admits(cfg, y, u, req, buffered)
    ensures Can(y, ServerMove(ForwardStep(u, req, buffered)))
    ensures Asked(Do(cfg, y, ServerMove(ForwardStep(u, req, buffered))), w, u, req)
  {
  }

  /** The daemon is dispatching the request, as frame number `k` it handles. */
  ghost predicate Dispatching(y: System, w: Sock, u: Uuid, req: Request, k: nat) {
    && Attached(y, w, u) && w in y.read && y.read[w] == WireLength(y.peers[w]) && req.id in y.server.pending
    && var d := y.peers[w].d;
       k < |d.link.handled| && d.link.handled[k] == RequestFrame(req) && k in d.busy
  }

  lemma ServedHandles(d: Daemon, req: Request)
    requires d.link.phase == H.Serving
    ensures
      var d', k := Arrived(d, RequestFrame(req)), |d.link.handled|;
      && d'.link.phase == H.Serving && d'.sent == d.sent
      && k < |d'.link.handled| && d'.link.handled[k] == RequestFrame(req) && k in d'.busy
  {
  }

  lemma MayDeliver(cfg: Config, y: System, w: Sock, u: Uuid, req: Request) returns (k: nat)
    requires Asked(y, w, u, req)
    ensures Can(y, Deliver(w))
    ensures Dispatching(Do(cfg, y, Deliver(w)), w, u, req, k)
  {
    hide Arrived;
    k := |y.peers[w].d.link.handled|;
    ServedHandles(y.peers[w].d, req);
  }

  /** The daemon's answer is all that the server has not read yet. */
  ghost predicate Answering(y: System, w: Sock, u: Uuid, resp: Response) {
    && Attached(y, w, u) && w in y.read && y.read[w] == WireLength(y.peers[w]) - 1
    && WireFrame(y.peers[w], y.read[w]) == ResponseFrame(resp) && resp.id in y.server.pending
  }

  lemma DispatchKeepsId(req: Request, reply: LocalReply)
    requires Dispatch(req, reply).Some?
    ensures Dispatch(req, reply).value.id == req.id
  {
    DispatchExactly(req, reply);
  }

  lemma MayFinish(cfg: Config, y: System, w: Sock, u: Uuid, req: Request, k: nat, reply: LocalReply)
    requires Dispatching(y, w, u, req, k) && Dispatch(req, reply).Some?
    ensures Can(y, Finish(w, k, reply))
    ensures Answering(Do(cfg, y, Finish(w, k, reply)), w, u, Dispatch(req, reply).value)
  {
    hide Dispatch;
    DispatchKeepsId(req, reply);
  }

  lemma MaySettle(cfg: Config, y: System, w: Sock, u: Uuid, resp: Response)
    requires Answering(y, w, u, resp) && 100 <= resp.status <= 599
    ensures Can(y, ReadFrame(w, 0))
    ensures Do(cfg, y, ReadFrame(w, 0)).server.settlements ==
              y.server.settlements + [Settlement(resp.id, Resolved(Flatten(resp)))]
  {
    hide WireFrame;
  }

  /** What the local server gives back is a status that the relay passes on; the relay drops others. */
  predicate Answerable(reply: LocalReply) {
    match reply
    case Unreachable => true
    case Broken => false
    case Replied(status, _, _) => 100 <= status <= 599
  }

  lemma AnswerableInRange(req: Request, reply: LocalReply)
    requires Answerable(reply)
    ensures
      var resp := Dispatch(req, reply);
      && resp.Some? && resp.value.id == req.id && 100 <= resp.value.status <= 599
      && var fr := Flatten(resp.value);
         RightAnswer(req, reply, fr.status, fr.headers, fr.body)
  {
    DispatchExactly(req, reply);
  }

  /**
   * From every reachable state in which a daemon is registered and served: if `forward`
   * would admit a request for it, then it can be called, and whatever the local server
   * replies, the forward can resolve with the right answer to that request.
   */
  lemma ForwardCanResolve(cfg: Config, moves: seq<Move>, w: Sock, u: Uuid, req: Request, buffered: nat,
                          reply: LocalReply) returns (all: seq<Move>, fr: ForwardResponse)
    requires History(cfg, moves) && Attached(Reached(cfg, moves), w, u)
    requires Admits(cfg, Reached(cfg, moves), u, req, buffered) && Answerable(reply)
    ensures moves <= all && History(cfg, all)
    ensures Settlement(req.id, Resolved(fr)) in Reached(cfg, all).server.settlements
    ensures RightAnswer(req, reply, fr.status, fr.headers, fr.body)
  {
    hide Do, Can, Attached, CaughtUp, Asked, Dispatching, Answering, Dispatch, RightAnswer;
    AnswerableInRange(req, reply);
    var ready := CatchUp(cfg, moves, w, u);
    var y := Reached(cfg, ready);
    UnguessedStays(Reached(cfg, moves), y, w, req.id);
    MayForward(cfg, y, w, u, req, buffered);
    all := Append(cfg, ready, ServerMove(ForwardStep(u, req, buffered)));
    var k := MayDeliver(cfg, Reached(cfg, all), w, u, req);
    all := Append(cfg, all, Deliver(w));
    MayFinish(cfg, Reached(cfg, all), w, u, req, k, reply);
    all := Append(cfg, all, Finish(w, k, reply));
    MaySettle(cfg, Reached(cfg, all), w, u, Dispatch(req, reply).value);
    var before := Reached(cfg, all).server.settlements;
    all := Append(cfg, all, ReadFrame(w, 0));
    fr := Flatten(Dispatch(req, reply).value);
    assert Reached(cfg, all).server.settlements[|before|] == Settlement(req.id, Resolved(fr));
  }
}
