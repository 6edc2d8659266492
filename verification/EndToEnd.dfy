/**
 * The relay and its daemons together. Each socket has a peer: an honest one
 * runs `Connection` (buffering, hand-over, `handleFrame` around
 * `dispatchRequest`); a rogue one sends what it likes, except that it cannot
 * name a request id it never saw. Frames travel in order in each direction;
 * deliveries, local replies, timeouts, reconnects and shutdowns interleave freely.
 */
module EndToEnd {
  import opened Prelude
  import opened Relay
  import opened RelayInvariants
  import opened RelayWrites
  import opened Forwarder
  import H = Handover
  import T = KeepaliveTiming

  datatype Out = HelloOut(key: Bytes) | Answered(k: nat, reply: LocalReply)

  /**
   * link    - the buffering, hand-over and serving of module Handover
   * arrived - how many of the frames written to the socket have reached the daemon
   * busy    - indices into link.handled of the requests being dispatched
   * sent    - what the daemon wrote; an answer names the handled frame it answers
   */
  datatype Daemon = Daemon(link: H.Link<ServerFrame>, arrived: nat, busy: set<nat>, sent: seq<Out>)

  datatype Peer = Honest(d: Daemon) | Rogue(frames: seq<ClientFrame>)

  /** read - how many of its peer's frames the server has read from each socket */
  datatype System = System(server: Server, peers: map<Sock, Peer>, read: map<Sock, nat>)

  const START := System(INITIAL, map[], map[])

  const NEW_DAEMON := Daemon(H.NewLink(), 0, {}, [])

  /** Replace the link; every request newly passed to `handleFrame` starts being dispatched. */
  function Relink(d: Daemon, l: H.Link<ServerFrame>): Daemon {
    d.(link := l,
       busy := d.busy + set k | |d.link.handled| <= k < |l.handled| && l.handled[k].RequestFrame?)
  }

  predicate Dispatched(d: Daemon, k: nat, reply: LocalReply) {
    && k < |d.link.handled| && d.link.handled[k].RequestFrame?
    && Dispatch(d.link.handled[k].req, reply).Some?
  }

  function WireLength(p: Peer): nat {
    if p.Honest? then |p.d.sent| else |p.frames|
  }

  /** Frame number `i` that the peer wrote. */
  function WireFrame(p: Peer, i: nat): ClientFrame
    requires i < WireLength(p)
  {
    match p
    case Rogue(frames) => frames[i]
    case Honest(d) =>
      match d.sent[i]
      case HelloOut(key) => Hello(key)
      case Answered(k, reply) =>
        if Dispatched(d, k, reply) then ResponseFrame(Dispatch(d.link.handled[k].req, reply).value)
        else EmptyEnvelope
  }

  datatype Move =
    | Dial(w: Sock, cert: Certificate, rogue: bool)
    | ServerMove(step: Step)
    | ReadFrame(w: Sock, now: nat)
    | Deliver(w: Sock)
    | LinkMove(w: Sock, e: H.Event<ServerFrame>)
    | SayHello(w: Sock, key: Bytes)
    | Finish(w: Sock, k: nat, reply: LocalReply)
    | Speak(w: Sock, frame: ClientFrame)

  predicate HonestAt(y: System, w: Sock) {
    w in y.peers && y.peers[w].Honest?
  }

  /** No rogue has used `id` in a response so far: request ids are unguessable. */
  ghost predicate Unguessed(y: System, id: ReqId) {
    forall w, i :: w in y.peers && y.peers[w].Rogue? && 0 <= i < |y.peers[w].frames| ==>
      !(y.peers[w].frames[i].ResponseFrame? && y.peers[w].frames[i].resp.id == id)
  }

  /** A rogue knows only ids of requests that went to rogues. */
  ghost predicate MaySpeak(y: System, frame: ClientFrame) {
    frame.ResponseFrame? && frame.resp.id in y.server.admitted ==>
      !HonestAt(y, y.server.admitted[frame.resp.id].sock)
  }

  ghost predicate Can(y: System, m: Move) {
    match m
    case Dial(w, cert, _) => Enabled(y.server, AcceptStep(w, cert)) && w !in y.peers
    case ServerMove(step) =>
      && !step.AcceptStep? && !step.MessageStep? && Enabled(y.server, step)
      && (step.ForwardStep? || step.HttpForwardStep? ==> Unguessed(y, step.req.id))
    case ReadFrame(w, _) =>
      w in y.peers && w in y.read && y.read[w] < WireLength(y.peers[w]) && Live(y.server, w)
    case Deliver(w) =>
      HonestAt(y, w) && w in y.server.conns && y.peers[w].d.arrived < |y.server.conns[w].sent|
    case LinkMove(w, e) => HonestAt(y, w) && !e.ArriveEvent? && H.Possible(y.peers[w].d.link, e)
    case SayHello(w, _) => HonestAt(y, w)
    case Finish(w, k, _) => HonestAt(y, w) && k in y.peers[w].d.busy
    case Speak(w, frame) => w in y.peers && y.peers[w].Rogue? && MaySpeak(y, frame)
  }

  function SetDaemon(y: System, w: Sock, d: Daemon): System {
    y.(peers := y.peers[w := Honest(d)])
  }

  /** The end of a `handleFrame`: the answer is sent, unless `dispatchRequest` threw. */
  function Finished(d: Daemon, k: nat, reply: LocalReply): Daemon {
    d.(busy := d.busy - {k},
       sent := if Dispatched(d, k, reply) then d.sent + [Answered(k, reply)] else d.sent)
  }

  function Arrived(d: Daemon, f: ServerFrame): Daemon {
    Relink(d, H.Arrive(d.link, f)).(arrived := d.arrived + 1)
  }

  function Greeted(d: Daemon, key: Bytes): Daemon {
    d.(sent := d.sent + [HelloOut(key)])
  }

  function SetRogue(y: System, w: Sock, frames: seq<ClientFrame>): System {
    y.(peers := y.peers[w := Rogue(frames)])
  }

  ghost function Do(cfg: Config, y: System, m: Move): System
    requires Can(y, m)
  {
    match m
    case Dial(w, cert, rogue) =>
      System(Next(cfg, y.server, AcceptStep(w, cert)),
             y.peers[w := if rogue then Rogue([]) else Honest(NEW_DAEMON)], y.read[w := 0])
    case ServerMove(step) => y.(server := Next(cfg, y.server, step))
    case ReadFrame(w, now) =>
      y.(server := Next(cfg, y.server, MessageStep(w, WireFrame(y.peers[w], y.read[w]), now)),
         read := y.read[w := y.read[w] + 1])
    case Deliver(w) => SetDaemon(y, w, Arrived(y.peers[w].d, y.server.conns[w].sent[y.peers[w].d.arrived]))
    case LinkMove(w, e) => SetDaemon(y, w, Relink(y.peers[w].d, H.Step(y.peers[w].d.link, e)))
    case SayHello(w, key) => SetDaemon(y, w, Greeted(y.peers[w].d, key))
    case Finish(w, k, reply) => SetDaemon(y, w, Finished(y.peers[w].d, k, reply))
    case Speak(w, frame) => SetRogue(y, w, y.peers[w].frames + [frame])
  }

  ghost predicate History(cfg: Config, moves: seq<Move>)
    decreases |moves|, 0
  {
    moves == [] ||
    (History(cfg, moves[..|moves| - 1]) && Can(Reached(cfg, moves[..|moves| - 1]), moves[|moves| - 1]))
  }

  ghost function Reached(cfg: Config, moves: seq<Move>): System
    requires History(cfg, moves)
    decreases |moves|, 1
  {
    if moves == [] then START else Do(cfg, Reached(cfg, moves[..|moves| - 1]), moves[|moves| - 1])
  }

  // -- the invariant ---------------------------------------------------------

  /** The daemon saw a prefix of what was written, in order, and answers each handled request at most once. */
  ghost predicate GoodDaemon(written: seq<ServerFrame>, d: Daemon) {
    && H.Fair(d.link)
    && d.arrived <= |written|
    && H.Seen(d.link) <= written[..d.arrived]
    && (d.link.phase != H.Gone ==> H.Seen(d.link) == written[..d.arrived])
    && (forall k :: k in d.busy ==> k < |d.link.handled| && d.link.handled[k].RequestFrame?)
    && (forall j :: 0 <= j < |d.sent| && d.sent[j].Answered? ==>
          Dispatched(d, d.sent[j].k, d.sent[j].reply) && d.sent[j].k !in d.busy)
    && (forall i, j :: 0 <= i < j < |d.sent| && d.sent[i].Answered? && d.sent[j].Answered? ==>
          d.sent[i].k != d.sent[j].k)
  }

  ghost predicate AnswersWith(d: Daemon, j: nat, req: Request, fr: ForwardResponse)
    requires j < |d.sent|
  {
    && d.sent[j].Answered? && Dispatched(d, d.sent[j].k, d.sent[j].reply)
    && d.link.handled[d.sent[j].k] == RequestFrame(req)
    && RightAnswer(req, d.sent[j].reply, fr.status, fr.headers, fr.body)
  }

  /** `fr` is the right answer to exactly `req`, which the daemon handled and answered. */
  ghost predicate Explains(d: Daemon, req: Request, fr: ForwardResponse) {
    exists j :: 0 <= j < |d.sent| && AnswersWith(d, j, req, fr)
  }

  ghost predicate GoodPeer(y: System, w: Sock)
    requires w in y.peers
  {
    && w in y.server.conns
    && match y.peers[w]
       case Honest(d) => GoodDaemon(y.server.conns[w].sent, d)
       case Rogue(frames) => forall i :: 0 <= i < |frames| ==> MaySpeak(y, frames[i])
  }

  ghost predicate GoodSettlement(y: System, t: Settlement) {
    && t.id in y.server.admitted
    && (t.outcome.Resolved? && HonestAt(y, y.server.admitted[t.id].sock) ==>
          Explains(y.peers[y.server.admitted[t.id].sock].d, y.server.admitted[t.id].req, t.outcome.response))
  }

  ghost predicate Correlated(y: System) {
    && y.server.conns.Keys == y.peers.Keys
    && (forall w :: w in y.peers ==> GoodPeer(y, w))
    && (forall i :: 0 <= i < |y.server.settlements| ==> GoodSettlement(y, y.server.settlements[i]))
  }

  ghost predicate AllGood(cfg: Config, y: System) {
    Inv(cfg, y.server) && Written(cfg, y.server) && Correlated(y)
  }

  // -- daemon moves ----------------------------------------------------------

  lemma RelinkKeeps(written: seq<ServerFrame>, d: Daemon, l: H.Link<ServerFrame>, arrived: nat)
    requires GoodDaemon(written, d) && H.Fair(l) && d.arrived <= arrived <= |written|
    requires d.link.handled <= l.handled
    requires H.Seen(l) <= written[..arrived]
    requires l.phase != H.Gone ==> H.Seen(l) == written[..arrived]
    ensures GoodDaemon(written, Relink(d, l).(arrived := arrived))
  {
  }

  /** Any event of the link other than an arrival. */
  lemma LinkEventKeeps(written: seq<ServerFrame>, d: Daemon, e: H.Event<ServerFrame>)
    requires GoodDaemon(written, d) && H.Possible(d.link, e) && !e.ArriveEvent?
    ensures GoodDaemon(written, Relink(d, H.Step(d.link, e)))
  {
    H.StepFair(d.link, e);
    H.StepConserves(d.link, e);
    RelinkKeeps(written, d, H.Step(d.link, e), d.arrived);
    assert Relink(d, H.Step(d.link, e)) == Relink(d, H.Step(d.link, e)).(arrived := d.arrived);
  }

  lemma ArrivalKeeps(written: seq<ServerFrame>, d: Daemon)
    requires GoodDaemon(written, d) && d.arrived < |written|
    ensures GoodDaemon(written, Arrived(d, written[d.arrived]))
  {
    var e := H.ArriveEvent(written[d.arrived]);
    H.StepFair(d.link, e);
    H.StepConserves(d.link, e);
    assert written[..d.arrived + 1] == written[..d.arrived] + [written[d.arrived]];
    RelinkKeeps(written, d, H.Arrive(d.link, written[d.arrived]), d.arrived + 1);
  }

  lemma FinishKeeps(written: seq<ServerFrame>, d: Daemon, k: nat, reply: LocalReply)
    requires GoodDaemon(written, d) && k in d.busy
    ensures GoodDaemon(written, Finished(d, k, reply))
  {
  }

  lemma HelloKeeps(written: seq<ServerFrame>, d: Daemon, key: Bytes)
    requires GoodDaemon(written, d)
    ensures GoodDaemon(written, Greeted(d, key))
  {
  }

  /** The frame handled as number k is the one written right after those the handshake took. */
  lemma HandledOnWire(written: seq<ServerFrame>, d: Daemon, k: nat)
    requires GoodDaemon(written, d) && k < |d.link.handled|
    ensures |d.link.taken| + k < |written| && written[|d.link.taken| + k] == d.link.handled[k]
  {
    assert H.Seen(d.link)[|d.link.taken| + k] == d.link.handled[k];
    assert written[..d.arrived][|d.link.taken| + k] == written[|d.link.taken| + k];
  }

  /** What a daemon's history explains stays explained while the history grows. */
  ghost predicate Grows(d: Daemon, d': Daemon) {
    d.link.handled <= d'.link.handled && d.sent <= d'.sent
  }

  lemma GrowthExplains(d: Daemon, d': Daemon, req: Request, fr: ForwardResponse)
    requires Grows(d, d') && Explains(d, req, fr)
    ensures Explains(d', req, fr)
  {
    var j :| 0 <= j < |d.sent| && AnswersWith(d, j, req, fr);
    assert AnswersWith(d', j, req, fr);
  }

  lemma DaemonMoveKeeps(y: System, w: Sock, d: Daemon)
    requires Correlated(y) && HonestAt(y, w)
    requires Grows(y.peers[w].d, d) && GoodDaemon(y.server.conns[w].sent, d)
    ensures Correlated(SetDaemon(y, w, d))
  {
    var y' := SetDaemon(y, w, d);
    forall v | v in y'.peers ensures GoodPeer(y', v) {
      assert GoodPeer(y, v);
    }
    forall i | 0 <= i < |y.server.settlements| ensures GoodSettlement(y', y.server.settlements[i]) {
      var t := y.server.settlements[i];
      assert GoodSettlement(y, t);
      if t.outcome.Resolved? && y.server.admitted[t.id].sock == w {
        GrowthExplains(y.peers[w].d, d, y.server.admitted[t.id].req, t.outcome.response);
      }
    }
  }

  lemma RogueMatters(y: System, w: Sock, frames: seq<ClientFrame>, f: ClientFrame)
    requires w in y.peers && y.peers[w].Rogue? && MaySpeak(y, f)
    ensures MaySpeak(SetRogue(y, w, frames), f)
  {
  }

  lemma RogueSettlesNothing(y: System, w: Sock, frames: seq<ClientFrame>, t: Settlement)
    requires w in y.peers && y.peers[w].Rogue? && GoodSettlement(y, t)
    ensures GoodSettlement(SetRogue(y, w, frames), t)
  {
  }

  lemma RoguePeers(y: System, w: Sock, frames: seq<ClientFrame>, v: Sock)
    requires w in y.peers && y.peers[w].Rogue? && v in y.peers && v != w && GoodPeer(y, v)
    ensures GoodPeer(SetRogue(y, w, frames), v)
  {
    if y.peers[v].Rogue? {
      forall i | 0 <= i < |y.peers[v].frames| ensures MaySpeak(SetRogue(y, w, frames), y.peers[v].frames[i]) {
        RogueMatters(y, w, frames, y.peers[v].frames[i]);
      }
    }
  }

  lemma RogueSpeaks(y: System, w: Sock, frames: seq<ClientFrame>)
    requires Correlated(y) && w in y.peers && y.peers[w].Rogue?
    requires forall i :: 0 <= i < |frames| ==> MaySpeak(y, frames[i])
    ensures Correlated(SetRogue(y, w, frames))
  {
    var y' := SetRogue(y, w, frames);
    forall v | v in y'.peers ensures GoodPeer(y', v) {
      assert GoodPeer(y, v);
      if v != w {
        RoguePeers(y, w, frames, v);
      } else {
        forall i | 0 <= i < |frames| ensures MaySpeak(y', frames[i]) { RogueMatters(y, w, frames, frames[i]); }
      }
    }
    forall i | 0 <= i < |y.server.settlements| ensures GoodSettlement(y', y.server.settlements[i]) {
      RogueSettlesNothing(y, w, frames, y.server.settlements[i]);
    }
  }

  lemma FrameSpoken(y: System, w: Sock, frame: ClientFrame)
    requires Correlated(y) && w in y.peers && y.peers[w].Rogue? && MaySpeak(y, frame)
    ensures Correlated(SetRogue(y, w, y.peers[w].frames + [frame]))
  {
    assert GoodPeer(y, w);
    RogueSpeaks(y, w, y.peers[w].frames + [frame]);
  }

  // -- server moves ----------------------------------------------------------

  /** What a server step may do to the system: write, admit fresh ids, settle. */
  ghost predicate ServerGrows(s: Server, t: Server) {
    && s.conns.Keys <= t.conns.Keys
    && (forall w :: w in s.conns ==> s.conns[w].sent <= t.conns[w].sent)
    && s.settlements <= t.settlements
    && (forall id :: id in s.admitted ==> id in t.admitted && t.admitted[id] == s.admitted[id])
  }

  lemma LongerWireKeeps(a: seq<ServerFrame>, b: seq<ServerFrame>, d: Daemon)
    requires GoodDaemon(a, d) && a <= b
    ensures GoodDaemon(b, d)
  {
    assert a[..d.arrived] == b[..d.arrived];
  }

  lemma ServerMovePeer(y: System, y': System, w: Sock)
    requires w in y.peers && GoodPeer(y, w) && y'.peers == y.peers && ServerGrows(y.server, y'.server)
    requires forall id :: id in y'.server.admitted && id !in y.server.admitted ==> Unguessed(y, id)
    ensures GoodPeer(y', w)
  {
    match y.peers[w]
    case Honest(d) => LongerWireKeeps(y.server.conns[w].sent, y'.server.conns[w].sent, d);
    case Rogue(frames) =>
      forall i | 0 <= i < |frames| ensures MaySpeak(y', frames[i]) { assert MaySpeak(y, frames[i]); }
  }

  lemma ServerMoveSettlement(y: System, y': System, t: Settlement)
    requires GoodSettlement(y, t) && y'.peers == y.peers && ServerGrows(y.server, y'.server)
    ensures GoodSettlement(y', t)
  {
  }

  lemma ServerMoveKeeps(y: System, y': System)
    requires Correlated(y) && y'.peers == y.peers && ServerGrows(y.server, y'.server)
    requires y'.server.conns.Keys == y.server.conns.Keys
    requires forall id :: id in y'.server.admitted && id !in y.server.admitted ==> Unguessed(y, id)
    requires forall i :: |y.server.settlements| <= i < |y'.server.settlements| ==>
               GoodSettlement(y', y'.server.settlements[i])
    ensures Correlated(y')
  {
    forall w | w in y'.peers ensures GoodPeer(y', w) {
      ServerMovePeer(y, y', w);
    }
    forall i | 0 <= i < |y'.server.settlements| ensures GoodSettlement(y', y'.server.settlements[i]) {
      if i < |y.server.settlements| { ServerMoveSettlement(y, y', y.server.settlements[i]); }
    }
  }

  /** The settlements a step adds: resolved ones come from an answering frame only. */
  ghost predicate FreshSettlements(s: Server, t: Server) {
    && s.settlements <= t.settlements
    && (forall i :: |s.settlements| <= i < |t.settlements| ==>
          !t.settlements[i].outcome.Resolved? && t.settlements[i].id in s.admitted)
  }

  lemma CloseSettlements(s: Server, order: seq<ReqId>)
    requires ListsPending(s, order) && Accounted(s)
    ensures FreshSettlements(s, CloseServer(s, order))
  {
    forall i | 0 <= i < |order| ensures order[i] in s.admitted {
      assert order[i] in order;
    }
  }

  lemma SameSettlements(s: Server, t: Server)
    requires t.settlements == s.settlements
    ensures FreshSettlements(s, t)
  {
  }

  lemma TimeoutSettlements(s: Server, id: ReqId)
    requires id in s.admitted
    ensures FreshSettlements(s, OnRequestTimeout(s, id))
  {
  }

  lemma UnansweredSettlements(cfg: Config, s: Server, step: Step)
    requires Inv(cfg, s) && Enabled(s, step) && !step.MessageStep?
    ensures FreshSettlements(s, Next(cfg, s, step))
  {
    hide FreshSettlements;
    if IsSocketEvent(step) {
      SocketEventKeeps(cfg, s, step);
      SameSettlements(s, Next(cfg, s, step));
    } else if step.RequestTimeoutStep? {
      TimeoutSettlements(s, step.id);
    } else if step.CloseServerStep? {
      CloseSettlements(s, step.order);
    } else {
      SameSettlements(s, Next(cfg, s, step));
    }
  }

  lemma ForwardGrows(cfg: Config, s: Server, u: Uuid, req: Request, b: nat)
    requires req.id !in s.admitted
    ensures
      var t := Forward(cfg, s, u, req, b);
      ServerGrows(s, t) && t.conns.Keys == s.conns.Keys && t.admitted.Keys <= s.admitted.Keys + {req.id}
  {
  }

  lemma HttpForwardGrows(cfg: Config, s: Server, u: Uuid, req: Request, b: nat)
    requires req.id !in s.admitted
    ensures
      var t := HttpForward(cfg, s, u, req, b);
      ServerGrows(s, t) && t.conns.Keys == s.conns.Keys && t.admitted.Keys <= s.admitted.Keys + {req.id}
  {
    if u in s.clients { ForwardGrows(cfg, Emit(s, Recorded(u)), u, req, b); }
  }

  lemma MessageSettlements(cfg: Config, s: Server, w: Sock, f: ClientFrame, now: nat)
    requires Live(s, w)
    ensures
      var t := OnMessage(cfg, s, w, f, now);
      t.settlements == if f.ResponseFrame? && Answers(s, w, f, f.resp.id)
                       then s.settlements + [Settlement(f.resp.id, Resolved(Flatten(f.resp)))] else s.settlements
  {
    if !(f.ResponseFrame? && Answers(s, w, f, f.resp.id)) {
      OtherMessagesLeaveBooks(cfg, s, w, f, now);
    }
  }

  lemma NoNewRequestsGrow(s: Server, t: Server)
    requires NoNewRequests(s, t) && s.settlements <= t.settlements
    ensures ServerGrows(s, t)
  {
    forall w | w in s.conns ensures s.conns[w].sent <= t.conns[w].sent { assert ConnGrows(s, t, w); }
  }

  lemma MessageGrows(cfg: Config, s: Server, w: Sock, f: ClientFrame, now: nat)
    requires Live(s, w)
    ensures
      var t := OnMessage(cfg, s, w, f, now);
      ServerGrows(s, t) && t.conns.Keys == s.conns.Keys && t.admitted == s.admitted
  {
    MessageWritesNoRequest(cfg, s, w, f, now);
    MessageSettlements(cfg, s, w, f, now);
    NoNewRequestsGrow(s, OnMessage(cfg, s, w, f, now));
    T.MessageAddsNoSocket(cfg, s, w, f, now);
  }

  lemma ServerStepGrows(cfg: Config, s: Server, step: Step)
    requires Inv(cfg, s) && Enabled(s, step)
    ensures ServerGrows(s, Next(cfg, s, step))
    ensures !step.AcceptStep? ==> Next(cfg, s, step).conns.Keys == s.conns.Keys
    ensures IsForward(step) ==> Next(cfg, s, step).admitted.Keys <= s.admitted.Keys + {step.req.id}
    ensures !IsForward(step) ==> Next(cfg, s, step).admitted == s.admitted
  {
    hide ServerGrows;
    if step.ForwardStep? {
      ForwardGrows(cfg, s, step.u, step.req, step.buffered);
    } else if step.HttpForwardStep? {
      HttpForwardGrows(cfg, s, step.u, step.req, step.buffered);
    } else if step.MessageStep? {
      MessageGrows(cfg, s, step.w, step.frame, step.now);
    } else {
      OthersWriteNoRequest(cfg, s, step);
      UnansweredSettlements(cfg, s, step);
      NoNewRequestsGrow(s, Next(cfg, s, step));
      T.OnlyAcceptAddsSockets(cfg, s, step);
    }
  }

  /** The request that answer number `i` answers was read from the wire. */
  lemma AnswerOnWire(written: seq<ServerFrame>, d: Daemon, i: nat) returns (n: nat)
    requires GoodDaemon(written, d) && i < |d.sent| && WireFrame(Honest(d), i).ResponseFrame?
    ensures n < |written| && written[n].RequestFrame?
    ensures
      var r := WireFrame(Honest(d), i).resp;
      written[n].req.id == r.id && AnswersWith(d, i, written[n].req, Flatten(r))
  {
    n := |d.link.taken| + d.sent[i].k;
    DispatchExactly(d.link.handled[d.sent[i].k].req, d.sent[i].reply);
    HandledOnWire(written, d, d.sent[i].k);
  }

  /** An honest peer's response is the dispatch of the admitted request itself. */
  lemma HonestResponse(cfg: Config, y: System, w: Sock, i: nat)
    requires AllGood(cfg, y) && HonestAt(y, w) && i < WireLength(y.peers[w])
    requires WireFrame(y.peers[w], i).ResponseFrame?
    ensures
      var r := WireFrame(y.peers[w], i).resp;
      && r.id in y.server.admitted && y.server.admitted[r.id].sock == w
      && Explains(y.peers[w].d, y.server.admitted[r.id].req, Flatten(r))
  {
    assert GoodPeer(y, w);
    var n := AnswerOnWire(y.server.conns[w].sent, y.peers[w].d, i);
    assert Genuine(y.server, w, n);
  }

  /** The settlement that an answering frame of `w` makes is a good one. */
  lemma AnswerSettlesWell(cfg: Config, y: System, w: Sock, i: nat, r: Response)
    requires AllGood(cfg, y) && w in y.peers && i < WireLength(y.peers[w])
    requires WireFrame(y.peers[w], i) == ResponseFrame(r) && r.id in y.server.admitted
    ensures GoodSettlement(y, Settlement(r.id, Resolved(Flatten(r))))
  {
    if y.peers[w].Honest? {
      HonestResponse(cfg, y, w, i);
    } else {
      assert GoodPeer(y, w) && MaySpeak(y, y.peers[w].frames[i]);
    }
  }

  lemma FrameIsRead(cfg: Config, y: System, y': System, w: Sock, i: nat, now: nat)
    requires AllGood(cfg, y) && w in y.peers && i < WireLength(y.peers[w]) && Live(y.server, w)
    requires y'.peers == y.peers && y'.server == OnMessage(cfg, y.server, w, WireFrame(y.peers[w], i), now)
    ensures Correlated(y')
  {
    var f := WireFrame(y.peers[w], i);
    MessageGrows(cfg, y.server, w, f, now);
    MessageSettlements(cfg, y.server, w, f, now);
    if f.ResponseFrame? && Answers(y.server, w, f, f.resp.id) {
      AnswerSettlesWell(cfg, y, w, i, f.resp);
      ServerMoveSettlement(y, y', Settlement(f.resp.id, Resolved(Flatten(f.resp))));
    }
    ServerMoveKeeps(y, y');
  }

  lemma ReadKeeps(cfg: Config, y: System, w: Sock, now: nat)
    requires AllGood(cfg, y) && Can(y, ReadFrame(w, now))
    ensures Correlated(Do(cfg, y, ReadFrame(w, now)))
  {
    FrameIsRead(cfg, y, Do(cfg, y, ReadFrame(w, now)), w, y.read[w], now);
  }

  lemma PeerStays(y: System, y': System, v: Sock)
    requires v in y.peers && v in y'.peers && y'.peers[v] == y.peers[v] && GoodPeer(y, v)
    requires v in y'.server.conns && y'.server.conns[v] == y.server.conns[v]
    requires y'.server.admitted == y.server.admitted
    requires forall w :: HonestAt(y', w) && w !in y.peers ==>
               forall id :: id in y.server.admitted ==> y.server.admitted[id].sock != w
    requires forall w :: w in y.peers ==> w in y'.peers && y'.peers[w] == y.peers[w]
    ensures GoodPeer(y', v)
  {
    if y.peers[v].Rogue? {
      forall i | 0 <= i < |y.peers[v].frames| ensures MaySpeak(y', y.peers[v].frames[i]) {
        assert MaySpeak(y, y.peers[v].frames[i]);
      }
    }
  }

  lemma NewPeerIsGood(y: System, w: Sock)
    requires w in y.peers && w in y.server.conns && (y.peers[w] == Rogue([]) || y.peers[w] == Honest(NEW_DAEMON))
    ensures GoodPeer(y, w)
  {
  }

  lemma JoinKeepsSettlement(y: System, y': System, w: Sock, t: Settlement)
    requires GoodSettlement(y, t) && w !in y.peers && y'.server.admitted == y.server.admitted
    requires forall v :: v in y'.peers && v != w ==> v in y.peers && y'.peers[v] == y.peers[v]
    requires forall id :: id in y.server.admitted ==> y.server.admitted[id].sock != w
    ensures GoodSettlement(y', t)
  {
  }

  lemma PeerJoins(y: System, s: Server, w: Sock, p: Peer, read: map<Sock, nat>)
    requires Correlated(y) && w !in y.peers && (p == Rogue([]) || p == Honest(NEW_DAEMON))
    requires s.admitted == y.server.admitted && s.settlements == y.server.settlements
    requires w in s.conns && s.conns == y.server.conns[w := s.conns[w]]
    requires forall id :: id in s.admitted ==> s.admitted[id].sock != w
    ensures Correlated(System(s, y.peers[w := p], read))
  {
    hide GoodPeer, GoodSettlement;
    var y' := System(s, y.peers[w := p], read);
    forall v | v in y'.peers ensures GoodPeer(y', v) {
      if v == w { NewPeerIsGood(y', w); } else { PeerStays(y, y', v); }
    }
    forall i | 0 <= i < |s.settlements| ensures GoodSettlement(y', s.settlements[i]) {
      JoinKeepsSettlement(y, y', w, s.settlements[i]);
    }
  }

  lemma DialKeeps(cfg: Config, y: System, w: Sock, cert: Certificate, rogue: bool)
    requires AllGood(cfg, y) && Can(y, Dial(w, cert, rogue))
    ensures Correlated(Do(cfg, y, Dial(w, cert, rogue)))
  {
    var s := Next(cfg, y.server, AcceptStep(w, cert));
    forall id | id in s.admitted ensures s.admitted[id].sock != w {
      assert GoodAdmission(cfg, y.server, id);
    }
    PeerJoins(y, s, w, if rogue then Rogue([]) else Honest(NEW_DAEMON), y.read[w := 0]);
  }

  lemma ServerStepKeeps(cfg: Config, y: System, step: Step)
    requires AllGood(cfg, y) && Can(y, ServerMove(step))
    ensures Correlated(Do(cfg, y, ServerMove(step)))
  {
    hide Next, Correlated;
    ServerStepGrows(cfg, y.server, step);
    UnansweredSettlements(cfg, y.server, step);
    ServerMoveKeeps(y, Do(cfg, y, ServerMove(step)));
  }

  lemma ArrivalGrows(d: Daemon, f: ServerFrame)
    ensures Grows(d, Arrived(d, f))
  {
  }

  lemma FrameArrives(y: System, w: Sock)
    requires Correlated(y) && HonestAt(y, w) && w in y.server.conns
    requires y.peers[w].d.arrived < |y.server.conns[w].sent|
    ensures Correlated(SetDaemon(y, w, Arrived(y.peers[w].d, y.server.conns[w].sent[y.peers[w].d.arrived])))
  {
    assert GoodPeer(y, w);
    var d, sent := y.peers[w].d, y.server.conns[w].sent;
    ArrivalGrows(d, sent[d.arrived]);
    ArrivalKeeps(sent, d);
    DaemonMoveKeeps(y, w, Arrived(d, sent[d.arrived]));
  }

  lemma HelloSaid(y: System, w: Sock, key: Bytes)
    requires Correlated(y) && HonestAt(y, w)
    ensures Correlated(SetDaemon(y, w, Greeted(y.peers[w].d, key)))
  {
    assert GoodPeer(y, w);
    HelloKeeps(y.server.conns[w].sent, y.peers[w].d, key);
    DaemonMoveKeeps(y, w, Greeted(y.peers[w].d, key));
  }

  lemma DispatchEnds(y: System, w: Sock, k: nat, reply: LocalReply)
    requires Correlated(y) && HonestAt(y, w) && k in y.peers[w].d.busy
    ensures Correlated(SetDaemon(y, w, Finished(y.peers[w].d, k, reply)))
  {
    assert GoodPeer(y, w);
    FinishKeeps(y.server.conns[w].sent, y.peers[w].d, k, reply);
    DaemonMoveKeeps(y, w, Finished(y.peers[w].d, k, reply));
  }

  lemma LinkMoves(y: System, w: Sock, e: H.Event<ServerFrame>)
    requires Correlated(y) && HonestAt(y, w) && !e.ArriveEvent? && H.Possible(y.peers[w].d.link, e)
    ensures Correlated(SetDaemon(y, w, Relink(y.peers[w].d, H.Step(y.peers[w].d.link, e))))
  {
    assert GoodPeer(y, w);
    var d := y.peers[w].d;
    LinkEventKeeps(y.server.conns[w].sent, d, e);
    DaemonMoveKeeps(y, w, Relink(d, H.Step(d.link, e)));
  }

  predicate IsServerMove(m: Move) {
    m.Dial? || m.ServerMove? || m.ReadFrame?
  }

  lemma PeerMoveKeeps(cfg: Config, y: System, m: Move)
    requires Correlated(y) && Can(y, m) && !IsServerMove(m)
    ensures Correlated(Do(cfg, y, m))
  {
    match m
    case Speak(w, frame) => FrameSpoken(y, w, frame);
    case Deliver(w) => FrameArrives(y, w);
    case LinkMove(w, e) => LinkMoves(y, w, e);
    case SayHello(w, key) => HelloSaid(y, w, key);
    case Finish(w, k, reply) => DispatchEnds(y, w, k, reply);
  }

  lemma ServerSideKeeps(cfg: Config, s: Server, step: Step)
    requires Inv(cfg, s) && Written(cfg, s) && Enabled(s, step)
    ensures Inv(cfg, Next(cfg, s, step)) && Written(cfg, Next(cfg, s, step))
  {
    StepKeeps(cfg, s, step);
    StepWrites(cfg, s, step);
  }

  lemma MoveKeeps(cfg: Config, y: System, m: Move)
    requires AllGood(cfg, y) && Can(y, m)
    ensures AllGood(cfg, Do(cfg, y, m))
  {
    if m.Dial? {
      DialKeeps(cfg, y, m.w, m.cert, m.rogue);
      ServerSideKeeps(cfg, y.server, AcceptStep(m.w, m.cert));
    } else if m.ServerMove? {
      ServerStepKeeps(cfg, y, m.step);
      ServerSideKeeps(cfg, y.server, m.step);
    } else if m.ReadFrame? {
      ReadKeeps(cfg, y, m.w, m.now);
      ServerSideKeeps(cfg, y.server, MessageStep(m.w, WireFrame(y.peers[m.w], y.read[m.w]), m.now));
    } else {
      PeerMoveKeeps(cfg, y, m);
      assert Do(cfg, y, m).server == y.server;
    }
  }

  lemma {:induction false} HistoryKeeps(cfg: Config, moves: seq<Move>)
    requires History(cfg, moves)
    ensures AllGood(cfg, Reached(cfg, moves))
    decreases |moves|
  {
    if moves == [] {
      RunKeeps(cfg, []);
    } else {
      HistoryKeeps(cfg, moves[..|moves| - 1]);
      MoveKeeps(cfg, Reached(cfg, moves[..|moves| - 1]), moves[|moves| - 1]);
    }
  }

  // -- the theorems ----------------------------------------------------------

  /**
   * End-to-end correlation. Over any history, a forward to an honest daemon that resolves
   * does so with the flattened result of dispatching that very request, on the socket and
   * by the daemon it was sent to - whatever other daemons, rogue ones included, send.
   */
  lemma ResolvedWithOwnAnswer(cfg: Config, moves: seq<Move>, i: nat)
    requires History(cfg, moves) && i < |Reached(cfg, moves).server.settlements|
    requires Reached(cfg, moves).server.settlements[i].outcome.Resolved?
    ensures
      var y := Reached(cfg, moves);
      var t := y.server.settlements[i];
      && t.id in y.server.admitted
      && var a := y.server.admitted[t.id];
         && a.req.id == t.id && a.sock in y.server.conns && y.server.conns[a.sock].cert.P256?
         && cfg.uuidOf(y.server.conns[a.sock].cert.point) == a.uuid
         && (HonestAt(y, a.sock) ==> Explains(y.peers[a.sock].d, a.req, t.outcome.response))
  {
    HistoryKeeps(cfg, moves);
    var y := Reached(cfg, moves);
    assert GoodSettlement(y, y.server.settlements[i]);
    assert GoodAdmission(cfg, y.server, y.server.settlements[i].id);
  }

  lemma DistinctAnswers(written: seq<ServerFrame>, d: Daemon, i: nat, j: nat)
    requires GoodDaemon(written, d) && NoRepeat(written) && i < j < |d.sent|
    requires WireFrame(Honest(d), i).ResponseFrame? && WireFrame(Honest(d), j).ResponseFrame?
    ensures WireFrame(Honest(d), i).resp.id != WireFrame(Honest(d), j).resp.id
  {
    HandledOnWire(written, d, d.sent[i].k);
    HandledOnWire(written, d, d.sent[j].k);
  }

  /** Frame number `i` from the honest daemon on `w` answers request `id`. */
  predicate AnswersAt(y: System, w: Sock, i: nat, id: ReqId) {
    && HonestAt(y, w) && i < WireLength(y.peers[w])
    && WireFrame(y.peers[w], i).ResponseFrame? && WireFrame(y.peers[w], i).resp.id == id
  }

  /** Honest daemons write at most one answer to a request, all of them together. */
  lemma AnsweredAtMostOnce(cfg: Config, moves: seq<Move>, id: ReqId, w: Sock, i: nat, w': Sock, j: nat)
    requires History(cfg, moves)
    requires AnswersAt(Reached(cfg, moves), w, i, id) && AnswersAt(Reached(cfg, moves), w', j, id)
    ensures w == w' && i == j
  {
    HistoryKeeps(cfg, moves);
    var y := Reached(cfg, moves);
    HonestResponse(cfg, y, w, i);
    HonestResponse(cfg, y, w', j);
    if i != j {
      assert GoodPeer(y, w) && NoRepeat(y.server.conns[w].sent);
      DistinctAnswers(y.server.conns[w].sent, y.peers[w].d, if i < j then i else j, if i < j then j else i);
    }
  }

  lemma ExplainedIsWritten(written: seq<ServerFrame>, d: Daemon, req: Request, fr: ForwardResponse)
    requires GoodDaemon(written, d) && Explains(d, req, fr)
    ensures RequestFrame(req) in written
  {
    var j :| 0 <= j < |d.sent| && AnswersWith(d, j, req, fr);
    HandledOnWire(written, d, d.sent[j].k);
  }

  /** A forward to an honest daemon resolves only if its request was written to that daemon's socket. */
  lemma ResolvedWasWritten(cfg: Config, moves: seq<Move>, i: nat)
    requires History(cfg, moves) && i < |Reached(cfg, moves).server.settlements|
    requires Reached(cfg, moves).server.settlements[i].outcome.Resolved?
    ensures
      var y := Reached(cfg, moves);
      var t := y.server.settlements[i];
      && t.id in y.server.admitted
      && var a := y.server.admitted[t.id];
         HonestAt(y, a.sock) ==> a.sock in y.server.conns && RequestFrame(a.req) in y.server.conns[a.sock].sent
  {
    HistoryKeeps(cfg, moves);
    var y := Reached(cfg, moves);
    var t := y.server.settlements[i];
    assert GoodSettlement(y, t);
    var a := y.server.admitted[t.id];
    if HonestAt(y, a.sock) {
      assert GoodPeer(y, a.sock);
      ExplainedIsWritten(y.server.conns[a.sock].sent, y.peers[a.sock].d, a.req, t.outcome.response);
    }
  }
}
