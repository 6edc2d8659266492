/**
 * RelayServer as a state machine. Every JavaScript handler runs to completion,
 * so one handler is one step. The environment (sockets, timers, callers) is
 * free to choose the steps as long as `Enabled` holds.
 */
module Relay {
  import opened Prelude
  import K = Keepalive

  type Uuid = string
  type ReqId = string
  type Sock = nat
  /** Header entries in order, each name with its values. */
  type Headers = seq<(string, seq<string>)>

  datatype Request = Request(id: ReqId, verb: string, path: string, headers: Headers, body: Bytes)
  datatype Response = Response(id: ReqId, status: int, headers: Headers, body: Bytes)
  datatype ForwardResponse = ForwardResponse(status: int, headers: Headers, body: Bytes)

  /** Why the server refuses a socket or a frame: one constructor for each error text. */
  datatype Refusal =
    | CertificateRequired
    | KeyMustBeP256
    | InvalidJson
    | ExpectedHello
    | DecryptPubkeyRequired
    | DecryptPubkeyMustBe65Bytes
    | DecryptPubkeyNotOnCurve

  /** The welcome's url is `${baseUrl}/u/${uuid}/hooks/`: it is kept as the uuid it names. */
  datatype ServerFrame = Welcome(uuid: Uuid) | Error(reason: Refusal) | RequestFrame(req: Request)

  /** A frame from the daemon, as the server's parser sees it; a hello's key is its text decoded. */
  datatype ClientFrame =
    | NotJson
    | NotAnEnvelope
    | HelloWithoutKey
    | Hello(decryptPubkey: Bytes)
    | ResponseFrame(resp: Response)
    | EmptyEnvelope

  datatype Certificate = NoCertificate | NotP256 | P256(point: Bytes)

  datatype ReadyState = Open | Closing | Closed

  /** What the closure of `handleConnection` holds for one socket, with the socket's own state. */
  datatype Conn = Conn(
    cert: Certificate,
    registered: Option<Uuid>,
    keepalive: K.Keepalive,
    ready: ReadyState,
    sent: seq<ServerFrame>)

  datatype Client = Client(sock: Sock, uuid: Uuid, pubkey: Bytes, decryptPubkey: Bytes)

  datatype Outcome = Resolved(response: ForwardResponse) | TimedOut | ServerClosing
  datatype Settlement = Settlement(id: ReqId, outcome: Outcome)

  /** Emitted events, the calls to `metrics.record`, and a mark where `close()` ran. */
  datatype Event = Connected(uuid: Uuid) | Disconnected(uuid: Uuid) | Recorded(uuid: Uuid) | Shutdown

  /** `uuidOf` is the certificate-to-uuid hash and `onCurve` the point check; both stay abstract. */
  datatype Config = Config(
    timing: K.Timing,
    requestTimeoutMs: int,
    maxPendingPerClient: nat,
    maxBufferedBytes: nat,
    uuidOf: Bytes -> Uuid,
    onCurve: Bytes -> bool)

  /**
   * clients, pending, pendingByClient are the maps of the class; requestTimers
   * are the request timers the runtime holds armed; conns are the closures.
   * admitted, settlements and events record what happened.
   */
  datatype Server = Server(
    clients: map<Uuid, Client>,
    pending: map<ReqId, Uuid>,
    pendingByClient: map<Uuid, nat>,
    requestTimers: set<ReqId>,
    conns: map<Sock, Conn>,
    admitted: map<ReqId, Admission>,
    settlements: seq<Settlement>,
    events: seq<Event>)

  /** A forward past its checks: the daemon it named, the socket it used, and the request built. */
  datatype Admission = Admission(uuid: Uuid, sock: Sock, req: Request)

  const INITIAL := Server(map[], map[], map[], {}, map[], map[], [], [])

  // -- pending bookkeeping ---------------------------------------------------

  /** `pendingByClient.get(u) ?? 0`. */
  function CountOf(byClient: map<Uuid, nat>, u: Uuid): nat {
    if u in byClient then byClient[u] else 0
  }

  function AddPending(s: Server, id: ReqId, u: Uuid): Server {
    s.(pending := s.pending[id := u],
       pendingByClient := s.pendingByClient[u := CountOf(s.pendingByClient, u) + 1])
  }

  function RemovePending(s: Server, id: ReqId): Server {
    if id !in s.pending then s
    else
      var u := s.pending[id];
      s.(pending := Without(s.pending, id),
         pendingByClient :=
           if CountOf(s.pendingByClient, u) <= 1 then Without(s.pendingByClient, u)
           else s.pendingByClient[u := CountOf(s.pendingByClient, u) - 1])
  }

  function Settle(s: Server, id: ReqId, o: Outcome): Server {
    s.(settlements := s.settlements + [Settlement(id, o)])
  }

  // -- sockets ---------------------------------------------------------------

  /** `sendServerMessage`: written only while the socket is open. */
  function Send(c: Conn, f: ServerFrame): Conn {
    if c.ready == Open then c.(sent := c.sent + [f]) else c
  }

  /** `ws.close()` and `ws.terminate()` both leave the socket closing until its close event. */
  function Shut(c: Conn): Conn {
    if c.ready == Open then c.(ready := Closing) else c
  }

  function SetConn(s: Server, w: Sock, c: Conn): Server {
    s.(conns := s.conns[w := c])
  }

  function Emit(s: Server, e: Event): Server {
    s.(events := s.events + [e])
  }

  /** `cleanup` of socket `w`. */
  function Cleanup(s: Server, w: Sock): Server
    requires w in s.conns
  {
    var c := s.conns[w];
    var s' := SetConn(s, w, c.(keepalive := K.Clear(c.keepalive), registered := None));
    match c.registered
    case Some(u) =>
      if u in s.clients && s.clients[u].sock == w
      then Emit(s', Disconnected(u)).(clients := Without(s.clients, u))
      else s'
    case None => s'
  }

  function TerminateThenCleanup(s: Server, w: Sock): Server
    requires w in s.conns
  {
    Cleanup(SetConn(s, w, Shut(s.conns[w])), w)
  }

  // -- handlers --------------------------------------------------------------

  /** A new socket. Without a P-256 certificate it is refused before any listener is attached. */
  function Accept(s: Server, w: Sock, cert: Certificate): Server {
    var c := Conn(cert, None, K.IDLE, Open, []);
    match cert
    case NoCertificate => SetConn(s, w, Shut(Send(c, Error(CertificateRequired))))
    case NotP256 => SetConn(s, w, Shut(Send(c, Error(KeyMustBeP256))))
    case P256(_) => SetConn(s, w, c)
  }

  function ValidateDecryptPubkey(cfg: Config, key: Bytes): Option<Refusal> {
    if |key| != 65 || key[0] != 0x04 then Some(DecryptPubkeyMustBe65Bytes)
    else if !cfg.onCurve(key) then Some(DecryptPubkeyNotOnCurve)
    else None
  }

  function Reject(s: Server, w: Sock, reason: Refusal): Server
    requires w in s.conns
  {
    SetConn(s, w, Shut(Send(s.conns[w], Error(reason))))
  }

  /** The eviction half of an accepted hello: the previous socket loses its entry and is terminated. */
  function Evict(s: Server, u: Uuid): Server {
    if u !in s.clients then s
    else
      var prev := s.clients[u].sock;
      var s' := Emit(s.(clients := Without(s.clients, u)), Disconnected(u));
      if prev in s.conns then SetConn(s', prev, Shut(s.conns[prev])) else s'
  }

  /** An accepted hello: evict, register, welcome, start the keepalive. */
  function Register(cfg: Config, s: Server, w: Sock, key: Bytes, now: nat): Server
    requires w in s.conns && s.conns[w].cert.P256?
  {
    var point := s.conns[w].cert.point;
    var u := cfg.uuidOf(point);
    var s1 := Evict(s, u);
    var c := s1.conns[w];
    var welcomed := Send(c.(registered := Some(u)), Welcome(u));
    Emit(SetConn(s1.(clients := s1.clients[u := Client(w, u, point, key)]), w,
                 welcomed.(keepalive := K.Start(c.keepalive, cfg.timing, now))),
         Connected(u))
  }

  function Flatten(r: Response): ForwardResponse {
    ForwardResponse(r.status, r.headers, r.body)
  }

  function StatusInRange(r: Response): bool {
    100 <= r.status <= 599
  }

  function OnResponse(s: Server, r: Response): Server {
    if !StatusInRange(r) || r.id !in s.pending then s
    else Settle(RemovePending(s, r.id), r.id, Resolved(Flatten(r))).(requestTimers := s.requestTimers - {r.id})
  }

  /** The message listener. */
  function OnMessage(cfg: Config, s: Server, w: Sock, f: ClientFrame, now: nat): Server
    requires w in s.conns && s.conns[w].cert.P256?
  {
    match f
    case NotJson => Reject(s, w, InvalidJson)
    case NotAnEnvelope =>
      if s.conns[w].registered == None then Reject(s, w, ExpectedHello) else s
    case HelloWithoutKey =>
      if s.conns[w].registered == None then Reject(s, w, DecryptPubkeyRequired) else s
    case Hello(key) =>
      if s.conns[w].registered != None then s
      else (match ValidateDecryptPubkey(cfg, key)
            case Some(err) => Reject(s, w, err)
            case None => Register(cfg, s, w, key, now))
    case ResponseFrame(r) =>
      if s.conns[w].registered == None then Reject(s, w, ExpectedHello)
      else OnResponse(s, r)
    case EmptyEnvelope =>
      if s.conns[w].registered == None then Reject(s, w, ExpectedHello) else s
  }

  function OnPingTick(cfg: Config, s: Server, w: Sock, now: nat): Server
    requires w in s.conns
  {
    var c := s.conns[w];
    if c.ready != Open then Cleanup(s, w)
    else SetConn(s, w, c.(keepalive := K.Ping(c.keepalive, cfg.timing, now)))
  }

  function OnPongTimeout(s: Server, w: Sock, h: K.Handle): Server
    requires w in s.conns
  {
    var c := s.conns[w];
    TerminateThenCleanup(SetConn(s, w, c.(keepalive := K.Fire(c.keepalive, h))), w)
  }

  function OnPong(s: Server, w: Sock): Server
    requires w in s.conns
  {
    SetConn(s, w, s.conns[w].(keepalive := K.ClearPong(s.conns[w].keepalive)))
  }

  /** The close event: the last one a socket emits. Refused sockets have no close listener. */
  function OnClose(s: Server, w: Sock): Server
    requires w in s.conns
  {
    var s' := SetConn(s, w, s.conns[w].(ready := Closed));
    if s.conns[w].cert.P256? then Cleanup(s', w) else s'
  }

  function OnError(s: Server, w: Sock): Server
    requires w in s.conns
  {
    if s.conns[w].cert.P256? then TerminateThenCleanup(s, w) else SetConn(s, w, Shut(s.conns[w]))
  }

  datatype ForwardError = NotConnected | Backpressure | CapExceeded

  /** The checks of `forward`, in the order the code makes them. */
  function ForwardCheck(cfg: Config, s: Server, u: Uuid, buffered: nat): Option<ForwardError> {
    if u !in s.clients then Some(NotConnected)
    else if buffered > cfg.maxBufferedBytes then Some(Backpressure)
    else if CountOf(s.pendingByClient, u) >= cfg.maxPendingPerClient then Some(CapExceeded)
    else None
  }

  /** `forward` with the id that `uuidv4()` returns in `req.id`; `buffered` is `ws.bufferedAmount`. */
  function Forward(cfg: Config, s: Server, u: Uuid, req: Request, buffered: nat): Server {
    if ForwardCheck(cfg, s, u, buffered) != None then s
    else
      var w := s.clients[u].sock;
      var s' := AddPending(s, req.id, u).(
                  requestTimers := s.requestTimers + {req.id},
                  admitted := s.admitted[req.id := Admission(u, w, req)]);
      if w in s.conns then SetConn(s', w, Send(s.conns[w], RequestFrame(req))) else s'
  }

  /** `forwardToClient` of the HTTP front: nothing for an unknown daemon, else record and forward. */
  function HttpForward(cfg: Config, s: Server, u: Uuid, req: Request, buffered: nat): Server {
    if u !in s.clients then s
    else Forward(cfg, Emit(s, Recorded(u)), u, req, buffered)
  }

  function OnRequestTimeout(s: Server, id: ReqId): Server {
    Settle(RemovePending(s, id), id, TimedOut).(requestTimers := s.requestTimers - {id})
  }

  /** `order` is the order in which `close()` walks the pending map. */
  ghost predicate ListsPending(s: Server, order: seq<ReqId>) {
    && Distinct(order)
    && forall x :: x in order <==> x in s.pending
  }

  function Rejected(order: seq<ReqId>): seq<Settlement> {
    seq(|order|, i requires 0 <= i < |order| => Settlement(order[i], ServerClosing))
  }

  ghost predicate HoldsClient(clients: map<Uuid, Client>, among: set<Uuid>, w: Sock) {
    exists u :: u in among && u in clients && clients[u].sock == w
  }

  /** The sockets after those registered for a uuid in `among` are terminated. */
  ghost function Terminated(conns: map<Sock, Conn>, clients: map<Uuid, Client>, among: set<Uuid>): map<Sock, Conn> {
    map w | w in conns :: if HoldsClient(clients, among, w) then Shut(conns[w]) else conns[w]
  }

  ghost function CloseServer(s: Server, order: seq<ReqId>): Server {
    s.(settlements := s.settlements + Rejected(order),
       requestTimers := s.requestTimers - s.pending.Keys,
       pending := map[],
       pendingByClient := map[],
       conns := Terminated(s.conns, s.clients, s.clients.Keys),
       clients := map[],
       events := s.events + [Shutdown])
  }

  // -- steps -----------------------------------------------------------------

  datatype Step =
    | AcceptStep(w: Sock, cert: Certificate)
    | MessageStep(w: Sock, frame: ClientFrame, now: nat)
    | PingTickStep(w: Sock, now: nat)
    | PongTimeoutStep(w: Sock, h: K.Handle)
    | PongStep(w: Sock)
    | PeerClosingStep(w: Sock)
    | CloseEventStep(w: Sock)
    | ErrorEventStep(w: Sock)
    | ForwardStep(u: Uuid, req: Request, buffered: nat)
    | HttpForwardStep(u: Uuid, req: Request, buffered: nat)
    | RequestTimeoutStep(id: ReqId)
    | CloseServerStep(order: seq<ReqId>)

  /** A socket that can still emit events: known, past admission, and its close event is not out. */
  predicate Live(s: Server, w: Sock) {
    w in s.conns && s.conns[w].cert.P256? && s.conns[w].ready != Closed
  }

  /** What the runtime guarantees: fresh sockets and ids, armed timers only, nothing after a close event. */
  ghost predicate Enabled(s: Server, step: Step) {
    match step
    case AcceptStep(w, _) => w !in s.conns
    case MessageStep(w, _, _) => Live(s, w)
    case PingTickStep(w, _) => w in s.conns && s.conns[w].keepalive.pingDue.Some?
    case PongTimeoutStep(w, h) => w in s.conns && h in s.conns[w].keepalive.armed
    case PongStep(w) => Live(s, w)
    case PeerClosingStep(w) => w in s.conns
    case CloseEventStep(w) => w in s.conns && s.conns[w].ready != Closed
    case ErrorEventStep(w) => w in s.conns && s.conns[w].ready != Closed
    case ForwardStep(_, req, _) => req.id !in s.admitted
    case HttpForwardStep(_, req, _) => req.id !in s.admitted
    case RequestTimeoutStep(id) => id in s.requestTimers
    case CloseServerStep(order) => ListsPending(s, order)
  }

  ghost function Next(cfg: Config, s: Server, step: Step): Server
    requires Enabled(s, step)
  {
    match step
    case AcceptStep(w, cert) => Accept(s, w, cert)
    case MessageStep(w, f, now) => OnMessage(cfg, s, w, f, now)
    case PingTickStep(w, now) => OnPingTick(cfg, s, w, now)
    case PongTimeoutStep(w, h) => OnPongTimeout(s, w, h)
    case PongStep(w) => OnPong(s, w)
    case PeerClosingStep(w) => SetConn(s, w, Shut(s.conns[w]))
    case CloseEventStep(w) => OnClose(s, w)
    case ErrorEventStep(w) => OnError(s, w)
    case ForwardStep(u, req, b) => Forward(cfg, s, u, req, b)
    case HttpForwardStep(u, req, b) => HttpForward(cfg, s, u, req, b)
    case RequestTimeoutStep(id) => OnRequestTimeout(s, id)
    case CloseServerStep(order) => CloseServer(s, order)
  }

  /** `steps` can be taken one after the other from the initial state. */
  ghost predicate Runs(cfg: Config, steps: seq<Step>)
    decreases |steps|, 0
  {
    steps == [] ||
    (var before := steps[..|steps| - 1];
     Runs(cfg, before) && Enabled(After(cfg, before), steps[|steps| - 1]))
  }

  ghost function After(cfg: Config, steps: seq<Step>): Server
    requires Runs(cfg, steps)
    decreases |steps|, 1
  {
    if steps == [] then INITIAL
    else Next(cfg, After(cfg, steps[..|steps| - 1]), steps[|steps| - 1])
  }
}
