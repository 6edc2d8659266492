/**
 * The OAuth broker: `/auth/:provider` seals a flow, `/callback/:provider`
 * opens it, and any number of instances share the sealing key. AES-GCM is
 * ideal: only tokens that were sealed open, to what was sealed. Signature
 * checks, certificate hashes and codecs are functions of the configuration.
 */
module Broker {
  import opened Prelude
  import opened FlowState
  import P = Preimages
  import R = Relay
  import S = Seen

  type Uuid = R.Uuid
  type Token = string

  const FLOW_TTL_MS := 300000

  datatype Config = Config(
    relay: R.Config,
    providers: set<string>,
    toleranceS: int,
    sessionTtlMs: nat,
    base64: Base64,
    parseInt: string -> Option<int>,
    fromHex: string -> Bytes,
    fromBase64Url: string -> Bytes,
    utf8: string -> Bytes,
    verify: (Bytes, Bytes, string) -> bool,
    encode: (Envelope, Bytes) -> Bytes)

  // -- query parameters ------------------------------------------------------

  datatype QValue = One(s: string) | Many(ss: seq<string>)

  /** `Array.isArray(v) ? v[0] : v`. */
  function First(v: Option<QValue>): Option<string> {
    match v
    case None => None
    case Some(One(s)) => Some(s)
    case Some(Many(ss)) => if ss == [] then None else Some(ss[0])
  }

  function NonEmpty(v: Option<QValue>): Option<string> {
    if First(v) == Some("") then None else First(v)
  }

  predicate IsUuid(s: string) {
    |s| == 64 && forall i :: 0 <= i < |s| ==> '0' <= s[i] <= '9' || 'a' <= s[i] <= 'f'
  }

  /** `replace(/-/g, "")`. */
  function WithoutDashes(s: string): string {
    if s == [] then []
    else
      var before := WithoutDashes(s[..|s| - 1]);
      if s[|s| - 1] == '-' then before else before + [s[|s| - 1]]
  }

  // -- GET /auth/:provider ---------------------------------------------------

  datatype AuthQuery = AuthQuery(
    provider: Option<string>,
    session: Option<QValue>,
    challenge: Option<QValue>,
    relayUuid: Option<QValue>,
    sig: Option<QValue>,
    timestamp: Option<QValue>,
    scope: Option<QValue>)

  datatype AuthError =
    | MissingProvider | UnknownProvider
    | MissingSession | MissingChallenge | MissingRelayUuid | MissingSig | MissingTimestamp
    | InvalidRelayUuid | InvalidTimestamp | TimestampOutOfRange | DaemonNotConnected | InvalidSignature
    | UnsignableFields

  function StatusOf(e: AuthError): nat {
    match e
    case UnknownProvider => 404
    case TimestampOutOfRange => 403
    case DaemonNotConnected => 403
    case InvalidSignature => 403
    case UnsignableFields => 500
    case _ => 400
  }

  /** The redirect to `/connect/:provider`, by its parts. */
  datatype AuthReply = Refused(status: nat, error: AuthError) | Redirect(flow: Flow)

  function Refuse(e: AuthError): AuthReply {
    Refused(StatusOf(e), e)
  }

  /** The bytes behind `buildSignedPayload`. */
  function Preimage(
    cfg: Config, session: string, challenge: string, u: Uuid, provider: string, ts: int): Option<Bytes>
  {
    P.AuthPreimage(P.AuthFields(cfg.fromHex(WithoutDashes(session)), cfg.fromBase64Url(challenge),
                                cfg.fromHex(u), cfg.utf8(provider), ts))
  }

  function Abs(x: int): nat {
    if x < 0 then -x else x
  }

  function OnAuth(cfg: Config, s: R.Server, q: AuthQuery, nowMs: nat): AuthReply {
    if q.provider == None then Refuse(MissingProvider)
    else if q.provider.value !in cfg.providers then Refuse(UnknownProvider)
    else if NonEmpty(q.session) == None then Refuse(MissingSession)
    else if NonEmpty(q.challenge) == None then Refuse(MissingChallenge)
    else if NonEmpty(q.relayUuid) == None then Refuse(MissingRelayUuid)
    else if NonEmpty(q.sig) == None then Refuse(MissingSig)
    else if NonEmpty(q.timestamp) == None then Refuse(MissingTimestamp)
    else if !IsUuid(First(q.relayUuid).value) then Refuse(InvalidRelayUuid)
    else if cfg.parseInt(First(q.timestamp).value) == None then Refuse(InvalidTimestamp)
    else
      var u, ts := First(q.relayUuid).value, cfg.parseInt(First(q.timestamp).value).value;
      if Abs(nowMs / 1000 - ts) > cfg.toleranceS then Refuse(TimestampOutOfRange)
      else if u !in s.clients then Refuse(DaemonNotConnected)
      else
        var session, challenge := First(q.session).value, First(q.challenge).value;
        match Preimage(cfg, session, challenge, u, q.provider.value, ts)
        case None => Refuse(UnsignableFields)
        case Some(bytes) =>
          if !cfg.verify(s.clients[u].pubkey, bytes, First(q.sig).value) then Refuse(InvalidSignature)
          else Redirect(Flow(session, u, s.clients[u].decryptPubkey, challenge, q.provider.value,
                             nowMs + FLOW_TTL_MS, NonEmpty(q.scope)))
  }

  // -- GET /callback/:provider -----------------------------------------------

  datatype Param =
    | AccessToken | RefreshToken | TokenType | ExpiresIn | ScopeParam | IdToken | RawParam
    | State | ErrorParam | OtherParam(name: string)

  const ALLOWED_TOKEN_FIELDS := {AccessToken, RefreshToken, TokenType, ExpiresIn, ScopeParam, IdToken, RawParam}

  type Query = map<Param, QValue>

  function FilterCallbackTokenFields(raw: Query): Query {
    map p | p in raw && p in ALLOWED_TOKEN_FIELDS :: raw[p]
  }

  function Get(q: Query, p: Param): Option<string> {
    First(if p in q then Some(q[p]) else None)
  }

  datatype CallbackError =
    | ProviderError | MissingStateOrToken | NotFound | SessionMismatch | SessionExpired | AlreadyUsed

  /** `cleared`: whether the flow cookie's token is removed. */
  datatype CallbackReply = Rejected(error: CallbackError, cleared: bool) | Accepted(flow: Flow, tokens: Query)

  /** `openFlowState` over the ideal cipher. */
  function Open(cfg: Config, minted: map<Token, Payload>, cookie: Option<Token>): Option<Flow> {
    if cookie.Some? && cookie.value in minted then Deserialize(cfg.base64, minted[cookie.value]) else None
  }

  /** `handleCallback` up to encryption, all in one turn of the event loop. */
  function OnCallback(cfg: Config, minted: map<Token, Payload>, seen: seq<S.Item>,
                      cookie: Option<Token>, q: Query, nowMs: nat): (reply: CallbackReply)
    ensures reply.Accepted? ==> cookie.Some? && Open(cfg, minted, cookie) == Some(reply.flow)
  {
    if Get(q, ErrorParam) != None then Rejected(ProviderError, false)
    else if Get(q, State) == None || Get(q, AccessToken) == None then Rejected(MissingStateOrToken, false)
    else
      match Open(cfg, minted, cookie)
      case None => Rejected(NotFound, false)
      case Some(flow) =>
        if flow.sessionId != Get(q, State).value then Rejected(SessionMismatch, true)
        else if flow.expiresAt <= nowMs then Rejected(SessionExpired, true)
        else if S.Has(cfg.sessionTtlMs, seen, flow.sessionId, nowMs) then Rejected(AlreadyUsed, true)
        else Accepted(flow, FilterCallbackTokenFields(q))
  }

  // -- the system ------------------------------------------------------------

  /** One instance by its histories: the relay's steps, the guard's operations, the token of every accepted use. */
  datatype Instance = Instance(history: seq<R.Step>, ops: seq<S.Op>, passes: seq<Token>)

  /** An `/auth` accepted by instance `at`; `history` is its relay's until then. */
  datatype Auth = Auth(at: nat, history: seq<R.Step>, q: AuthQuery, nowMs: nat, token: Token)

  /**
   * A callback accepted by instance `at`, waiting for `eciesEncrypt`; `pass` is its place in
   * the instance's `passes`, `known` the number of accepted `/auth`s by then.
   */
  datatype Job = Job(at: nat, pass: nat, known: nat, token: Token, flow: Flow, query: Query, tokens: Query)

  /** The delivery envelope, by what is in it and for whom it is encrypted. */
  datatype Envelope = Envelope(sessionId: string, recipient: Bytes, tokens: Query)

  /** A delivery handed to `relay.forward` and admitted; `history` is the relay's before it. */
  datatype Delivery = Delivery(job: Job, envelope: Envelope, history: seq<R.Step>, req: R.Request, buffered: nat)

  datatype System = System(
    instances: seq<Instance>,
    minted: map<Token, Payload>,
    auths: seq<Auth>,
    jobs: seq<Job>,
    deliveries: seq<Delivery>)

  /** The request that carries an envelope, encrypted and signed with fresh randomness `salt`. */
  function DeliveryRequest(cfg: Config, e: Envelope, id: R.ReqId, requestId: string, salt: Bytes): R.Request {
    R.Request(id, "POST", "/hooks/oauth-complete",
              [("Content-Type", ["application/json"]), ("X-Dicode-Request-Id", [requestId])], cfg.encode(e, salt))
  }

  function EnvelopeOf(j: Job): Envelope {
    Envelope(j.flow.sessionId, j.flow.pubkey, j.tokens)
  }

  function Initial(n: nat): System {
    System(seq(n, _ => Instance([], [], [])), map[], [], [], [])
  }

  datatype Step =
    | RelayStep(at: nat, step: R.Step)
    | AuthStep(at: nat, q: AuthQuery, token: Token, nowMs: nat)
    | CallbackStep(at: nat, cookie: Option<Token>, query: Query, nowMs: nat)
    | PurgeStep(at: nat, id: string, nowMs: nat)
    | EncryptionFailsStep(job: nat)
    | DeliverStep(job: nat, id: R.ReqId, requestId: string, salt: Bytes, buffered: nat)

  function SeenOf(cfg: Config, i: Instance): S.Run {
    S.After(cfg.sessionTtlMs, i.ops)
  }

  ghost predicate RelaysRun(cfg: Config, y: System) {
    forall i :: 0 <= i < |y.instances| ==> R.Runs(cfg.relay, y.instances[i].history)
  }

  ghost function RelayOf(cfg: Config, i: Instance): R.Server
    requires R.Runs(cfg.relay, i.history)
  {
    R.After(cfg.relay, i.history)
  }

  /** Relay steps and request ids as the relay demands; sealing twice to one token means the same flow twice. */
  ghost predicate Enabled(cfg: Config, y: System, step: Step)
    requires RelaysRun(cfg, y)
  {
    match step
    case RelayStep(at, s) => at < |y.instances| && R.Enabled(RelayOf(cfg, y.instances[at]), s)
    case AuthStep(at, q, token, now) =>
      && at < |y.instances|
      && var reply := OnAuth(cfg, RelayOf(cfg, y.instances[at]), q, now);
         reply.Redirect? && token in y.minted ==> y.minted[token] == Serialize(cfg.base64, reply.flow)
    case CallbackStep(at, _, _, _) => at < |y.instances|
    case PurgeStep(at, _, _) => at < |y.instances|
    case EncryptionFailsStep(job) => job < |y.jobs|
    case DeliverStep(job, id, requestId, salt, b) =>
      && job < |y.jobs| && y.jobs[job].at < |y.instances|
      && id !in RelayOf(cfg, y.instances[y.jobs[job].at]).admitted
  }

  function SetInstance(y: System, at: nat, i: Instance): System
    requires at < |y.instances|
  {
    y.(instances := y.instances[at := i])
  }

  ghost function DoAuth(cfg: Config, y: System, at: nat, q: AuthQuery, token: Token, now: nat): System
    requires RelaysRun(cfg, y) && at < |y.instances|
  {
    match OnAuth(cfg, RelayOf(cfg, y.instances[at]), q, now)
    case Refused(_, _) => y
    case Redirect(flow) =>
      y.(minted := y.minted[token := Serialize(cfg.base64, flow)],
         auths := y.auths + [Auth(at, y.instances[at].history, q, now, token)])
  }

  function DoCallback(cfg: Config, y: System, at: nat, cookie: Option<Token>, q: Query, now: nat): System
    requires at < |y.instances|
  {
    var i := y.instances[at];
    match OnCallback(cfg, y.minted, SeenOf(cfg, i).q, cookie, q, now)
    case Rejected(_, _) => y
    case Accepted(flow, tokens) =>
      SetInstance(y, at, i.(ops := i.ops + [S.AddOp(flow.sessionId, now)], passes := i.passes + [cookie.value]))
      .(jobs := y.jobs + [Job(at, |i.passes|, |y.auths|, cookie.value, flow, q, tokens)])
  }

  ghost function DoDeliver(cfg: Config, y: System, job: nat, req: R.Request, buffered: nat): System
    requires RelaysRun(cfg, y) && job < |y.jobs| && y.jobs[job].at < |y.instances|
  {
    var j := y.jobs[job];
    var i := y.instances[j.at];
    var s := RelayOf(cfg, i);
    var y' := SetInstance(y, j.at, i.(history := i.history + [R.ForwardStep(j.flow.relayUuid, req, buffered)]))
              .(jobs := S.Vacate(y.jobs, Some(job)));
    if R.ForwardCheck(cfg.relay, s, j.flow.relayUuid, buffered) != None then y'
    else y'.(deliveries := y.deliveries + [Delivery(j, EnvelopeOf(j), i.history, req, buffered)])
  }

  ghost function Next(cfg: Config, y: System, step: Step): System
    requires RelaysRun(cfg, y) && Enabled(cfg, y, step)
  {
    match step
    case RelayStep(at, s) =>
      var i := y.instances[at];
      SetInstance(y, at, i.(history := i.history + [s]))
    case AuthStep(at, q, token, now) => DoAuth(cfg, y, at, q, token, now)
    case CallbackStep(at, cookie, q, now) => DoCallback(cfg, y, at, cookie, q, now)
    case PurgeStep(at, id, now) =>
      var i := y.instances[at];
      SetInstance(y, at, i.(ops := i.ops + [S.PurgeOp(id, now)]))
    case EncryptionFailsStep(job) => y.(jobs := S.Vacate(y.jobs, Some(job)))
    case DeliverStep(job, id, requestId, salt, b) =>
      DoDeliver(cfg, y, job, DeliveryRequest(cfg, EnvelopeOf(y.jobs[job]), id, requestId, salt), b)
  }

  ghost predicate Runs(cfg: Config, n: nat, steps: seq<Step>)
    decreases |steps|, 0
  {
    steps == [] ||
    (var before := steps[..|steps| - 1];
     && Runs(cfg, n, before)
     && RelaysRun(cfg, After(cfg, n, before))
     && Enabled(cfg, After(cfg, n, before), steps[|steps| - 1]))
  }

  ghost function After(cfg: Config, n: nat, steps: seq<Step>): System
    requires Runs(cfg, n, steps)
    decreases |steps|, 1
  {
    if steps == [] then Initial(n)
    else Next(cfg, After(cfg, n, steps[..|steps| - 1]), steps[|steps| - 1])
  }

  // -- clocks ----------------------------------------------------------------

  function Clock(steps: seq<Step>): nat {
    if steps == [] then 0
    else
      match steps[|steps| - 1]
      case AuthStep(_, _, _, now) => now
      case CallbackStep(_, _, _, now) => now
      case PurgeStep(_, _, now) => now
      case _ => Clock(steps[..|steps| - 1])
  }

  /** The instances read one clock that never runs backwards. */
  ghost predicate Monotone(steps: seq<Step>) {
    forall i :: 0 <= i < |steps| ==> Clock(steps[..i]) <= Clock(steps[..i + 1])
  }

  /** And, as a clock of this century, it never reads 0. */
  ghost predicate Dated(steps: seq<Step>) {
    && Monotone(steps)
    && forall i :: 0 <= i < |steps| ==>
         (steps[i].AuthStep? || steps[i].CallbackStep? || steps[i].PurgeStep? ==> steps[i].nowMs > 0)
  }
}
