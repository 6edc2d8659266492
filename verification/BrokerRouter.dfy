/** The broker's two handlers as they run: checks with early returns, on the browser's cookie and the guard object. */
module BrokerRouter {
  import opened Prelude
  import opened FlowState
  import opened Broker
  import R = Relay
  import S = Seen

  /** The broker's field of the browser's flow cookie. */
  class FlowCookie {
    var broker: Option<Token>

    constructor (broker: Option<Token>)
      ensures this.broker == broker
    {
      this.broker := broker;
    }

    method Write(token: Token)
      modifies this
      ensures broker == Some(token)
    {
      broker := Some(token);
    }

    method Clear()
      modifies this
      ensures broker == None
    {
      broker := None;
    }
  }

  /** `/auth/:provider`; `token` is what `sealFlowState` yields. A refusal leaves the cookie alone. */
  method HandleAuth(cfg: Config, s: R.Server, q: AuthQuery, cookie: FlowCookie, token: Token, nowMs: nat)
    returns (reply: AuthReply)
    modifies cookie
    ensures reply == OnAuth(cfg, s, q, nowMs)
    ensures cookie.broker == if reply.Redirect? then Some(token) else old(cookie.broker)
  {
    if q.provider == None { return Refuse(MissingProvider); }
    if q.provider.value !in cfg.providers { return Refuse(UnknownProvider); }
    var session, challenge, relayUuid := First(q.session), First(q.challenge), First(q.relayUuid);
    var sig, timestamp, scope := First(q.sig), First(q.timestamp), First(q.scope);
    if session == None || session.value == "" { return Refuse(MissingSession); }
    if challenge == None || challenge.value == "" { return Refuse(MissingChallenge); }
    if relayUuid == None || relayUuid.value == "" { return Refuse(MissingRelayUuid); }
    if sig == None || sig.value == "" { return Refuse(MissingSig); }
    if timestamp == None || timestamp.value == "" { return Refuse(MissingTimestamp); }
    if !IsUuid(relayUuid.value) { return Refuse(InvalidRelayUuid); }
    var ts := cfg.parseInt(timestamp.value);
    if ts == None { return Refuse(InvalidTimestamp); }
    if Abs(nowMs / 1000 - ts.value) > cfg.toleranceS { return Refuse(TimestampOutOfRange); }
    if relayUuid.value !in s.clients { return Refuse(DaemonNotConnected); }
    var client := s.clients[relayUuid.value];
    var payload := Preimage(cfg, session.value, challenge.value, relayUuid.value, q.provider.value, ts.value);
    if payload == None { return Refuse(UnsignableFields); }
    if !cfg.verify(client.pubkey, payload.value, sig.value) { return Refuse(InvalidSignature); }
    var flow := Flow(session.value, relayUuid.value, client.decryptPubkey, challenge.value, q.provider.value,
                     nowMs + FLOW_TTL_MS, if scope != None && scope.value != "" then scope else None);
    cookie.Write(token);
    return Redirect(flow);
  }

  /** `handleCallback` up to the encryption: the id is consumed and the cookie cleared exactly when it gets there. */
  method HandleCallback(cfg: Config, minted: map<Token, Payload>, seen: S.SeenSet, cookie: FlowCookie,
                        q: Query, nowMs: nat) returns (reply: CallbackReply)
    requires seen.Valid() && seen.ttlMs == cfg.sessionTtlMs
    modifies seen, cookie
    ensures seen.Valid()
    ensures reply == OnCallback(cfg, minted, old(seen.cache), old(cookie.broker), q, nowMs)
    ensures seen.cache == if reply.Accepted? then S.Put(old(seen.cache), reply.flow.sessionId, nowMs)
                          else old(seen.cache)
    ensures cookie.broker == if reply.Accepted? || reply.cleared then None else old(cookie.broker)
    ensures reply.Accepted? ==> S.Has(seen.ttlMs, seen.cache, reply.flow.sessionId, nowMs)
  {
    if Get(q, ErrorParam) != None { return Rejected(ProviderError, false); }
    var state, accessToken := Get(q, State), Get(q, AccessToken);
    if state == None || accessToken == None { return Rejected(MissingStateOrToken, false); }
    var session := Open(cfg, minted, cookie.broker);
    if session == None { return Rejected(NotFound, false); }
    if session.value.sessionId != state.value {
      cookie.Clear();
      return Rejected(SessionMismatch, true);
    }
    if session.value.expiresAt <= nowMs {
      cookie.Clear();
      return Rejected(SessionExpired, true);
    }
    var added := seen.Add(session.value.sessionId, nowMs);
    if !added {
      cookie.Clear();
      return Rejected(AlreadyUsed, true);
    }
    cookie.Clear();
    return Accepted(session.value, FilterCallbackTokenFields(q));
  }
}
