/**
 * What goes into a flow token: a session becomes a JSON object, and an opened
 * object is accepted only with the right version and the right types.
 */
module FlowState {
  import opened Prelude

  datatype Flow = Flow(
    sessionId: string,
    relayUuid: string,
    pubkey: Bytes,
    pkceChallenge: string,
    provider: string,
    expiresAt: int,
    scope: Option<string>)

  const FLOW_VERSION := 1

  datatype Key =
    | V | SessionId | RelayUuid | Pubkey | PkceChallenge | Provider | ExpiresAt | Scope
    | Unknown(name: string)

  /** Nulls, booleans, arrays and objects are all told apart from the two types that matter, not from each other. */
  datatype Json = Num(n: int) | Str(s: string) | OtherJson

  type Payload = map<Key, Json>

  /** `Buffer.toString("base64")` and `Buffer.from(_, "base64")`. */
  datatype Base64 = Base64(encode: Bytes -> string, decode: string -> Bytes)

  ghost predicate Inverse(b64: Base64) {
    forall b: Bytes :: b64.decode(b64.encode(b)) == b
  }

  /** The object that is sealed: an empty scope is left out. */
  function Serialize(b64: Base64, f: Flow): Payload {
    var p: Payload := map[
      V := Num(FLOW_VERSION), SessionId := Str(f.sessionId), RelayUuid := Str(f.relayUuid),
      Pubkey := Str(b64.encode(f.pubkey)), PkceChallenge := Str(f.pkceChallenge),
      Provider := Str(f.provider), ExpiresAt := Num(f.expiresAt)];
    if f.scope.Some? && f.scope.value != "" then p[Scope := Str(f.scope.value)] else p
  }

  predicate IsString(p: Payload, k: Key) {
    k in p && p[k].Str?
  }

  predicate WellTyped(p: Payload) {
    && V in p && p[V] == Num(FLOW_VERSION)
    && IsString(p, SessionId) && IsString(p, RelayUuid) && IsString(p, Pubkey)
    && IsString(p, PkceChallenge) && IsString(p, Provider)
    && ExpiresAt in p && p[ExpiresAt].Num?
    && (Scope in p ==> p[Scope].Str?)
  }

  /** The checks on an opened object. */
  function Deserialize(b64: Base64, p: Payload): Option<Flow> {
    if !WellTyped(p) then None
    else Some(Flow(p[SessionId].s, p[RelayUuid].s, b64.decode(p[Pubkey].s), p[PkceChallenge].s, p[Provider].s,
                   p[ExpiresAt].n, if Scope in p then Some(p[Scope].s) else None))
  }

  /** `p` has `v` under `k`. */
  predicate Has(p: Payload, k: Key, v: Json) {
    k in p && p[k] == v
  }

  /** An object opens to `f` exactly when it has version 1 and each field of `f`, typed, under its own key. */
  lemma OpensExactly(b64: Base64, p: Payload, f: Flow)
    ensures Deserialize(b64, p) == Some(f) <==>
              && Has(p, V, Num(1)) && Has(p, SessionId, Str(f.sessionId)) && Has(p, RelayUuid, Str(f.relayUuid))
              && (exists key :: Has(p, Pubkey, Str(key)) && b64.decode(key) == f.pubkey)
              && Has(p, PkceChallenge, Str(f.pkceChallenge)) && Has(p, Provider, Str(f.provider))
              && Has(p, ExpiresAt, Num(f.expiresAt))
              && (if f.scope == None then Scope !in p else Has(p, Scope, Str(f.scope.value)))
  {
    if IsString(p, Pubkey) { assert Has(p, Pubkey, Str(p[Pubkey].s)); }
  }

  /** A flow survives sealing and opening unchanged exactly when its scope is not the empty string. */
  lemma SurvivesExactly(b64: Base64, f: Flow)
    requires Inverse(b64)
    ensures Deserialize(b64, Serialize(b64, f)).Some?
    ensures Deserialize(b64, Serialize(b64, f)) == Some(f) <==> f.scope != Some("")
  {
    assert b64.decode(b64.encode(f.pubkey)) == f.pubkey;
  }
}
