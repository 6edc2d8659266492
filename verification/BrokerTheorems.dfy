/** Where deliveries go, and how often, over whole runs of any number of instances. */
module BrokerTheorems {
  import opened Prelude
  import opened FlowState
  import opened Broker
  import P = Preimages
  import R = Relay
  import RT = RelayTheorems
  import S = Seen

  // -- where deliveries come from --------------------------------------------

  /** `a` is an `/auth` that the relay's registry at the time accepts. */
  ghost predicate GoodAuth(cfg: Config, a: Auth) {
    R.Runs(cfg.relay, a.history) && OnAuth(cfg, R.After(cfg.relay, a.history), a.q, a.nowMs).Redirect?
  }

  ghost function FlowOf(cfg: Config, a: Auth): Flow
    requires GoodAuth(cfg, a)
  {
    OnAuth(cfg, R.After(cfg.relay, a.history), a.q, a.nowMs).flow
  }

  /** Accepted by an instance of the system, and sealed into its token. */
  ghost predicate AuthHappened(cfg: Config, y: System, a: Auth) {
    && GoodAuth(cfg, a) && a.token in y.minted && y.minted[a.token] == Serialize(cfg.base64, FlowOf(cfg, a))
    && a.at < |y.instances| && a.history <= y.instances[a.at].history
  }

  /** One of `auths` sealed `payload` into `token`. */
  ghost predicate SealedBy(cfg: Config, auths: seq<Auth>, token: Token, payload: Payload) {
    exists a :: a in auths && a.token == token && GoodAuth(cfg, a) && payload == Serialize(cfg.base64, FlowOf(cfg, a))
  }

  /** `tokens` is the allow-listed part of `query`: all of it and nothing else. */
  ghost predicate AllowListed(tokens: Query, query: Query) {
    forall p ::
      && (p in tokens <==>
            p in query && !(p.State? || p.ErrorParam? || p.OtherParam?))
      && (p in tokens ==> tokens[p] == query[p])
  }

  /** The callback opened a flow sealed by then, named its session, and brought an access token. */
  ghost predicate GoodJob(cfg: Config, y: System, j: Job) {
    && Open(cfg, y.minted, Some(j.token)) == Some(j.flow)
    && j.known <= |y.auths| && SealedBy(cfg, y.auths[..j.known], j.token, y.minted[j.token])
    && Get(j.query, State) == Some(j.flow.sessionId)
    && AllowListed(j.tokens, j.query) && AccessToken in j.tokens
  }

  /** The request is the one that carries the envelope. */
  ghost predicate Carries(cfg: Config, req: R.Request, e: Envelope) {
    && req.verb == "POST" && req.path == "/hooks/oauth-complete"
    && (exists requestId ::
          req.headers == [("Content-Type", ["application/json"]), ("X-Dicode-Request-Id", [requestId])])
    && (exists salt :: req.body == cfg.encode(e, salt))
  }

  /** The delivery's request was forwarded by its instance's own relay, and admitted. */
  ghost predicate Forwarded(cfg: Config, y: System, d: Delivery) {
    && d.job.at < |y.instances|
    && d.history + [R.ForwardStep(d.job.flow.relayUuid, d.req, d.buffered)] <= y.instances[d.job.at].history
    && R.Runs(cfg.relay, d.history)
    && d.req.id !in R.After(cfg.relay, d.history).admitted
    && R.ForwardCheck(cfg.relay, R.After(cfg.relay, d.history), d.job.flow.relayUuid, d.buffered) == None
  }

  ghost predicate GoodDelivery(cfg: Config, y: System, d: Delivery) {
    && GoodJob(cfg, y, d.job) && d.envelope == EnvelopeOf(d.job)
    && Carries(cfg, d.req, d.envelope) && Forwarded(cfg, y, d)
  }

  ghost predicate AllSealed(cfg: Config, y: System) {
    forall t :: t in y.minted ==> SealedBy(cfg, y.auths, t, y.minted[t])
  }

  ghost predicate AllHappened(cfg: Config, y: System, auths: seq<Auth>) {
    forall k :: 0 <= k < |auths| ==> AuthHappened(cfg, y, auths[k])
  }

  ghost predicate GoodJobs(cfg: Config, y: System, jobs: seq<Job>) {
    forall k :: 0 <= k < |jobs| ==> GoodJob(cfg, y, jobs[k])
  }

  ghost predicate GoodDeliveries(cfg: Config, y: System, ds: seq<Delivery>) {
    forall k :: 0 <= k < |ds| ==> GoodDelivery(cfg, y, ds[k])
  }

  ghost predicate Sourced(cfg: Config, y: System) {
    && RelaysRun(cfg, y) && AllSealed(cfg, y) && AllHappened(cfg, y, y.auths)
    && GoodJobs(cfg, y, y.jobs) && GoodDeliveries(cfg, y, y.deliveries)
  }

  /** Tokens, accepted `/auth`s and relay histories are only added to. */
  ghost predicate Extends(y: System, y': System) {
    && (forall t :: t in y.minted ==> t in y'.minted && y'.minted[t] == y.minted[t])
    && y.auths <= y'.auths
    && |y.instances| == |y'.instances|
    && (forall i :: 0 <= i < |y.instances| ==> y.instances[i].history <= y'.instances[i].history)
  }

  lemma AuthStays(cfg: Config, y: System, y': System, a: Auth)
    requires Extends(y, y') && AuthHappened(cfg, y, a)
    ensures AuthHappened(cfg, y', a)
  {
  }

  lemma JobStays(cfg: Config, y: System, y': System, j: Job)
    requires Extends(y, y') && GoodJob(cfg, y, j)
    ensures GoodJob(cfg, y', j)
  {
    hide AllowListed, Get;
    assert y'.auths[..j.known] == y.auths[..j.known];
  }

  lemma DeliveryStays(cfg: Config, y: System, y': System, d: Delivery)
    requires Extends(y, y') && GoodDelivery(cfg, y, d)
    ensures GoodDelivery(cfg, y', d)
  {
    JobStays(cfg, y, y', d.job);
  }

  lemma SealStays(cfg: Config, y: System, y': System, t: Token)
    requires Extends(y, y') && t in y.minted && SealedBy(cfg, y.auths, t, y.minted[t])
    ensures SealedBy(cfg, y'.auths, t, y'.minted[t])
  {
    var a :| a in y.auths && a.token == t && GoodAuth(cfg, a) && y.minted[t] == Serialize(cfg.base64, FlowOf(cfg, a));
    assert a in y'.auths;
  }

  /** What was sourced stays so; only what is new is left to check. */
  lemma StillSourced(cfg: Config, y: System, y': System)
    requires Sourced(cfg, y) && Extends(y, y')
    ensures forall t :: t in y.minted ==> SealedBy(cfg, y'.auths, t, y'.minted[t])
    ensures AllHappened(cfg, y', y.auths)
    ensures GoodJobs(cfg, y', y.jobs) && GoodDeliveries(cfg, y', y.deliveries)
  {
    forall t | t in y.minted ensures SealedBy(cfg, y'.auths, t, y'.minted[t]) { SealStays(cfg, y, y', t); }
    forall k | 0 <= k < |y.auths| ensures AuthHappened(cfg, y', y.auths[k]) { AuthStays(cfg, y, y', y.auths[k]); }
    forall k | 0 <= k < |y.jobs| ensures GoodJob(cfg, y', y.jobs[k]) { JobStays(cfg, y, y', y.jobs[k]); }
    forall k | 0 <= k < |y.deliveries| ensures GoodDelivery(cfg, y', y.deliveries[k]) {
      DeliveryStays(cfg, y, y', y.deliveries[k]);
    }
  }

  lemma JobsChange(cfg: Config, y: System, jobs: seq<Job>, k: nat, j: Job)
    requires GoodJobs(cfg, y, jobs)
    ensures k < |jobs| ==> GoodJobs(cfg, y, S.Vacate(jobs, Some(k)))
    ensures GoodJob(cfg, y, j) ==> GoodJobs(cfg, y, jobs + [j])
  {
  }

  lemma DeliveryJoins(cfg: Config, y: System, ds: seq<Delivery>, d: Delivery)
    requires GoodDeliveries(cfg, y, ds) && GoodDelivery(cfg, y, d)
    ensures GoodDeliveries(cfg, y, ds + [d])
  {
  }

  lemma RelayExtends(cfg: Config, y: System, at: nat, step: R.Step)
    requires RelaysRun(cfg, y) && at < |y.instances| && R.Enabled(RelayOf(cfg, y.instances[at]), step)
    ensures
      var y' := SetInstance(y, at, y.instances[at].(history := y.instances[at].history + [step]));
      RelaysRun(cfg, y') && Extends(y, y')
  {
    RT.Extend(cfg.relay, y.instances[at].history, step);
  }

  lemma RelaySourced(cfg: Config, y: System, at: nat, step: R.Step)
    requires Sourced(cfg, y) && at < |y.instances| && R.Enabled(RelayOf(cfg, y.instances[at]), step)
    ensures Sourced(cfg, SetInstance(y, at, y.instances[at].(history := y.instances[at].history + [step])))
  {
    RelayExtends(cfg, y, at, step);
    StillSourced(cfg, y, SetInstance(y, at, y.instances[at].(history := y.instances[at].history + [step])));
  }

  lemma AuthExtends(cfg: Config, y: System, at: nat, q: AuthQuery, token: Token, now: nat)
    requires RelaysRun(cfg, y) && Enabled(cfg, y, AuthStep(at, q, token, now))
    ensures Extends(y, DoAuth(cfg, y, at, q, token, now))
  {
  }

  lemma NewAuth(cfg: Config, y: System, at: nat, q: AuthQuery, token: Token, now: nat)
    requires RelaysRun(cfg, y) && Enabled(cfg, y, AuthStep(at, q, token, now))
    requires OnAuth(cfg, RelayOf(cfg, y.instances[at]), q, now).Redirect?
    ensures
      var y' := DoAuth(cfg, y, at, q, token, now);
      && y'.auths == y.auths + [Auth(at, y.instances[at].history, q, now, token)]
      && AuthHappened(cfg, y', y'.auths[|y.auths|])
      && SealedBy(cfg, y'.auths, token, y'.minted[token])
  {
    var y' := DoAuth(cfg, y, at, q, token, now);
    assert AuthHappened(cfg, y', y'.auths[|y.auths|]);
  }

  lemma AuthSourced(cfg: Config, y: System, at: nat, q: AuthQuery, token: Token, now: nat)
    requires Sourced(cfg, y) && Enabled(cfg, y, AuthStep(at, q, token, now))
    ensures Sourced(cfg, DoAuth(cfg, y, at, q, token, now))
  {
    hide OnAuth;
    if OnAuth(cfg, RelayOf(cfg, y.instances[at]), q, now).Redirect? {
      AuthExtends(cfg, y, at, q, token, now);
      NewAuth(cfg, y, at, q, token, now);
      StillSourced(cfg, y, DoAuth(cfg, y, at, q, token, now));
    }
  }

  lemma AcceptedCallback(
    cfg: Config, minted: map<Token, Payload>, cookie: Option<Token>, seen: seq<S.Item>, q: Query, now: nat)
    requires OnCallback(cfg, minted, seen, cookie, q, now).Accepted?
    ensures
      var reply := OnCallback(cfg, minted, seen, cookie, q, now);
      && cookie.Some? && Open(cfg, minted, cookie) == Some(reply.flow)
      && Get(q, State) == Some(reply.flow.sessionId)
      && AllowListed(reply.tokens, q) && AccessToken in reply.tokens
  {
  }

  lemma NewJob(cfg: Config, y: System, at: nat, pass: nat, cookie: Option<Token>, seen: seq<S.Item>, q: Query, now: nat)
    requires Sourced(cfg, y) && OnCallback(cfg, y.minted, seen, cookie, q, now).Accepted?
    ensures
      var reply := OnCallback(cfg, y.minted, seen, cookie, q, now);
      GoodJob(cfg, y, Job(at, pass, |y.auths|, cookie.value, reply.flow, q, reply.tokens))
  {
    hide OnCallback;
    AcceptedCallback(cfg, y.minted, cookie, seen, q, now);
    assert y.auths[..|y.auths|] == y.auths;
  }

  lemma CallbackExtends(cfg: Config, y: System, at: nat, cookie: Option<Token>, q: Query, now: nat)
    requires RelaysRun(cfg, y) && at < |y.instances|
    ensures
      var y' := DoCallback(cfg, y, at, cookie, q, now);
      && RelaysRun(cfg, y') && Extends(y, y')
      && y'.minted == y.minted && y'.auths == y.auths && y'.deliveries == y.deliveries
  {
  }

  lemma CallbackSourced(cfg: Config, y: System, at: nat, cookie: Option<Token>, q: Query, now: nat)
    requires Sourced(cfg, y) && at < |y.instances|
    ensures Sourced(cfg, DoCallback(cfg, y, at, cookie, q, now))
  {
    var i, y' := y.instances[at], DoCallback(cfg, y, at, cookie, q, now);
    var reply := OnCallback(cfg, y.minted, SeenOf(cfg, i).q, cookie, q, now);
    if reply.Accepted? {
      var j := Job(at, |i.passes|, |y.auths|, cookie.value, reply.flow, q, reply.tokens);
      CallbackExtends(cfg, y, at, cookie, q, now);
      NewJob(cfg, y, at, |i.passes|, cookie, SeenOf(cfg, i).q, q, now);
      JobStays(cfg, y, y', j);
      StillSourced(cfg, y, y');
      JobsChange(cfg, y', y.jobs, 0, j);
    }
  }

  lemma DropSourced(cfg: Config, y: System, job: nat)
    requires Sourced(cfg, y) && job < |y.jobs|
    ensures Sourced(cfg, y.(jobs := S.Vacate(y.jobs, Some(job))))
  {
    StillSourced(cfg, y, y.(jobs := S.Vacate(y.jobs, Some(job))));
    JobsChange(cfg, y.(jobs := S.Vacate(y.jobs, Some(job))), y.jobs, job, y.jobs[job]);
  }

  lemma NewDelivery(cfg: Config, y: System, job: nat, req: R.Request, buffered: nat)
    requires Sourced(cfg, y) && job < |y.jobs| && y.jobs[job].at < |y.instances|
    requires
      var j := y.jobs[job];
      var relay := RelayOf(cfg, y.instances[j.at]);
      && req.id !in relay.admitted && Carries(cfg, req, EnvelopeOf(j))
      && R.ForwardCheck(cfg.relay, relay, j.flow.relayUuid, buffered) == None
    ensures
      var j, y' := y.jobs[job], DoDeliver(cfg, y, job, req, buffered);
      GoodDelivery(cfg, y', Delivery(j, EnvelopeOf(j), y.instances[j.at].history, req, buffered))
  {
    hide R.After, R.Runs;
    hide GoodJob;
    var j, y' := y.jobs[job], DoDeliver(cfg, y, job, req, buffered);
    assert GoodJob(cfg, y, j);
    JobStays(cfg, y, y', j);
  }

  lemma DeliverExtends(cfg: Config, y: System, job: nat, req: R.Request, buffered: nat)
    requires RelaysRun(cfg, y) && job < |y.jobs| && y.jobs[job].at < |y.instances|
    requires req.id !in RelayOf(cfg, y.instances[y.jobs[job].at]).admitted
    ensures
      var y' := DoDeliver(cfg, y, job, req, buffered);
      RelaysRun(cfg, y') && Extends(y, y') && y'.minted == y.minted && y'.auths == y.auths
  {
    var j := y.jobs[job];
    RelayExtends(cfg, y, j.at, R.ForwardStep(j.flow.relayUuid, req, buffered));
  }

  lemma DeliverSourced(cfg: Config, y: System, job: nat, req: R.Request, buffered: nat)
    requires Sourced(cfg, y) && job < |y.jobs| && y.jobs[job].at < |y.instances|
    requires req.id !in RelayOf(cfg, y.instances[y.jobs[job].at]).admitted
    requires Carries(cfg, req, EnvelopeOf(y.jobs[job]))
    ensures Sourced(cfg, DoDeliver(cfg, y, job, req, buffered))
  {
    var j, y' := y.jobs[job], DoDeliver(cfg, y, job, req, buffered);
    DeliverExtends(cfg, y, job, req, buffered);
    StillSourced(cfg, y, y');
    JobsChange(cfg, y', y.jobs, job, j);
    if R.ForwardCheck(cfg.relay, RelayOf(cfg, y.instances[j.at]), j.flow.relayUuid, buffered) == None {
      NewDelivery(cfg, y, job, req, buffered);
      DeliveryJoins(cfg, y', y.deliveries, Delivery(j, EnvelopeOf(j), y.instances[j.at].history, req, buffered));
    }
  }

  lemma PurgeSourced(cfg: Config, y: System, at: nat, id: string, now: nat)
    requires Sourced(cfg, y) && at < |y.instances|
    ensures Sourced(cfg, SetInstance(y, at, y.instances[at].(ops := y.instances[at].ops + [S.PurgeOp(id, now)])))
  {
    StillSourced(cfg, y, SetInstance(y, at, y.instances[at].(ops := y.instances[at].ops + [S.PurgeOp(id, now)])));
  }

  lemma StepSourced(cfg: Config, y: System, step: Step)
    requires Sourced(cfg, y) && Enabled(cfg, y, step)
    ensures Sourced(cfg, Next(cfg, y, step))
  {
    hide Sourced;
    match step
    case RelayStep(at, s) => RelaySourced(cfg, y, at, s);
    case AuthStep(at, q, token, now) => AuthSourced(cfg, y, at, q, token, now);
    case CallbackStep(at, cookie, q, now) => CallbackSourced(cfg, y, at, cookie, q, now);
    case PurgeStep(at, id, now) => PurgeSourced(cfg, y, at, id, now);
    case EncryptionFailsStep(job) => DropSourced(cfg, y, job);
    case DeliverStep(job, id, requestId, salt, b) =>
      DeliverSourced(cfg, y, job, DeliveryRequest(cfg, EnvelopeOf(y.jobs[job]), id, requestId, salt), b);
  }

  lemma {:induction false} RunSourced(cfg: Config, n: nat, steps: seq<Step>)
    requires Runs(cfg, n, steps)
    ensures Sourced(cfg, After(cfg, n, steps))
  {
    if steps != [] {
      RunSourced(cfg, n, steps[..|steps| - 1]);
      StepSourced(cfg, After(cfg, n, steps[..|steps| - 1]), steps[|steps| - 1]);
    }
  }

  // -- parameters ------------------------------------------------------------

  /** A parameter counts by its first value. */
  lemma FirstExactly(v: Option<QValue>, s: string)
    ensures First(v) == Some(s) <==> v == Some(One(s)) || (v.Some? && v.value.Many? && [s] <= v.value.ss)
    ensures NonEmpty(v) == Some(s) <==> First(v) == Some(s) && s != ""
  {
  }

  lemma GetExactly(q: Query, p: Param, s: string)
    ensures Get(q, p) == Some(s) <==> p in q && (q[p] == One(s) || (q[p].Many? && [s] <= q[p].ss))
  {
  }

  lemma IsUuidExactly(s: string)
    ensures IsUuid(s) <==> |s| == 64 && forall c :: c in s ==> c in "0123456789abcdef"
  {
    var digits := "0123456789abcdef";
    forall c: char ensures c in digits <==> '0' <= c <= '9' || 'a' <= c <= 'f' {
      if '0' <= c <= '9' { assert digits[c as int - '0' as int] == c; }
      if 'a' <= c <= 'f' { assert digits[c as int - 'a' as int + 10] == c; }
    }
    if IsUuid(s) {
      forall c | c in s ensures c in digits {
        var i :| 0 <= i < |s| && s[i] == c;
      }
    }
    if forall c :: c in s ==> c in digits {
      forall i | 0 <= i < |s| ensures '0' <= s[i] <= '9' || 'a' <= s[i] <= 'f' { assert s[i] in s; }
    }
  }

  // -- when an /auth is accepted ---------------------------------------------

  predicate Complete(q: AuthQuery) {
    && q.provider.Some? && NonEmpty(q.session).Some? && NonEmpty(q.challenge).Some?
    && NonEmpty(q.relayUuid).Some? && NonEmpty(q.sig).Some? && NonEmpty(q.timestamp).Some?
  }

  /** `rest` is `s` without its dashes: the characters at `at`, which are all the others, in order. */
  ghost predicate KeptAt(s: string, rest: string, at: seq<nat>) {
    && |at| == |rest| && (forall i :: 0 <= i < |at| ==> at[i] < |s| && rest[i] == s[at[i]] != '-')
    && (forall i, j :: 0 <= i < j < |at| ==> at[i] < at[j])
    && (forall k :: 0 <= k < |s| && s[k] != '-' ==> k in at)
  }

  ghost predicate DashesGone(s: string, rest: string) {
    exists at :: KeptAt(s, rest, at)
  }

  /** One more character that stays. */
  lemma OneMoreKept(s: string, rest: string, at: seq<nat>, c: char)
    requires KeptAt(s, rest, at) && c != '-'
    ensures KeptAt(s + [c], rest + [c], at + [|s|])
  {
    var s', at' := s + [c], at + [|s|];
    forall k | 0 <= k < |s'| && s'[k] != '-' ensures k in at' {
      if k < |s| {
        assert k in at;
      } else {
        assert at'[|at|] == k;
      }
    }
  }

  lemma OneMoreDash(s: string, rest: string, at: seq<nat>)
    requires KeptAt(s, rest, at)
    ensures KeptAt(s + ['-'], rest, at)
  {
  }

  lemma {:induction false} DashlessIsKept(s: string) returns (at: seq<nat>)
    ensures KeptAt(s, WithoutDashes(s), at)
  {
    if s == "" {
      at := [];
    } else {
      hide KeptAt;
      var before, c := s[..|s| - 1], s[|s| - 1];
      assert s == before + [c];
      at := DashlessIsKept(before);
      if c == '-' {
        OneMoreDash(before, WithoutDashes(before), at);
      } else {
        OneMoreKept(before, WithoutDashes(before), at, c);
        at := at + [|before|];
      }
    }
  }

  lemma LastDashGone(s: string, rest: string, at: seq<nat>)
    requires s != "" && KeptAt(s, rest, at) && s[|s| - 1] == '-'
    ensures KeptAt(s[..|s| - 1], rest, at)
  {
    forall k | 0 <= k < |s| - 1 && s[..|s| - 1][k] != '-' ensures k in at { assert s[k] != '-'; }
  }

  lemma LastKept(s: string, rest: string, at: seq<nat>)
    requires s != "" && KeptAt(s, rest, at) && s[|s| - 1] != '-'
    ensures at != [] && at[|at| - 1] == |s| - 1
  {
    var n, m := |s| - 1, |at| - 1;
    assert n in at;
    var i :| 0 <= i < |at| && at[i] == n;
    assert i < m ==> at[i] < at[m];
  }

  lemma LastKeptGone(s: string, rest: string, at: seq<nat>)
    requires s != "" && KeptAt(s, rest, at) && at != [] && at[|at| - 1] == |s| - 1
    ensures KeptAt(s[..|s| - 1], rest[..|rest| - 1], at[..|at| - 1])
  {
    var n, m := |s| - 1, |at| - 1;
    forall k | 0 <= k < n && s[..n][k] != '-' ensures k in at[..m] {
      assert s[k] != '-' && k in at;
      var j :| 0 <= j < |at| && at[j] == k;
      assert at[..m][j] == k;
    }
  }

  lemma {:induction false} KeptIsDashless(s: string, rest: string, at: seq<nat>)
    requires KeptAt(s, rest, at)
    ensures rest == WithoutDashes(s)
  {
    if s != "" {
      var n, m := |s| - 1, |at| - 1;
      if s[n] == '-' {
        LastDashGone(s, rest, at);
        KeptIsDashless(s[..n], rest, at);
      } else {
        LastKept(s, rest, at);
        LastKeptGone(s, rest, at);
        KeptIsDashless(s[..n], rest[..m], at[..m]);
        assert rest == rest[..m] + [rest[m]];
      }
    }
  }

  /** `bytes` reads as the fields of the request `q`, its session without dashes and its timestamp as a number. */
  predicate ReadsAs(cfg: Config, bytes: Bytes, q: AuthQuery, session: string, ts: int)
    requires Complete(q)
  {
    P.ReadAuth(bytes) == Some(P.AuthFields(
      cfg.fromHex(session), cfg.fromBase64Url(First(q.challenge).value), cfg.fromHex(First(q.relayUuid).value),
      cfg.utf8(q.provider.value), ts))
  }

  /** The signature in `q` is valid under `key` for bytes that read as exactly the fields of this request. */
  ghost predicate SignedUnder(cfg: Config, key: Bytes, q: AuthQuery, ts: int)
    requires Complete(q)
  {
    exists bytes, session ::
      && DashesGone(First(q.session).value, session) && ReadsAs(cfg, bytes, q, session, ts)
      && cfg.verify(key, bytes, First(q.sig).value)
  }

  /** Some bytes read as the fields of this request: each fits its length prefix, and the timestamp eight bytes. */
  ghost predicate Signable(cfg: Config, q: AuthQuery, ts: int)
    requires Complete(q)
  {
    exists bytes, session :: DashesGone(First(q.session).value, session) && ReadsAs(cfg, bytes, q, session, ts)
  }

  function Built(cfg: Config, q: AuthQuery, ts: int): Option<Bytes>
    requires Complete(q)
  {
    Preimage(cfg, First(q.session).value, First(q.challenge).value, First(q.relayUuid).value, q.provider.value, ts)
  }

  /** There is one such byte string at most: the one that the broker builds. */
  lemma OnlyReading(cfg: Config, bytes: Bytes, q: AuthQuery, session: string, ts: int)
    requires Complete(q) && DashesGone(First(q.session).value, session) && ReadsAs(cfg, bytes, q, session, ts)
    ensures Built(cfg, q, ts) == Some(bytes)
  {
    var at :| KeptAt(First(q.session).value, session, at);
    KeptIsDashless(First(q.session).value, session, at);
    P.AuthWritesBack(bytes);
  }

  lemma BuiltReads(cfg: Config, q: AuthQuery, ts: int)
    requires Complete(q)
    ensures
      var s := First(q.session).value;
      && DashesGone(s, WithoutDashes(s))
      && (Built(cfg, q, ts).Some? ==> ReadsAs(cfg, Built(cfg, q, ts).value, q, WithoutDashes(s), ts))
  {
    var s := First(q.session).value;
    var at := DashlessIsKept(s);
    if Built(cfg, q, ts).Some? {
      P.AuthReadsBack(P.AuthFields(cfg.fromHex(WithoutDashes(s)), cfg.fromBase64Url(First(q.challenge).value),
                                   cfg.fromHex(First(q.relayUuid).value), cfg.utf8(q.provider.value), ts));
    }
  }

  lemma SignedExactly(cfg: Config, key: Bytes, q: AuthQuery, ts: int)
    requires Complete(q)
    ensures SignedUnder(cfg, key, q, ts) <==>
              Built(cfg, q, ts).Some? && cfg.verify(key, Built(cfg, q, ts).value, First(q.sig).value)
    ensures Signable(cfg, q, ts) <==> Built(cfg, q, ts).Some?
  {
    var s := First(q.session).value;
    if SignedUnder(cfg, key, q, ts) {
      var bytes, session :|
        DashesGone(s, session) && ReadsAs(cfg, bytes, q, session, ts) && cfg.verify(key, bytes, First(q.sig).value);
      OnlyReading(cfg, bytes, q, session, ts);
    }
    if Signable(cfg, q, ts) {
      var bytes, session :| DashesGone(s, session) && ReadsAs(cfg, bytes, q, session, ts);
      OnlyReading(cfg, bytes, q, session, ts);
    }
    BuiltReads(cfg, q, ts);
  }

  /** `q` is complete and fresh, and the certificate key behind the standing hello `c` of its daemon signed it. */
  ghost predicate Admissible(
    cfg: Config, history: seq<R.Step>, q: AuthQuery, nowMs: nat, ts: int, k: nat, c: R.Client)
  {
    && Complete(q) && q.provider.value in cfg.providers && IsUuid(First(q.relayUuid).value)
    && cfg.parseInt(First(q.timestamp).value) == Some(ts)
    && -cfg.toleranceS <= nowMs / 1000 - ts <= cfg.toleranceS
    && c.uuid == First(q.relayUuid).value && RT.StandingHello(cfg.relay, history, k, c)
    && SignedUnder(cfg, c.pubkey, q, ts)
  }

  lemma AdmissibleIsAccepted(cfg: Config, history: seq<R.Step>, q: AuthQuery, nowMs: nat, ts: int, k: nat, c: R.Client)
    requires R.Runs(cfg.relay, history) && Admissible(cfg, history, q, nowMs, ts, k, c)
    ensures
      OnAuth(cfg, R.After(cfg.relay, history), q, nowMs) ==
        Redirect(Flow(First(q.session).value, c.uuid, c.decryptPubkey, First(q.challenge).value, q.provider.value,
                      nowMs + 300000, NonEmpty(q.scope)))
  {
    hide RT.StandingHello, R.After, R.Runs;
    RT.RegisteredExactly(cfg.relay, history, c.uuid, c);
    SignedExactly(cfg, c.pubkey, q, ts);
    assert R.After(cfg.relay, history).clients[c.uuid] == c;
  }

  /**
   * On every relay history an `/auth` is accepted exactly when some hello of the daemon
   * it names still stands and that hello's certificate key signed this very request in
   * time. The flow it seals is then for the key that hello announced, for five minutes.
   */
  lemma AuthAcceptedExactly(cfg: Config, history: seq<R.Step>, q: AuthQuery, nowMs: nat)
    requires R.Runs(cfg.relay, history)
    ensures
      OnAuth(cfg, R.After(cfg.relay, history), q, nowMs).Redirect? <==>
        exists ts, k, c :: Admissible(cfg, history, q, nowMs, ts, k, c)
    ensures forall ts, k, c :: Admissible(cfg, history, q, nowMs, ts, k, c) ==>
              OnAuth(cfg, R.After(cfg.relay, history), q, nowMs) ==
                Redirect(Flow(First(q.session).value, c.uuid, c.decryptPubkey, First(q.challenge).value,
                              q.provider.value, nowMs + 300000, NonEmpty(q.scope)))
  {
    hide RT.StandingHello, R.Runs, R.After, SignedUnder, Preimage, IsUuid;
    forall ts, k, c | Admissible(cfg, history, q, nowMs, ts, k, c)
      ensures OnAuth(cfg, R.After(cfg.relay, history), q, nowMs) ==
                Redirect(Flow(First(q.session).value, c.uuid, c.decryptPubkey, First(q.challenge).value,
                              q.provider.value, nowMs + 300000, NonEmpty(q.scope)))
    {
      AdmissibleIsAccepted(cfg, history, q, nowMs, ts, k, c);
    }
    var s := R.After(cfg.relay, history);
    if OnAuth(cfg, s, q, nowMs).Redirect? {
      var u := First(q.relayUuid).value;
      RT.RegistrationsAreSound(cfg.relay, history, u);
      RT.RegisteredExactly(cfg.relay, history, u, s.clients[u]);
      var k :| RT.StandingHello(cfg.relay, history, k, s.clients[u]);
      SignedExactly(cfg, s.clients[u].pubkey, q, cfg.parseInt(First(q.timestamp).value).value);
      assert Admissible(cfg, history, q, nowMs, cfg.parseInt(First(q.timestamp).value).value, k, s.clients[u]);
    }
  }

  predicate Stamped(cfg: Config, q: AuthQuery, ts: int) {
    First(q.timestamp).Some? && cfg.parseInt(First(q.timestamp).value) == Some(ts)
  }

  /** What check `e` objects to, whatever the checks before it say. */
  ghost predicate Objects(cfg: Config, s: R.Server, q: AuthQuery, nowMs: nat, e: AuthError) {
    match e
    case MissingProvider => q.provider == None
    case UnknownProvider => q.provider.Some? && q.provider.value !in cfg.providers
    case MissingSession => NonEmpty(q.session) == None
    case MissingChallenge => NonEmpty(q.challenge) == None
    case MissingRelayUuid => NonEmpty(q.relayUuid) == None
    case MissingSig => NonEmpty(q.sig) == None
    case MissingTimestamp => NonEmpty(q.timestamp) == None
    case InvalidRelayUuid => First(q.relayUuid).Some? && !IsUuid(First(q.relayUuid).value)
    case InvalidTimestamp => First(q.timestamp).Some? && cfg.parseInt(First(q.timestamp).value) == None
    case TimestampOutOfRange =>
      exists ts :: Stamped(cfg, q, ts) && !(-cfg.toleranceS <= nowMs / 1000 - ts <= cfg.toleranceS)
    case DaemonNotConnected => First(q.relayUuid).Some? && First(q.relayUuid).value !in s.clients
    case UnsignableFields => exists ts :: Stamped(cfg, q, ts) && Complete(q) && !Signable(cfg, q, ts)
    case InvalidSignature =>
      exists ts :: Stamped(cfg, q, ts) && Complete(q) && First(q.relayUuid).value in s.clients
                   && !SignedUnder(cfg, s.clients[First(q.relayUuid).value].pubkey, q, ts)
  }

  /** The checks in the order in which they are made, and the status each answers with. */
  const CHECKS := [
    MissingProvider, UnknownProvider, MissingSession, MissingChallenge, MissingRelayUuid, MissingSig, MissingTimestamp,
    InvalidRelayUuid, InvalidTimestamp, TimestampOutOfRange, DaemonNotConnected, UnsignableFields, InvalidSignature]

  const STATUSES := [400, 404, 400, 400, 400, 400, 400, 400, 400, 403, 403, 500, 403]

  ghost predicate NoneObjects(cfg: Config, s: R.Server, q: AuthQuery, nowMs: nat, n: nat)
    requires n <= 13
  {
    forall i :: 0 <= i < n ==> !Objects(cfg, s, q, nowMs, CHECKS[i])
  }

  lemma LateObjections(cfg: Config, s: R.Server, q: AuthQuery, nowMs: nat, ts: int)
    requires Complete(q) && Stamped(cfg, q, ts)
    ensures Objects(cfg, s, q, nowMs, TimestampOutOfRange) <==> Abs(nowMs / 1000 - ts) > cfg.toleranceS
    ensures Objects(cfg, s, q, nowMs, DaemonNotConnected) <==> First(q.relayUuid).value !in s.clients
    ensures Objects(cfg, s, q, nowMs, UnsignableFields) <==> Built(cfg, q, ts) == None
    ensures
      var u := First(q.relayUuid).value;
      Objects(cfg, s, q, nowMs, InvalidSignature) <==>
        u in s.clients && !(Built(cfg, q, ts).Some?
                            && cfg.verify(s.clients[u].pubkey, Built(cfg, q, ts).value, First(q.sig).value))
  {
    hide SignedUnder, Signable, Preimage;
    SignedExactly(cfg, [], q, ts);
    if First(q.relayUuid).value in s.clients {
      SignedExactly(cfg, s.clients[First(q.relayUuid).value].pubkey, q, ts);
    }
  }

  /** None of the first `j` checks objects, each by its name. */
  lemma EachPasses(cfg: Config, s: R.Server, q: AuthQuery, nowMs: nat, j: nat)
    requires j <= 13 && NoneObjects(cfg, s, q, nowMs, j)
    ensures j > 0 ==> !Objects(cfg, s, q, nowMs, MissingProvider)
    ensures j > 1 ==> !Objects(cfg, s, q, nowMs, UnknownProvider)
    ensures j > 2 ==> !Objects(cfg, s, q, nowMs, MissingSession)
    ensures j > 3 ==> !Objects(cfg, s, q, nowMs, MissingChallenge)
    ensures j > 4 ==> !Objects(cfg, s, q, nowMs, MissingRelayUuid)
    ensures j > 5 ==> !Objects(cfg, s, q, nowMs, MissingSig)
    ensures j > 6 ==> !Objects(cfg, s, q, nowMs, MissingTimestamp)
    ensures j > 7 ==> !Objects(cfg, s, q, nowMs, InvalidRelayUuid)
    ensures j > 8 ==> !Objects(cfg, s, q, nowMs, InvalidTimestamp)
    ensures j > 9 ==> !Objects(cfg, s, q, nowMs, TimestampOutOfRange)
    ensures j > 10 ==> !Objects(cfg, s, q, nowMs, DaemonNotConnected)
    ensures j > 11 ==> !Objects(cfg, s, q, nowMs, UnsignableFields)
    ensures j > 12 ==> !Objects(cfg, s, q, nowMs, InvalidSignature)
  {
    hide Objects;
    assert CHECKS[0] == MissingProvider && CHECKS[1] == UnknownProvider && CHECKS[2] == MissingSession;
    assert CHECKS[3] == MissingChallenge && CHECKS[4] == MissingRelayUuid && CHECKS[5] == MissingSig;
    assert CHECKS[6] == MissingTimestamp && CHECKS[7] == InvalidRelayUuid && CHECKS[8] == InvalidTimestamp;
    assert CHECKS[9] == TimestampOutOfRange && CHECKS[10] == DaemonNotConnected && CHECKS[11] == UnsignableFields;
    assert CHECKS[12] == InvalidSignature;
  }

  /** The reply when one of the first nine checks is the first that objects. */
  lemma EarlyReply(cfg: Config, s: R.Server, q: AuthQuery, nowMs: nat, j: nat)
    requires j < 9 && NoneObjects(cfg, s, q, nowMs, j) && Objects(cfg, s, q, nowMs, CHECKS[j])
    ensures OnAuth(cfg, s, q, nowMs) == Refused(STATUSES[j], CHECKS[j])
  {
    EachPasses(cfg, s, q, nowMs, j);
    hide NoneObjects, Preimage, Stamped;
  }

  /** What is left of the handler once the first nine checks have passed. */
  lemma LastChecks(cfg: Config, s: R.Server, q: AuthQuery, nowMs: nat, ts: int)
    requires Complete(q) && q.provider.value in cfg.providers && IsUuid(First(q.relayUuid).value) && Stamped(cfg, q, ts)
    ensures
      var reply, u := OnAuth(cfg, s, q, nowMs), First(q.relayUuid).value;
      if Abs(nowMs / 1000 - ts) > cfg.toleranceS then reply == Refused(403, TimestampOutOfRange)
      else if u !in s.clients then reply == Refused(403, DaemonNotConnected)
      else if Built(cfg, q, ts) == None then reply == Refused(500, UnsignableFields)
      else if !cfg.verify(s.clients[u].pubkey, Built(cfg, q, ts).value, First(q.sig).value)
      then reply == Refused(403, InvalidSignature)
      else reply.Redirect?
  {
    hide Preimage, IsUuid;
  }

  lemma NinePass(cfg: Config, s: R.Server, q: AuthQuery, nowMs: nat, j: nat)
    requires 9 <= j <= 13 && NoneObjects(cfg, s, q, nowMs, j)
    ensures Complete(q) && q.provider.value in cfg.providers && IsUuid(First(q.relayUuid).value)
    ensures cfg.parseInt(First(q.timestamp).value).Some?
  {
    EachPasses(cfg, s, q, nowMs, j);
    hide NoneObjects, SignedUnder, Signable, Stamped, IsUuid;
  }

  /** The reply when none of them does. */
  lemma LateReply(cfg: Config, s: R.Server, q: AuthQuery, nowMs: nat, j: nat)
    requires 9 <= j <= 13 && NoneObjects(cfg, s, q, nowMs, j) && (j < 13 ==> Objects(cfg, s, q, nowMs, CHECKS[j]))
    ensures j < 13 ==> OnAuth(cfg, s, q, nowMs) == Refused(STATUSES[j], CHECKS[j])
    ensures j == 13 ==> OnAuth(cfg, s, q, nowMs).Redirect?
  {
    hide NoneObjects, Objects, Built, IsUuid, OnAuth;
    EachPasses(cfg, s, q, nowMs, j);
    NinePass(cfg, s, q, nowMs, j);
    LateObjections(cfg, s, q, nowMs, cfg.parseInt(First(q.timestamp).value).value);
    LastChecks(cfg, s, q, nowMs, cfg.parseInt(First(q.timestamp).value).value);
  }

  /** An `/auth` is refused by the first check that objects, with that check's status, and accepted if none does. */
  lemma AuthRefusedExactly(cfg: Config, s: R.Server, q: AuthQuery, nowMs: nat, k: nat)
    requires k < 13
    ensures OnAuth(cfg, s, q, nowMs) == Refused(STATUSES[k], CHECKS[k]) <==>
              Objects(cfg, s, q, nowMs, CHECKS[k]) && NoneObjects(cfg, s, q, nowMs, k)
    ensures OnAuth(cfg, s, q, nowMs).Redirect? <==> NoneObjects(cfg, s, q, nowMs, 13)
  {
    hide Objects, OnAuth;
    var j := 0;
    while j < 13 && !Objects(cfg, s, q, nowMs, CHECKS[j])
      invariant j <= 13 && NoneObjects(cfg, s, q, nowMs, j)
    {
      j := j + 1;
    }
    if j < 9 { EarlyReply(cfg, s, q, nowMs, j); } else { LateReply(cfg, s, q, nowMs, j); }
    assert j < 13 && j != k ==> CHECKS[j] != CHECKS[k];
  }

  // -- where deliveries go ---------------------------------------------------

  /** `a` authorised `f`: admissible, naming the flow's daemon and session, and the flow keeps the announced key. */
  ghost predicate Authorised(cfg: Config, a: Auth, f: Flow) {
    && First(a.q.relayUuid) == Some(f.relayUuid) && First(a.q.session) == Some(f.sessionId)
    && f.expiresAt == a.nowMs + 300000
    && exists ts, k, c :: Admissible(cfg, a.history, a.q, a.nowMs, ts, k, c) && c.decryptPubkey == f.pubkey
  }

  lemma AcceptedAuthAuthorises(cfg: Config, a: Auth)
    requires GoodAuth(cfg, a)
    ensures Authorised(cfg, a, FlowOf(cfg, a)) && FlowOf(cfg, a).scope != Some("")
  {
    AuthAcceptedExactly(cfg, a.history, a.q, a.nowMs);
    var ts, k, c :| Admissible(cfg, a.history, a.q, a.nowMs, ts, k, c);
    AdmissibleIsAccepted(cfg, a.history, a.q, a.nowMs, ts, k, c);
    assert Admissible(cfg, a.history, a.q, a.nowMs, ts, k, c) && c.decryptPubkey == FlowOf(cfg, a).pubkey;
  }

  /** The forward of `d` writes to a socket whose certificate is the daemon's own, and to no other. */
  ghost predicate LeavesForItsDaemon(cfg: Config, d: Delivery) {
    && R.Runs(cfg.relay, d.history) && d.job.flow.relayUuid in R.After(cfg.relay, d.history).clients
    && var u, s := d.job.flow.relayUuid, R.After(cfg.relay, d.history);
       var w, s' := s.clients[u].sock, R.Forward(cfg.relay, s, u, d.req, d.buffered);
       && w in s.conns && s.conns[w].cert.P256? && cfg.relay.uuidOf(s.conns[w].cert.point) == u
       && d.req.id !in s.admitted && s'.admitted == s.admitted[d.req.id := R.Admission(u, w, d.req)]
       && s'.conns == s.conns[w := R.Send(s.conns[w], R.RequestFrame(d.req))]
  }

  lemma ForwardedLeaves(cfg: Config, y: System, d: Delivery)
    requires Forwarded(cfg, y, d)
    ensures LeavesForItsDaemon(cfg, d)
  {
    RT.RegistrationsAreSound(cfg.relay, d.history, d.job.flow.relayUuid);
  }

  /** The `/auth` behind an opened token opens to its own flow. */
  lemma SealedOpens(cfg: Config, minted: map<Token, Payload>, a: Auth)
    requires Inverse(cfg.base64) && GoodAuth(cfg, a)
    requires a.token in minted && minted[a.token] == Serialize(cfg.base64, FlowOf(cfg, a))
    ensures Open(cfg, minted, Some(a.token)) == Some(FlowOf(cfg, a)) && Authorised(cfg, a, FlowOf(cfg, a))
  {
    AcceptedAuthAuthorises(cfg, a);
    SurvivesExactly(cfg.base64, FlowOf(cfg, a));
  }

  lemma SealerOf(cfg: Config, auths: seq<Auth>, known: nat, token: Token, payload: Payload) returns (k: nat)
    requires known <= |auths| && SealedBy(cfg, auths[..known], token, payload)
    ensures k < known && auths[k].token == token && GoodAuth(cfg, auths[k])
    ensures payload == Serialize(cfg.base64, FlowOf(cfg, auths[k]))
  {
    var a :| a in auths[..known] && a.token == token && GoodAuth(cfg, a)
             && payload == Serialize(cfg.base64, FlowOf(cfg, a));
    k :| 0 <= k < known && auths[k] == a;
  }

  /** The accepted `/auth` that a job goes back to. */
  lemma JobAuthorised(cfg: Config, y: System, j: Job) returns (k: nat)
    requires Inverse(cfg.base64) && Sourced(cfg, y) && GoodJob(cfg, y, j)
    ensures k < j.known <= |y.auths| && y.auths[k].token == j.token
    ensures AuthHappened(cfg, y, y.auths[k]) && Authorised(cfg, y.auths[k], j.flow)
  {
    k := SealerOf(cfg, y.auths, j.known, j.token, y.minted[j.token]);
    SealedOpens(cfg, y.minted, y.auths[k]);
  }

  /**
   * Every delivery's request carries an envelope encrypted to the key its daemon had
   * announced, in a hello under its own certificate, on the instance that before this
   * callback accepted an `/auth` for daemon and session signed by that certificate's
   * key. The request was forwarded by the relay of the callback's instance to a socket
   * of that same daemon, with exactly the allow-listed fields of the callback.
   */
  lemma DeliveryDestination(cfg: Config, n: nat, steps: seq<Step>, k: nat)
    requires Inverse(cfg.base64) && Runs(cfg, n, steps) && k < |After(cfg, n, steps).deliveries|
    ensures
      var y := After(cfg, n, steps);
      var d := y.deliveries[k];
      && (exists i :: 0 <= i < d.job.known <= |y.auths| && y.auths[i].token == d.job.token
                      && AuthHappened(cfg, y, y.auths[i]) && Authorised(cfg, y.auths[i], d.job.flow))
      && Carries(cfg, d.req, d.envelope)
      && d.envelope.recipient == d.job.flow.pubkey && d.envelope.sessionId == d.job.flow.sessionId
      && AllowListed(d.envelope.tokens, d.job.query) && AccessToken in d.envelope.tokens
      && Get(d.job.query, State) == Some(d.envelope.sessionId)
      && Forwarded(cfg, y, d) && LeavesForItsDaemon(cfg, d)
  {
    var y := After(cfg, n, steps);
    RunSourced(cfg, n, steps);
    assert GoodDelivery(cfg, y, y.deliveries[k]);
    var i := JobAuthorised(cfg, y, y.deliveries[k].job);
    ForwardedLeaves(cfg, y, y.deliveries[k]);
  }

  // -- what becomes of a callback -----------------------------------------------

  /** `step` is an `/auth` that is accepted. */
  ghost predicate AcceptsAuth(cfg: Config, y: System, step: Step)
    requires RelaysRun(cfg, y) && Enabled(cfg, y, step)
  {
    step.AuthStep? && OnAuth(cfg, RelayOf(cfg, y.instances[step.at]), step.q, step.nowMs).Redirect?
  }

  ghost predicate AcceptsCallback(cfg: Config, y: System, step: Step)
    requires RelaysRun(cfg, y) && Enabled(cfg, y, step)
  {
    step.CallbackStep? &&
    OnCallback(cfg, y.minted, SeenOf(cfg, y.instances[step.at]).q, step.cookie, step.query, step.nowMs).Accepted?
  }

  /** A job ends without a delivery: its encryption fails, or its daemon is gone, congested or at its cap. */
  ghost predicate LosesJob(cfg: Config, y: System, step: Step)
    requires RelaysRun(cfg, y) && Enabled(cfg, y, step)
  {
    || step.EncryptionFailsStep?
    || (step.DeliverStep?
        && var j := y.jobs[step.job];
           var s := RelayOf(cfg, y.instances[j.at]);
           || j.flow.relayUuid !in s.clients || step.buffered > cfg.relay.maxBufferedBytes
           || R.CountOf(s.pendingByClient, j.flow.relayUuid) >= cfg.relay.maxPendingPerClient)
  }

  /** How many accepted `/auth`s, accepted callbacks and lost jobs there have been. */
  datatype Counts = Counts(auths: nat, callbacks: nat, lost: nat)

  ghost function CountsOf(cfg: Config, n: nat, steps: seq<Step>): Counts
    requires Runs(cfg, n, steps)
  {
    if steps == [] then Counts(0, 0, 0)
    else
      var before, step := steps[..|steps| - 1], steps[|steps| - 1];
      var c, y := CountsOf(cfg, n, before), After(cfg, n, before);
      Counts(c.auths + (if AcceptsAuth(cfg, y, step) then 1 else 0),
             c.callbacks + (if AcceptsCallback(cfg, y, step) then 1 else 0),
             c.lost + (if LosesJob(cfg, y, step) then 1 else 0))
  }

  ghost predicate Conserved(y: System, c: Counts) {
    |y.auths| == c.auths && c.callbacks == |y.jobs| + |y.deliveries| + c.lost
  }

  lemma StepConserves(cfg: Config, y: System, step: Step, c: Counts)
    requires RelaysRun(cfg, y) && Enabled(cfg, y, step) && Conserved(y, c)
    ensures
      Conserved(Next(cfg, y, step),
                Counts(c.auths + (if AcceptsAuth(cfg, y, step) then 1 else 0),
                       c.callbacks + (if AcceptsCallback(cfg, y, step) then 1 else 0),
                       c.lost + (if LosesJob(cfg, y, step) then 1 else 0)))
  {
    hide OnAuth, OnCallback, R.After;
  }

  /**
   * In every run each accepted `/auth` is sealed once, and each accepted callback is
   * exactly one of a job that waits, a delivery, and a loss.
   */
  lemma {:induction false} CallbacksConserved(cfg: Config, n: nat, steps: seq<Step>)
    requires Runs(cfg, n, steps)
    ensures Conserved(After(cfg, n, steps), CountsOf(cfg, n, steps))
  {
    if steps != [] {
      hide Next, AcceptsAuth, AcceptsCallback, LosesJob;
      var before := steps[..|steps| - 1];
      CallbacksConserved(cfg, n, before);
      StepConserves(cfg, After(cfg, n, before), steps[|steps| - 1], CountsOf(cfg, n, before));
    }
  }

  // -- how often a token delivers --------------------------------------------

  /** Job or delivery, each stands for one place in its instance's list of passes. */
  ghost predicate Placed(instances: seq<Instance>, j: Job) {
    j.at < |instances| && j.pass < |instances[j.at].passes| && instances[j.at].passes[j.pass] == j.token
  }

  ghost predicate AllPlaced(instances: seq<Instance>, jobs: seq<Job>, ds: seq<Delivery>) {
    && (forall k :: 0 <= k < |jobs| ==> Placed(instances, jobs[k]))
    && (forall k :: 0 <= k < |ds| ==> Placed(instances, ds[k].job))
  }

  predicate SamePass(j: Job, k: Job) {
    j.at == k.at && j.pass == k.pass
  }

  ghost predicate Unique(jobs: seq<Job>, ds: seq<Delivery>) {
    && (forall a, b :: 0 <= a < b < |jobs| ==> !SamePass(jobs[a], jobs[b]))
    && (forall a, b :: 0 <= a < b < |ds| ==> !SamePass(ds[a].job, ds[b].job))
    && (forall a, b :: 0 <= a < |jobs| && 0 <= b < |ds| ==> !SamePass(jobs[a], ds[b].job))
  }

  /** A pass was made by an opened token, for its session, within its lifetime. */
  ghost predicate GoodPass(cfg: Config, minted: map<Token, Payload>, token: Token, use: S.Use) {
    && Open(cfg, minted, Some(token)).Some?
    && var f := Open(cfg, minted, Some(token)).value;
       f.sessionId == use.id && f.expiresAt - 300000 <= use.at < f.expiresAt
  }

  ghost predicate GoodInstance(cfg: Config, minted: map<Token, Payload>, i: Instance, clock: nat) {
    && |i.passes| == |SeenOf(cfg, i).uses|
    && (forall k :: 0 <= k < |i.passes| ==> GoodPass(cfg, minted, i.passes[k], SeenOf(cfg, i).uses[k]))
    && S.Monotone(i.ops) && (forall k :: 0 <= k < |i.ops| ==> i.ops[k].now <= clock)
  }

  ghost predicate MintedBy(cfg: Config, minted: map<Token, Payload>, clock: nat) {
    forall t :: t in minted ==>
      Open(cfg, minted, Some(t)).Some? && Open(cfg, minted, Some(t)).value.expiresAt <= clock + 300000
  }

  ghost predicate GoodInstances(cfg: Config, minted: map<Token, Payload>, instances: seq<Instance>, clock: nat) {
    forall i :: 0 <= i < |instances| ==> GoodInstance(cfg, minted, instances[i], clock)
  }

  ghost predicate Timely(cfg: Config, y: System, clock: nat) {
    && MintedBy(cfg, y.minted, clock) && GoodInstances(cfg, y.minted, y.instances, clock)
    && AllPlaced(y.instances, y.jobs, y.deliveries) && Unique(y.jobs, y.deliveries)
  }

  lemma LaterIsTimely(cfg: Config, y: System, clock: nat, now: nat)
    requires Timely(cfg, y, clock) && clock <= now
    ensures Timely(cfg, y, now)
  {
    forall i | 0 <= i < |y.instances| ensures GoodInstance(cfg, y.minted, y.instances[i], now) {
      assert GoodInstance(cfg, y.minted, y.instances[i], clock);
    }
  }

  lemma HistoryDoesNotMatter(cfg: Config, y: System, at: nat, history: seq<R.Step>, clock: nat)
    requires Timely(cfg, y, clock) && at < |y.instances|
    ensures Timely(cfg, SetInstance(y, at, y.instances[at].(history := history)), clock)
  {
    var y' := SetInstance(y, at, y.instances[at].(history := history));
    forall i | 0 <= i < |y.instances| ensures GoodInstance(cfg, y.minted, y'.instances[i], clock) {
      assert GoodInstance(cfg, y.minted, y.instances[i], clock);
    }
  }

  lemma MintingKeepsPasses(cfg: Config, minted: map<Token, Payload>, minted': map<Token, Payload>,
                           instances: seq<Instance>, clock: nat)
    requires GoodInstances(cfg, minted, instances, clock)
    requires forall t :: t in minted ==> t in minted' && minted'[t] == minted[t]
    ensures GoodInstances(cfg, minted', instances, clock)
  {
    forall i | 0 <= i < |instances| ensures GoodInstance(cfg, minted', instances[i], clock) {
      assert GoodInstance(cfg, minted, instances[i], clock);
      var uses := SeenOf(cfg, instances[i]).uses;
      forall k | 0 <= k < |instances[i].passes| ensures GoodPass(cfg, minted', instances[i].passes[k], uses[k]) {
        assert GoodPass(cfg, minted, instances[i].passes[k], uses[k]);
      }
    }
  }

  lemma MintedMore(cfg: Config, minted: map<Token, Payload>, token: Token, f: Flow, now: nat)
    requires Inverse(cfg.base64) && MintedBy(cfg, minted, now)
    requires f.scope != Some("") && f.expiresAt <= now + 300000
    ensures MintedBy(cfg, minted[token := Serialize(cfg.base64, f)], now)
  {
    SurvivesExactly(cfg.base64, f);
  }

  lemma SealedTimely(cfg: Config, y: System, token: Token, f: Flow, auths: seq<Auth>, now: nat)
    requires Inverse(cfg.base64) && Timely(cfg, y, now) && f.scope != Some("") && f.expiresAt <= now + 300000
    requires token in y.minted ==> y.minted[token] == Serialize(cfg.base64, f)
    ensures Timely(cfg, y.(minted := y.minted[token := Serialize(cfg.base64, f)], auths := auths), now)
  {
    MintedMore(cfg, y.minted, token, f, now);
    MintingKeepsPasses(cfg, y.minted, y.minted[token := Serialize(cfg.base64, f)], y.instances, now);
  }

  lemma FlowsFitTheirTtl(cfg: Config, s: R.Server, q: AuthQuery, now: nat)
    ensures
      var reply := OnAuth(cfg, s, q, now);
      reply.Redirect? ==> reply.flow.scope != Some("") && reply.flow.expiresAt == now + 300000
  {
  }

  lemma AuthTimely(cfg: Config, y: System, at: nat, q: AuthQuery, token: Token, now: nat)
    requires Inverse(cfg.base64) && RelaysRun(cfg, y)
    requires Timely(cfg, y, now) && Enabled(cfg, y, AuthStep(at, q, token, now))
    ensures Timely(cfg, DoAuth(cfg, y, at, q, token, now), now)
  {
    hide OnAuth, RelayOf;
    FlowsFitTheirTtl(cfg, RelayOf(cfg, y.instances[at]), q, now);
    var y', reply := DoAuth(cfg, y, at, q, token, now), OnAuth(cfg, RelayOf(cfg, y.instances[at]), q, now);
    if reply.Redirect? {
      SealedTimely(cfg, y, token, reply.flow, y'.auths, now);
    }
  }

  /** One more operation of the guard. */
  lemma OpAppended(ttl: nat, ops: seq<S.Op>, op: S.Op)
    requires S.Monotone(ops) && (forall k :: 0 <= k < |ops| ==> ops[k].now <= op.now)
    ensures S.Monotone(ops + [op]) && S.After(ttl, ops + [op]) == S.Apply(ttl, S.After(ttl, ops), op)
  {
    assert (ops + [op])[..|ops|] == ops;
  }

  lemma PurgeKeepsInstance(cfg: Config, minted: map<Token, Payload>, i: Instance, id: string, now: nat)
    requires GoodInstance(cfg, minted, i, now)
    ensures GoodInstance(cfg, minted, i.(ops := i.ops + [S.PurgeOp(id, now)]), now)
  {
    OpAppended(cfg.sessionTtlMs, i.ops, S.PurgeOp(id, now));
  }

  lemma InstanceReplaced(
    cfg: Config, minted: map<Token, Payload>, instances: seq<Instance>, at: nat, i': Instance, clock: nat)
    requires GoodInstances(cfg, minted, instances, clock) && at < |instances| && GoodInstance(cfg, minted, i', clock)
    ensures GoodInstances(cfg, minted, instances[at := i'], clock)
  {
  }

  lemma PurgeTimely(cfg: Config, y: System, at: nat, id: string, now: nat)
    requires Timely(cfg, y, now) && at < |y.instances|
    ensures Timely(cfg, SetInstance(y, at, y.instances[at].(ops := y.instances[at].ops + [S.PurgeOp(id, now)])), now)
  {
    hide GoodInstance;
    var i := y.instances[at];
    assert GoodInstance(cfg, y.minted, i, now);
    PurgeKeepsInstance(cfg, y.minted, i, id, now);
    InstanceReplaced(cfg, y.minted, y.instances, at, i.(ops := i.ops + [S.PurgeOp(id, now)]), now);
  }

  lemma PassRecorded(cfg: Config, minted: map<Token, Payload>, i: Instance, token: Token, q: Query, now: nat)
    requires MintedBy(cfg, minted, now) && GoodInstance(cfg, minted, i, now)
    requires OnCallback(cfg, minted, SeenOf(cfg, i).q, Some(token), q, now).Accepted?
    ensures
      var flow := OnCallback(cfg, minted, SeenOf(cfg, i).q, Some(token), q, now).flow;
      GoodInstance(cfg, minted, i.(ops := i.ops + [S.AddOp(flow.sessionId, now)], passes := i.passes + [token]), now)
  {
    var flow := OnCallback(cfg, minted, SeenOf(cfg, i).q, Some(token), q, now).flow;
    OpAppended(cfg.sessionTtlMs, i.ops, S.AddOp(flow.sessionId, now));
    assert GoodPass(cfg, minted, token, S.Use(flow.sessionId, now));
  }

  /** A pass added at the end moves no other pass, and its place is nobody's yet. */
  lemma PassAdded(instances: seq<Instance>, at: nat, i': Instance, j: Job, jobs: seq<Job>, ds: seq<Delivery>)
    requires at < |instances| && AllPlaced(instances, jobs, ds) && Unique(jobs, ds)
    requires i'.passes == instances[at].passes + [j.token] && j.at == at && j.pass == |instances[at].passes|
    ensures AllPlaced(instances[at := i'], jobs + [j], ds) && Unique(jobs + [j], ds)
  {
    forall k | 0 <= k < |jobs| ensures Placed(instances[at := i'], jobs[k]) && !SamePass(jobs[k], j) {
      assert Placed(instances, jobs[k]);
    }
    forall k | 0 <= k < |ds| ensures Placed(instances[at := i'], ds[k].job) && !SamePass(ds[k].job, j) {
      assert Placed(instances, ds[k].job);
    }
  }

  lemma CallbackTimely(cfg: Config, y: System, at: nat, cookie: Option<Token>, q: Query, now: nat)
    requires Timely(cfg, y, now) && at < |y.instances|
    ensures Timely(cfg, DoCallback(cfg, y, at, cookie, q, now), now)
  {
    var i, y' := y.instances[at], DoCallback(cfg, y, at, cookie, q, now);
    var reply := OnCallback(cfg, y.minted, SeenOf(cfg, i).q, cookie, q, now);
    if reply.Accepted? {
      assert GoodInstance(cfg, y.minted, i, now);
      PassRecorded(cfg, y.minted, i, cookie.value, q, now);
      var i' := i.(ops := i.ops + [S.AddOp(reply.flow.sessionId, now)], passes := i.passes + [cookie.value]);
      var j := Job(at, |i.passes|, |y.auths|, cookie.value, reply.flow, q, reply.tokens);
      InstanceReplaced(cfg, y.minted, y.instances, at, i', now);
      PassAdded(y.instances, at, i', j, y.jobs, y.deliveries);
    }
  }

  lemma JobDropped(instances: seq<Instance>, jobs: seq<Job>, ds: seq<Delivery>, k: nat)
    requires k < |jobs| && AllPlaced(instances, jobs, ds) && Unique(jobs, ds)
    ensures
      var v := S.Vacate(jobs, Some(k));
      && AllPlaced(instances, v, ds) && Unique(v, ds)
      && forall a :: 0 <= a < |v| ==> !SamePass(v[a], jobs[k])
  {
    var v := S.Vacate(jobs, Some(k));
    assert forall a :: 0 <= a < |v| ==> v[a] == jobs[if a < k then a else a + 1];
  }

  lemma DropTimely(cfg: Config, y: System, job: nat, clock: nat)
    requires Timely(cfg, y, clock) && job < |y.jobs|
    ensures Timely(cfg, y.(jobs := S.Vacate(y.jobs, Some(job))), clock)
  {
    JobDropped(y.instances, y.jobs, y.deliveries, job);
  }

  lemma JobDelivered(instances: seq<Instance>, jobs: seq<Job>, ds: seq<Delivery>, d: Delivery)
    requires AllPlaced(instances, jobs, ds) && Unique(jobs, ds) && Placed(instances, d.job)
    requires forall a :: 0 <= a < |jobs| ==> !SamePass(jobs[a], d.job)
    requires forall a :: 0 <= a < |ds| ==> !SamePass(d.job, ds[a].job)
    ensures AllPlaced(instances, jobs, ds + [d]) && Unique(jobs, ds + [d])
  {
  }

  lemma DeliverTimely(cfg: Config, y: System, job: nat, req: R.Request, buffered: nat, clock: nat)
    requires RelaysRun(cfg, y) && Timely(cfg, y, clock) && job < |y.jobs| && y.jobs[job].at < |y.instances|
    ensures Timely(cfg, DoDeliver(cfg, y, job, req, buffered), clock)
  {
    var j, i := y.jobs[job], y.instances[y.jobs[job].at];
    var history := i.history + [R.ForwardStep(j.flow.relayUuid, req, buffered)];
    var dropped := y.(jobs := S.Vacate(y.jobs, Some(job)));
    JobDropped(y.instances, y.jobs, y.deliveries, job);
    HistoryDoesNotMatter(cfg, dropped, j.at, history, clock);
    assert Placed(y.instances, j);
    var moved := SetInstance(dropped, j.at, i.(history := history));
    assert Placed(moved.instances, j);
    JobDelivered(moved.instances, moved.jobs, y.deliveries, Delivery(j, EnvelopeOf(j), i.history, req, buffered));
  }

  lemma StepTimely(cfg: Config, y: System, step: Step, clock: nat)
    requires Inverse(cfg.base64) && RelaysRun(cfg, y) && Timely(cfg, y, clock) && Enabled(cfg, y, step)
    requires (step.AuthStep? || step.CallbackStep? || step.PurgeStep?) ==> step.nowMs == clock
    ensures Timely(cfg, Next(cfg, y, step), clock)
  {
    hide Timely;
    match step
    case RelayStep(at, s) => HistoryDoesNotMatter(cfg, y, at, y.instances[at].history + [s], clock);
    case AuthStep(at, q, token, now) => AuthTimely(cfg, y, at, q, token, now);
    case CallbackStep(at, cookie, q, now) => CallbackTimely(cfg, y, at, cookie, q, now);
    case PurgeStep(at, id, now) => PurgeTimely(cfg, y, at, id, now);
    case EncryptionFailsStep(job) => DropTimely(cfg, y, job, clock);
    case DeliverStep(job, id, requestId, salt, b) =>
      DeliverTimely(cfg, y, job, DeliveryRequest(cfg, EnvelopeOf(y.jobs[job]), id, requestId, salt), b, clock);
  }

  lemma {:induction false} RunTimely(cfg: Config, n: nat, steps: seq<Step>)
    requires Inverse(cfg.base64) && Runs(cfg, n, steps) && Monotone(steps)
    ensures Timely(cfg, After(cfg, n, steps), Clock(steps))
  {
    hide Next;
    if steps != [] {
      var before, step := steps[..|steps| - 1], steps[|steps| - 1];
      assert forall i :: 0 <= i <= |before| ==> before[..i] == steps[..i];
      assert steps[..|steps|] == steps;
      assert Clock(steps[..|before|]) <= Clock(steps[..|before| + 1]);
      RunTimely(cfg, n, before);
      LaterIsTimely(cfg, After(cfg, n, before), Clock(before), Clock(steps));
      StepTimely(cfg, After(cfg, n, before), step, Clock(steps));
    }
  }

  /** Passes `p` and `q` of one token: one flow lifetime apart at most, and yet the guard had forgotten the first. */
  ghost predicate PassedTwice(cfg: Config, i: Instance, p: nat, q: nat) {
    var uses := SeenOf(cfg, i).uses;
    && p < q < |uses| && uses[p].id == uses[q].id
    && 0 <= uses[q].at - uses[p].at < 300000
    && S.Forgotten(cfg.sessionTtlMs, uses, p, q, uses[q].at)
  }

  lemma PassesApart(cfg: Config, minted: map<Token, Payload>, i: Instance, clock: nat, p: nat, q: nat)
    requires GoodInstance(cfg, minted, i, clock) && p < q < |i.passes| && i.passes[p] == i.passes[q]
    ensures PassedTwice(cfg, i, p, q)
  {
    var uses := SeenOf(cfg, i).uses;
    assert GoodPass(cfg, minted, i.passes[p], uses[p]) && GoodPass(cfg, minted, i.passes[q], uses[q]);
    S.RunTraces(cfg.sessionTtlMs, i.ops, clock);
    S.UsesInOrder(cfg.sessionTtlMs, i.ops, p, q);
  }

  /**
   * With a clock that does not run backwards, two deliveries of one token on one instance
   * are less than a flow lifetime apart, and in between either the guard's TTL ran out or
   * 10,000 other sessions were consumed on that instance. A TTL of 299,999 ms, or none,
   * leaves only the latter.
   */
  lemma OneDeliveryPerToken(cfg: Config, n: nat, steps: seq<Step>, a: nat, b: nat)
    requires Inverse(cfg.base64) && Runs(cfg, n, steps) && Monotone(steps)
    requires a < b < |After(cfg, n, steps).deliveries|
    ensures
      var y := After(cfg, n, steps);
      var j, k := y.deliveries[a].job, y.deliveries[b].job;
      var p, q := Min(j.pass, k.pass), Max(j.pass, k.pass);
      j.at == k.at && j.token == k.token ==>
        && j.at < |y.instances| && 0 <= p && 0 <= q && PassedTwice(cfg, y.instances[j.at], p, q)
        && (cfg.sessionTtlMs == 0 || cfg.sessionTtlMs >= 299999 ==>
              |S.Others(SeenOf(cfg, y.instances[j.at]).uses, p, q)| >= 10000)
  {
    hide Next, SeenOf, GoodInstance;
    var y := After(cfg, n, steps);
    RunTimely(cfg, n, steps);
    var j, k := y.deliveries[a].job, y.deliveries[b].job;
    assert Placed(y.instances, j) && Placed(y.instances, k) && !SamePass(j, k);
    if j.at == k.at && j.token == k.token {
      assert GoodInstance(cfg, y.minted, y.instances[j.at], Clock(steps));
      PassesApart(cfg, y.minted, y.instances[j.at], Clock(steps), Min(j.pass, k.pass), Max(j.pass, k.pass));
    }
  }

  // -- when a callback passes ------------------------------------------------

  /** The cookie was sealed by the accepted `/auth` `a`, not five minutes ago, for the session that `q` names. */
  ghost predicate Fits(cfg: Config, a: Auth, cookie: Option<Token>, q: Query, now: nat) {
    && GoodAuth(cfg, a) && cookie == Some(a.token)
    && Get(q, State) == First(a.q.session) && now < a.nowMs + 300000
  }

  /** Every use of `id` on the instance is more than the guard's TTL ago, or 10,000 other ids were consumed since. */
  ghost predicate AllForgotten(cfg: Config, i: Instance, id: string, now: nat) {
    var uses := SeenOf(cfg, i).uses;
    forall k :: 0 <= k < |uses| && uses[k].id == id ==> S.Forgotten(cfg.sessionTtlMs, uses, k, |uses|, now)
  }

  /** What each check of a callback objects to, whatever the checks before it say. */
  ghost predicate Blocks(cfg: Config, minted: map<Token, Payload>, seen: seq<S.Item>, cookie: Option<Token>, q: Query,
                         nowMs: nat, e: CallbackError) {
    var flow := Open(cfg, minted, cookie);
    match e
    case ProviderError => Get(q, ErrorParam).Some?
    case MissingStateOrToken => Get(q, State) == None || Get(q, AccessToken) == None
    case NotFound => flow == None
    case SessionMismatch => flow.Some? && Get(q, State) != Some(flow.value.sessionId)
    case SessionExpired => flow.Some? && flow.value.expiresAt <= nowMs
    case AlreadyUsed =>
      flow.Some? && exists it :: it in seen && it.id == flow.value.sessionId && !S.Stale(cfg.sessionTtlMs, it, nowMs)
  }

  const CALLBACK_CHECKS := [ProviderError, MissingStateOrToken, NotFound, SessionMismatch, SessionExpired, AlreadyUsed]

  ghost predicate NoneBlocks(cfg: Config, minted: map<Token, Payload>, seen: seq<S.Item>, cookie: Option<Token>,
                             q: Query, nowMs: nat, n: nat)
    requires n <= 6
  {
    forall i :: 0 <= i < n ==> !Blocks(cfg, minted, seen, cookie, q, nowMs, CALLBACK_CHECKS[i])
  }

  lemma EachLetsPass(cfg: Config, minted: map<Token, Payload>, seen: seq<S.Item>, cookie: Option<Token>, q: Query,
                     nowMs: nat, n: nat)
    requires n <= 6 && NoneBlocks(cfg, minted, seen, cookie, q, nowMs, n)
    ensures n > 0 ==> !Blocks(cfg, minted, seen, cookie, q, nowMs, ProviderError)
    ensures n > 1 ==> !Blocks(cfg, minted, seen, cookie, q, nowMs, MissingStateOrToken)
    ensures n > 2 ==> !Blocks(cfg, minted, seen, cookie, q, nowMs, NotFound)
    ensures n > 3 ==> !Blocks(cfg, minted, seen, cookie, q, nowMs, SessionMismatch)
    ensures n > 4 ==> !Blocks(cfg, minted, seen, cookie, q, nowMs, SessionExpired)
    ensures n > 5 ==> !Blocks(cfg, minted, seen, cookie, q, nowMs, AlreadyUsed)
  {
    hide Blocks;
    assert CALLBACK_CHECKS[0] == ProviderError && CALLBACK_CHECKS[1] == MissingStateOrToken;
    assert CALLBACK_CHECKS[2] == NotFound && CALLBACK_CHECKS[3] == SessionMismatch;
    assert CALLBACK_CHECKS[4] == SessionExpired && CALLBACK_CHECKS[5] == AlreadyUsed;
  }

  lemma CallbackReplyAt(cfg: Config, minted: map<Token, Payload>, seen: seq<S.Item>, cookie: Option<Token>, q: Query,
                        nowMs: nat, n: nat)
    requires S.Tidy(seen) && n <= 6 && NoneBlocks(cfg, minted, seen, cookie, q, nowMs, n)
    requires n < 6 ==> Blocks(cfg, minted, seen, cookie, q, nowMs, CALLBACK_CHECKS[n])
    ensures n < 6 ==> OnCallback(cfg, minted, seen, cookie, q, nowMs) == Rejected(CALLBACK_CHECKS[n], n >= 3)
    ensures n == 6 ==> OnCallback(cfg, minted, seen, cookie, q, nowMs).Accepted?
  {
    EachLetsPass(cfg, minted, seen, cookie, q, nowMs, n);
    hide NoneBlocks, Open, FilterCallbackTokenFields;
    if Open(cfg, minted, cookie).Some? {
      S.HasExactly(cfg.sessionTtlMs, seen, Open(cfg, minted, cookie).value.sessionId, nowMs);
      hide S.Has, S.Tidy;
    }
  }

  /**
   * A callback is rejected by the first check that objects, and passes if none does. The
   * cookie's flow is dropped exactly from the mismatch check on.
   */
  lemma CallbackRejectedExactly(cfg: Config, minted: map<Token, Payload>, seen: seq<S.Item>, cookie: Option<Token>,
                                q: Query, nowMs: nat, k: nat)
    requires S.Tidy(seen) && k < 6
    ensures OnCallback(cfg, minted, seen, cookie, q, nowMs) == Rejected(CALLBACK_CHECKS[k], k >= 3) <==>
              && Blocks(cfg, minted, seen, cookie, q, nowMs, CALLBACK_CHECKS[k])
              && NoneBlocks(cfg, minted, seen, cookie, q, nowMs, k)
    ensures OnCallback(cfg, minted, seen, cookie, q, nowMs).Accepted? <==>
              NoneBlocks(cfg, minted, seen, cookie, q, nowMs, 6)
  {
    hide Blocks, OnCallback;
    var n := 0;
    while n < 6 && !Blocks(cfg, minted, seen, cookie, q, nowMs, CALLBACK_CHECKS[n])
      invariant n <= 6 && NoneBlocks(cfg, minted, seen, cookie, q, nowMs, n)
    {
      n := n + 1;
    }
    CallbackReplyAt(cfg, minted, seen, cookie, q, nowMs, n);
    assert n < 6 && n != k ==> CALLBACK_CHECKS[n] != CALLBACK_CHECKS[k];
  }

  ghost predicate OpsPositive(instances: seq<Instance>) {
    forall i :: 0 <= i < |instances| ==> forall k :: 0 <= k < |instances[i].ops| ==> instances[i].ops[k].now > 0
  }

  lemma InstancePositive(y: System, at: nat, i': Instance, op: S.Op)
    requires OpsPositive(y.instances) && at < |y.instances| && op.now > 0
    requires i'.ops == y.instances[at].ops || i'.ops == y.instances[at].ops + [op]
    ensures OpsPositive(SetInstance(y, at, i').instances)
  {
  }

  lemma CallbackPositive(cfg: Config, y: System, at: nat, cookie: Option<Token>, q: Query, now: nat)
    requires OpsPositive(y.instances) && at < |y.instances| && now > 0
    ensures OpsPositive(DoCallback(cfg, y, at, cookie, q, now).instances)
  {
    hide OnCallback;
    var i, y' := y.instances[at], DoCallback(cfg, y, at, cookie, q, now);
    var reply := OnCallback(cfg, y.minted, SeenOf(cfg, i).q, cookie, q, now);
    if reply.Accepted? { InstancePositive(y, at, y'.instances[at], S.AddOp(reply.flow.sessionId, now)); }
  }

  lemma StepPositive(cfg: Config, y: System, step: Step)
    requires RelaysRun(cfg, y) && Enabled(cfg, y, step) && OpsPositive(y.instances)
    requires step.CallbackStep? || step.PurgeStep? ==> step.nowMs > 0
    ensures OpsPositive(Next(cfg, y, step).instances)
  {
    hide DoCallback, OnAuth;
    match step
    case CallbackStep(at, cookie, q, now) => CallbackPositive(cfg, y, at, cookie, q, now);
    case PurgeStep(at, id, now) => InstancePositive(y, at, Next(cfg, y, step).instances[at], S.PurgeOp(id, now));
    case RelayStep(_, _) =>
    case AuthStep(_, _, _, _) =>
    case EncryptionFailsStep(_) =>
    case DeliverStep(_, _, _, _, _) =>
  }

  lemma {:induction false} RunPositive(cfg: Config, n: nat, steps: seq<Step>)
    requires Runs(cfg, n, steps) && Dated(steps)
    ensures OpsPositive(After(cfg, n, steps).instances)
  {
    if steps != [] {
      var before := steps[..|steps| - 1];
      assert forall i :: 0 <= i <= |before| ==> before[..i] == steps[..i];
      RunPositive(cfg, n, before);
      StepPositive(cfg, After(cfg, n, before), steps[|steps| - 1]);
    }
  }

  /** What an accepted `/auth` sealed opens, to its own session and lifetime. */
  lemma AuthOpens(cfg: Config, y: System, a: Auth)
    requires Inverse(cfg.base64) && Sourced(cfg, y) && a in y.auths
    ensures GoodAuth(cfg, a) && Open(cfg, y.minted, Some(a.token)) == Some(FlowOf(cfg, a))
    ensures First(a.q.session) == Some(FlowOf(cfg, a).sessionId) && FlowOf(cfg, a).expiresAt == a.nowMs + 300000
  {
    var k :| 0 <= k < |y.auths| && y.auths[k] == a;
    assert AuthHappened(cfg, y, y.auths[k]);
    SealedOpens(cfg, y.minted, a);
  }

  lemma FitsExactly(cfg: Config, y: System, cookie: Option<Token>, q: Query, now: nat)
    requires Inverse(cfg.base64) && Sourced(cfg, y)
    ensures
      (exists a :: a in y.auths && Fits(cfg, a, cookie, q, now)) <==>
        && Open(cfg, y.minted, cookie).Some?
        && Get(q, State) == Some(Open(cfg, y.minted, cookie).value.sessionId)
        && now < Open(cfg, y.minted, cookie).value.expiresAt
  {
    hide AuthHappened;
    if a :| a in y.auths && Fits(cfg, a, cookie, q, now) {
      AuthOpens(cfg, y, a);
    } else if Open(cfg, y.minted, cookie).Some? {
      assert SealedBy(cfg, y.auths, cookie.value, y.minted[cookie.value]);
      var a :| a in y.auths && a.token == cookie.value;
      AuthOpens(cfg, y, a);
      assert !Fits(cfg, a, cookie, q, now);
    }
  }

  lemma PassesWhenFitting(cfg: Config, y: System, i: Instance, cookie: Option<Token>, q: Query, now: nat)
    requires Inverse(cfg.base64) && Sourced(cfg, y)
    ensures
      OnCallback(cfg, y.minted, SeenOf(cfg, i).q, cookie, q, now).Accepted? <==>
        && Get(q, ErrorParam) == None && Get(q, AccessToken).Some?
        && (exists a :: a in y.auths && Fits(cfg, a, cookie, q, now))
        && Get(q, State).Some? && !S.Has(cfg.sessionTtlMs, SeenOf(cfg, i).q, Get(q, State).value, now)
  {
    hide Fits, Sourced;
    FitsExactly(cfg, y, cookie, q, now);
  }

  /**
   * In every run with a clock that does not run backwards, and on every instance however
   * long it has been up: a callback passes exactly when it reports no error and brings an
   * access token, its cookie was sealed for its session by an `/auth` accepted less than
   * five minutes ago, and every earlier use of the session on this instance has lapsed or
   * has had 10,000 other sessions consumed after it.
   */
  lemma CallbackAcceptedExactly(cfg: Config, n: nat, steps: seq<Step>, at: nat,
                                cookie: Option<Token>, q: Query, now: nat)
    requires Inverse(cfg.base64) && Runs(cfg, n, steps) && Dated(steps) && Clock(steps) <= now
    requires at < |After(cfg, n, steps).instances|
    ensures
      var y := After(cfg, n, steps);
      var i := y.instances[at];
      OnCallback(cfg, y.minted, SeenOf(cfg, i).q, cookie, q, now).Accepted? <==>
        && Get(q, ErrorParam) == None && Get(q, AccessToken).Some?
        && (exists a :: a in y.auths && Fits(cfg, a, cookie, q, now))
        && Get(q, State).Some? && AllForgotten(cfg, i, Get(q, State).value, now)
  {
    var y := After(cfg, n, steps);
    RunSourced(cfg, n, steps);
    RunTimely(cfg, n, steps);
    RunPositive(cfg, n, steps);
    PassesWhenFitting(cfg, y, y.instances[at], cookie, q, now);
    assert GoodInstance(cfg, y.minted, y.instances[at], Clock(steps));
    if Get(q, State).Some? {
      S.AcceptedExactly(cfg.sessionTtlMs, y.instances[at].ops, Get(q, State).value, now);
    }
  }

  /**
   * A callback that passed at `first` and comes back at `again`, whatever the guard did in
   * between, passes again exactly when its flow is not over and every use of its session
   * since has lapsed or has had 10,000 other sessions consumed after it.
   */
  lemma ReplayAcceptedExactly(cfg: Config, minted: map<Token, Payload>, ops: seq<S.Op>, token: Token, q: Query,
                              first: nat, more: seq<S.Op>, again: nat)
    requires OnCallback(cfg, minted, S.After(cfg.sessionTtlMs, ops).q, Some(token), q, first).Accepted?
    requires
      var id := OnCallback(cfg, minted, S.After(cfg.sessionTtlMs, ops).q, Some(token), q, first).flow.sessionId;
      var all := ops + [S.AddOp(id, first)] + more;
      S.Dated(all) && forall i :: 0 <= i < |all| ==> all[i].now <= again
    ensures
      var ttl := cfg.sessionTtlMs;
      var flow := OnCallback(cfg, minted, S.After(ttl, ops).q, Some(token), q, first).flow;
      var p, r := |S.After(ttl, ops).uses|, S.After(ttl, ops + [S.AddOp(flow.sessionId, first)] + more);
      && p < |r.uses| && r.uses[p] == S.Use(flow.sessionId, first)
      && (OnCallback(cfg, minted, r.q, Some(token), q, again).Accepted? <==>
            && again < flow.expiresAt
            && forall i :: p <= i < |r.uses| && r.uses[i].id == flow.sessionId ==>
                 S.Forgotten(ttl, r.uses, i, |r.uses|, again))
  {
    var flow := OnCallback(cfg, minted, S.After(cfg.sessionTtlMs, ops).q, Some(token), q, first).flow;
    S.AcceptedAgainExactly(cfg.sessionTtlMs, ops, flow.sessionId, first, more, again);
  }

  /**
   * A callback that passed at `first`, whatever else the guard remembered by then, passes
   * again later with nothing consumed in between if and only if the guard's TTL runs out
   * before the flow does.
   */
  lemma ReplayPossibleExactly(cfg: Config, minted: map<Token, Payload>, seen: seq<S.Item>, token: Token, q: Query,
                              first: nat)
    requires S.Tidy(seen) && OnCallback(cfg, minted, seen, Some(token), q, first).Accepted?
    ensures
      var flow := OnCallback(cfg, minted, seen, Some(token), q, first).flow;
      var after := S.Put(seen, flow.sessionId, first);
      (exists t: nat :: t >= first && OnCallback(cfg, minted, after, Some(token), q, t).Accepted?) <==>
        cfg.sessionTtlMs != 0 && first != 0 && first + cfg.sessionTtlMs + 1 < flow.expiresAt
  {
    var flow := OnCallback(cfg, minted, seen, Some(token), q, first).flow;
    var after := S.Put(seen, flow.sessionId, first);
    S.PutHolds(seen, flow.sessionId, first);
    var t := first + cfg.sessionTtlMs + 1;
    if cfg.sessionTtlMs != 0 && first != 0 && t < flow.expiresAt {
      assert OnCallback(cfg, minted, after, Some(token), q, t).Accepted?;
    }
  }
}
