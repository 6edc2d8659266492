/** What every step of the relay keeps, and the theorems over whole runs that follow. */
module RelayInvariants {
  import opened Prelude
  import opened Relay
  import K = Keepalive

  // -- the invariant ---------------------------------------------------------

  function PendingOf(pending: map<ReqId, Uuid>, u: Uuid): set<ReqId> {
    set id | id in pending && pending[id] == u
  }

  ghost predicate InStep(pending: map<ReqId, Uuid>, byClient: map<Uuid, nat>, u: Uuid) {
    && (u in byClient <==> PendingOf(pending, u) != {})
    && CountOf(byClient, u) == |PendingOf(pending, u)|
  }

  /** `pendingByClient` counts `pending`, with no entry at zero. */
  ghost predicate Lockstep(pending: map<ReqId, Uuid>, byClient: map<Uuid, nat>) {
    forall u: Uuid :: InStep(pending, byClient, u)
  }

  ghost predicate WithinCap(cfg: Config, byClient: map<Uuid, nat>) {
    forall u: Uuid :: CountOf(byClient, u) <= cfg.maxPendingPerClient
  }

  function SettledIds(log: seq<Settlement>): set<ReqId> {
    set i | 0 <= i < |log| :: log[i].id
  }

  ghost predicate SettledOnce(log: seq<Settlement>) {
    forall i, j :: 0 <= i < j < |log| ==> log[i].id != log[j].id
  }

  ghost predicate Accounted(s: Server) {
    && s.requestTimers == s.pending.Keys
    && s.admitted.Keys == s.pending.Keys + SettledIds(s.settlements)
    && s.pending.Keys !! SettledIds(s.settlements)
    && SettledOnce(s.settlements)
    && (forall id :: id in s.admitted ==> s.admitted[id].req.id == id)
    && (forall id :: id in s.pending ==> s.admitted[id].uuid == s.pending[id])
  }

  ghost predicate GoodClient(cfg: Config, s: Server, u: Uuid)
    requires u in s.clients
  {
    var c := s.clients[u];
    && c.uuid == u
    && c.sock in s.conns
    && s.conns[c.sock].cert == P256(c.pubkey)
    && cfg.uuidOf(c.pubkey) == u
    && s.conns[c.sock].registered == Some(u)
    && s.conns[c.sock].ready != Closed
    && ValidateDecryptPubkey(cfg, c.decryptPubkey) == None
  }

  ghost predicate GoodConn(cfg: Config, c: Conn) {
    && (c.registered.Some? ==> c.cert.P256? && c.registered.value == cfg.uuidOf(c.cert.point))
    && (c.registered.Some? <==> c.keepalive.pingDue.Some?)
    && (!c.cert.P256? ==> c.keepalive == K.IDLE)
    && (c.ready == Closed ==> c.registered == None)
    && K.Ok(c.keepalive)
  }

  ghost predicate Registry(cfg: Config, s: Server) {
    && (forall u :: u in s.clients ==> GoodClient(cfg, s, u))
    && (forall w :: w in s.conns ==> GoodConn(cfg, s.conns[w]))
  }

  /** The connected (true) and disconnected (false) events of `u` since the last shutdown mark. */
  function Life(events: seq<Event>, u: Uuid): seq<bool> {
    if events == [] then []
    else
      var before := events[..|events| - 1];
      match events[|events| - 1]
      case Shutdown => []
      case Connected(v) => if v == u then Life(before, u) + [true] else Life(before, u)
      case Disconnected(v) => if v == u then Life(before, u) + [false] else Life(before, u)
      case Recorded(_) => Life(before, u)
  }

  /** true, false, true, ... */
  ghost predicate Alternating(life: seq<bool>) {
    forall i :: 0 <= i < |life| ==> life[i] == (i % 2 == 0)
  }

  ghost predicate LifeAgrees(events: seq<Event>, up: set<Uuid>, u: Uuid) {
    Alternating(Life(events, u)) && (u in up <==> |Life(events, u)| % 2 == 1)
  }

  ghost predicate TraceAgrees(events: seq<Event>, up: set<Uuid>) {
    forall u: Uuid :: LifeAgrees(events, up, u)
  }

  /** The request half: counts, cap, timers, settlements. */
  ghost predicate Books(cfg: Config, s: Server) {
    Lockstep(s.pending, s.pendingByClient) && WithinCap(cfg, s.pendingByClient) && Accounted(s)
  }

  /** The socket half: registrations, closures, events. */
  ghost predicate Directory(cfg: Config, s: Server) {
    Registry(cfg, s) && TraceAgrees(s.events, s.clients.Keys)
  }

  ghost predicate Inv(cfg: Config, s: Server) {
    Books(cfg, s) && Directory(cfg, s)
  }

  // -- pending bookkeeping ---------------------------------------------------

  lemma PendingOfAdd(pending: map<ReqId, Uuid>, id: ReqId, u: Uuid, v: Uuid)
    ensures PendingOf(pending[id := u], v) ==
            if u == v then PendingOf(pending, v) + {id} else PendingOf(pending, v) - {id}
  {
  }

  lemma PendingOfRemove(pending: map<ReqId, Uuid>, id: ReqId, v: Uuid)
    ensures PendingOf(Without(pending, id), v) == PendingOf(pending, v) - {id}
  {
  }

  /** The count stays in lockstep exactly when the id is not already pending: uuidv4 freshness is needed. */
  lemma AddPendingKeepsLockstepExactly(s: Server, id: ReqId, u: Uuid)
    requires Lockstep(s.pending, s.pendingByClient)
    ensures var s' := AddPending(s, id, u);
            Lockstep(s'.pending, s'.pendingByClient) <==> id !in s.pending
  {
    var s' := AddPending(s, id, u);
    if id !in s.pending {
      forall v: Uuid ensures InStep(s'.pending, s'.pendingByClient, v) {
        assert InStep(s.pending, s.pendingByClient, v);
        PendingOfAdd(s.pending, id, u, v);
        assert id !in PendingOf(s.pending, v);
      }
    } else {
      var was := s.pending[id];
      assert InStep(s.pending, s.pendingByClient, was) && id in PendingOf(s.pending, was);
      PendingOfAdd(s.pending, id, u, was);
      assert !InStep(s'.pending, s'.pendingByClient, was);
    }
  }

  lemma RemovePendingKeepsLockstep(s: Server, id: ReqId)
    requires Lockstep(s.pending, s.pendingByClient)
    ensures var s' := RemovePending(s, id);
            && Lockstep(s'.pending, s'.pendingByClient)
            && forall u: Uuid :: CountOf(s'.pendingByClient, u) <= CountOf(s.pendingByClient, u)
  {
    if id in s.pending {
      var s', u := RemovePending(s, id), s.pending[id];
      forall v: Uuid
        ensures InStep(s'.pending, s'.pendingByClient, v)
        ensures CountOf(s'.pendingByClient, v) <= CountOf(s.pendingByClient, v)
      {
        assert InStep(s.pending, s.pendingByClient, v);
        PendingOfRemove(s.pending, id, v);
        assert v == u <==> id in PendingOf(s.pending, v);
      }
    }
  }

  /** Adding and then removing a fresh id restores both maps. */
  lemma AddThenRemoveRestores(s: Server, id: ReqId, u: Uuid)
    requires Lockstep(s.pending, s.pendingByClient) && id !in s.pending
    ensures RemovePending(AddPending(s, id, u), id) == s
  {
    var r := RemovePending(AddPending(s, id, u), id);
    assert r.pending == s.pending && InStep(s.pending, s.pendingByClient, u);
    assert r.pendingByClient == s.pendingByClient;
  }

  lemma SettledIdsAppend(log: seq<Settlement>, more: seq<Settlement>)
    ensures SettledIds(log + more) == SettledIds(log) + SettledIds(more)
  {
    var all := log + more;
    forall id ensures id in SettledIds(all) <==> id in SettledIds(log) + SettledIds(more) {
      if id in SettledIds(log) {
        var i :| 0 <= i < |log| && log[i].id == id;
        assert all[i].id == id;
      }
      if id in SettledIds(more) {
        var i :| 0 <= i < |more| && more[i].id == id;
        assert all[|log| + i].id == id;
      }
    }
  }

  lemma SettledOnceAppend(log: seq<Settlement>, more: seq<Settlement>)
    requires SettledOnce(log) && SettledOnce(more) && SettledIds(log) !! SettledIds(more)
    ensures SettledOnce(log + more)
  {
    var all := log + more;
    forall i, j | 0 <= i < j < |all| ensures all[i].id != all[j].id {
      if i < |log| <= j {
        assert log[i].id in SettledIds(log) && more[j - |log|].id in SettledIds(more);
      }
    }
  }

  /** Settling one pending id with its timer gone keeps the books. */
  lemma SettleOneKeepsBooks(cfg: Config, s: Server, id: ReqId, o: Outcome)
    requires Books(cfg, s) && id in s.pending
    ensures Books(cfg, Settle(RemovePending(s, id), id, o).(requestTimers := s.requestTimers - {id}))
  {
    RemovePendingKeepsLockstep(s, id);
    var one := [Settlement(id, o)];
    SettledIdsAppend(s.settlements, one);
    assert SettledIds(one) == {id} by { assert one[0].id == id; }
    SettledOnceAppend(s.settlements, one);
  }

  lemma {:induction false} DistinctLength<T>(order: seq<T>, xs: set<T>)
    requires Distinct(order) && forall x :: x in order <==> x in xs
    ensures |order| == |xs|
  {
    if order == [] {
      assert xs == {};
    } else {
      var x := order[0];
      assert order == [x] + order[1..];
      DistinctLength(order[1..], xs - {x});
    }
  }

  lemma RejectedIds(s: Server, order: seq<ReqId>)
    requires ListsPending(s, order)
    ensures SettledIds(Rejected(order)) == s.pending.Keys
    ensures SettledOnce(Rejected(order)) && |order| == |s.pending|
  {
    var more := Rejected(order);
    forall id ensures id in SettledIds(more) <==> id in order {
      if id in order {
        var i :| 0 <= i < |order| && order[i] == id;
        assert more[i].id == id;
      }
    }
    DistinctLength(order, s.pending.Keys);
  }

  lemma NothingPending()
    ensures Lockstep(map[], map[])
  {
    forall u: Uuid ensures InStep(map[], map[], u) { assert PendingOf(map[], u) == {}; }
  }

  lemma SettleAllKeepsBooks(cfg: Config, s: Server, more: seq<Settlement>, t: Server)
    requires Books(cfg, s) && SettledIds(more) == s.pending.Keys && SettledOnce(more)
    requires t.pending == map[] && t.pendingByClient == map[] && t.requestTimers == {}
    requires t.admitted == s.admitted && t.settlements == s.settlements + more
    ensures Books(cfg, t)
  {
    SettledIdsAppend(s.settlements, more);
    SettledOnceAppend(s.settlements, more);
    NothingPending();
  }

  lemma CloseServerKeepsBooks(cfg: Config, s: Server, order: seq<ReqId>)
    requires Books(cfg, s) && ListsPending(s, order)
    ensures Books(cfg, CloseServer(s, order))
    ensures |CloseServer(s, order).settlements| == |s.settlements| + |s.pending|
  {
    RejectedIds(s, order);
    SettleAllKeepsBooks(cfg, s, Rejected(order), CloseServer(s, order));
  }

  // -- events ----------------------------------------------------------------

  lemma LifeOfEmit(events: seq<Event>, e: Event, u: Uuid)
    ensures Life(events + [e], u) ==
            match e
            case Shutdown => []
            case Connected(v) => if v == u then Life(events, u) + [true] else Life(events, u)
            case Disconnected(v) => if v == u then Life(events, u) + [false] else Life(events, u)
            case Recorded(_) => Life(events, u)
  {
    assert (events + [e])[..|events|] == events;
  }

  lemma DisconnectAgrees(events: seq<Event>, up: set<Uuid>, u: Uuid)
    requires TraceAgrees(events, up) && u in up
    ensures TraceAgrees(events + [Disconnected(u)], up - {u})
  {
    forall v: Uuid ensures LifeAgrees(events + [Disconnected(u)], up - {u}, v) {
      assert LifeAgrees(events, up, v);
      LifeOfEmit(events, Disconnected(u), v);
    }
  }

  lemma ConnectAgrees(events: seq<Event>, up: set<Uuid>, u: Uuid)
    requires TraceAgrees(events, up) && u !in up
    ensures TraceAgrees(events + [Connected(u)], up + {u})
  {
    forall v: Uuid ensures LifeAgrees(events + [Connected(u)], up + {u}, v) {
      assert LifeAgrees(events, up, v);
      LifeOfEmit(events, Connected(u), v);
    }
  }

  lemma RecordAgrees(events: seq<Event>, up: set<Uuid>, u: Uuid)
    requires TraceAgrees(events, up)
    ensures TraceAgrees(events + [Recorded(u)], up)
  {
    forall v: Uuid ensures LifeAgrees(events + [Recorded(u)], up, v) {
      assert LifeAgrees(events, up, v);
      LifeOfEmit(events, Recorded(u), v);
    }
  }

  lemma ShutdownAgrees(events: seq<Event>)
    ensures TraceAgrees(events + [Shutdown], {})
  {
    forall v: Uuid ensures LifeAgrees(events + [Shutdown], {}, v) {
      LifeOfEmit(events, Shutdown, v);
    }
  }

  ghost predicate SameBookkeeping(s: Server, t: Server) {
    && t.pending == s.pending && t.pendingByClient == s.pendingByClient
    && t.requestTimers == s.requestTimers && t.admitted == s.admitted && t.settlements == s.settlements
  }

  // -- handlers --------------------------------------------------------------

  /** A registration stays good while its socket keeps what the registration is about. */
  lemma ClientStays(cfg: Config, s: Server, t: Server, u: Uuid)
    requires u in s.clients && GoodClient(cfg, s, u) && u in t.clients && t.clients[u] == s.clients[u]
    requires
      var w := s.clients[u].sock;
      && w in t.conns && t.conns[w].cert == s.conns[w].cert && t.conns[w].registered == s.conns[w].registered
      && (t.conns[w].ready == Closed ==> s.conns[w].ready == Closed)
    ensures GoodClient(cfg, t, u)
  {
  }

  lemma CleanedIsGood(cfg: Config, c: Conn)
    requires K.Ok(c.keepalive) && (!c.cert.P256? ==> c.keepalive == K.IDLE)
    ensures GoodConn(cfg, c.(keepalive := K.Clear(c.keepalive), registered := None))
  {
  }

  lemma CleanupTouchesNoBooks(s: Server, w: Sock)
    requires w in s.conns
    ensures SameBookkeeping(s, Cleanup(s, w))
  {
  }

  lemma CleanupRegistry(cfg: Config, s: Server, w: Sock)
    requires w in s.conns
    requires forall u :: u in s.clients && s.clients[u].sock != w ==> GoodClient(cfg, s, u)
    requires forall u :: u in s.clients && s.clients[u].sock == w ==> s.conns[w].registered == Some(u)
    requires forall v :: v in s.conns && v != w ==> GoodConn(cfg, s.conns[v])
    requires !s.conns[w].cert.P256? ==> s.conns[w].keepalive == K.IDLE
    requires K.Ok(s.conns[w].keepalive)
    ensures Registry(cfg, Cleanup(s, w))
  {
    hide GoodConn;
    var s' := Cleanup(s, w);
    assert s'.conns == s.conns[w := s.conns[w].(keepalive := K.Clear(s.conns[w].keepalive), registered := None)];
    forall u | u in s'.clients ensures GoodClient(cfg, s', u) {
      ClientStays(cfg, s, s', u);
    }
    forall v | v in s'.conns ensures GoodConn(cfg, s'.conns[v]) {
      if v == w { CleanedIsGood(cfg, s.conns[w]); }
    }
  }

  /** `cleanup` touches only its own socket, and only its own registration. */
  lemma CleanupKeeps(cfg: Config, s: Server, w: Sock)
    requires w in s.conns && TraceAgrees(s.events, s.clients.Keys)
    requires forall u :: u in s.clients && s.clients[u].sock != w ==> GoodClient(cfg, s, u)
    requires forall u :: u in s.clients && s.clients[u].sock == w ==> s.conns[w].registered == Some(u)
    requires forall v :: v in s.conns && v != w ==> GoodConn(cfg, s.conns[v])
    requires !s.conns[w].cert.P256? ==> s.conns[w].keepalive == K.IDLE
    requires K.Ok(s.conns[w].keepalive)
    ensures Directory(cfg, Cleanup(s, w))
  {
    CleanupRegistry(cfg, s, w);
    var c := s.conns[w];
    if c.registered.Some? && c.registered.value in s.clients && s.clients[c.registered.value].sock == w {
      DisconnectAgrees(s.events, s.clients.Keys, c.registered.value);
      assert Cleanup(s, w).clients.Keys == s.clients.Keys - {c.registered.value};
    }
  }

  lemma SocketOf(cfg: Config, s: Server, u: Uuid)
    requires u in s.clients && GoodClient(cfg, s, u)
    ensures s.clients[u].sock in s.conns
  {
  }

  lemma PreviousIsRegistered(cfg: Config, s: Server, u: Uuid)
    requires Registry(cfg, s) && u in s.clients
    ensures s.clients[u].sock in s.conns && s.conns[s.clients[u].sock].registered.Some?
  {
    assert GoodClient(cfg, s, u);
  }

  lemma ShutIsGood(cfg: Config, c: Conn)
    requires GoodConn(cfg, c)
    ensures GoodConn(cfg, Shut(c))
  {
  }

  /** What an eviction changes: the entry, an event, and whether the previous socket is open. */
  lemma EvictShape(s: Server, u: Uuid)
    ensures
      var s' := Evict(s, u);
      && s'.clients == Without(s.clients, u)
      && s'.events == (if u in s.clients then s.events + [Disconnected(u)] else s.events)
      && s'.conns.Keys == s.conns.Keys
      && forall w :: w in s.conns ==>
           s'.conns[w] == if u in s.clients && s.clients[u].sock == w then Shut(s.conns[w]) else s.conns[w]
  {
  }

  lemma EvictRegistry(cfg: Config, s: Server, u: Uuid)
    requires Registry(cfg, s)
    ensures Registry(cfg, Evict(s, u))
  {
    hide Evict, GoodConn, GoodClient;
    var s' := Evict(s, u);
    EvictShape(s, u);
    forall v | v in s'.clients ensures GoodClient(cfg, s', v) {
      SocketOf(cfg, s, v);
      ClientStays(cfg, s, s', v);
    }
    forall w | w in s'.conns ensures GoodConn(cfg, s'.conns[w]) {
      ShutIsGood(cfg, s.conns[w]);
    }
  }

  lemma EvictKeeps(cfg: Config, s: Server, u: Uuid)
    requires Directory(cfg, s)
    ensures
      var s' := Evict(s, u);
      && Directory(cfg, s')
      && s'.clients == Without(s.clients, u)
      && s'.conns.Keys == s.conns.Keys
      && (forall w :: w in s.conns && s.conns[w].registered == None ==> s'.conns[w] == s.conns[w])
  {
    hide Evict, Registry, TraceAgrees;
    EvictShape(s, u);
    EvictRegistry(cfg, s, u);
    if u in s.clients {
      DisconnectAgrees(s.events, s.clients.Keys, u);
      assert Evict(s, u).clients.Keys == s.clients.Keys - {u};
      PreviousIsRegistered(cfg, s, u);
    } else {
      assert Without(s.clients, u) == s.clients;
    }
  }

  lemma WelcomedIsGood(cfg: Config, c: Conn, u: Uuid, now: nat)
    requires GoodConn(cfg, c) && c.cert.P256? && u == cfg.uuidOf(c.cert.point) && c.ready != Closed
    ensures
      var welcomed := Send(c.(registered := Some(u)), Welcome(u));
      GoodConn(cfg, welcomed.(keepalive := K.Start(c.keepalive, cfg.timing, now)))
  {
  }

  /** The entry and the closure that an accepted hello sets up, on top of any good registry without that daemon. */
  lemma EntryJoins(cfg: Config, s: Server, t: Server, w: Sock, u: Uuid)
    requires Registry(cfg, s) && u !in s.clients && w in s.conns && s.conns[w].registered == None && w in t.conns
    requires t.conns == s.conns[w := t.conns[w]] && GoodConn(cfg, t.conns[w])
    requires u in t.clients && t.clients == s.clients[u := t.clients[u]] && GoodClient(cfg, t, u)
    ensures Registry(cfg, t)
  {
    forall v | v in t.clients && v != u ensures GoodClient(cfg, t, v) {
      PreviousIsRegistered(cfg, s, v);
      ClientStays(cfg, s, t, v);
    }
  }

  lemma RegisterKeeps(cfg: Config, s: Server, w: Sock, key: Bytes, now: nat)
    requires Directory(cfg, s) && Live(s, w)
    requires s.conns[w].registered == None && ValidateDecryptPubkey(cfg, key) == None
    ensures Directory(cfg, Register(cfg, s, w, key, now))
  {
    var u, s' := cfg.uuidOf(s.conns[w].cert.point), Register(cfg, s, w, key, now);
    hide TraceAgrees, Evict;
    EvictKeeps(cfg, s, u);
    var s1 := Evict(s, u);
    ConnectAgrees(s1.events, s1.clients.Keys, u);
    assert s'.clients.Keys == s1.clients.Keys + {u};
    WelcomedIsGood(cfg, s1.conns[w], u, now);
    EntryJoins(cfg, s1, s', w, u);
  }

  /** Replacing the closure of one socket by one with the same registration. */
  lemma SetConnKeeps(cfg: Config, s: Server, w: Sock, c: Conn)
    requires Directory(cfg, s) && w in s.conns && GoodConn(cfg, c)
    requires c.cert == s.conns[w].cert && c.registered == s.conns[w].registered
    requires c.ready == Closed ==> s.conns[w].ready == Closed
    ensures Directory(cfg, SetConn(s, w, c))
  {
    var s' := SetConn(s, w, c);
    forall u | u in s'.clients ensures GoodClient(cfg, s', u) {
      assert GoodClient(cfg, s, u);
    }
  }

  lemma RejectKeeps(cfg: Config, s: Server, w: Sock, reason: Refusal)
    requires Directory(cfg, s) && w in s.conns
    ensures Directory(cfg, Reject(s, w, reason))
  {
    assert GoodConn(cfg, s.conns[w]);
    SetConnKeeps(cfg, s, w, Shut(Send(s.conns[w], Error(reason))));
  }

  lemma ResponseKeepsDirectory(cfg: Config, s: Server, r: Response)
    requires Directory(cfg, s)
    ensures Directory(cfg, OnResponse(s, r))
  {
    var t := OnResponse(s, r);
    assert t.conns == s.conns && t.clients == s.clients && t.events == s.events;
  }

  lemma MessageKeepsDirectory(cfg: Config, s: Server, w: Sock, f: ClientFrame, now: nat)
    requires Directory(cfg, s) && Live(s, w)
    ensures Directory(cfg, OnMessage(cfg, s, w, f, now))
  {
    match f
    case NotJson => RejectKeeps(cfg, s, w, InvalidJson);
    case NotAnEnvelope => RejectKeeps(cfg, s, w, ExpectedHello);
    case EmptyEnvelope => RejectKeeps(cfg, s, w, ExpectedHello);
    case HelloWithoutKey => RejectKeeps(cfg, s, w, DecryptPubkeyRequired);
    case ResponseFrame(r) =>
      RejectKeeps(cfg, s, w, ExpectedHello);
      ResponseKeepsDirectory(cfg, s, r);
    case Hello(key) =>
      if s.conns[w].registered == None {
        match ValidateDecryptPubkey(cfg, key)
        case Some(err) => RejectKeeps(cfg, s, w, err);
        case None => RegisterKeeps(cfg, s, w, key, now);
      }
  }

  lemma ForwardKeepsDirectory(cfg: Config, s: Server, u: Uuid, req: Request, b: nat)
    requires Directory(cfg, s)
    ensures Directory(cfg, Forward(cfg, s, u, req, b))
  {
    var s' := Forward(cfg, s, u, req, b);
    if s' != s {
      var w := s.clients[u].sock;
      assert GoodClient(cfg, s, u) && GoodConn(cfg, s.conns[w]);
      SetConnKeeps(cfg, s, w, s'.conns[w]);
      var t := SetConn(s, w, s'.conns[w]);
      assert t.conns == s'.conns && t.clients == s'.clients && t.events == s'.events;
    }
  }

  lemma RecordedKeepsDirectory(cfg: Config, s: Server, u: Uuid)
    requires Directory(cfg, s)
    ensures Directory(cfg, Emit(s, Recorded(u)))
  {
    RecordAgrees(s.events, s.clients.Keys, u);
    var s' := Emit(s, Recorded(u));
    forall v | v in s'.clients ensures GoodClient(cfg, s', v) { assert GoodClient(cfg, s, v); }
  }

  lemma CloseServerKeepsDirectory(cfg: Config, s: Server, order: seq<ReqId>)
    requires Directory(cfg, s)
    ensures Directory(cfg, CloseServer(s, order))
  {
    ShutdownAgrees(s.events);
  }

  lemma CleanupOfGood(cfg: Config, s: Server, w: Sock)
    requires Directory(cfg, s) && w in s.conns
    ensures Directory(cfg, Cleanup(s, w)) && SameBookkeeping(s, Cleanup(s, w))
  {
    assert GoodConn(cfg, s.conns[w]);
    CleanupKeeps(cfg, s, w);
  }

  /** A socket nobody is registered on may change freely as long as its closure stays good. */
  lemma UnadmittedKeeps(cfg: Config, s: Server, w: Sock, c: Conn)
    requires Directory(cfg, s) && GoodConn(cfg, c)
    requires w in s.conns ==> s.conns[w].registered == None
    ensures Directory(cfg, SetConn(s, w, c))
  {
    var s' := SetConn(s, w, c);
    forall u | u in s'.clients ensures GoodClient(cfg, s', u) {
      assert GoodClient(cfg, s, u);
    }
  }

  lemma AcceptKeeps(cfg: Config, s: Server, w: Sock, cert: Certificate)
    requires Directory(cfg, s) && w !in s.conns
    ensures Directory(cfg, Accept(s, w, cert)) && SameBookkeeping(s, Accept(s, w, cert))
  {
    UnadmittedKeeps(cfg, s, w, Accept(s, w, cert).conns[w]);
  }

  lemma PingTickKeeps(cfg: Config, s: Server, w: Sock, now: nat)
    requires Directory(cfg, s) && w in s.conns && s.conns[w].keepalive.pingDue.Some?
    ensures Directory(cfg, OnPingTick(cfg, s, w, now)) && SameBookkeeping(s, OnPingTick(cfg, s, w, now))
  {
    var c := s.conns[w];
    assert GoodConn(cfg, c);
    if c.ready != Open {
      CleanupOfGood(cfg, s, w);
    } else {
      SetConnKeeps(cfg, s, w, c.(keepalive := K.Ping(c.keepalive, cfg.timing, now)));
    }
  }

  lemma PongTimeoutKeeps(cfg: Config, s: Server, w: Sock, h: K.Handle)
    requires Directory(cfg, s) && w in s.conns && h in s.conns[w].keepalive.armed
    ensures Directory(cfg, OnPongTimeout(s, w, h)) && SameBookkeeping(s, OnPongTimeout(s, w, h))
  {
    var c := s.conns[w];
    assert GoodConn(cfg, c);
    var fired := c.(keepalive := K.Fire(c.keepalive, h));
    SetConnKeeps(cfg, s, w, fired);
    SetConnKeeps(cfg, SetConn(s, w, fired), w, Shut(fired));
    CleanupOfGood(cfg, SetConn(SetConn(s, w, fired), w, Shut(fired)), w);
  }

  lemma PongKeeps(cfg: Config, s: Server, w: Sock)
    requires Directory(cfg, s) && Live(s, w)
    ensures Directory(cfg, OnPong(s, w)) && SameBookkeeping(s, OnPong(s, w))
  {
    assert GoodConn(cfg, s.conns[w]);
    SetConnKeeps(cfg, s, w, s.conns[w].(keepalive := K.ClearPong(s.conns[w].keepalive)));
  }

  lemma NoBooksTouched(s: Server, w: Sock, c: Conn, t: Server)
    requires t == SetConn(s, w, c) || SameBookkeeping(SetConn(s, w, c), t)
    ensures SameBookkeeping(s, t)
  {
  }

  lemma CloseEventKeeps(cfg: Config, s: Server, w: Sock)
    requires Directory(cfg, s) && w in s.conns && s.conns[w].ready != Closed
    ensures Directory(cfg, OnClose(s, w)) && SameBookkeeping(s, OnClose(s, w))
  {
    hide SameBookkeeping, Cleanup;
    var c := s.conns[w];
    assert GoodConn(cfg, c);
    if c.cert.P256? {
      var s' := SetConn(s, w, c.(ready := Closed));
      forall u | u in s'.clients && s'.clients[u].sock != w ensures GoodClient(cfg, s', u) {
        assert GoodClient(cfg, s, u);
      }
      forall u | u in s'.clients && s'.clients[u].sock == w ensures c.registered == Some(u) {
        assert GoodClient(cfg, s, u);
      }
      CleanupTouchesNoBooks(s', w);
      NoBooksTouched(s, w, c.(ready := Closed), Cleanup(s', w));
      CleanupKeeps(cfg, s', w);
    } else {
      NoBooksTouched(s, w, c.(ready := Closed), SetConn(s, w, c.(ready := Closed)));
      UnadmittedKeeps(cfg, s, w, c.(ready := Closed));
    }
  }

  lemma ErrorEventKeeps(cfg: Config, s: Server, w: Sock)
    requires Directory(cfg, s) && w in s.conns && s.conns[w].ready != Closed
    ensures Directory(cfg, OnError(s, w)) && SameBookkeeping(s, OnError(s, w))
  {
    var c := s.conns[w];
    assert GoodConn(cfg, c);
    SetConnKeeps(cfg, s, w, Shut(c));
    if c.cert.P256? { CleanupOfGood(cfg, SetConn(s, w, Shut(c)), w); }
  }

  lemma PeerClosingKeeps(cfg: Config, s: Server, w: Sock)
    requires Directory(cfg, s) && w in s.conns
    ensures Directory(cfg, SetConn(s, w, Shut(s.conns[w])))
  {
    assert GoodConn(cfg, s.conns[w]);
    SetConnKeeps(cfg, s, w, Shut(s.conns[w]));
  }

  // -- books -----------------------------------------------------------------

  lemma SameBooks(cfg: Config, s: Server, t: Server)
    requires Books(cfg, s) && SameBookkeeping(s, t)
    ensures Books(cfg, t)
  {
  }

  lemma CapKept(cfg: Config, s: Server, id: ReqId, u: Uuid)
    requires WithinCap(cfg, s.pendingByClient) && CountOf(s.pendingByClient, u) < cfg.maxPendingPerClient
    ensures WithinCap(cfg, AddPending(s, id, u).pendingByClient)
  {
    var after := AddPending(s, id, u).pendingByClient;
    forall v: Uuid ensures CountOf(after, v) <= cfg.maxPendingPerClient {
      assert v != u ==> CountOf(after, v) == CountOf(s.pendingByClient, v);
    }
  }

  /** A request that is admitted, and nothing else. */
  lemma AdmitKeepsAccounts(s: Server, t: Server, id: ReqId, a: Admission)
    requires Accounted(s) && id !in s.admitted && a.req.id == id
    requires t.pending == s.pending[id := a.uuid] && t.requestTimers == s.requestTimers + {id}
    requires t.admitted == s.admitted[id := a] && t.settlements == s.settlements
    ensures Accounted(t)
  {
  }

  lemma ForwardKeepsBooks(cfg: Config, s: Server, u: Uuid, req: Request, b: nat)
    requires Books(cfg, s) && req.id !in s.admitted
    ensures Books(cfg, Forward(cfg, s, u, req, b))
  {
    if ForwardCheck(cfg, s, u, b) == None {
      AddPendingKeepsLockstepExactly(s, req.id, u);
      CapKept(cfg, s, req.id, u);
      AdmitKeepsAccounts(s, Forward(cfg, s, u, req, b), req.id, Admission(u, s.clients[u].sock, req));
    }
  }

  /** The one kind of frame that settles a request. */
  predicate Answers(s: Server, w: Sock, f: ClientFrame, id: ReqId)
    requires w in s.conns
  {
    && f.ResponseFrame? && s.conns[w].registered.Some?
    && StatusInRange(f.resp) && f.resp.id == id && id in s.pending
  }

  lemma EvictLeavesBooks(s: Server, u: Uuid)
    ensures SameBookkeeping(s, Evict(s, u)) && s.conns.Keys <= Evict(s, u).conns.Keys
  {
  }

  lemma RegisterLeavesBooks(cfg: Config, s: Server, w: Sock, key: Bytes, now: nat)
    requires Live(s, w)
    ensures SameBookkeeping(s, Register(cfg, s, w, key, now))
  {
    hide Evict;
    EvictLeavesBooks(s, cfg.uuidOf(s.conns[w].cert.point));
  }

  lemma OtherMessagesLeaveBooks(cfg: Config, s: Server, w: Sock, f: ClientFrame, now: nat)
    requires Live(s, w)
    requires f.ResponseFrame? ==> !Answers(s, w, f, f.resp.id)
    ensures SameBookkeeping(s, OnMessage(cfg, s, w, f, now))
  {
    if f.Hello? && s.conns[w].registered == None && ValidateDecryptPubkey(cfg, f.decryptPubkey) == None {
      RegisterLeavesBooks(cfg, s, w, f.decryptPubkey, now);
    }
  }

  lemma MessageKeeps(cfg: Config, s: Server, w: Sock, f: ClientFrame, now: nat)
    requires Inv(cfg, s) && Live(s, w)
    ensures Inv(cfg, OnMessage(cfg, s, w, f, now))
  {
    hide Books, Directory;
    MessageKeepsDirectory(cfg, s, w, f, now);
    if f.ResponseFrame? && Answers(s, w, f, f.resp.id) {
      SettleOneKeepsBooks(cfg, s, f.resp.id, Resolved(Flatten(f.resp)));
    } else {
      OtherMessagesLeaveBooks(cfg, s, w, f, now);
      SameBooks(cfg, s, OnMessage(cfg, s, w, f, now));
    }
  }

  lemma HttpForwardKeeps(cfg: Config, s: Server, u: Uuid, req: Request, b: nat)
    requires Inv(cfg, s) && req.id !in s.admitted
    ensures Inv(cfg, HttpForward(cfg, s, u, req, b))
  {
    if u in s.clients {
      var r := Emit(s, Recorded(u));
      SameBooks(cfg, s, r);
      ForwardKeepsBooks(cfg, r, u, req, b);
      RecordedKeepsDirectory(cfg, s, u);
      ForwardKeepsDirectory(cfg, r, u, req, b);
    }
  }

  lemma RequestTimeoutKeeps(cfg: Config, s: Server, id: ReqId)
    requires Inv(cfg, s) && id in s.requestTimers
    ensures Inv(cfg, OnRequestTimeout(s, id))
  {
    SettleOneKeepsBooks(cfg, s, id, TimedOut);
    var s' := OnRequestTimeout(s, id);
    assert s'.conns == s.conns && s'.clients == s.clients && s'.events == s.events;
  }

  /** Socket events other than frames. */
  predicate IsSocketEvent(step: Step) {
    step.AcceptStep? || step.PingTickStep? || step.PongTimeoutStep? || step.PongStep?
    || step.PeerClosingStep? || step.CloseEventStep? || step.ErrorEventStep?
  }

  predicate IsForward(step: Step) {
    step.ForwardStep? || step.HttpForwardStep?
  }

  /** From `s` to `t` nothing changed in the sockets but the closure of `w`. */
  ghost predicate TouchesOnly(s: Server, t: Server, w: Sock) {
    w in t.conns && t.conns == s.conns[w := t.conns[w]]
  }

  lemma SetConnTouches(s: Server, w: Sock, c: Conn)
    ensures TouchesOnly(s, SetConn(s, w, c), w)
  {
  }

  /** `cleanup` after a change to the same socket. */
  lemma CleanupTouches(s: Server, w: Sock, c: Conn)
    ensures TouchesOnly(s, Cleanup(SetConn(s, w, c), w), w)
  {
  }

  lemma SetConnTwice(s: Server, w: Sock, c: Conn, d: Conn)
    ensures SetConn(SetConn(s, w, c), w, d) == SetConn(s, w, d)
  {
    assert s.conns[w := c][w := d] == s.conns[w := d];
  }

  lemma AcceptTouches(s: Server, w: Sock, cert: Certificate)
    ensures TouchesOnly(s, Accept(s, w, cert), w)
  {
  }

  lemma PongTouches(s: Server, w: Sock)
    requires w in s.conns
    ensures TouchesOnly(s, OnPong(s, w), w)
  {
  }

  lemma PingTickTouches(cfg: Config, s: Server, w: Sock, now: nat)
    requires w in s.conns
    ensures TouchesOnly(s, OnPingTick(cfg, s, w, now), w)
  {
    var c := s.conns[w];
    if c.ready != Open {
      assert SetConn(s, w, c) == s;
      CleanupTouches(s, w, c);
    } else {
      SetConnTouches(s, w, c.(keepalive := K.Ping(c.keepalive, cfg.timing, now)));
    }
  }

  lemma PongTimeoutTouches(s: Server, w: Sock, h: K.Handle)
    requires w in s.conns
    ensures TouchesOnly(s, OnPongTimeout(s, w, h), w)
  {
    var fired := s.conns[w].(keepalive := K.Fire(s.conns[w].keepalive, h));
    SetConnTwice(s, w, fired, Shut(fired));
    CleanupTouches(s, w, Shut(fired));
  }

  lemma CloseEventTouches(s: Server, w: Sock)
    requires w in s.conns
    ensures TouchesOnly(s, OnClose(s, w), w)
  {
    SetConnTouches(s, w, s.conns[w].(ready := Closed));
    CleanupTouches(s, w, s.conns[w].(ready := Closed));
  }

  lemma ErrorEventTouches(s: Server, w: Sock)
    requires w in s.conns
    ensures TouchesOnly(s, OnError(s, w), w)
  {
    SetConnTouches(s, w, Shut(s.conns[w]));
    CleanupTouches(s, w, Shut(s.conns[w]));
  }

  /** A socket event changes the closure of its own socket and no other. */
  lemma EventTouchesOneSocket(cfg: Config, s: Server, step: Step)
    requires Enabled(s, step) && IsSocketEvent(step)
    ensures TouchesOnly(s, Next(cfg, s, step), step.w)
  {
    hide TouchesOnly, Cleanup, OnMessage;
    match step
    case AcceptStep(w, cert) => AcceptTouches(s, w, cert);
    case PingTickStep(w, now) => PingTickTouches(cfg, s, w, now);
    case PongTimeoutStep(w, h) => PongTimeoutTouches(s, w, h);
    case PongStep(w) => PongTouches(s, w);
    case PeerClosingStep(w) => SetConnTouches(s, w, Shut(s.conns[w]));
    case CloseEventStep(w) => CloseEventTouches(s, w);
    case ErrorEventStep(w) => ErrorEventTouches(s, w);
  }

  lemma SocketEventKeeps(cfg: Config, s: Server, step: Step)
    requires Directory(cfg, s) && Enabled(s, step) && IsSocketEvent(step)
    ensures Directory(cfg, Next(cfg, s, step)) && SameBookkeeping(s, Next(cfg, s, step))
  {
    match step
    case AcceptStep(w, cert) => AcceptKeeps(cfg, s, w, cert);
    case PingTickStep(w, now) => PingTickKeeps(cfg, s, w, now);
    case PongTimeoutStep(w, h) => PongTimeoutKeeps(cfg, s, w, h);
    case PongStep(w) => PongKeeps(cfg, s, w);
    case PeerClosingStep(w) => PeerClosingKeeps(cfg, s, w);
    case CloseEventStep(w) => CloseEventKeeps(cfg, s, w);
    case ErrorEventStep(w) => ErrorEventKeeps(cfg, s, w);
  }

  /** Every step keeps the invariant. */
  lemma StepKeeps(cfg: Config, s: Server, step: Step)
    requires Inv(cfg, s) && Enabled(s, step)
    ensures Inv(cfg, Next(cfg, s, step))
  {
    match step
    case MessageStep(w, f, now) => MessageKeeps(cfg, s, w, f, now);
    case ForwardStep(u, req, b) =>
      ForwardKeepsBooks(cfg, s, u, req, b);
      ForwardKeepsDirectory(cfg, s, u, req, b);
    case HttpForwardStep(u, req, b) => HttpForwardKeeps(cfg, s, u, req, b);
    case RequestTimeoutStep(id) => RequestTimeoutKeeps(cfg, s, id);
    case CloseServerStep(order) =>
      CloseServerKeepsBooks(cfg, s, order);
      CloseServerKeepsDirectory(cfg, s, order);
    case _ =>
      SocketEventKeeps(cfg, s, step);
      SameBooks(cfg, s, Next(cfg, s, step));
  }

  lemma {:induction false} RunKeeps(cfg: Config, steps: seq<Step>)
    requires Runs(cfg, steps)
    ensures Inv(cfg, After(cfg, steps))
    decreases |steps|
  {
    if steps == [] {
      NothingPending();
      forall u: Uuid ensures LifeAgrees([], {}, u) {}
    } else {
      RunKeeps(cfg, steps[..|steps| - 1]);
      StepKeeps(cfg, After(cfg, steps[..|steps| - 1]), steps[|steps| - 1]);
    }
  }
}
