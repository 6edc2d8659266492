/**
 * RelayServer as the object it is: maps updated in place by one method per
 * handler. Each method is tied to the transition of module Relay, so the
 * theorems about that machine are theorems about this object.
 */
module RelayObject {
  import opened Prelude
  import opened Relay
  import opened RelayInvariants
  import K = Keepalive

  lemma TerminatedOneMore(conns: map<Sock, Conn>, clients: map<Uuid, Client>, among: set<Uuid>, u: Uuid)
    requires u in clients && clients[u].sock in conns
    ensures
      var before, w := Terminated(conns, clients, among), clients[u].sock;
      Terminated(conns, clients, among + {u}) == before[w := Shut(before[w])]
  {
    var w0 := clients[u].sock;
    forall w | w in conns
      ensures HoldsClient(clients, among + {u}, w) <==> w == w0 || HoldsClient(clients, among, w)
    {
      if HoldsClient(clients, among, w) {
        var v :| v in among && v in clients && clients[v].sock == w;
        assert v in among + {u};
      }
      if w == w0 { assert u in among + {u}; }
    }
  }

  lemma ClientsHaveSockets(cfg: Config, s: Server)
    requires Directory(cfg, s)
    ensures forall u :: u in s.clients ==> s.clients[u].sock in s.conns
  {
    forall u | u in s.clients ensures s.clients[u].sock in s.conns { assert GoodClient(cfg, s, u); }
  }

  lemma TimersApart(s: Server, id: ReqId, timers: set<ReqId>)
    ensures
      Relay.RemovePending(s.(requestTimers := timers), id) == Relay.RemovePending(s, id).(requestTimers := timers)
  {
  }

  class RelayServer {
    const cfg: Config
    var clients: map<Uuid, Client>
    var pending: map<ReqId, Uuid>
    var pendingByClient: map<Uuid, nat>
    var requestTimers: set<ReqId>
    var conns: map<Sock, Conn>
    ghost var admitted: map<ReqId, Admission>
    ghost var settlements: seq<Settlement>
    ghost var events: seq<Event>

    ghost function State(): Server
      reads this
    {
      Server(clients, pending, pendingByClient, requestTimers, conns, admitted, settlements, events)
    }

    ghost predicate Valid()
      reads this
    {
      Inv(cfg, State())
    }

    constructor (cfg: Config)
      ensures this.cfg == cfg && State() == INITIAL && Valid()
    {
      this.cfg := cfg;
      clients, pending, pendingByClient, requestTimers, conns := map[], map[], map[], {}, map[];
      admitted, settlements, events := map[], [], [];
      new;
      RunKeeps(cfg, []);
    }

    // -- pending bookkeeping -------------------------------------------------

    method AddPending(id: ReqId, u: Uuid)
      modifies this`pending, this`pendingByClient
      ensures State() == Relay.AddPending(old(State()), id, u)
    {
      pending := pending[id := u];
      var count := if u in pendingByClient then pendingByClient[u] else 0;
      pendingByClient := pendingByClient[u := count + 1];
    }

    method RemovePending(id: ReqId) returns (req: Option<Uuid>)
      modifies this`pending, this`pendingByClient
      ensures State() == Relay.RemovePending(old(State()), id)
      ensures req == if id in old(pending) then Some(old(pending)[id]) else None
    {
      if id !in pending {
        return None;
      }
      var u := pending[id];
      pending := pending - {id};
      var count := if u in pendingByClient then pendingByClient[u] else 0;
      if count <= 1 {
        pendingByClient := pendingByClient - {u};
      } else {
        pendingByClient := pendingByClient[u := count - 1];
      }
      return Some(u);
    }

    /** The promise executor of `forward`: arm the timer, record the request, write it to the socket. */
    method Enqueue(u: Uuid, req: Request)
      requires u in clients && clients[u].sock in conns
      modifies this`pending, this`pendingByClient, this`requestTimers, this`admitted, this`conns
      ensures
        var w, added := clients[u].sock, Relay.AddPending(old(State()), req.id, u);
        State() == added.(requestTimers := old(requestTimers) + {req.id},
                          admitted := old(admitted)[req.id := Admission(u, w, req)],
                          conns := old(conns)[w := Send(old(conns)[w], RequestFrame(req))])
    {
      requestTimers := requestTimers + {req.id};
      AddPending(req.id, u);
      admitted := admitted[req.id := Admission(u, clients[u].sock, req)];
      conns := conns[clients[u].sock := Send(conns[clients[u].sock], RequestFrame(req))];
    }

    /** `forward`: the error it throws, or None once the request is pending. */
    method Forward(u: Uuid, req: Request, buffered: nat) returns (error: Option<ForwardError>)
      requires Valid() && req.id !in admitted
      modifies this
      ensures Valid() && State() == Relay.Forward(cfg, old(State()), u, req, buffered)
      ensures error == ForwardCheck(cfg, old(State()), u, buffered)
      ensures error == Some(NotConnected) <==> u !in old(clients)
      ensures error == Some(Backpressure) <==> u in old(clients) && buffered > cfg.maxBufferedBytes
      ensures error == Some(CapExceeded) <==>
                && u in old(clients) && buffered <= cfg.maxBufferedBytes
                && |PendingOf(old(pending), u)| >= cfg.maxPendingPerClient
    {
      ghost var was := State();
      assert InStep(pending, pendingByClient, u);
      if u !in clients {
        return Some(NotConnected);
      }
      if buffered > cfg.maxBufferedBytes {
        return Some(Backpressure);
      }
      var count := if u in pendingByClient then pendingByClient[u] else 0;
      if count >= cfg.maxPendingPerClient {
        return Some(CapExceeded);
      }
      assert GoodClient(cfg, was, u);
      Enqueue(u, req);
      assert State() == Relay.Forward(cfg, was, u, req, buffered);
      ForwardKeepsBooks(cfg, was, u, req, buffered);
      ForwardKeepsDirectory(cfg, was, u, req, buffered);
      return None;
    }

    /** The callback of a request's timer: the runtime has already disarmed it. */
    method OnRequestTimeout(id: ReqId)
      requires Valid() && id in requestTimers
      modifies this
      ensures Valid() && State() == Relay.OnRequestTimeout(old(State()), id)
    {
      ghost var was := State();
      RequestTimeoutKeeps(cfg, was, id);
      TimersApart(was, id, requestTimers - {id});
      requestTimers := requestTimers - {id};
      var _ := RemovePending(id);
      settlements := settlements + [Settlement(id, TimedOut)];
      assert State() == Relay.OnRequestTimeout(was, id);
    }

    /** The second loop of `close()`. */
    method TerminateAll()
      requires forall u :: u in clients ==> clients[u].sock in conns
      modifies this`conns
      ensures conns == Terminated(old(conns), clients, clients.Keys)
    {
      var left := clients.Keys;
      assert clients.Keys - left == {};
      while left != {}
        invariant left <= clients.Keys
        invariant conns == Terminated(old(conns), clients, clients.Keys - left)
        decreases |left|
      {
        var u :| u in left;
        TerminatedOneMore(old(conns), clients, clients.Keys - left, u);
        assert clients.Keys - left + {u} == clients.Keys - (left - {u});
        left := left - {u};
        conns := conns[clients[u].sock := Shut(conns[clients[u].sock])];
      }
      assert clients.Keys - left == clients.Keys;
    }

    /** The first loop of `close()`. */
    method RejectAll() returns (ghost order: seq<ReqId>)
      modifies this`requestTimers, this`settlements
      ensures ListsPending(old(State()), order)
      ensures settlements == old(settlements) + Rejected(order)
      ensures requestTimers == old(requestTimers) - pending.Keys
    {
      order := [];
      var left := pending.Keys;
      while left != {}
        invariant left <= pending.Keys
        invariant Distinct(order)
        invariant forall x :: x in order <==> x in pending && x !in left
        invariant settlements == old(settlements) + Rejected(order)
        invariant requestTimers == old(requestTimers) - (pending.Keys - left)
        decreases |left|
      {
        var id :| id in left;
        left := left - {id};
        requestTimers := requestTimers - {id};
        settlements := settlements + [Settlement(id, ServerClosing)];
        assert Rejected(order + [id]) == Rejected(order) + [Settlement(id, ServerClosing)];
        order := order + [id];
      }
    }

    /** `close()`: reject everything pending, terminate every registered socket, forget both. */
    method Close() returns (ghost order: seq<ReqId>)
      requires Valid()
      modifies this
      ensures ListsPending(old(State()), order)
      ensures Valid() && State() == CloseServer(old(State()), order)
    {
      hide Books, Directory, Terminated;
      ghost var was := State();
      ClientsHaveSockets(cfg, was);
      order := RejectAll();
      pending, pendingByClient := map[], map[];
      TerminateAll();
      clients := map[];
      events := events + [Shutdown];
      CloseServerKeepsBooks(cfg, was, order);
      CloseServerKeepsDirectory(cfg, was, order);
    }

    // -- connection lifecycle ------------------------------------------------

    method HandleConnection(w: Sock, cert: Certificate)
      requires Valid() && w !in conns
      modifies this
      ensures Valid() && State() == Accept(old(State()), w, cert)
      ensures w in conns && conns[w].registered == None && conns[w].cert == cert
      ensures cert.P256? ==> conns[w].ready == Open && conns[w].sent == []
      ensures cert == NoCertificate ==> conns[w].ready == Closing && conns[w].sent == [Error(CertificateRequired)]
      ensures cert == NotP256 ==> conns[w].ready == Closing && conns[w].sent == [Error(KeyMustBeP256)]
    {
      ghost var was := State();
      var c := Conn(cert, None, K.IDLE, Open, []);
      match cert {
        case NoCertificate => c := Shut(Send(c, Error(CertificateRequired)));
        case NotP256 => c := Shut(Send(c, Error(KeyMustBeP256)));
        case P256(_) =>
      }
      conns := conns[w := c];
      StepKeeps(cfg, was, AcceptStep(w, cert));
    }

    /** The closure's `cleanup`: the event goes out before the entry is deleted. */
    method Cleanup(w: Sock)
      requires w in conns
      modifies this`conns, this`events, this`clients
      ensures State() == Relay.Cleanup(old(State()), w)
    {
      var c := conns[w];
      c := c.(keepalive := c.keepalive.(pingDue := None));
      c := c.(keepalive := K.ClearPong(c.keepalive));
      if c.registered.Some? {
        var u := c.registered.value;
        if u in clients && clients[u].sock == w {
          events := events + [Disconnected(u)];
          clients := clients - {u};
        }
        c := c.(registered := None);
      }
      conns := conns[w := c];
    }

    method SendErrorAndClose(w: Sock, reason: Refusal)
      requires w in conns
      modifies this`conns
      ensures State() == Reject(old(State()), w, reason)
    {
      conns := conns[w := Send(conns[w], Error(reason))];
      conns := conns[w := Shut(conns[w])];
    }

    method OnResponse(r: Response)
      modifies this`pending, this`pendingByClient, this`requestTimers, this`settlements
      ensures State() == Relay.OnResponse(old(State()), r)
    {
      if r.status < 100 || r.status > 599 {
        return;
      }
      var req := RemovePending(r.id);
      if req.Some? {
        requestTimers := requestTimers - {r.id};
        settlements := settlements + [Settlement(r.id, Resolved(Flatten(r)))];
      }
    }

    /** The entry goes before its socket is terminated: the late close event must not find it. */
    method Evict(u: Uuid)
      requires u in clients ==> clients[u].sock in conns
      modifies this`clients, this`conns, this`events
      ensures State() == Relay.Evict(old(State()), u)
    {
      if u in clients {
        var previous := clients[u].sock;
        clients := clients - {u};
        events := events + [Disconnected(u)];
        conns := conns[previous := Shut(conns[previous])];
      }
    }

    /** An accepted hello: replace the previous socket, register, welcome, start the keepalive. */
    method Register(w: Sock, key: Bytes, now: nat)
      requires Valid() && Live(State(), w) && conns[w].registered == None
      modifies this`clients, this`conns, this`events
      ensures State() == Relay.Register(cfg, old(State()), w, key, now)
    {
      hide Relay.Evict;
      ghost var was := State();
      var point := conns[w].cert.point;
      var u := cfg.uuidOf(point);
      ClientsHaveSockets(cfg, was);
      EvictLeavesBooks(was, u);
      Evict(u);
      assert State() == Relay.Evict(was, u);
      clients := clients[u := Client(w, u, point, key)];
      var c := conns[w].(registered := Some(u));
      c := Send(c, Welcome(u));
      events := events + [Connected(u)];
      conns := conns[w := c.(keepalive := K.Start(c.keepalive, cfg.timing, now))];
    }

    method OnMessage(w: Sock, frame: ClientFrame, now: nat)
      requires Valid() && Live(State(), w)
      modifies this
      ensures Valid() && State() == Relay.OnMessage(cfg, old(State()), w, frame, now)
    {
      ghost var was := State();
      if frame.NotJson? {
        SendErrorAndClose(w, InvalidJson);
      } else if conns[w].registered == None {
        if frame.HelloWithoutKey? {
          SendErrorAndClose(w, DecryptPubkeyRequired);
        } else if !frame.Hello? {
          SendErrorAndClose(w, ExpectedHello);
        } else {
          var err := ValidateDecryptPubkey(cfg, frame.decryptPubkey);
          if err.Some? {
            SendErrorAndClose(w, err.value);
          } else {
            Register(w, frame.decryptPubkey, now);
          }
        }
      } else if frame.ResponseFrame? {
        OnResponse(frame.resp);
      }
      MessageKeeps(cfg, was, w, frame, now);
    }

    method OnPingTick(w: Sock, now: nat)
      requires Valid() && w in conns && conns[w].keepalive.pingDue.Some?
      modifies this
      ensures Valid() && State() == Relay.OnPingTick(cfg, old(State()), w, now)
    {
      ghost var was := State();
      if conns[w].ready != Open {
        Cleanup(w);
      } else {
        conns := conns[w := conns[w].(keepalive := K.Ping(conns[w].keepalive, cfg.timing, now))];
      }
      StepKeeps(cfg, was, PingTickStep(w, now));
    }

    method OnPongTimeout(w: Sock, h: K.Handle)
      requires Valid() && w in conns && h in conns[w].keepalive.armed
      modifies this
      ensures Valid() && State() == Relay.OnPongTimeout(old(State()), w, h)
    {
      ghost var was := State();
      conns := conns[w := conns[w].(keepalive := K.Fire(conns[w].keepalive, h))];
      conns := conns[w := Shut(conns[w])];
      Cleanup(w);
      StepKeeps(cfg, was, PongTimeoutStep(w, h));
    }

    method OnPong(w: Sock)
      requires Valid() && Live(State(), w)
      modifies this
      ensures Valid() && State() == Relay.OnPong(old(State()), w)
    {
      ghost var was := State();
      conns := conns[w := conns[w].(keepalive := K.ClearPong(conns[w].keepalive))];
      StepKeeps(cfg, was, PongStep(w));
    }

    method OnClose(w: Sock)
      requires Valid() && w in conns && conns[w].ready != Closed
      modifies this
      ensures Valid() && State() == Relay.OnClose(old(State()), w)
    {
      hide Relay.Cleanup, Books, Directory;
      ghost var was := State();
      conns := conns[w := conns[w].(ready := Closed)];
      if conns[w].cert.P256? {
        Cleanup(w);
      }
      StepKeeps(cfg, was, CloseEventStep(w));
    }

    method OnError(w: Sock)
      requires Valid() && w in conns && conns[w].ready != Closed
      modifies this
      ensures Valid() && State() == Relay.OnError(old(State()), w)
    {
      hide Relay.Cleanup, Books, Directory;
      ghost var was := State();
      conns := conns[w := Shut(conns[w])];
      if conns[w].cert.P256? {
        Cleanup(w);
      }
      StepKeeps(cfg, was, ErrorEventStep(w));
    }
  }
}
