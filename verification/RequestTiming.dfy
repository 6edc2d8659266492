/** How long a request may stay pending: from the moment it is admitted, no longer than the request timeout. */
module RequestTiming {
  import opened Prelude
  import opened Relay
  import opened RelayInvariants
  import opened KeepaliveTiming
  import K = Keepalive

  /** No request timer is overdue. */
  ghost predicate NoneOverdue(c: Clocked) {
    forall id :: id in c.server.pending ==> id in c.due && c.now <= c.due[id]
  }

  /** `ids` is all that `t` may have admitted and put into `pending` since `s`. */
  ghost predicate Admits(s: Server, t: Server, ids: set<ReqId>) {
    && s.admitted.Keys <= t.admitted.Keys <= s.admitted.Keys + ids
    && t.pending.Keys <= s.pending.Keys + ids
  }

  lemma ForwardAdmits(cfg: Config, s: Server, u: Uuid, req: Request, b: nat)
    ensures Admits(s, Forward(cfg, s, u, req, b), {req.id})
  {
  }

  lemma MessageAdmits(cfg: Config, s: Server, w: Sock, f: ClientFrame, now: nat)
    requires Live(s, w)
    ensures Admits(s, OnMessage(cfg, s, w, f, now), {})
  {
    if !(f.ResponseFrame? && Answers(s, w, f, f.resp.id)) {
      OtherMessagesLeaveBooks(cfg, s, w, f, now);
    }
  }

  lemma StepAdmits(cfg: Config, s: Server, step: Step)
    requires Inv(cfg, s) && Enabled(s, step)
    ensures Admits(s, Next(cfg, s, step), if IsForward(step) then {step.req.id} else {})
  {
    match step
    case MessageStep(w, f, now) => MessageAdmits(cfg, s, w, f, now);
    case ForwardStep(u, req, b) => ForwardAdmits(cfg, s, u, req, b);
    case HttpForwardStep(u, req, b) =>
      if u in s.clients { ForwardAdmits(cfg, Emit(s, Recorded(u)), u, req, b); }
    case RequestTimeoutStep(_) =>
    case CloseServerStep(_) =>
    case _ => SocketEventKeeps(cfg, s, step);
  }

  /** Time stands still, and every newly pending request gets a deadline that is not past. */
  lemma NewDeadlines(s: Server, t: Server, ids: set<ReqId>, now: nat, due: map<ReqId, nat>, due': map<ReqId, nat>)
    requires Admits(s, t, ids) && s.pending.Keys !! ids
    requires forall id :: id in s.pending ==> id in due && now <= due[id]
    requires forall id :: id in due && id !in ids ==> id in due' && due'[id] == due[id]
    requires forall id :: id in t.pending && id in ids ==> id in due' && now <= due'[id]
    ensures forall id :: id in t.pending ==> id in due' && now <= due'[id]
  {
  }

  lemma StepIsPunctual(cfg: Config, c: Clocked, step: Step)
    requires Inv(cfg, c.server) && NoneOverdue(c) && Allowed(c, Do(step))
    ensures NoneOverdue(Advance(cfg, c, Do(step)))
  {
    hide Next;
    var ids := if IsForward(step) then {step.req.id} else {};
    var c' := Advance(cfg, c, Do(step));
    StepAdmits(cfg, c.server, step);
    StepKeeps(cfg, c.server, step);
    NewDeadlines(c.server, c'.server, ids, c.now, c.due, c'.due);
  }

  lemma MoveIsPunctual(cfg: Config, c: Clocked, m: Move)
    requires Inv(cfg, c.server) && NoneOverdue(c) && Allowed(c, m)
    ensures Inv(cfg, Advance(cfg, c, m).server) && NoneOverdue(Advance(cfg, c, m))
  {
    if m.Do? {
      StepKeeps(cfg, c.server, m.step);
      StepIsPunctual(cfg, c, m.step);
    }
  }

  lemma {:induction false} TimelineIsPunctual(cfg: Config, moves: seq<Move>)
    requires Timeline(cfg, moves)
    ensures Inv(cfg, At(cfg, moves).server) && NoneOverdue(At(cfg, moves))
    decreases |moves|
  {
    if moves == [] {
      RunKeeps(cfg, []);
    } else {
      var before := moves[..|moves| - 1];
      TimelineIsPunctual(cfg, before);
      MoveIsPunctual(cfg, At(cfg, before), moves[|moves| - 1]);
    }
  }

  /** Request `id` has been admitted, and its timer was armed for `deadline`. */
  ghost predicate DueAt(c: Clocked, id: ReqId, deadline: nat) {
    id in c.server.admitted && id in c.due && c.due[id] == deadline
  }

  /** A deadline is set once. */
  lemma MoveKeepsDeadline(cfg: Config, c: Clocked, m: Move, id: ReqId, deadline: nat)
    requires Inv(cfg, c.server) && Allowed(c, m) && DueAt(c, id, deadline)
    ensures DueAt(Advance(cfg, c, m), id, deadline)
  {
    if m.Do? { StepAdmits(cfg, c.server, m.step); }
  }

  lemma NewlyAdmittedIsPending(cfg: Config, s: Server, step: Step, id: ReqId)
    requires Inv(cfg, s) && Enabled(s, step) && id !in s.admitted && id in Next(cfg, s, step).admitted
    ensures ArmsRequestTimer(cfg, s, step) && step.req.id == id
  {
    StepAdmits(cfg, s, step);
  }

  lemma AdmissionSetsDeadline(cfg: Config, c: Clocked, m: Move, id: ReqId)
    requires Inv(cfg, c.server) && Allowed(c, m)
    requires id !in c.server.admitted && id in Advance(cfg, c, m).server.admitted
    ensures DueAt(Advance(cfg, c, m), id, c.now + K.Delay(cfg.requestTimeoutMs))
  {
    NewlyAdmittedIsPending(cfg, c.server, m.step, id);
  }

  /** Move number `k` is the forward that admits request `id`. */
  ghost predicate AdmittedBy(cfg: Config, moves: seq<Move>, k: nat, id: ReqId) {
    && k < |moves| && Timeline(cfg, moves[..k]) && Timeline(cfg, moves[..k + 1])
    && id !in At(cfg, moves[..k]).server.admitted && id in At(cfg, moves[..k + 1]).server.admitted
  }

  lemma {:induction false} DeadlineOf(cfg: Config, moves: seq<Move>, k: nat, id: ReqId)
    requires Timeline(cfg, moves) && AdmittedBy(cfg, moves, k, id)
    ensures DueAt(At(cfg, moves), id, At(cfg, moves[..k]).now + K.Delay(cfg.requestTimeoutMs))
    decreases |moves|
  {
    hide Advance, Allowed, DueAt;
    var n := |moves| - 1;
    var before := moves[..n];
    TimelineIsPunctual(cfg, before);
    if k == n {
      assert moves[..n + 1] == moves;
      AdmissionSetsDeadline(cfg, At(cfg, before), moves[n], id);
    } else {
      assert before[..k] == moves[..k] && before[..k + 1] == moves[..k + 1];
      DeadlineOf(cfg, before, k, id);
      MoveKeepsDeadline(cfg, At(cfg, before), moves[n], id, At(cfg, moves[..k]).now + K.Delay(cfg.requestTimeoutMs));
    }
  }

  /** Settled, or pending and not overdue; a timeout is possible at the deadline and only then. */
  ghost predicate Settles(c: Clocked, id: ReqId, deadline: nat) {
    && (id in SettledIds(c.server.settlements) || (id in c.server.pending && c.now <= deadline))
    && (Allowed(c, Do(RequestTimeoutStep(id))) <==> id in c.server.pending && c.now == deadline)
  }

  lemma DueSettles(cfg: Config, c: Clocked, id: ReqId, deadline: nat)
    requires Inv(cfg, c.server) && NoneOverdue(c) && DueAt(c, id, deadline)
    ensures Settles(c, id, deadline)
  {
  }

  /**
   * Counting from the move that admitted a request: it is settled before the request timeout
   * has passed or at that very moment, and it can time out at no other moment.
   */
  lemma SettledWithinTimeout(cfg: Config, moves: seq<Move>, k: nat, id: ReqId)
    requires Timeline(cfg, moves) && AdmittedBy(cfg, moves, k, id)
    ensures Settles(At(cfg, moves), id, At(cfg, moves[..k]).now + K.Delay(cfg.requestTimeoutMs))
  {
    hide Settles, DueAt, At;
    TimelineIsPunctual(cfg, moves);
    DeadlineOf(cfg, moves, k, id);
    DueSettles(cfg, At(cfg, moves), id, At(cfg, moves[..k]).now + K.Delay(cfg.requestTimeoutMs));
  }
}
