/**
 * The daemon's end of one socket: `adaptWs` buffers frames during the handshake,
 * then `detach`, replay and `serve` hand the socket over without a gap.
 */
module Handover {
  datatype Phase = Buffering | Serving | Gone

  /** How a `recv()` call ended. */
  datatype Answer<+F> = Given(frame: F) | Rejected

  /**
   * waiters - tickets of the `recv()` calls still waiting, oldest first
   * calls   - number of `recv()` calls made; they are numbered from 0
   * answers - how each finished call ended
   * taken   - frames given to `recv()` calls, in order
   * handled - frames passed to `handleFrame`, in order
   */
  datatype Link<F> = Link(
    phase: Phase,
    inbox: seq<F>,
    waiters: seq<nat>,
    failed: bool,
    calls: nat,
    answers: map<nat, Answer<F>>,
    taken: seq<F>,
    handled: seq<F>)

  function NewLink<F>(): Link<F> {
    Link(Buffering, [], [], false, 0, map[], [], [])
  }

  /** A message event: the adapter's listener while buffering, `serve`'s listener after. */
  function Arrive<F>(l: Link<F>, f: F): Link<F> {
    match l.phase
    case Buffering =>
      if l.waiters != [] then
        l.(waiters := l.waiters[1..], answers := l.answers[l.waiters[0] := Given(f)], taken := l.taken + [f])
      else l.(inbox := l.inbox + [f])
    case Serving => l.(handled := l.handled + [f])
    case Gone => l
  }

  function Recv<F>(l: Link<F>): Link<F> {
    var l' := l.(calls := l.calls + 1);
    if l.failed then l'.(answers := l.answers[l.calls := Rejected])
    else if l.inbox != [] then
      l'.(inbox := l.inbox[1..], answers := l.answers[l.calls := Given(l.inbox[0])], taken := l.taken + [l.inbox[0]])
    else l'.(waiters := l.waiters + [l.calls])
  }

  function Rejections<F>(tickets: seq<nat>): map<nat, Answer<F>> {
    map t | t in tickets :: Rejected
  }

  /**
   * A socket error or close. The adapter's listeners reject every waiting call and
   * every later one; those of `serve` take its message listener off the socket.
   */
  function Fail<F>(l: Link<F>): Link<F> {
    match l.phase
    case Buffering =>
      l.(failed := true, waiters := [], answers := l.answers + Rejections(l.waiters))
    case Serving => l.(phase := Gone)
    case Gone => l
  }

  /** `detach()`, replay of what it returned, and `serve()` - which attaches nothing to a closed socket. */
  function HandOver<F>(l: Link<F>, closed: bool): Link<F>
    requires l.phase == Buffering
  {
    l.(phase := if closed then Gone else Serving, inbox := [], handled := l.handled + l.inbox)
  }

  datatype Event<F> = ArriveEvent(f: F) | RecvEvent | FailEvent | HandOverEvent(closed: bool)

  predicate Possible<F>(l: Link<F>, e: Event<F>) {
    e.HandOverEvent? ==> l.phase == Buffering
  }

  function Step<F>(l: Link<F>, e: Event<F>): Link<F>
    requires Possible(l, e)
  {
    match e
    case ArriveEvent(f) => Arrive(l, f)
    case RecvEvent => Recv(l)
    case FailEvent => Fail(l)
    case HandOverEvent(closed) => HandOver(l, closed)
  }

  /** Every frame of the schedule `es`, in order of arrival. */
  function Arrivals<F>(es: seq<Event<F>>): seq<F> {
    if es == [] then []
    else
      var before := Arrivals(es[..|es| - 1]);
      match es[|es| - 1]
      case ArriveEvent(f) => before + [f]
      case _ => before
  }

  ghost predicate Schedule<F(!new)>(es: seq<Event<F>>)
    decreases |es|, 0
  {
    es == [] ||
    (Schedule(es[..|es| - 1]) && Possible(After(es[..|es| - 1]), es[|es| - 1]))
  }

  ghost function After<F(!new)>(es: seq<Event<F>>): Link<F>
    requires Schedule(es)
    decreases |es|, 1
  {
    if es == [] then NewLink() else Step(After(es[..|es| - 1]), es[|es| - 1])
  }

  /** Frames are never both waiting and waited for; waiting calls are the latest ones, in order. */
  ghost predicate Fair<F>(l: Link<F>) {
    && (l.inbox == [] || l.waiters == [])
    && (l.failed ==> l.waiters == [])
    && (if l.phase == Buffering then l.handled == [] else l.inbox == [])
    && (!l.failed ==> |l.taken| + |l.waiters| == l.calls)
    && |l.taken| + |l.waiters| <= l.calls
    && (forall i :: 0 <= i < |l.waiters| ==> l.waiters[i] == |l.taken| + i)
    && (forall t :: t in l.answers && t >= |l.taken| ==> l.answers[t] == Rejected)
    && (forall t :: 0 <= t < |l.taken| ==> t in l.answers && l.answers[t] == Given(l.taken[t]))
    && (forall t :: 0 <= t < l.calls ==> t in l.answers || t in l.waiters)
  }

  lemma ArriveFair<F>(l: Link<F>, f: F)
    requires Fair(l)
    ensures Fair(Arrive(l, f))
  {
  }

  lemma RecvFair<F>(l: Link<F>)
    requires Fair(l)
    ensures Fair(Recv(l))
  {
  }

  lemma StepFair<F>(l: Link<F>, e: Event<F>)
    requires Fair(l) && Possible(l, e)
    ensures Fair(Step(l, e))
  {
    match e
    case ArriveEvent(f) => ArriveFair(l, f);
    case RecvEvent => RecvFair(l);
    case FailEvent =>
    case HandOverEvent(_) =>
  }

  /** The frames a link has seen: taken, then handled, then still buffered. */
  function Seen<F>(l: Link<F>): seq<F> {
    l.taken + l.handled + l.inbox
  }

  lemma StepConserves<F>(l: Link<F>, e: Event<F>)
    requires Fair(l) && Possible(l, e)
    ensures
      if e.ArriveEvent? && l.phase != Gone then Seen(Step(l, e)) == Seen(l) + [e.f]
      else Seen(Step(l, e)) == Seen(l)
  {
  }

  lemma {:induction false} ScheduleFair<F(!new)>(es: seq<Event<F>>)
    requires Schedule(es)
    ensures Fair(After(es))
    ensures Seen(After(es)) <= Arrivals(es)
    ensures After(es).phase != Gone ==> Seen(After(es)) == Arrivals(es)
    decreases |es|
  {
    if es != [] {
      var before, e := es[..|es| - 1], es[|es| - 1];
      ScheduleFair(before);
      StepFair(After(before), e);
      StepConserves(After(before), e);
    }
  }

  /** Event number `i` hands over a socket that is not closed, and nothing fails after it. */
  ghost predicate ServedSince<F>(es: seq<Event<F>>, i: nat) {
    i < |es| && es[i] == HandOverEvent(false) && forall j :: i < j < |es| ==> !es[j].FailEvent?
  }

  ghost predicate Served<F>(es: seq<Event<F>>) {
    exists i: nat :: ServedSince(es, i)
  }

  lemma ServedByLast<F(!new)>(es: seq<Event<F>>)
    requires es != []
    ensures
      var before, e := es[..|es| - 1], es[|es| - 1];
      Served(es) <==> e == HandOverEvent(false) || (Served(before) && !e.FailEvent?)
  {
    var n := |es| - 1;
    if Served(es) {
      var i: nat :| ServedSince(es, i);
      if i < n { assert ServedSince(es[..n], i); }
    }
    if es[n] == HandOverEvent(false) { assert ServedSince(es, n); }
    if Served(es[..n]) && !es[n].FailEvent? {
      var i: nat :| ServedSince(es[..n], i);
      assert ServedSince(es, i);
    }
  }

  /**
   * On every schedule a link buffers until its hand-over, and it is served exactly if a
   * socket not closed was handed over and nothing has failed since.
   */
  lemma {:induction false} ServedExactly<F(!new)>(es: seq<Event<F>>)
    requires Schedule(es)
    ensures After(es).phase == Buffering <==> forall i :: 0 <= i < |es| ==> !es[i].HandOverEvent?
    ensures After(es).phase == Serving <==> Served(es)
    decreases |es|
  {
    if es != [] {
      ServedExactly(es[..|es| - 1]);
      ServedByLast(es);
    }
  }

  /**
   * On every schedule the frames given to `recv`, then those replayed, then those of
   * `serve`'s listener are the first arrivals, in order. While the link is served they
   * are all of them.
   */
  lemma NoFrameLost<F(!new)>(es: seq<Event<F>>)
    requires Schedule(es)
    ensures After(es).taken + After(es).handled <= Arrivals(es)
    ensures Served(es) ==> After(es).taken + After(es).handled == Arrivals(es)
  {
    ServedExactly(es);
    ScheduleFair(es);
    assert After(es).taken + After(es).handled <= Seen(After(es));
  }

  /** Once `serve` has seen an error or a close, nothing that still arrives is handled. */
  lemma {:induction false} NothingAfterFailure<F(!new)>(es: seq<Event<F>>, more: seq<Event<F>>)
    requires Schedule(es) && Served(es) && Schedule(es + [FailEvent] + more)
    ensures After(es + [FailEvent] + more).phase == Gone
    ensures After(es + [FailEvent] + more).handled == After(es).handled
    decreases |more|
  {
    var all := es + [FailEvent] + more;
    if more == [] {
      ServedExactly(es);
      assert all[..|all| - 1] == es;
    } else {
      assert all[..|all| - 1] == es + [FailEvent] + more[..|more| - 1];
      NothingAfterFailure(es, more[..|more| - 1]);
    }
  }

  ghost predicate FailsAt<F>(es: seq<Event<F>>, i: nat) {
    i < |es| && es[i].FailEvent? && forall j :: 0 <= j < i ==> !es[j].HandOverEvent?
  }

  /** The socket failed before it was handed over, if it ever was. */
  ghost predicate FailedEarly<F>(es: seq<Event<F>>) {
    exists i: nat :: FailsAt(es, i)
  }

  lemma FailedByLast<F(!new)>(es: seq<Event<F>>)
    requires es != []
    ensures
      var before, e := es[..|es| - 1], es[|es| - 1];
      FailedEarly(es) <==>
        FailedEarly(before) || (e.FailEvent? && forall j :: 0 <= j < |before| ==> !before[j].HandOverEvent?)
  {
    var n := |es| - 1;
    if FailedEarly(es) {
      var i: nat :| FailsAt(es, i);
      if i < n { assert FailsAt(es[..n], i); }
    }
    if FailedEarly(es[..n]) {
      var i: nat :| FailsAt(es[..n], i);
      assert FailsAt(es, i);
    }
    if es[n].FailEvent? && (forall j :: 0 <= j < n ==> !es[..n][j].HandOverEvent?) { assert FailsAt(es, n); }
  }

  lemma {:induction false} FailedExactly<F(!new)>(es: seq<Event<F>>)
    requires Schedule(es)
    ensures After(es).failed <==> FailedEarly(es)
    decreases |es|
  {
    if es != [] {
      FailedExactly(es[..|es| - 1]);
      ServedExactly(es[..|es| - 1]);
      FailedByLast(es);
    }
  }

  /**
   * A frame and a waiting call never coexist, and a call that gets a frame gets the one
   * with its own number. Until a failure or the hand-over every call either has got that
   * frame or waits for it.
   */
  lemma CallsGetFramesInOrder<F(!new)>(es: seq<Event<F>>, t: nat)
    requires Schedule(es)
    ensures After(es).inbox == [] || After(es).waiters == []
    ensures t in After(es).answers && After(es).answers[t].Given? ==>
              t < |Arrivals(es)| && After(es).answers[t].frame == Arrivals(es)[t]
    ensures t < After(es).calls && (forall i :: 0 <= i < |es| ==> !es[i].FailEvent? && !es[i].HandOverEvent?) ==>
              if t < |Arrivals(es)| then t in After(es).answers && After(es).answers[t] == Given(Arrivals(es)[t])
              else t in After(es).waiters
  {
    ScheduleFair(es);
    ServedExactly(es);
    FailedExactly(es);
    var l := After(es);
    if t in l.answers && l.answers[t].Given? {
      assert Seen(l)[t] == l.taken[t];
    }
    if t < |l.taken| {
      assert Seen(l)[t] == l.taken[t];
    } else if t < l.calls && !l.failed {
      assert l.waiters[t - |l.taken|] == t;
    }
  }

  /** After a failure before the hand-over no call waits: it got a frame or is rejected, as is every later one. */
  lemma FailureRejectsCalls<F(!new)>(es: seq<Event<F>>, t: nat)
    requires Schedule(es) && FailedEarly(es)
    ensures After(es).waiters == []
    ensures t < After(es).calls ==>
              t in After(es).answers && (t >= |After(es).taken| ==> After(es).answers[t] == Rejected)
    ensures
      var l := Recv(After(es));
      After(es).calls in l.answers && l.answers[After(es).calls] == Rejected
  {
    ScheduleFair(es);
    FailedExactly(es);
  }

  lemma RejectionsSnoc<F>(tickets: seq<nat>, t: nat)
    ensures Rejections<F>(tickets + [t]) == Rejections<F>(tickets)[t := Rejected]
  {
  }

  /** The adapter's closure and the connection that takes its socket over. */
  class Socket<F> {
    var phase: Phase
    var inbox: seq<F>
    var waiters: seq<nat>
    var failed: bool
    var calls: nat
    var answers: map<nat, Answer<F>>
    ghost var taken: seq<F>
    ghost var handled: seq<F>

    ghost function State(): Link<F>
      reads this
    {
      Link(phase, inbox, waiters, failed, calls, answers, taken, handled)
    }

    ghost predicate Valid()
      reads this
    {
      Fair(State())
    }

    constructor ()
      ensures State() == NewLink() && Valid()
    {
      phase, inbox, waiters, failed, calls, answers := Buffering, [], [], false, 0, map[];
      taken, handled := [], [];
    }

    /** `handleFrame` starts; what it does with the frame is modelled in EndToEnd. */
    ghost method HandleFrame(frame: F)
      modifies this`handled
      ensures handled == old(handled) + [frame]
    {
      handled := handled + [frame];
    }

    method OnMessage(frame: F)
      requires Valid()
      modifies this
      ensures Valid() && State() == Arrive(old(State()), frame)
    {
      hide Fair;
      StepFair(State(), ArriveEvent(frame));
      match phase {
        case Buffering =>
          if waiters != [] {
            var next := waiters[0];
            waiters := waiters[1..];
            answers := answers[next := Given(frame)];
            taken := taken + [frame];
          } else {
            inbox := inbox + [frame];
          }
        case Serving => HandleFrame(frame);
        case Gone =>
      }
    }

    method Receive() returns (ticket: nat)
      requires Valid()
      modifies this
      ensures Valid() && State() == Recv(old(State())) && ticket == old(calls)
    {
      hide Fair;
      StepFair(State(), RecvEvent);
      ticket := calls;
      calls := calls + 1;
      if failed {
        answers := answers[ticket := Rejected];
        return;
      }
      if inbox != [] {
        var queued := inbox[0];
        inbox := inbox[1..];
        answers := answers[ticket := Given(queued)];
        taken := taken + [queued];
      } else {
        waiters := waiters + [ticket];
      }
    }

    method RejectEach(dropped: seq<nat>)
      modifies this`answers
      ensures answers == old(answers) + Rejections(dropped)
    {
      var i := 0;
      while i < |dropped|
        invariant 0 <= i <= |dropped|
        invariant answers == old(answers) + Rejections(dropped[..i])
      {
        RejectionsSnoc<F>(dropped[..i], dropped[i]);
        assert dropped[..i + 1] == dropped[..i] + [dropped[i]];
        answers := answers[dropped[i] := Rejected];
        i := i + 1;
      }
      assert dropped[..|dropped|] == dropped;
    }

    method OnFailure()
      requires Valid()
      modifies this
      ensures Valid() && State() == Fail(old(State()))
    {
      hide Fair;
      StepFair(State(), FailEvent);
      match phase {
        case Buffering =>
          failed := true;
          var dropped := waiters;
          waiters := [];
          RejectEach(dropped);
        case Serving => phase := Gone;
        case Gone =>
      }
    }

    method Detach() returns (leftover: seq<F>)
      requires Valid() && phase == Buffering
      modifies this`inbox, this`phase
      ensures leftover == old(inbox) && inbox == [] && phase == Gone
    {
      leftover := inbox;
      inbox, phase := [], Gone;
    }

    /** detach, replay every leftover frame, then serve: no await in between. */
    method HandOverTo(closed: bool)
      requires Valid() && phase == Buffering
      modifies this
      ensures Valid() && State() == HandOver(old(State()), closed)
    {
      hide Fair;
      StepFair(State(), HandOverEvent(closed));
      var leftover := Detach();
      var i := 0;
      while i < |leftover|
        invariant 0 <= i <= |leftover|
        invariant State() == old(State()).(inbox := [], phase := Gone, handled := old(handled) + leftover[..i])
      {
        HandleFrame(leftover[i]);
        i := i + 1;
        assert leftover[..i] == leftover[..i - 1] + [leftover[i - 1]];
      }
      assert leftover[..|leftover|] == leftover;
      if !closed {
        phase := Serving;
      }
    }
  }
}
