/**
 * The keepalive closure that `handleConnection` creates for each socket: the
 * interval `pingTimer`, the variable `pongTimer`, and the timers the runtime
 * actually holds armed. The variable and the armed timers are kept apart on
 * purpose: every tick overwrites the variable without clearing the timer it
 * held, so a timer can stay armed that no variable refers to.
 */
module Keepalive {
  import opened Prelude

  type Handle = nat

  datatype Timing = Timing(pingIntervalMs: int, pongTimeoutMs: int)

  const TIMEOUT_MAX := 0x7fff_ffff

  /** The delay the runtime's timers use: anything outside 1..TIMEOUT_MAX counts as 1. */
  function Delay(ms: int): (d: nat) {
    if 1 <= ms <= TIMEOUT_MAX then ms else 1
  }

  lemma DelayExactly(ms: int)
    ensures 1 <= ms <= 2147483647 ==> Delay(ms) == ms
    ensures !(1 <= ms <= 2147483647) ==> Delay(ms) == 1
  {
  }

  /**
   * pingDue   - when the interval fires next; None when `pingTimer` is null
   * pongTimer - the closure variable
   * armed     - deadline of every pong timer that is armed
   * next      - handle of the next timer to be created
   */
  datatype Keepalive = Keepalive(
    pingDue: Option<nat>,
    pongTimer: Option<Handle>,
    armed: map<Handle, nat>,
    next: Handle)

  const IDLE := Keepalive(None, None, map[], 0)

  function Start(k: Keepalive, t: Timing, now: nat): Keepalive {
    k.(pingDue := Some(now + Delay(t.pingIntervalMs)))
  }

  /** An interval tick on an open socket: ping, then arm a pong timer. */
  function Ping(k: Keepalive, t: Timing, now: nat): Keepalive {
    k.(pingDue := Some(now + Delay(t.pingIntervalMs)),
       pongTimer := Some(k.next),
       armed := k.armed[k.next := now + Delay(t.pongTimeoutMs)],
       next := k.next + 1)
  }

  /** clearTimeout(pongTimer); pongTimer = null - if it is not null. */
  function ClearPong(k: Keepalive): Keepalive {
    match k.pongTimer
    case None => k
    case Some(h) => k.(armed := Without(k.armed, h), pongTimer := None)
  }

  /** The timer half of `cleanup`. */
  function Clear(k: Keepalive): Keepalive {
    ClearPong(k.(pingDue := None))
  }

  /** The runtime fires an armed timer: it is no longer armed. The variable still holds it. */
  function Fire(k: Keepalive, h: Handle): Keepalive {
    k.(armed := Without(k.armed, h))
  }

  /** Handles are fresh, and a non-null variable holds a handle that was created. */
  ghost predicate Ok(k: Keepalive) {
    && (forall h :: h in k.armed ==> h < k.next)
    && (k.pongTimer.Some? ==> k.pongTimer.value < k.next)
  }
}
