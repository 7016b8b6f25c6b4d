/** The whole seconds a countdown shows: `Math.ceil(Math.max(0, deadlineMs - now) / 1000)`. */
module Countdown {

  /** The milliseconds still to go, floored at 0. */
  function Remaining(deadlineMs: int, now: int): nat {
    if deadlineMs - now > 0 then deadlineMs - now else 0
  }

  /** The seconds shown: the smallest whole number of seconds that covers the time still to go. */
  function SecondsLeft(deadlineMs: int, now: int): (s: nat)
    ensures Remaining(deadlineMs, now) <= s * 1000 < Remaining(deadlineMs, now) + 1000
    ensures s == 0 <==> now >= deadlineMs
  {
    (Remaining(deadlineMs, now) + 999) / 1000
  }

  /** A later clock never shows more seconds. */
  lemma SecondsLeftMonotone(deadlineMs: int, now: int, later: int)
    requires now <= later
    ensures SecondsLeft(deadlineMs, later) <= SecondsLeft(deadlineMs, now)
  {
  }
}
