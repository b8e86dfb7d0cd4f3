/** An abstract model of the countdown timer the game takes from an external
    crate. Its source is not part of this model: the behaviour below is an
    assumption. Durations are natural numbers of milliseconds. */
module Timers {

  datatype Timer = Timer(duration: nat, timeLeft: nat, ready: bool) {

    /** A freshly armed timer of the given period. */
    static function FromMillis(ms: nat): (t: Timer)
      ensures t.duration == ms && t.timeLeft == ms && !t.ready
      ensures ms > 0 ==> t.Valid()
    {
      Timer(ms, ms, false)
    }

    /** Well-formed timers: a positive period, a remaining time within it,
        and `ready` exactly when nothing is left. */
    predicate Valid() {
      duration > 0 && timeLeft <= duration && (ready <==> timeLeft == 0)
    }

    /** Counts `d` milliseconds down, saturating at zero, and latches `ready`
        once the count reaches zero. */
    function Update(d: nat): (t: Timer)
      ensures Valid() ==> t.Valid()
      ensures t.duration == duration && t.timeLeft <= timeLeft
      ensures t.ready <==> ready || d >= timeLeft
    {
      var left := if timeLeft > d then timeLeft - d else 0;
      Timer(duration, left, ready || left == 0)
    }

    /** Re-arms the timer with its own period. */
    function Reset(): (t: Timer)
      ensures !t.ready && t.duration == duration && t.timeLeft == duration
      ensures Valid() ==> t.Valid()
    {
      Timer(duration, duration, false)
    }
  }
}
