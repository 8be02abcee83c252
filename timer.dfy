/** The countdown shown beside a question (src/components/Timer.tsx). */
module Timer {

  /** The updater given to `setTimeLeft` by the interval callback. */
  function Countdown(prev: int): (next: int)
    ensures next >= 0
    ensures next == 0 <==> prev <= 1
    ensures prev > 1 ==> next == prev - 1
  {
    if prev <= 1 then 0 else prev - 1
  }

  /** The timer's state cell `timeLeft`, its props, and whether an interval is
      running. `timeUpCount` counts the calls of `onTimeUp`. */
  class Timer {
    var duration: int
    var isActive: bool
    var timeLeft: int
    var running: bool
    ghost var timeUpCount: nat

    /** `timeLeft` is never negative. */
    ghost predicate NonNegative()
      reads this
    {
      timeLeft >= 0
    }

    /** Mounting: `useState(duration)`, then the interval effect starts an
        interval when the timer is active. */
    constructor (duration: int, isActive: bool)
      ensures this.duration == duration && this.isActive == isActive
      ensures timeLeft == duration && running == isActive && timeUpCount == 0
      ensures duration >= 0 ==> NonNegative()
    {
      this.duration := duration;
      this.isActive := isActive;
      timeLeft := duration;
      running := isActive;
      timeUpCount := 0;
    }

    /** A render with a new `duration`: the first effect resets `timeLeft`,
        the interval effect replaces the interval. An unchanged duration runs
        neither effect here. */
    method DurationChanged(d: int)
      modifies this
      ensures duration == d && isActive == old(isActive) && timeUpCount == old(timeUpCount)
      ensures timeLeft == (if d != old(duration) then d else old(timeLeft))
      ensures running == (if d != old(duration) then isActive else old(running))
      ensures old(NonNegative()) && d >= 0 ==> NonNegative()
    {
      if d != duration {
        duration := d;
        timeLeft := d;
        running := isActive;
      }
    }

    /** The interval effect runs again (its dependencies `duration`,
        `onTimeUp`, `isActive` changed): the old interval is cleared and a new
        one started when active; `timeLeft` is left as it is. */
    method IntervalEffect(active: bool)
      modifies this
      ensures isActive == active && running == active
      ensures duration == old(duration) && timeLeft == old(timeLeft) && timeUpCount == old(timeUpCount)
    {
      isActive := active;
      running := active;
    }

    /** One firing of the interval callback. With `prev <= 1` it clears the
        interval, calls `onTimeUp` (reported as `timeUp`) and stores 0;
        otherwise it stores `prev - 1`. Without a running interval nothing
        happens. */
    method Tick() returns (timeUp: bool)
      modifies this
      ensures timeUp <==> old(running) && old(timeLeft) <= 1
      ensures timeLeft == (if old(running) then Countdown(old(timeLeft)) else old(timeLeft))
      ensures running == (old(running) && !timeUp)
      ensures timeUpCount == old(timeUpCount) + (if timeUp then 1 else 0)
      ensures duration == old(duration) && isActive == old(isActive)
      ensures old(NonNegative()) ==> NonNegative()
    {
      timeUp := false;
      if running {
        if timeLeft <= 1 {
          running := false;
          timeUp := true;
          timeUpCount := timeUpCount + 1;
        }
        timeLeft := Countdown(timeLeft);
      }
    }
  }

  /** A freshly started countdown of `n >= 1` seconds calls `onTimeUp` exactly
      once, on the `n`-th tick, and never again while the interval is
      cleared. `fired[i]` is what tick `i` reported, for `n + extra` ticks. */
  method RunOut(t: Timer, extra: nat) returns (fired: seq<bool>)
    requires t.running && t.timeLeft >= 1
    modifies t
    ensures |fired| == old(t.timeLeft) + extra
    ensures forall i :: 0 <= i < |fired| ==> (fired[i] <==> i == old(t.timeLeft) - 1)
    ensures t.timeLeft == 0 && !t.running
    ensures t.timeUpCount == old(t.timeUpCount) + 1
  {
    var n := t.timeLeft;
    fired := [];
    var i := 0;
    while i < n
      invariant 0 <= i <= n && |fired| == i
      invariant forall k :: 0 <= k < i ==> (fired[k] <==> k == n - 1)
      invariant i < n ==> t.running && t.timeLeft == n - i && t.timeUpCount == old(t.timeUpCount)
      invariant i == n ==> !t.running && t.timeLeft == 0 && t.timeUpCount == old(t.timeUpCount) + 1
    {
      var timeUp := t.Tick();
      fired := fired + [timeUp];
      i := i + 1;
    }
    var j := 0;
    while j < extra
      invariant 0 <= j <= extra && |fired| == n + j
      invariant forall k :: 0 <= k < |fired| ==> (fired[k] <==> k == n - 1)
      invariant !t.running && t.timeLeft == 0 && t.timeUpCount == old(t.timeUpCount) + 1
    {
      var timeUp := t.Tick();
      fired := fired + [timeUp];
      j := j + 1;
    }
  }

  /** `timeLeft` is not reset when the interval is replaced: once a countdown
      has expired, a replaced interval calls `onTimeUp` on its first tick. */
  method ExpiredCountdownFiresAgain(t: Timer) returns (timeUp: bool)
    requires t.timeLeft == 0
    modifies t
    ensures timeUp && t.timeUpCount == old(t.timeUpCount) + 1
  {
    t.IntervalEffect(true);
    timeUp := t.Tick();
  }
}
