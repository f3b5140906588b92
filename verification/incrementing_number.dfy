/**
 * `useIncrementingNumber`: a displayed number that walks one unit per interval
 * tick towards its target, and stops exactly on it.
 */
module IncrementingNumber {

  function Abs(x: int): nat {
    if x < 0 then -x else x
  }

  /** What one tick of the interval sets the number to, and whether it clears the interval. */
  datatype TickResult = TickResult(value: int, stop: bool)

  /** The `setCurrentNumber` updater of one tick. */
  function Step(prev: int, target: int): (r: TickResult)
    ensures r.stop ==> r.value == target
    ensures !r.stop ==> (prev < r.value < target || target < r.value < prev)
    ensures !r.stop ==> Abs(r.value - target) == Abs(prev - target) - 1
    ensures !r.stop ==> Abs(r.value - prev) == 1
    ensures r.stop <==> Abs(prev - target) <= 1
    ensures prev == target ==> r == TickResult(target, true)
  {
    var step := if target > prev then 1 else -1;
    var next := prev + step;
    if (step > 0 && next >= target) || (step < 0 && next <= target) then TickResult(target, true)
    else TickResult(next, false)
  }

  /** The interval's period: fast for long walks. */
  function Delay(current: int, target: int): (ms: nat)
    ensures ms == 10 <==> Abs(current - target) > 100
    ensures ms == 10 || ms == 100
  {
    if Abs(current - target) > 100 then 10 else 100
  }

  /**
   * How many times the interval fires from `prev` until it stays cleared. Each
   * change of the number re-runs the effect, which starts a fresh interval; so
   * reaching the target from elsewhere costs one more firing at the target.
   */
  function Firings(prev: int, target: int): (n: nat)
    ensures n == Abs(prev - target) + 1
    decreases Abs(prev - target), if prev == target then 0 else 1
  {
    var r := Step(prev, target);
    if !r.stop then 1 + Firings(r.value, target)
    else if r.value == prev then 1
    else 1 + Firings(target, target)
  }

  class Counter {
    var currentNumber: int
    var targetNumber: int
    var isAnimating: bool
    /** `isFirstRun.current`. */
    var isFirstRun: bool
    /** An interval is scheduled. */
    var intervalActive: bool
    /** The period of the scheduled interval. */
    var delay: nat

    /** The animation flag is up exactly while an interval is scheduled. */
    ghost predicate Valid()
      reads this
    {
      isAnimating == intervalActive
    }

    /** The hook's first render: the number starts at the target. */
    constructor (target: int)
      ensures Valid()
      ensures currentNumber == target && targetNumber == target
      ensures !isAnimating && isFirstRun && !intervalActive
    {
      currentNumber := target;
      targetNumber := target;
      isAnimating := false;
      isFirstRun := true;
      intervalActive := false;
      delay := 100;
    }

    /** The effect body: the first run only clears the flag; later runs start an interval. */
    method Effect()
      requires Valid()
      modifies this`isFirstRun, this`isAnimating, this`intervalActive, this`delay
      ensures Valid()
      ensures old(isFirstRun) ==>
                !isFirstRun && isAnimating == old(isAnimating) && intervalActive == old(intervalActive) && delay == old(delay)
      ensures !old(isFirstRun) ==>
                !isFirstRun && isAnimating && intervalActive && delay == Delay(currentNumber, targetNumber)
    {
      if isFirstRun {
        isFirstRun := false;
        return;
      }
      isAnimating := true;
      delay := Delay(currentNumber, targetNumber);
      intervalActive := true;
    }

    /** The effect's cleanup: the interval is cleared and the animation flag drops. */
    method Cleanup()
      requires Valid()
      modifies this`isAnimating, this`intervalActive
      ensures Valid() && !isAnimating && !intervalActive
    {
      intervalActive := false;
      isAnimating := false;
    }

    /**
     * A re-render with target prop `target`, after the mount effect has run. The
     * effect depends on `[currentNumber, targetNumber]`, so an unchanged target
     * re-runs nothing; a changed one cleans up the previous effect and runs it again.
     */
    method SetTarget(target: int)
      requires Valid() && !isFirstRun
      modifies this`targetNumber, this`isFirstRun, this`isAnimating, this`intervalActive, this`delay
      ensures Valid() && targetNumber == target && !isFirstRun
      ensures target == old(targetNumber) ==>
                isAnimating == old(isAnimating) && intervalActive == old(intervalActive) && delay == old(delay)
      ensures target != old(targetNumber) ==> isAnimating && intervalActive && delay == Delay(currentNumber, target)
    {
      if target == targetNumber {
        return;
      }
      targetNumber := target;
      Cleanup();
      Effect();
    }

    /** One firing of the interval. */
    method Tick()
      requires Valid() && intervalActive
      modifies this`currentNumber, this`isAnimating, this`intervalActive
      ensures Valid()
      ensures currentNumber == Step(old(currentNumber), targetNumber).value
      ensures Step(old(currentNumber), targetNumber).stop ==> !intervalActive && !isAnimating
      ensures !Step(old(currentNumber), targetNumber).stop ==> intervalActive && isAnimating
    {
      var r := Step(currentNumber, targetNumber);
      if r.stop {
        intervalActive := false;
        isAnimating := false;
      }
      currentNumber := r.value;
    }

    /**
     * The interval firing until it stays cleared, with the effect re-run after
     * every tick that changed the number: the number ends exactly on the target,
     * the animation has stopped, and the interval fired `Firings` times.
     */
    method Animate() returns (firings: nat)
      requires Valid() && intervalActive && !isFirstRun
      modifies this`currentNumber, this`isFirstRun, this`isAnimating, this`intervalActive, this`delay
      ensures Valid()
      ensures currentNumber == targetNumber && !isAnimating && !intervalActive && !isFirstRun
      ensures firings == Firings(old(currentNumber), targetNumber)
    {
      ghost var start := currentNumber;
      firings := 0;
      while intervalActive
        invariant Valid() && !isFirstRun
        invariant intervalActive ==> firings + Firings(currentNumber, targetNumber) == Firings(start, targetNumber)
        invariant !intervalActive ==> firings == Firings(start, targetNumber) && currentNumber == targetNumber
        decreases 2 * Abs(currentNumber - targetNumber) + (if intervalActive then 1 else 0)
      {
        var before := currentNumber;
        Tick();
        firings := firings + 1;
        if currentNumber != before {
          Cleanup();
          Effect();
        }
      }
    }
  }
}
