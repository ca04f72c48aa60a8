// One stepper-driven axis of the arm (base, shoulder, elbow or slider):
// its step-count state machine, the direction-pin polarity rule and the
// limit-switch interlock. Pin writes, the pulse busy-wait and the serial
// warning are hardware effects and are not part of this model; the clock
// reading and the limit-switch reading are parameters.
module Stepper {
  import opened Platform

  const DEFAULT_STEP_DELAY: uint16 := 100
  const DEFAULT_STEPS_PER_REVOLUTION: int := 200 * 16
  /** M_PI as written in math.h. */
  const PI: real := 3.14159265358979323846

  /** The part of an axis that the target setters and update() change. */
  datatype Axis = Axis(currentStep: int, targetStep: int, moving: bool, lastStepTime: uint32)

  /** The wiring of an axis and its pulse interval (in microseconds). */
  datatype Config = Config(dirHighToHome: bool, reverseDirection: bool, stepDelay: uint16)

  /** The axis invariant: an axis that is not moving sits on its target. */
  ghost predicate Settled(a: Axis) {
    !a.moving ==> a.currentStep == a.targetStep
  }

  function Abs(x: int): nat { if x < 0 then -x else x }

  /** Direction of travel in step counts: +1 up, -1 down, 0 on target. */
  function Sign(x: int): int { if x > 0 then 1 else if x < 0 then -1 else 0 }

  function Min(x: nat, y: nat): nat { if x <= y then x else y }

  /**
   * The level written to the direction pin for a step toward larger
   * (towardPositive) or smaller step counts. Homing is toward smaller step
   * counts; dirHighToHome says which pin level drives the motor toward the
   * limit switch, and reverseDirection says the motor is wired the other way.
   */
  function DirPinLevel(towardPositive: bool, dirHighToHome: bool, reverseDirection: bool): (level: bool)
    ensures !reverseDirection ==> (level == dirHighToHome <==> !towardPositive)
    ensures reverseDirection ==> (level == dirHighToHome <==> towardPositive)
  {
    var raw := if towardPositive then !dirHighToHome else dirHighToHome;
    if reverseDirection then !raw else raw
  }

  /**
   * The interlock condition: the pin level about to be written is the one
   * that drives the axis toward its limit switch. It depends only on the
   * logical direction and the reverse flag, never on dirHighToHome.
   */
  function LimitBlocks(towardPositive: bool, dirHighToHome: bool, reverseDirection: bool): (blocks: bool)
    ensures blocks <==> (!towardPositive != reverseDirection)
  {
    DirPinLevel(towardPositive, dirHighToHome, reverseDirection) == dirHighToHome
  }

  /** One call of update() at clock reading `now` with the given limit-switch reading. */
  function NextState(a: Axis, c: Config, now: uint32, limitActive: bool): (r: Axis)
    // No overshoot: the position moves at most one step, toward the target.
    ensures r.currentStep == a.currentStep
         || r.currentStep == a.currentStep + Sign(a.targetStep - a.currentStep) != a.currentStep
    ensures r.currentStep != a.currentStep ==>
              && r.targetStep == a.targetStep && r.moving && r.lastStepTime == now
              && Abs(r.targetStep - r.currentStep) == Abs(a.targetStep - a.currentStep) - 1
    // A call that does not step never touches the pulse timestamp.
    ensures r.currentStep == a.currentStep ==> r.lastStepTime == a.lastStepTime
    // Stopping always leaves the axis on its target.
    ensures Settled(a) ==> Settled(r)
  {
    if !a.moving then a
    else if a.currentStep == a.targetStep then a.(moving := false)
    else if WrapSub(now, a.lastStepTime) < c.stepDelay then a
    else
      var towardPositive := a.targetStep > a.currentStep;
      if limitActive && LimitBlocks(towardPositive, c.dirHighToHome, c.reverseDirection) then
        a.(moving := false, targetStep := a.currentStep)
      else
        a.(currentStep := if towardPositive then a.currentStep + 1 else a.currentStep - 1,
           lastStepTime := now)
  }

  /** The paths of update() that change nothing, or only clear the moving flag. */
  lemma UpdateNoOpPaths(a: Axis, c: Config, now: uint32, limitActive: bool)
    ensures !a.moving ==> NextState(a, c, now, limitActive) == a
    ensures a.moving && a.currentStep == a.targetStep ==>
              NextState(a, c, now, limitActive) == a.(moving := false)
    ensures a.currentStep != a.targetStep && WrapSub(now, a.lastStepTime) < c.stepDelay ==>
              NextState(a, c, now, limitActive) == a
  {
  }

  /** An eligible call: moving, off target, and the step interval has elapsed. */
  ghost predicate Eligible(a: Axis, c: Config, now: uint32) {
    a.moving && a.currentStep != a.targetStep && WrapSub(now, a.lastStepTime) >= c.stepDelay
  }

  /**
   * The interlock: an eligible call whose step would drive the axis into an
   * active limit switch halts the axis where it is instead of stepping.
   */
  lemma LimitInterlockHalts(a: Axis, c: Config, now: uint32)
    requires Eligible(a, c, now)
    requires (a.targetStep < a.currentStep) != c.reverseDirection
    ensures NextState(a, c, now, true) == a.(moving := false, targetStep := a.currentStep)
    ensures NextState(a, c, now, true).currentStep == a.currentStep
  {
  }

  /**
   * An eligible call steps whenever the interlock does not apply: with the
   * limit switch released, or when stepping away from the limit.
   */
  lemma EligibleCallSteps(a: Axis, c: Config, now: uint32, limitActive: bool)
    requires Eligible(a, c, now)
    requires limitActive ==> (a.targetStep > a.currentStep) != c.reverseDirection
    ensures NextState(a, c, now, limitActive)
         == a.(currentStep := a.currentStep + Sign(a.targetStep - a.currentStep), lastStepTime := now)
  {
  }

  /**
   * The homing axis of the firmware's own convention (HIGH drives toward
   * the switch, no reversal) with its limit switch pressed: a step toward the
   * switch is refused, a step away from it is taken.
   */
  lemma HomingAxisAtSwitch(a: Axis, now: uint32)
    requires a.moving && WrapSub(now, a.lastStepTime) >= DEFAULT_STEP_DELAY
    ensures var c := Config(true, false, DEFAULT_STEP_DELAY);
            && (a.targetStep < a.currentStep ==>
                  NextState(a, c, now, true).currentStep == a.currentStep
                  && !NextState(a, c, now, true).moving)
            && (a.targetStep > a.currentStep ==>
                  NextState(a, c, now, true).currentStep == a.currentStep + 1)
  {
  }

  /** Successive update() calls with the limit switch released. */
  function Run(a: Axis, c: Config, times: seq<uint32>): (r: Axis)
    decreases |times|
  {
    if times == [] then a else Run(NextState(a, c, times[0], false), c, times[1..])
  }

  /** Every clock reading is at least one step interval after the one before it. */
  ghost predicate Spaced(last: uint32, times: seq<uint32>, delay: uint16) {
    && (|times| > 0 ==> WrapSub(times[0], last) >= delay)
    && forall i :: 0 < i < |times| ==> WrapSub(times[i], times[i - 1]) >= delay
  }

  lemma {:induction false} RunWhenStopped(a: Axis, c: Config, times: seq<uint32>)
    requires !a.moving
    ensures Run(a, c, times) == a
    decreases |times|
  {
    if times != [] {
      RunWhenStopped(NextState(a, c, times[0], false), c, times[1..]);
    }
  }

  /**
   * N update() calls spaced at least one step interval apart, with the limit
   * switch released, move the axis by exactly min(N, |target - current|)
   * steps toward its target; once N exceeds that distance it has stopped.
   */
  lemma {:induction false} RunSteps(a: Axis, c: Config, times: seq<uint32>)
    requires Settled(a)
    requires Spaced(a.lastStepTime, times, c.stepDelay)
    ensures var d := a.targetStep - a.currentStep;
            && Run(a, c, times).currentStep == a.currentStep + Sign(d) * Min(|times|, Abs(d))
            && Run(a, c, times).targetStep == a.targetStep
            && (|times| > Abs(d) ==> !Run(a, c, times).moving)
    decreases |times|
  {
    if times == [] {
    } else if a.currentStep == a.targetStep {
      var b := NextState(a, c, times[0], false);
      assert !b.moving && b.currentStep == a.currentStep && b.targetStep == a.targetStep;
      RunWhenStopped(b, c, times[1..]);
    } else {
      var b := NextState(a, c, times[0], false);
      EligibleCallSteps(a, c, times[0], false);
      assert Spaced(b.lastStepTime, times[1..], c.stepDelay) by {
        if |times| > 1 {
          assert WrapSub(times[1], times[0]) >= c.stepDelay;
        }
        forall i | 0 < i < |times[1..]|
          ensures WrapSub(times[1..][i], times[1..][i - 1]) >= c.stepDelay
        {
          assert times[1..][i] == times[i + 1];
        }
      }
      RunSteps(b, c, times[1..]);
    }
  }

  /** `(long)x` in C: truncation toward zero. */
  function TruncateTowardZero(x: real): (n: int)
    ensures 0.0 <= x ==> 0 <= n && n as real <= x < n as real + 1.0
    ensures x < 0.0 ==> n <= 0 && n as real - 1.0 < x <= n as real
  {
    if x >= 0.0 then x.Floor else -((-x).Floor)
  }

  /** Steps per radian: raw steps per motor revolution times the gear reduction, over 2*pi. */
  function RadToStepFactor(stepsPerRevolutionRaw: int, reductionRatio: real): (f: real)
    // Zero exactly when either factor is; a negative gear ratio reverses the sign.
    ensures f == 0.0 <==> stepsPerRevolutionRaw == 0 || reductionRatio == 0.0
    ensures 0 < stepsPerRevolutionRaw ==> (0.0 < f <==> 0.0 < reductionRatio)
    // One full output revolution is the raw steps per revolution times the ratio.
    ensures f * (2.0 * PI) == stepsPerRevolutionRaw as real * reductionRatio
  {
    var perRevolution := stepsPerRevolutionRaw as real * reductionRatio;
    ProductSign(stepsPerRevolutionRaw as real, reductionRatio);
    assert perRevolution / (2.0 * PI) * (2.0 * PI) == perRevolution;
    perRevolution / (2.0 * PI)
  }

  /** The sign of a product of reals. */
  lemma ProductSign(a: real, b: real)
    ensures a * b == 0.0 <==> a == 0.0 || b == 0.0
    ensures 0.0 < a ==> (0.0 < a * b <==> 0.0 < b)
  {
    if a != 0.0 && b != 0.0 {
      assert a * b / b == a;
    }
    if 0.0 < a && 0.0 < b {
      assert 0.0 < a * b;
    }
    if 0.0 < a && b < 0.0 {
      assert a * b < 0.0 by {
        assert a * (-b) > 0.0;
      }
    }
  }

  /**
   * Radians per step. With a zero gear ratio or zero steps per revolution the
   * firmware's float division yields infinity; the model reports None.
   */
  function StepToRadFactor(stepsPerRevolutionRaw: int, reductionRatio: real): (r: Option<real>)
    ensures r.None? <==> stepsPerRevolutionRaw == 0 || reductionRatio == 0.0
    ensures r.Some? ==> r.value * RadToStepFactor(stepsPerRevolutionRaw, reductionRatio) == 1.0
  {
    var perRevolution := stepsPerRevolutionRaw as real * reductionRatio;
    if perRevolution == 0.0 then None
    else
      var f := 2.0 * PI / perRevolution;
      assert f * (perRevolution / (2.0 * PI)) == 1.0;
      Some(f)
  }

  class RampsStepper {
    const stepPin: int
    const dirPin: int
    const enablePin: int
    const limitPin: int
    const dirHighToHome: bool
    const reverseDirection: bool

    var currentStep: int
    var targetStep: int
    var moving: bool
    var stepDelay: uint16
    var lastStepTime: uint32
    var reductionRatio: real
    var stepsPerRevolutionRaw: int

    function State(): Axis
      reads this
    {
      Axis(currentStep, targetStep, moving, lastStepTime)
    }

    function Wiring(): Config
      reads this
    {
      Config(dirHighToHome, reverseDirection, stepDelay)
    }

    ghost predicate Valid()
      reads this
    {
      Settled(State())
    }

    constructor (stepPin: int, dirPin: int, enablePin: int, limitPin: int,
                 dirHighToHome: bool, reverseDirection: bool)
      ensures Valid()
      ensures this.stepPin == stepPin && this.dirPin == dirPin
      ensures this.enablePin == enablePin && this.limitPin == limitPin
      ensures this.dirHighToHome == dirHighToHome && this.reverseDirection == reverseDirection
      ensures State() == Axis(0, 0, false, 0)
      ensures stepDelay == DEFAULT_STEP_DELAY
      ensures reductionRatio == 1.0 && stepsPerRevolutionRaw == DEFAULT_STEPS_PER_REVOLUTION
    {
      this.stepPin := stepPin;
      this.dirPin := dirPin;
      this.enablePin := enablePin;
      this.limitPin := limitPin;
      this.dirHighToHome := dirHighToHome;
      this.reverseDirection := reverseDirection;
      currentStep := 0;
      targetStep := 0;
      moving := false;
      stepDelay := DEFAULT_STEP_DELAY;
      lastStepTime := 0;
      reductionRatio := 1.0;
      stepsPerRevolutionRaw := DEFAULT_STEPS_PER_REVOLUTION;
    }

    method StepRelative(steps: int)
      modifies this`targetStep, this`moving
      ensures Valid()
      ensures targetStep == currentStep + steps && moving
    {
      targetStep := currentStep + steps;
      moving := true;
    }

    method StepToPosition(steps: int)
      modifies this`targetStep, this`moving
      ensures Valid()
      ensures targetStep == steps && moving
    {
      targetStep := steps;
      moving := true;
    }

    method StepToPositionRad(rad: real)
      modifies this`targetStep, this`moving
      ensures Valid()
      ensures targetStep == TruncateTowardZero(rad * RadToStepFactor(stepsPerRevolutionRaw, reductionRatio))
      ensures moving
    {
      targetStep := TruncateTowardZero(rad * RadToStepFactor(stepsPerRevolutionRaw, reductionRatio));
      moving := true;
    }

    method SetReductionRatio(gearRatio: real, stepsPerRevRaw: int)
      modifies this`reductionRatio, this`stepsPerRevolutionRaw
      ensures reductionRatio == gearRatio && stepsPerRevolutionRaw == stepsPerRevRaw
    {
      reductionRatio := gearRatio;
      stepsPerRevolutionRaw := stepsPerRevRaw;
    }

    method SetStepDelay(delayUs: uint16)
      modifies this`stepDelay
      ensures stepDelay == delayUs
    {
      stepDelay := delayUs;
    }

    /** Overrides the position (after homing): no pulses, no pending motion. */
    method SetPosition(steps: int)
      modifies this`currentStep, this`targetStep, this`moving
      ensures Valid() && IsOnTarget()
      ensures currentStep == steps && targetStep == steps && !moving
    {
      currentStep := steps;
      targetStep := steps;
      moving := false;
    }

    /** A stopped, valid axis is always on its target. */
    function IsOnTarget(): (r: bool)
      reads this
      ensures Valid() && !moving ==> r
    {
      currentStep == targetStep
    }

    /** update(): `now` is the micros() reading, `limitActive` the limit-switch reading. */
    method Update(now: uint32, limitActive: bool)
      requires Valid()
      modifies this`currentStep, this`targetStep, this`moving, this`lastStepTime
      ensures Valid()
      ensures State() == NextState(old(State()), Wiring(), now, limitActive)
    {
      if !moving {
        return;
      }
      if currentStep != targetStep {
        if WrapSub(now, lastStepTime) >= stepDelay {
          var steppingTowardsPositiveSteps := targetStep > currentStep;
          var rawDirPinState := if steppingTowardsPositiveSteps then !dirHighToHome else dirHighToHome;
          var actualDirPinState := if reverseDirection then !rawDirPinState else rawDirPinState;
          if limitActive {
            if actualDirPinState == dirHighToHome {
              moving := false;
              targetStep := currentStep;
              return;
            }
          }
          if targetStep > currentStep {
            currentStep := currentStep + 1;
          } else {
            currentStep := currentStep - 1;
          }
          lastStepTime := now;
        }
      } else {
        moving := false;
      }
    }
  }
}
