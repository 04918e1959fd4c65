/** Pure model of the stage: how one relative or absolute move changes the
    stage and which commands it sends to the stepper controller. The class
    `Stepper.BioStepper` is proved to follow it. */
module Motion {
  import opened Units

  /** Calls on the stepper controller. */
  datatype Command =
    | OpenWaitForAttachment(timeoutMs: int)
    | SetEngaged(on: bool)
    | SetAcceleration(acceleration: real)
    | SetVelocityLimit(velocity: real)
    | SetCurrentLimit(current: real)
    | SetTargetPosition(steps: int)
    | Close

  /** Steps per micrometre and the travel limits, in steps. */
  datatype Calibration = Calibration(scale: real, minPos: int, maxPos: int)
  {
    /** Whether a step position lies within the travel limits. Both limits
        are themselves valid, and no position is valid in an empty range. */
    predicate InBounds(steps: int): (b: bool)
      ensures b ==> minPos <= maxPos
      ensures steps == minPos || steps == maxPos ==> (b <==> minPos <= maxPos)
    {
      minPos <= steps <= maxPos
    }
  }

  const MinPos: int := -2000
  const MaxPos: int := 30000
  const DefaultScale: real := 0.6085

  /** Logical position in micrometres, the position the controller reports
      in steps, and whether the motor is engaged. */
  datatype Stage = Stage(pos: real, devicePos: int, engaged: bool)

  /** A relative move by `amount` micrometres or an absolute one to `position`. */
  datatype Travel = Relative(amount: real) | Absolute(position: real)

  /** The logical position the move aims at, in micrometres. */
  function Goal(s: Stage, m: Travel): real
  {
    match m
    case Relative(amount) => s.pos + amount
    case Absolute(position) => position
  }

  /** The step target commanded for the move. */
  function Target(cal: Calibration, s: Stage, m: Travel): int
  {
    Trunc(Goal(s, m) * cal.scale)
  }

  /** The commands of an accepted move: engage, set the target, disengage once
      the controller reports the target. */
  function Engagement(target: int): seq<Command>
  {
    [SetEngaged(true), SetTargetPosition(target), SetEngaged(false)]
  }

  datatype Effect = Effect(stage: Stage, commands: seq<Command>)

  /** One move: performed when its target is in bounds, otherwise a no-op.
      The controller is only ever sent an in-bounds target, and an accepted
      move leaves the stage at its goal with the motor disengaged. */
  function Step(cal: Calibration, s: Stage, m: Travel): (e: Effect)
    ensures e.commands != [] <==> cal.InBounds(Target(cal, s, m))
    ensures e.commands == [] ==> e.stage == s
    ensures e.commands != [] ==>
      e.commands == Engagement(Target(cal, s, m)) &&
      e.stage.pos == Goal(s, m) && e.stage.devicePos == Target(cal, s, m) && !e.stage.engaged
  {
    var target := Target(cal, s, m);
    if cal.InBounds(target) then
      Effect(Stage(Goal(s, m), target, false), Engagement(target))
    else
      Effect(s, [])
  }

  /** A sequence of moves, from the first to the last. */
  function Run(cal: Calibration, s: Stage, ms: seq<Travel>): Effect
    decreases |ms|
  {
    if ms == [] then Effect(s, [])
    else
      var before := Run(cal, s, ms[..|ms| - 1]);
      var last := Step(cal, before.stage, ms[|ms| - 1]);
      Effect(last.stage, before.commands + last.commands)
  }

  lemma RunAppend(cal: Calibration, s: Stage, ms: seq<Travel>, m: Travel)
    ensures var before := Run(cal, s, ms);
      var last := Step(cal, before.stage, m);
      Run(cal, s, ms + [m]) == Effect(last.stage, before.commands + last.commands)
  {
    assert (ms + [m])[..|ms|] == ms;
  }

  /** Every move of the sequence had an in-bounds target. */
  predicate AllAccepted(cal: Calibration, s: Stage, ms: seq<Travel>)
    decreases |ms|
  {
    ms == [] ||
    (AllAccepted(cal, s, ms[..|ms| - 1]) &&
     cal.InBounds(Target(cal, Run(cal, s, ms[..|ms| - 1]).stage, ms[|ms| - 1])))
  }

  predicate AllRelative(ms: seq<Travel>)
  {
    forall k :: 0 <= k < |ms| ==> ms[k].Relative?
  }

  /** Sum of the amounts of the relative moves. */
  function Displacement(ms: seq<Travel>): real
    decreases |ms|
  {
    if ms == [] then 0.0
    else Displacement(ms[..|ms| - 1]) + (if ms[|ms| - 1].Relative? then ms[|ms| - 1].amount else 0.0)
  }

  function Repeat(m: Travel, n: nat): (ms: seq<Travel>)
    ensures |ms| == n
    decreases n
  {
    if n == 0 then [] else Repeat(m, n - 1) + [m]
  }

  lemma {:induction false} RepeatAll(m: Travel, n: nat)
    ensures forall k :: 0 <= k < n ==> Repeat(m, n)[k] == m
    decreases n
  {
    if n > 0 {
      RepeatAll(m, n - 1);
    }
  }

  /** Every target commanded to the controller is within the travel limits. */
  predicate TargetsInBounds(cal: Calibration, cs: seq<Command>)
  {
    forall j :: 0 <= j < |cs| && cs[j].SetTargetPosition? ==> cal.InBounds(cs[j].steps)
  }

  /** Each commanded target is immediately preceded by engaging the motor and
      immediately followed by disengaging it. */
  predicate Bracketed(cs: seq<Command>)
  {
    forall j :: 0 <= j < |cs| && cs[j].SetTargetPosition? ==>
      0 < j < |cs| - 1 && cs[j - 1] == SetEngaged(true) && cs[j + 1] == SetEngaged(false)
  }

  lemma BracketedAppend(a: seq<Command>, b: seq<Command>)
    requires Bracketed(a) && Bracketed(b)
    ensures Bracketed(a + b)
  {
    var c := a + b;
    forall j | 0 <= j < |c| && c[j].SetTargetPosition?
      ensures 0 < j < |c| - 1 && c[j - 1] == SetEngaged(true) && c[j + 1] == SetEngaged(false)
    {
      if j >= |a| {
        assert b[j - |a|] == c[j];
      }
    }
  }

  /** Over any sequence of moves, relative or absolute, only in-bounds targets
      reach the controller, and each of them is bracketed by engage/disengage. */
  lemma {:induction false} RunCommandsSafe(cal: Calibration, s: Stage, ms: seq<Travel>)
    ensures TargetsInBounds(cal, Run(cal, s, ms).commands)
    ensures Bracketed(Run(cal, s, ms).commands)
    decreases |ms|
  {
    if ms != [] {
      var before := Run(cal, s, ms[..|ms| - 1]);
      var last := Step(cal, before.stage, ms[|ms| - 1]);
      RunCommandsSafe(cal, s, ms[..|ms| - 1]);
      BracketedAppend(before.commands, last.commands);
    }
  }

  /** A sequence of moves either commands nothing and leaves the stage as it
      was, or leaves the motor disengaged. */
  lemma {:induction false} RunEndsDisengaged(cal: Calibration, s: Stage, ms: seq<Travel>)
    ensures Run(cal, s, ms).commands == [] ==> Run(cal, s, ms).stage == s
    ensures Run(cal, s, ms).commands != [] ==> !Run(cal, s, ms).stage.engaged
    decreases |ms|
  {
    if ms != [] {
      RunEndsDisengaged(cal, s, ms[..|ms| - 1]);
    }
  }

  /** The step value of the stage's logical position. */
  function StepsOf(cal: Calibration, s: Stage): int
  {
    Trunc(s.pos * cal.scale)
  }

  /** The stage's invariant: both the position the controller reports and the
      step value of the logical position lie within the travel limits. */
  predicate StageInBounds(cal: Calibration, s: Stage)
  {
    cal.InBounds(s.devicePos) && cal.InBounds(StepsOf(cal, s))
  }

  /** A stage at 0 with the controller at step 0 is within the fixed limits,
      whatever the scale: start-up satisfies the invariant. */
  lemma HomeInBounds(scale: real, engaged: bool)
    ensures StageInBounds(Calibration(scale, MinPos, MaxPos), Stage(0.0, 0, engaged))
  {
    assert StepsOf(Calibration(scale, MinPos, MaxPos), Stage(0.0, 0, engaged)) == Trunc(0.0);
  }

  /** One move, accepted or refused, keeps the stage within its limits. */
  lemma StepStaysInBounds(cal: Calibration, s: Stage, m: Travel)
    requires StageInBounds(cal, s)
    ensures StageInBounds(cal, Step(cal, s, m).stage)
  {
    var e := Step(cal, s, m);
    if e.commands != [] {
      assert e.stage.pos == Goal(s, m);
      assert StepsOf(cal, e.stage) == Trunc(Goal(s, m) * cal.scale);
    }
  }

  /** Any sequence of moves from a stage within its limits ends within them. */
  lemma {:induction false} RunStaysInBounds(cal: Calibration, s: Stage, ms: seq<Travel>)
    requires StageInBounds(cal, s)
    ensures StageInBounds(cal, Run(cal, s, ms).stage)
    decreases |ms|
  {
    if ms != [] {
      RunStaysInBounds(cal, s, ms[..|ms| - 1]);
      StepStaysInBounds(cal, Run(cal, s, ms[..|ms| - 1]).stage, ms[|ms| - 1]);
    }
  }

  /** Repeated accepted relative moves do not drift: the position is the start
      plus the sum of the amounts, exactly. */
  lemma {:induction false} RunNoDrift(cal: Calibration, s: Stage, ms: seq<Travel>)
    requires AllRelative(ms) && AllAccepted(cal, s, ms)
    ensures Run(cal, s, ms).stage.pos == s.pos + Displacement(ms)
    decreases |ms|
  {
    if ms != [] {
      RunNoDrift(cal, s, ms[..|ms| - 1]);
      assert ms[|ms| - 1].Relative?;
    }
  }

  lemma {:induction false} RepeatDisplacement(d: real, n: nat)
    ensures Displacement(Repeat(Relative(d), n)) == n as real * d
    decreases n
  {
    if n > 0 {
      assert Repeat(Relative(d), n)[..n - 1] == Repeat(Relative(d), n - 1);
      assert Repeat(Relative(d), n)[n - 1] == Relative(d);
      RepeatDisplacement(d, n - 1);
      assert (n - 1) as real * d + d == n as real * d;
    }
  }

  /** `n` accepted moves by `d` end `n * d` micrometres from the start. */
  lemma RepeatAdvance(cal: Calibration, s: Stage, d: real, n: nat)
    requires AllAccepted(cal, s, Repeat(Relative(d), n))
    ensures Run(cal, s, Repeat(Relative(d), n)).stage.pos == s.pos + n as real * d
  {
    RepeatAll(Relative(d), n);
    RunNoDrift(cal, s, Repeat(Relative(d), n));
    RepeatDisplacement(d, n);
  }

  /** An absolute move repeated lands where the first one did and sends the
      same commands again; after an accepted first move the controller already
      reports the target the second one commands, so the stage does not travel. */
  lemma MoveToIdempotent(cal: Calibration, s: Stage, p: real)
    ensures var first := Step(cal, s, Absolute(p));
      var second := Step(cal, first.stage, Absolute(p));
      second.stage == first.stage && second.commands == first.commands &&
      (first.commands != [] ==> first.stage.devicePos == Target(cal, first.stage, Absolute(p)))
  {
  }

  /** With limits that contain step 0, an absolute move to 0 always succeeds. */
  lemma HomeAccepted(cal: Calibration, s: Stage)
    requires cal.minPos <= 0 <= cal.maxPos
    ensures Step(cal, s, Absolute(0.0)) == Effect(Stage(0.0, 0, false), Engagement(0))
  {
  }

  /** The fixed limits contain step 0. */
  lemma DefaultLimitsContainHome(scale: real)
    ensures Calibration(scale, MinPos, MaxPos).InBounds(0)
    ensures forall p :: Calibration(scale, MinPos, MaxPos).InBounds(p) <==> -2000 <= p <= 30000
  {
  }
}
