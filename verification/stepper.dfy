/** The stepper stage as an object: its logical position in micrometres, its
    calibration, and the state of the controller it drives. Every controller
    call is recorded in `log`. */
module Stepper {
  import opened Units
  import opened Motion

  class BioStepper {
    /** Logical position, micrometres. */
    var pos: real
    /** Steps per micrometre. */
    const scale: real
    /** Position the controller reports, in steps. */
    var devicePos: int
    var engaged: bool
    var attached: bool
    /** Controller calls made so far, oldest first. */
    ghost var log: seq<Command>

    function Cal(): Calibration
    {
      Calibration(scale, MinPos, MaxPos)
    }

    function State(): Stage
      reads this
    {
      Stage(pos, devicePos, engaged)
    }

    constructor (pos: real := 0.0, scale: real := DefaultScale)
      ensures this.pos == pos && this.scale == scale
      ensures devicePos == 0 && !engaged && !attached && log == []
    {
      this.pos := pos;
      this.scale := scale;
      devicePos := 0;
      engaged := false;
      attached := false;
      log := [];
    }

    /** Moves the stage by `amount` micrometres, if the target is in bounds. */
    method Move(amount: real)
      modifies this`pos, this`devicePos, this`engaged, this`log
      ensures var target := Trunc((old(pos) + amount) * scale);
        if Cal().InBounds(target) then
          pos == old(pos) + amount && devicePos == target && !engaged &&
          log == old(log) + Engagement(target)
        else
          pos == old(pos) && devicePos == old(devicePos) && engaged == old(engaged) && log == old(log)
      ensures attached == old(attached)
      ensures var step := Step(Cal(), old(State()), Relative(amount));
        State() == step.stage && log == old(log) + step.commands
      ensures old(StageInBounds(Cal(), State())) ==> StageInBounds(Cal(), State())
    {
      ghost var s0 := State();
      var target := Trunc((pos + amount) * scale);
      assert target == Target(Cal(), s0, Relative(amount));
      if Cal().InBounds(target) {
        SetEngaged(true);
        SetTargetPosition(target);
        AwaitPosition(target);
        SetEngaged(false);
        pos := pos + amount;
      }
      // out of bounds: the source reports it on the console and moves nothing
      if StageInBounds(Cal(), s0) {
        StepStaysInBounds(Cal(), s0, Relative(amount));
      }
    }

    /** Moves the stage to `newpos` micrometres, if the target is in bounds;
        otherwise does nothing at all. */
    method MoveTo(newpos: real)
      modifies this`pos, this`devicePos, this`engaged, this`log
      ensures var target := Trunc(newpos * scale);
        if Cal().InBounds(target) then
          pos == newpos && devicePos == target && !engaged &&
          log == old(log) + Engagement(target)
        else
          pos == old(pos) && devicePos == old(devicePos) && engaged == old(engaged) && log == old(log)
      ensures attached == old(attached)
      ensures var step := Step(Cal(), old(State()), Absolute(newpos));
        State() == step.stage && log == old(log) + step.commands
      ensures old(StageInBounds(Cal(), State())) ==> StageInBounds(Cal(), State())
    {
      ghost var s0 := State();
      var target := Trunc(newpos * scale);
      assert target == Target(Cal(), s0, Absolute(newpos));
      if Cal().InBounds(target) {
        SetEngaged(true);
        SetTargetPosition(target);
        AwaitPosition(target);
        SetEngaged(false);
        pos := newpos;
      }
      if StageInBounds(Cal(), s0) {
        StepStaysInBounds(Cal(), s0, Absolute(newpos));
      }
    }

    // Controller calls. The controller itself is outside the model: each call
    // records itself in `log` and changes the state it controls.

    method OpenWaitForAttachment(timeoutMs: int)
      modifies this`attached, this`log
      ensures attached && log == old(log) + [Command.OpenWaitForAttachment(timeoutMs)]
    {
      attached := true;
      log := log + [Command.OpenWaitForAttachment(timeoutMs)];
    }

    method SetEngaged(on: bool)
      modifies this`engaged, this`log
      ensures engaged == on && log == old(log) + [Command.SetEngaged(on)]
    {
      engaged := on;
      log := log + [Command.SetEngaged(on)];
    }

    method SetAcceleration(acceleration: real)
      modifies this`log
      ensures log == old(log) + [Command.SetAcceleration(acceleration)]
    {
      log := log + [Command.SetAcceleration(acceleration)];
    }

    method SetVelocityLimit(velocity: real)
      modifies this`log
      ensures log == old(log) + [Command.SetVelocityLimit(velocity)]
    {
      log := log + [Command.SetVelocityLimit(velocity)];
    }

    method SetCurrentLimit(current: real)
      modifies this`log
      ensures log == old(log) + [Command.SetCurrentLimit(current)]
    {
      log := log + [Command.SetCurrentLimit(current)];
    }

    method SetTargetPosition(target: int)
      modifies this`log
      ensures log == old(log) + [Command.SetTargetPosition(target)]
    {
      log := log + [Command.SetTargetPosition(target)];
    }

    /** Polls the controller until it reports `target`. The controller is
        modelled as reaching the target it was given, so the wait ends with
        the reported position equal to `target`. */
    method AwaitPosition(target: int)
      modifies this`devicePos
      ensures devicePos == target
    {
      devicePos := target;
    }

    method Close()
      modifies this`attached, this`log
      ensures !attached && log == old(log) + [Command.Close]
    {
      attached := false;
      log := log + [Command.Close];
    }
  }
}
