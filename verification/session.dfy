/** The session that drives the stage and the camera: start-up, single
    pictures, scans and shutdown. Everything it does is recorded, in order,
    in `trace`; the stepper keeps its own record of controller calls. */
module Session {
  import opened Motion
  import opened ScanPaths
  import opened Scan
  import opened Stepper

  /** Pause at the end of start-up, in seconds. */
  const StartupPause: real := 0.5
  /** Pause between disengaging the motor and closing it at shutdown, in seconds. */
  const ShutdownPause: real := 1.0

  /** The stepper calls made at start-up, in order. */
  function StartupCommands(): seq<Command>
  {
    [Command.OpenWaitForAttachment(5000), Command.SetEngaged(true), Command.SetAcceleration(87543.0),
     Command.SetVelocityLimit(8000.0), Command.SetCurrentLimit(0.5)]
  }

  /** Direct calls on the stepper controller, as session events. */
  function Wrap(cs: seq<Command>): seq<Event>
  {
    seq(|cs|, k requires 0 <= k < |cs| => Controller(cs[k]))
  }

  /** Stepper calls made at shutdown after homing: disengage, then close. */
  function ShutdownCommands(): seq<Command>
  {
    [Command.SetEngaged(false), Command.Close]
  }

  class Biosensor {
    const stepper: BioStepper
    /** Number of snapshots the camera has taken. */
    var shots: nat
    /** The frame taken at start-up. */
    var image: Image
    var cameraOpen: bool
    ghost var trace: seq<Event>

    /** Start-up: creates the stage at position 0 with the default scale,
        takes a first picture, attaches and configures the stepper and leaves
        it engaged, then pauses. */
    constructor ()
      ensures fresh(stepper)
      ensures stepper.pos == 0.0 && stepper.scale == DefaultScale && stepper.devicePos == 0
      ensures stepper.engaged && stepper.attached && stepper.log == StartupCommands()
      ensures cameraOpen && shots == 1 && image == Snapshot(0)
      ensures trace == [Capture(Snapshot(0))] + Wrap(StartupCommands()) + [Sleep(StartupPause)]
      ensures StageInBounds(stepper.Cal(), stepper.State())
    {
      stepper := new BioStepper();
      cameraOpen := true;
      shots := 0;
      trace := [];
      new;
      image := TakePicture();
      stepper.OpenWaitForAttachment(5000);
      stepper.SetEngaged(true);
      stepper.SetAcceleration(87543.0);
      stepper.SetVelocityLimit(8000.0);
      stepper.SetCurrentLimit(0.5);
      trace := trace + Wrap(StartupCommands());
      trace := trace + [Sleep(StartupPause)];
      HomeInBounds(DefaultScale, true);
    }

    /** Takes a snapshot; the camera hands out its frames in order. */
    method TakePicture() returns (img: Image)
      modifies this`shots, this`trace
      ensures img == Snapshot(old(shots)) && shots == old(shots) + 1
      ensures trace == old(trace) + [Capture(img)]
    {
      img := Snapshot(shots);
      shots := shots + 1;
      trace := trace + [Capture(img)];
    }

    method SaveImage(img: Image, filename: string)
      modifies this`trace
      ensures trace == old(trace) + [Save(img, filename)]
    {
      trace := trace + [Save(img, filename)];
    }

    /** Scans `rows` rows `spacing` micrometres apart. Each row captures a
        frame, pauses, saves it under the row's path, moves the stage by
        `spacing` (the last row too) and pauses. `width` is accepted and not
        used. A move whose target is out of bounds leaves the stage where it
        is and the scan goes on. */
    method TakeScan(width: int, rows: int, spacing: real)
      modifies this`shots, this`trace, stepper`pos, stepper`devicePos, stepper`engaged, stepper`log
      ensures var n := if rows > 0 then rows else 0;
        shots == old(shots) + n &&
        trace == old(trace) + ScanEvents(old(shots), n, spacing) &&
        var moved := Run(stepper.Cal(), old(stepper.State()), Repeat(Relative(spacing), n));
        stepper.State() == moved.stage && stepper.log == old(stepper.log) + moved.commands
      ensures stepper.attached == old(stepper.attached)
    {
      var n := if rows > 0 then rows else 0;
      ghost var shots0, trace0 := shots, trace;
      ghost var cal, s0, log0 := stepper.Cal(), stepper.State(), stepper.log;
      ghost var scanned: seq<Event> := [];
      ghost var moved := Effect(s0, []);
      for i := 0 to n
        invariant shots == shots0 + i
        invariant scanned == ScanEvents(shots0, i, spacing) && trace == trace0 + scanned
        invariant moved == Run(cal, s0, Repeat(Relative(spacing), i))
        invariant stepper.State() == moved.stage && stepper.log == log0 + moved.commands
      {
        ghost var row := ScanRow(shots0 + i, i, spacing);
        ghost var step := Step(cal, moved.stage, Relative(spacing));
        ScanOneRow(i, spacing);
        ScanEventsNext(shots0, i, spacing);
        AppendAssoc(trace0, scanned, row);
        RunAppend(cal, s0, Repeat(Relative(spacing), i), Relative(spacing));
        AppendAssoc(log0, moved.commands, step.commands);
        scanned := scanned + row;
        moved := Effect(step.stage, moved.commands + step.commands);
      }
    }

    /** One row of a scan, `row` counting from 0. */
    method ScanOneRow(row: nat, spacing: real)
      modifies this`shots, this`trace, stepper`pos, stepper`devicePos, stepper`engaged, stepper`log
      ensures shots == old(shots) + 1
      ensures trace == old(trace) + ScanRow(old(shots), row, spacing)
      ensures var step := Step(stepper.Cal(), old(stepper.State()), Relative(spacing));
        stepper.State() == step.stage && stepper.log == old(stepper.log) + step.commands
      ensures stepper.attached == old(stepper.attached)
    {
      var img := TakePicture();
      trace := trace + [Sleep(Settle)];
      SaveImage(img, ScanPath(row + 1));
      stepper.Move(spacing);
      trace := trace + [MoveCall(spacing)];
      trace := trace + [Sleep(Settle)];
    }

    /** Shutdown: closes the camera, homes the stage to 0, disengages the
        motor, pauses and closes the stepper. Step 0 is always in bounds, so
        the stage ends at 0. */
    method Stop()
      modifies this`cameraOpen, this`trace, stepper
      ensures !cameraOpen
      ensures trace == old(trace) + [CloseCamera, MoveToCall(0.0)] + Wrap([Command.SetEngaged(false)])
                      + [Sleep(ShutdownPause)] + Wrap([Command.Close])
      ensures stepper.pos == 0.0 && stepper.devicePos == 0 && !stepper.engaged && !stepper.attached
      ensures stepper.log == old(stepper.log) + Engagement(0) + ShutdownCommands()
    {
      cameraOpen := false;
      trace := trace + [CloseCamera];
      stepper.MoveTo(0.0);
      trace := trace + [MoveToCall(0.0)];
      stepper.SetEngaged(false);
      trace := trace + Wrap([Command.SetEngaged(false)]);
      trace := trace + [Sleep(ShutdownPause)];
      stepper.Close();
      trace := trace + Wrap([Command.Close]);
    }
  }
}
