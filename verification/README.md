# Biosensor stage and scan sequencer, in Dafny

A model of the motion-and-capture core of a biosensor rig (`Biosensor.py`):
a stepper-driven stage that keeps its logical position in micrometres,
converts it to motor steps with a fixed scale and refuses targets outside
its travel limits, and a session object that starts the devices, runs raster
scans (capture, settle, save, move, settle, per row) and shuts everything
down in a fixed order.

Files and modules:

- `units.dfy` (`Units`): truncation toward zero, the integer cast used to
  turn a scaled position into a step count.
- `paths.dfy` (`ScanPaths`): decimal notation and the per-row file name
  `pics\test<k>.tif`, with a parse-back round trip.
- `motion.dfy` (`Motion`): the stage as values. `Step` is one relative
  (`Relative`) or absolute (`Absolute`) move with the controller commands it
  issues; `Run` is a sequence of them. The safety lemmas are stated here,
  among them the stage invariant `StageInBounds`: the step the controller
  reports and the step value of the logical position both lie within
  `[MINPOS, MAXPOS]`.
- `stepper.dfy` (`Stepper`): class `BioStepper` with the fields the source
  updates (`pos`, the controller's reported position, `engaged`), the
  constant scale and limits, and a ghost `log` of controller calls. `Move`
  and `MoveTo` are proved to behave as `Motion.Step`.
- `scan.dfy` (`Scan`): the session's event type and `ScanEvents`, the exact
  event sequence of a scan, with lemmas on order, counts and paths.
- `session.dfy` (`Session`): class `Biosensor` with start-up, `TakePicture`,
  `SaveImage`, `TakeScan` and `Stop`, each recording what it does in a ghost
  `trace`.

Modelling choices:

- Python floats are exact `real`s; `int(...)` is `Units.Trunc`
  (toward zero; `Floor` differs on negative non-integers, see
  `Units.TruncVersusFloor`).
- The stepper controller and the camera are foreign code. Each controller
  call is a method of `BioStepper` that records a `Motion.Command`; the
  camera is a counter, and the `k`-th snapshot of a session is
  `Scan.Snapshot(k)`. The camera class of the source only opens the camera,
  so its state (open or closed, frames taken) lives in `Biosensor`.
- The busy-wait for the controller to reach the target is
  `BioStepper.AwaitPosition`: the controller is modelled as reaching the
  target it was given, so the wait ends with the reported position equal to
  the target. Nothing is claimed about how long that takes.
- Pauses are recorded as `Sleep(seconds)` events.
- The controller's reported position before the first move is taken to be 0.
- `TakeScan` iterates `max(rows, 0)` times, as a Python `range` does.

Behaviour `Biosensor.py` does not have is not modelled:

- An out-of-bounds `move` or `move_to` is a no-op (the former also prints a
  message); there is no reported OutOfBounds error.
- A scan moves the stage after every row, the last one included, and goes on
  to the next row even when a move was refused; there is no abort with a row
  index and no cancellation.
- Shutdown is not guarded against a second call; waits have no timeout.
- Start-up leaves the motor engaged until the first accepted move or `stop`.

## Model

| member | source | states |
|---|---|---|
| Units.Trunc | Biosensor.py:69 | The step count is the integer part of the scaled position, truncated toward zero: for `x >= 0`, `r <= x < r + 1`; for `x < 0`, `r - 1 < x <= r`. |
| Units.TruncOdd | Biosensor.py:83 | Truncation is symmetric: `Trunc(-x) == -Trunc(x)`. |
| Units.TruncVersusFloor | Biosensor.py:69 | Truncation equals `Floor` on non-negative numbers and on integers, and is `Floor + 1` on negative non-integers. |
| ScanPaths.Decimal | Biosensor.py:38 | The `%d` rendering of a row number is a non-empty string of digits without a leading zero. |
| ScanPaths.DecimalRoundTrip | Biosensor.py:38 | Parsing the decimal notation of `n` gives back `n`. |
| ScanPaths.DecimalInjective | Biosensor.py:38 | Two numbers have the same decimal notation exactly when they are equal. |
| ScanPaths.ScanPath | Biosensor.py:38 | A row's path is longer than the fixed prefix and suffix together: the row number contributes at least one character. |
| ScanPaths.ScanPathRow | Biosensor.py:38 | The path of row `k` starts with `pics\test`, ends with `.tif`, and what lies between is all digits and parses back to `k`. |
| ScanPaths.ScanPathInjective | Biosensor.py:38 | `pics\test<a>.tif` and `pics\test<b>.tif` are equal exactly when `a == b`, so every row gets its own file. |
| Motion.Calibration.InBounds | Biosensor.py:97-98 | Both limits are themselves valid positions (when the range is not empty), and no position is valid in an empty range. |
| Motion.Step | Biosensor.py:67-92 | A move sends commands exactly when its target is in bounds; a refused move leaves the stage unchanged; an accepted one sends engage / target / disengage and leaves the stage at its goal, the controller at the target and the motor disengaged. |
| Motion.DefaultLimitsContainHome | Biosensor.py:58-64 | With the fixed limits, a step position is in bounds exactly when `-2000 <= p <= 30000`; step 0 is in bounds. |
| Motion.HomeAccepted | Biosensor.py:81-90 | When the limits contain 0, an absolute move to 0 is always performed and ends at position 0, controller at step 0, motor disengaged, after engage / target 0 / disengage. |
| Motion.RunCommandsSafe | Biosensor.py:67-92 | Over any sequence of relative and absolute moves, every target sent to the controller satisfies `inbounds`, and each is immediately preceded by engaging and followed by disengaging the motor. |
| Motion.RunEndsDisengaged | Biosensor.py:67-92 | After any sequence of moves, either nothing was commanded and the stage is exactly as before, or the motor is disengaged. |
| Motion.HomeInBounds | Biosensor.py:58-64 | A stage at position 0 with the controller at step 0 satisfies the stage invariant under the fixed limits, whatever the scale, so start-up establishes it. |
| Motion.StepStaysInBounds | Biosensor.py:67-92 | One move, accepted or refused, keeps the stage invariant: the controller's reported step and the step value of the logical position both stay within the limits. |
| Motion.RunStaysInBounds | Biosensor.py:67-92 | Any sequence of relative and absolute moves from a stage within its limits ends within them. |
| Motion.RunNoDrift | Biosensor.py:76 | In the exact-real model, accepted relative moves accumulate without drift: the position is the start plus the sum of the amounts. |
| Motion.RepeatAdvance | Biosensor.py:40 | In the exact-real model, `n` accepted moves by `spacing` (a scan's moves) end `n * spacing` micrometres from the start. |
| Motion.MoveToIdempotent | Biosensor.py:81-90 | Repeating an absolute move leaves the stage as the first left it and re-sends the same commands, with the controller already at the target. |
| Stepper.BioStepper.constructor | Biosensor.py:58-64 | A new stage has the given position and scale (defaulting, as in the source, to 0 and 0.6085), a disengaged, unattached motor and an empty controller log. |
| Stepper.BioStepper.Move | Biosensor.py:67-78 | Target `Trunc((pos + amount) * scale)`. In bounds: `pos` becomes `old(pos) + amount`, the controller ends at the target, the motor is disengaged, and the log grows by engage / target / disengage. Out of bounds: position, controller, engagement and log unchanged. Agrees with `Motion.Step` and keeps the stage invariant. |
| Stepper.BioStepper.MoveTo | Biosensor.py:81-92 | Target `Trunc(newpos * scale)`. In bounds: `pos == newpos`, controller at the target, motor disengaged, log grows by engage / target / disengage. Out of bounds: a silent no-op. Agrees with `Motion.Step` and keeps the stage invariant. |
| Stepper.BioStepper.AwaitPosition | Biosensor.py:73-74 | The wait ends with the controller reporting exactly the target. |
| Scan.ScanRow | Biosensor.py:33-41 | Every row of a scan is exactly five events (what they are, and where each lies in the scan, is `Scan.ScanRowAt`). |
| Scan.ScanEvents | Biosensor.py:31-41 | A scan of `n` rows produces exactly `5 * n` events. |
| Scan.ScanRowAt | Biosensor.py:32-41 | Row `k` occupies events `5k` to `5k + 4`, in the order capture, sleep 0.5, save to `pics\test<k+1>.tif`, move by `spacing`, sleep 0.5. |
| Scan.ScanSavesDistinct | Biosensor.py:38 | Two different saves of a scan use different paths and store different frames. |
| Scan.ScanSavesCapturedFrame | Biosensor.py:35-38 | Every save of a scan stores the frame captured two events earlier, under the path of its own row. |
| Scan.ScanCounts | Biosensor.py:31-41 | A scan of `n` rows has exactly `n` captures, `n` saves, `n` moves and `2n` pauses. |
| Scan.ScanMoves | Biosensor.py:40 | Every move of a scan is a relative move by `spacing`, in the fourth slot of its row. |
| Scan.ScanEndsWithMove | Biosensor.py:40-41 | The last row also moves the stage, then pauses. |
| Session.Biosensor.constructor | Biosensor.py:11-23 | Start-up creates the stage at 0 with scale 0.6085, takes the first snapshot, attaches (5000 ms), engages, sets acceleration 87543, velocity limit 8000 and current limit 0.5, then pauses 0.5 s, leaving the motor engaged and the stage within its limits. |
| Session.Biosensor.TakePicture | Biosensor.py:25-26 | Returns the next snapshot and records one capture. |
| Session.Biosensor.SaveImage | Biosensor.py:28-29 | Records saving the given frame under the given name, nothing else. |
| Session.Biosensor.TakeScan | Biosensor.py:31-41 | The trace grows by exactly `ScanEvents` for `max(rows, 0)` rows, one snapshot per row, and the stage and its log end as `Motion.Run` of that many moves by `spacing`; the stepper's attachment is unchanged; `width` plays no part. |
| Session.Biosensor.ScanOneRow | Biosensor.py:33-41 | One row: one snapshot, the row's five events, and exactly one `Motion.Step` by `spacing` on the stage. |
| Session.Biosensor.Stop | Biosensor.py:48-54 | In order: close camera, move to 0, disengage, pause 1 s, close stepper; the stage ends at position 0, controller at step 0, disengaged and closed. |

## Left out

- Floating-point rounding: positions and the scale are exact reals. In the
  program `pos += amount` accumulates rounding error (three moves by 0.1
  give 0.30000000000000004), so `Motion.RunNoDrift` and
  `Motion.RepeatAdvance` hold only in the exact-real model, and a product
  that lands within rounding error of an integer may truncate differently
  from IEEE arithmetic.
- The controller and camera SDKs (attach, limits, snapshot, image files,
  closing) are recorded calls, not modelled devices; their failures and
  exceptions are not modelled.
- Stepper.BioStepper.AwaitPosition: the polling loop is not modelled; its
  termination depends on the hardware.
- The length of pauses in real time; only their order and nominal durations.
- Console output (the out-of-bounds message and the per-row progress line).
- `interpret_image`, which has an empty body.
- The GUI (`BioGui.py`) and the process entry point (`SensorMain.py`),
  which only forward to the operations modelled here and call `stop` on exit.
- Session.Biosensor.TakeScan: the final position after a fully accepted
  scan is stated separately by `Motion.RepeatAdvance` rather than in the
  method's own contract.
