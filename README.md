# NAR_Motor and Tester, modelled in Dafny

This project models two parts of Team 3128's robot library:

- **`NAR_Motor`**: the unified motor abstraction. Every command goes through `set(value, mode, feedForward)`. The method:
  - suppresses a command equal to the previous one;
  - converts caller units to the device's native units;
  - optionally wraps positions into a circular range;
  - makes exactly one write to the vendor backend.

  `getPosition` and `getVelocity` convert the backend's readings back to caller units. `follow` registers a follower with a leader. A periodic sweep copies each leader's applied output to its followers.
- **`Tester`**: the system-check sequencer. It keeps a registry of named suites, and each suite is an ordered list of unit tests. A suite runs its tests one at a time, stops at the first failure, and passes once it runs past the last test.

The project has three files:

- `math_util.dfy` (module `MathUtil`):
  - `Clamp`, the abstract `InputModulus`, and the facts about congruence that the proofs use.
  - `InputModulus` has the abstract specification that the library call is known to meet: the result lies in the closed range `[min, max]` and differs from the input by a whole multiple of `max - min`.
  - Whole multiples are counted out by `Times`, so the proofs never multiply an integer by a real.
- `nar_motor.dfy` (module `NarMotor`) has two layers:
  - A pure command layer: `Dispatch`, `Issue`, the unit conversions, the readings, and the lemmas that relate them.
  - Two classes that mutate state:
    - `Motor` holds the fields NAR_Motor keeps. Its `calls` field is a ghost log of every backend write, in order.
    - `FollowerRegistry` holds the static set of leaders and the sweep.
- `tester.dfy` (module `TestSequencer`) also has two layers:
  - A pure suite state machine: `Start`, `Step` and `Drive`, proved to schedule tests in order, stop at the first failure, and pass after the last test.
  - The classes `UnitTest`, `Test` and `Tester`, whose methods are proved against that machine.

Two points about wrapping follow from the code itself:

- Wrapping is a call to the library function `MathUtil.inputModulus`, whose body is not part of this model. The model therefore leaves open which end of the range the result may not take. The comment on `enableContinuousInput` (NAR_Motor.java:106-114) says the minimum and maximum are the same point. So periodicity and setpoint read-back are proved up to the two ends of the range being one point (`WrapEquivalent`). Reading back after a reset is exact.
- With a zero-width range (`min == max`), the wrap at NAR_Motor.java:101 and NAR_Motor.java:195 divides by zero, and nothing in the code guards against it. The model therefore requires `min < max` before wrapping, as a precondition on position commands and position readings.

## Model

| member | source | states |
|---|---|---|
| MathUtil.Clamp | src/main/java/common/hardware/motorcontroller/NAR_Motor.java:94 | percent output is clamped into [-1, 1]: values inside pass through, values outside go to the nearer bound |
| MathUtil.InputModulus | src/main/java/common/hardware/motorcontroller/NAR_Motor.java:195 | for min < max the wrapped value lies in [min, max] and is congruent to the input modulo max - min |
| MathUtil.WrapExists | src/main/java/common/hardware/motorcontroller/NAR_Motor.java:195 | some point of [min, max] is congruent to any value, so the abstract wrap is well defined |
| MathUtil.WrapUnique | src/main/java/common/hardware/motorcontroller/NAR_Motor.java:195 | two congruent points of the range are equal or are its two ends |
| MathUtil.InputModulusPeriodic | src/main/java/common/hardware/motorcontroller/NAR_Motor.java:195 | values a whole number of range widths apart wrap to the same point of the circle |
| MathUtil.CongruentTrans | src/main/java/common/hardware/motorcontroller/NAR_Motor.java:195 | congruence modulo the range width is transitive and symmetric |
| NarMotor.WrapSpec | src/main/java/common/hardware/motorcontroller/NAR_Motor.java:195 | with continuous input off the value is untouched; with it on, the value lands in the range, congruent to the input |
| NarMotor.NativeVelocity | src/main/java/common/hardware/motorcontroller/NAR_Motor.java:97 | native rpm times the unit factor equals the caller velocity times the time factor |
| NarMotor.NativePositionAsWritten | src/main/java/common/hardware/motorcontroller/NAR_Motor.java:100-101 | position conversion as the code does it: the setpoint divided by the unit factor, and when continuous a point of the range congruent to that quotient |
| NarMotor.NativePosition | src/main/java/common/hardware/motorcontroller/NAR_Motor.java:100-101 | corrected position conversion: the native setpoint, in caller units, is the wrapped caller setpoint |
| NarMotor.AsWrittenReadBackDiffers | src/main/java/common/hardware/motorcontroller/NAR_Motor.java:99-101 | as written, unit factor 0.5 and range [0, 1]: set(0.8) writes 0.6 rotations, which reads back as 0.3, a different point of the circle from 0.8 |
| NarMotor.NativePositionAsWrittenIgnoresUnits | src/main/java/common/hardware/motorcontroller/NAR_Motor.java:100-101 | as written, degrees-per-rotation 360 and range [0, 360]: 370 is written as 370 degrees, one turn past the corrected 10 |
| NarMotor.Dispatch | src/main/java/common/hardware/motorcontroller/NAR_Motor.java:92-103 | one backend write per mode: clamped percent output; converted velocity; position divided by the unit factor and, when continuous, wrapped into the range after that division; feed-forward passed through |
| NarMotor.Issue | src/main/java/common/hardware/motorcontroller/NAR_Motor.java:88-103 | a command reaches the backend exactly when it differs from the previous one, as one write, and becomes the new previous command |
| NarMotor.IssueTwice | src/main/java/common/hardware/motorcontroller/NAR_Motor.java:88 | the same command issued twice in a row is written at most once |
| NarMotor.FreshMotorIgnoresZero | src/main/java/common/hardware/motorcontroller/NAR_Motor.java:47-49 | a fresh motor's previous command is 0 percent output, so set(0) makes no write |
| NarMotor.PercentWrites | src/main/java/common/hardware/motorcontroller/NAR_Motor.java:88-95 | set(output) writes nothing exactly when the previous command is that output in percent mode, otherwise one clamped percent output |
| NarMotor.PercentIssue | src/main/java/common/hardware/motorcontroller/NAR_Motor.java:68-70 | a percent command's writes do not depend on the conversion factors or the range |
| NarMotor.VelocityExample | src/main/java/common/hardware/motorcontroller/NAR_Motor.java:97 | unit factor 1 and time factor 60 write a velocity of 120 as 7200 |
| NarMotor.PositionReadingSpec | src/main/java/common/hardware/motorcontroller/NAR_Motor.java:194-195 | the position reading is the raw position times the unit factor, or when continuous a point of the range congruent to it |
| NarMotor.VelocityReading | src/main/java/common/hardware/motorcontroller/NAR_Motor.java:202-204 | the reading times the time factor equals the raw velocity times the unit factor |
| NarMotor.ResetTarget | src/main/java/common/hardware/motorcontroller/NAR_Motor.java:141-143 | the native reset position times the unit factor is the caller position |
| NarMotor.ResetThenRead | src/main/java/common/hardware/motorcontroller/NAR_Motor.java:141-143 | after a reset the position reads back as the reset position (wrapped when continuous) |
| NarMotor.PositionSetpointThenRead | src/main/java/common/hardware/motorcontroller/NAR_Motor.java:99-101 | corrected conversion (`NativePosition`): a reached position setpoint reads back as the setpoint, or as the same point of the circle when continuous |
| NarMotor.VelocitySetpointThenRead | src/main/java/common/hardware/motorcontroller/NAR_Motor.java:96-97 | a reached velocity setpoint reads back as the setpoint |
| NarMotor.ReadingOf | src/main/java/common/hardware/motorcontroller/NAR_Motor.java:193-196 | a raw position worth x caller units reads as x wrapped |
| NarMotor.PositionReadingPeriodic | src/main/java/common/hardware/motorcontroller/NAR_Motor.java:193-196 | raw positions a whole number of range widths apart (in native units) read as the same point of the circle |
| NarMotor.ContinuousRangeNormalized | src/main/java/common/hardware/motorcontroller/NAR_Motor.java:115-119 | the stored bounds are ordered and are the two given bounds, in either argument order |
| NarMotor.NeutralCall | src/main/java/common/hardware/motorcontroller/NAR_Motor.java:231-240 | brake mode writes the brake call and coast mode the coast call |
| NarMotor.Motor.constructor | src/main/java/common/hardware/motorcontroller/NAR_Motor.java:47-54 | no followers, previous command 0 percent output, continuous off, both factors 1, no writes |
| NarMotor.Motor.SetControl | src/main/java/common/hardware/motorcontroller/NAR_Motor.java:87-104 | the previous command and the write log advance as Issue says (position divided by the unit factor, then wrapped); a repeated command leaves the motor untouched |
| NarMotor.Motor.SetMode | src/main/java/common/hardware/motorcontroller/NAR_Motor.java:77-79 | as SetControl with zero feed-forward |
| NarMotor.Motor.Set | src/main/java/common/hardware/motorcontroller/NAR_Motor.java:68-70 | as SetControl with a percent output command |
| NarMotor.Motor.SetVolts | src/main/java/common/hardware/motorcontroller/NAR_Motor.java:60-62 | as Set with volts / 12 |
| NarMotor.Motor.EnableContinuousInput | src/main/java/common/hardware/motorcontroller/NAR_Motor.java:115-119 | stores the lesser and greater bound and turns continuous input on |
| NarMotor.Motor.SetUnitConversionFactor | src/main/java/common/hardware/motorcontroller/NAR_Motor.java:125-127 | stores the unit factor and nothing else |
| NarMotor.Motor.SetTimeConversionFactor | src/main/java/common/hardware/motorcontroller/NAR_Motor.java:133-135 | stores the time factor and nothing else |
| NarMotor.Motor.ResetPosition | src/main/java/common/hardware/motorcontroller/NAR_Motor.java:141-143 | one raw-position reset to the position in native units |
| NarMotor.Motor.GetPosition | src/main/java/common/hardware/motorcontroller/NAR_Motor.java:193-196 | the raw position in caller units, or a point of the range congruent to it when continuous |
| NarMotor.Motor.GetVelocity | src/main/java/common/hardware/motorcontroller/NAR_Motor.java:202-204 | the reading times the time factor equals the raw velocity times the unit factor |
| NarMotor.Motor.SetNeutralMode | src/main/java/common/hardware/motorcontroller/NAR_Motor.java:231-240 | exactly one brake or coast write, matching the mode |
| NarMotor.Motor.Follow | src/main/java/common/hardware/motorcontroller/NAR_Motor.java:222-225 | the motor is appended to the leader's followers and the leader joins the registry |
| NarMotor.FollowerRegistry.constructor | src/main/java/common/hardware/motorcontroller/NAR_Motor.java:16 | the registry starts with no leaders |
| NarMotor.FollowerRegistry.Sweep | src/main/java/common/hardware/motorcontroller/NAR_Motor.java:19-26 | in any leader order, every follower mirrors one of its leaders, and all of them when they agree; when they agree, each follower's backend log grows by exactly the writes of one set(output) from its previous command; an in-sync registry is left unchanged |
| NarMotor.FollowerRegistry.ForwardLeaders | src/main/java/common/hardware/motorcontroller/NAR_Motor.java:20-25 | after visiting every leader, every follower has been sent an output, with the progress invariant kept |
| NarMotor.FollowerRegistry.ForwardFollowers | src/main/java/common/hardware/motorcontroller/NAR_Motor.java:21-24 | every follower of the leader has been sent the leader's applied output and is now recorded as mirroring this leader (so a follower shared with a later leader mirrors whichever leader was swept last), with the progress invariant kept |
| NarMotor.FollowerRegistry.ForwardOne | src/main/java/common/hardware/motorcontroller/NAR_Motor.java:23 | one follower.set(output): that follower now mirrors the leader, and its writes are those of one set(output) |
| NarMotor.FollowerRegistry.InSyncIsConsistent | src/main/java/common/hardware/motorcontroller/NAR_Motor.java:19-26 | followers that mirror all their leaders force those leaders to agree |
| NarMotor.FollowerRegistry.SweepDone | src/main/java/common/hardware/motorcontroller/NAR_Motor.java:19-26 | once every leader is visited, every follower mirrors a leader, all of them when they agree, and its log grows by one set(output)'s writes |
| TestSequencer.Verdict | src/main/java/common/utility/tester/Tester.java:66 | a unit test passes exactly when neither interrupt signal is set and its pass condition holds; never RUNNING |
| TestSequencer.UnitTest.constructor | src/main/java/common/utility/tester/Tester.java:41-49 | a new unit test is FAILED and not interrupted |
| TestSequencer.UnitTest.Initialize | src/main/java/common/utility/tester/Tester.java:52-57 | clears the interrupt flag and sets RUNNING |
| TestSequencer.UnitTest.HandleInterrupt | src/main/java/common/utility/tester/Tester.java:43 | an interrupt of the wrapped command raises the flag |
| TestSequencer.UnitTest.End | src/main/java/common/utility/tester/Tester.java:65-68 | the new state is the verdict on the flag, the end argument and the pass condition |
| TestSequencer.UnitTest.IsFinished | src/main/java/common/utility/tester/Tester.java:71-73 | finished exactly when the command finished or is no longer scheduled |
| TestSequencer.Start | src/main/java/common/utility/tester/Tester.java:107-113 | back to index 0; an empty suite FAILS, a non-empty one is RUNNING and schedules test 0 only |
| TestSequencer.Step | src/main/java/common/utility/tester/Tester.java:116-134 | an empty suite's step changes nothing; otherwise the index advances by at most one, only the new current test is scheduled, and the suite invariant is kept |
| TestSequencer.StepIdle | src/main/java/common/utility/tester/Tester.java:120-133 | a running current test changes nothing |
| TestSequencer.StepOutcomes | src/main/java/common/utility/tester/Tester.java:121-131 | failure fails in place; a pass moves to and schedules the next test, or passes after the last |
| TestSequencer.Drive | src/main/java/common/utility/tester/Tester.java:141-144 | repeated execution until finished keeps index <= size, and index < size while running |
| TestSequencer.DriveInOrder | src/main/java/common/utility/tester/Tester.java:124-131 | whatever the outcomes, tests are scheduled in order with none skipped, and PASSED only at the end of the list |
| TestSequencer.DrivePasses | src/main/java/common/utility/tester/Tester.java:124-129 | from test i, all passes end PASSED at the list size having scheduled i+1 .. size-1 |
| TestSequencer.DriveFails | src/main/java/common/utility/tester/Tester.java:121-123 | from test i, passes up to k and a failure at k end FAILED at k having scheduled i+1 .. k |
| TestSequencer.SuitePasses | src/main/java/common/utility/tester/Tester.java:107-131 | a non-empty suite whose tests all pass ends PASSED having scheduled every test once, in order |
| TestSequencer.SuiteStopsAtFirstFailure | src/main/java/common/utility/tester/Tester.java:107-131 | a first failure at k ends the suite FAILED at k, with tests 0 .. k scheduled and none after |
| TestSequencer.Test.constructor | src/main/java/common/utility/tester/Tester.java:87-91 | a new suite is FAILED at index 0 with no unit tests |
| TestSequencer.Test.AddTest | src/main/java/common/utility/tester/Tester.java:102-104 | appends at the end and keeps the suite invariant |
| TestSequencer.Test.Initialize | src/main/java/common/utility/tester/Tester.java:107-113 | the state and the scheduling log advance as Start says |
| TestSequencer.Test.Execute | src/main/java/common/utility/tester/Tester.java:116-134 | the state and the scheduling log advance as Step says on the current unit test's state |
| TestSequencer.Test.IsFinished | src/main/java/common/utility/tester/Tester.java:142-144 | finished exactly when the suite is not RUNNING |
| TestSequencer.Test.GetTestState | src/main/java/common/utility/tester/Tester.java:146-148 | returns the suite's state |
| TestSequencer.Tester.constructor | src/main/java/common/utility/tester/Tester.java:167-169 | no suites registered |
| TestSequencer.Tester.AddTest | src/main/java/common/utility/tester/Tester.java:176-181 | creates a fresh empty suite for a new name, appends the test to that name's suite, and leaves every other suite unchanged |
| TestSequencer.Tester.RunTest | src/main/java/common/utility/tester/Tester.java:187-189 | launches the registered suite; the name must be present |

## Left out

- Vendor backends are not modelled. The abstract hardware methods (`setInverted`, `enableVoltageCompensation`, `setCurrentLimit`, `setDefaultStatusFrames`, `getMotor`, `getStallCurrent`) drive hardware only. The writes the core makes are recorded in the ghost `calls` log. The readings (`getAppliedOutput`, `getRawPosition`, `getRawVelocity`) are fields the device keeps current.
- Registering the sweep with the robot's periodic scheduler, and its 0.1 s period, are not modelled. `FollowerRegistry.Sweep` is the body of the callback, and the caller invokes it. There are no static fields, so the static leader set is a `FollowerRegistry` object that is passed to `Follow`.
- The leader set is a hash set with no defined iteration order. `Sweep` picks the leaders in an arbitrary order, and its contract holds for every order. Its outer loop, inner loop and single `follower.set(output)` are the methods `ForwardLeaders`, `ForwardFollowers` and `ForwardOne`.
- IEEE-754 behaviour is not modelled. Numbers are exact reals. The model does not capture:
  - NaN never passing the redundant-command check;
  - `-0.0 == 0.0`;
  - rounding in `(p / k) * k`;
  - division by zero.

  Instead, converting velocity, converting position and resetting position require a non-zero unit factor; `getVelocity` requires a non-zero time factor; wrapping requires `min < max`.
- `MathUtil.InputModulus`: only the specification of the library call is modelled, not its internal arithmetic. Its contract is the closed range and the congruence. It does not say which end of the range is excluded.
- Command-scheduler mechanics are not modelled: `schedule()`, `handleInterrupt`, requirements, and the wrapped command's own `initialize`/`execute`/`end`. Scheduling a unit test or launching a suite becomes an entry in a ghost log. The pass condition, interrupts and the command's state become parameters.
- `UnitTest.execute` only forwards to the wrapped command, so it has no model. `Test.end` only logs, so it has no model.
- Dashboard updates and buttons, `Log.info` output, and the synchronized `getInstance` singleton are not modelled. They are I/O or concurrency.

## Findings

| source | as written | input that shows it | evidently intended | confidence | as-written member | corrected member |
|---|---|---|---|---|---|---|
| src/main/java/common/hardware/motorcontroller/NAR_Motor.java:100-101 | Position mode divides by the unit factor first and then wraps. This applies the continuous bounds to native rotations, although `getPosition` (line 195) applies them to caller units. | unit factor 0.5, range [0, 1], setpoint 0.8: the code writes 1.6 wrapped in rotations, 0.6, and `getPosition` then reads 0.6 * 0.5 = 0.3, not 0.8 | wrap the caller setpoint into the range, then divide by the unit factor: 1.6 rotations, which reads back as 0.8 | medium, not executed | NarMotor.AsWrittenReadBackDiffers | NarMotor.NativePosition |
