# Drivetrain control core of sl-robot, modelled in Dafny

This project models the integer drivetrain core of the Sandor Laboratories
robot software. RC channel values are mixed by the arcade drive into
per-motor set rpms. Each motor driver decides, once per tick, whether it
may run: it is blocked by a disable-reason mask or an external failsafe.
It then derives a commanded rpm, either through a PID control loop fed by
a quadrature encoder or through a piecewise-linear pass-through. The
DRV8256P back end turns that command into sleep/IN1/IN2 pin values. Around
it sit the global failsafe mask with its arm switch, the rotation unit
conversions, a slot-state ring buffer, and the per-axis IMU store.

Every C++ `/` is truncating division, modelled by `IntMath.TDiv`. Integers
are unbounded (see "Left out").

Files and modules:
- `int_math.dfy` (`IntMath`): truncating division, clamping and midpoints.
- `bits.dfy` (`Bits`): 32-bit masks.
- `rotation.dfy` (`Rotation`): the unit conversions.
- `rc.dfy` (`Rc`): RC channel constants.
- `failsafe.dfy` (`Failsafe`): the failsafe mask.
- `control_loop.dfy` (`ControlLoop`): the control loop and its PID step.
- `encoder.dfy` (`Encoder`): the quadrature encoder.
- `motor_driver_types.dfy` (`MotorDriverTypes`): the reasons, the config and the rpm mappings.
- `drv8256p.dfy` (`Drv8256p`): the pin mapping.
- `motor_driver.dfy` (`MotorDriver`): the driver class.
- `arcade_drive.dfy` (`ArcadeDrive`): the mixer.
- `circular_buffer.dfy` (`CircularBuffer`): the ring buffer.
- `imu.dfy` (`Imu`): the IMU store.

How the model is shaped:
- Hardware and timing are parameters.
  - `millis()` becomes `now`.
  - Pin levels become `levelA`, `levelB` and `faultPinHigh`.
  - RC channel values become `throttle`, `steering` and `channelValue`.
  - A configured failsafe callback's answer becomes `failsafeActive`.
- The two hardware hooks of the motor driver are recorded in `hooks`, a
  sequence of `DisableMotorCall` / `CommandMotorCall` events. The
  DRV8256P hooks also set the `pins` field.
- The abstract control loop base and its only subclass, the PID loop, are
  one class, `ControlLoop.PidLoop`.
- The DRV8256P driver and the generic driver are one class,
  `MotorDriver.MotorDriver`.
- `SL_CR_RC_CH_VALUE_VALID` is not defined in any file of this model. It is
  taken to mean "differs from `SL_CR_RC_CH_INVALID_VALUE`" (`Rc.ChannelValueValid`).

## Model

| member | source | states |
|---|---|---|
| IntMath.TDiv | src/sl_robot_types.hpp:61 | C++ signed division: the quotient's magnitude is the floor of the operands' magnitudes, and its sign is fixed by theirs, so it truncates toward zero |
| IntMath.Midpoint | sl_robot_motor_driver.hpp:102 | the truncated mean of two bounds lies between them |
| IntMath.Clamp | sl-robot/src/sl_robot_control_loop.cpp:34-52 | saturation into [lo, hi]: unchanged exactly when in range, otherwise the bound that was crossed |
| Rotation.MrpmToMRadPs | src/sl_robot_types.hpp:59-62 | mrpm to mrad/s through 2·3142/60000, truncated; the result never has the sign opposite to the input |
| Rotation.RpmToRadPs | src/sl_robot_types.hpp:63-66 | rpm to rad/s through the milli conversion, truncated twice; the result never has the sign opposite to the input |
| Rotation.MRadPsToMrpm | src/sl_robot_types.hpp:67-70 | mrad/s to mrpm through 60000/(2·3142), truncated; the result never has the sign opposite to the input |
| Rotation.RadPsToRpm | src/sl_robot_types.hpp:71-74 | rad/s to rpm through the milli conversion, truncated twice; the result never has the sign opposite to the input |
| Rotation.ConversionsAreOdd | src/sl_robot_types.hpp:59-74 | all four conversions map 0 to 0 and commute with negation, since truncation is toward zero |
| Rotation.ConversionsAreMonotone | src/sl_robot_types.hpp:59-74 | all four conversions are non-decreasing |
| Rotation.ScaleBackShrinks | src/sl_robot_types.hpp:59-70 | scaling a non-negative value by c/d and back by d/c, truncating each time, never exceeds it |
| Rotation.RoundTripsShrink | src/sl_robot_types.hpp:59-70 | the mrpm to mrad/s round trip, in either order, keeps the sign and never grows in magnitude |
| Rc.CentreOfNominalRange | sl_cr_types.hpp:20-25 | the channel centre is 991, strictly inside 172..1811; the invalid value 0 is not a valid reading |
| Failsafe.FailsafeReason.Index | sl_cr_failsafe.hpp:17-33 | each reason's enumerator value, which selects its bit |
| Failsafe.ReasonIndexInjective | sl_cr_failsafe.hpp:17-33 | distinct reasons have distinct bits |
| Failsafe.FailsafeMask.constructor | sl_cr_failsafe.cpp:12 | the mask starts with only the boot bit set, so failsafe is active at boot |
| Failsafe.FailsafeMask.SetReason | sl_cr_failsafe.cpp:14-28 | ORs in the reason's bit; that reason and failsafe become active, every other reason keeps its state |
| Failsafe.FailsafeMask.ClearReason | sl_cr_failsafe.cpp:29-43 | clears only the reason's bit; every other reason keeps its state |
| Failsafe.FailsafeMask.SetReasonValue | sl_cr_failsafe.cpp:44-54 | sets the bit for true and clears it for false, so the reason then reads back as the value |
| Failsafe.FailsafeMask.GetFailsafeSet | sl_cr_failsafe.cpp:55-66 | failsafe is active whenever any reason is set, and inactive only with an all-zero mask |
| Failsafe.FailsafeMask.GetFailsafeMask | sl_cr_failsafe.cpp:55-58 | the whole reason mask, as `GetFailsafeSet` and `GetFailsafeSetFor` read it |
| Failsafe.FailsafeMask.GetFailsafeSetFor | sl_cr_failsafe.cpp:63-66 | whether one reason's bit is set; a reason that holds makes the mask nonzero |
| Failsafe.FailsafeMask.ArmSwitchLoop | sl_cr_failsafe.cpp:68-71 | the arm-switch reason is set exactly when the channel value is at most 1811*90/100 = 1629, cleared otherwise |
| Bits.SetBitSets | sl_cr_failsafe.cpp:14-17 | a set bit reads back as set |
| Bits.ClearBitClears | sl_cr_failsafe.cpp:32 | a cleared bit reads back as clear |
| Bits.SetBitIdempotent | sl_cr_failsafe.cpp:17 | setting a bit twice is setting it once |
| Bits.ClearBitIdempotent | sl_cr_failsafe.cpp:32 | clearing a bit twice is clearing it once |
| Bits.SetKeepsOtherBit | sl_cr_failsafe.cpp:17 | setting one bit leaves every other bit as it was |
| Bits.ClearKeepsOtherBit | sl_cr_failsafe.cpp:32 | clearing one bit leaves every other bit as it was |
| Bits.BitSetMeansNonzero | sl_cr_failsafe.cpp:59-62 | a mask with a bit set is nonzero |
| ControlLoop.NextIntegral | sl_robot_pid_loop.cpp:33-39 | the integral either stays or takes the tentative value; in range it advances; saturated high it never grows; saturated low it never shrinks |
| ControlLoop.IntegratorHeldOnlyWhenWindingUp | sl_robot_pid_loop.cpp:33-39 | the integral is held exactly when the candidate is saturated and the error pushes further in the same direction |
| ControlLoop.CandidateAtRest | sl_robot_pid_loop.cpp:27-31 | zero error, previous error and integral give a zero candidate output |
| ControlLoop.CandidateIsOdd | sl_robot_pid_loop.cpp:27-31 | negating all three error terms negates the candidate output |
| ControlLoop.CandidateMonotoneInError | sl_robot_pid_loop.cpp:27-31 | with the history fixed, a larger error never gives a smaller candidate output |
| ControlLoop.PidLoop.constructor | sl-robot/src/sl_robot_control_loop.cpp:13-27 | bounds stored; setpoint and output at their truncated range midpoints; error zero |
| ControlLoop.PidLoop.SameRange | sl-robot/src/sl_robot_control_loop.cpp:29-31 | the setpoint range doubles as the output range |
| ControlLoop.PidLoop.SetInitialState | sl-robot/src/sl_robot_control_loop.cpp:13-18 | setpoint and output re-centred, error zeroed, the PID history untouched |
| ControlLoop.PidLoop.SetSetpoint | sl-robot/src/sl_robot_control_loop.cpp:34-52 | the setpoint is the clamped request, and the result is true exactly when the request was in range |
| ControlLoop.PidLoop.SetOutput | sl-robot/src/sl_robot_control_loop.cpp:54-72 | the output is the clamped request, and the result is true exactly when the request was in range |
| ControlLoop.PidLoop.UpdateOutput | sl_robot_pid_loop.cpp:25-43 | the output is the saturated P+I+D candidate; the integral follows the anti-windup rule; the previous error becomes the current one |
| ControlLoop.PidLoop.Loop | sl-robot/src/sl_robot_control_loop.cpp:75-83 | error = setpoint - feedback, then the PID update, then the new output is returned |
| ControlLoop.PidLoop.ResetState | sl-robot/src/sl_robot_control_loop.cpp:87-91 | output re-centred, error zeroed, the new setpoint clamped into range |
| ControlLoop.PidLoop.Reset | sl_robot_pid_loop.cpp:46-51 | the base reset, then a zero integral and a zero previous error |
| Encoder.StateOfChannels | sl_robot_encoder.cpp:137-153 | a state is rebuilt from its two channel levels and vice versa |
| Encoder.ForwardIsGrayCycle | sl_robot_encoder.cpp:65-128 | each forward step 00, 10, 11, 01 changes exactly one channel, and four steps return to the start |
| Encoder.Classify | sl_robot_encoder.cpp:54-136 | a sample is unchanged, one step forward, one step back, or a skip; it is a skip exactly when both channels change |
| Encoder.WithChannelA | sl_robot_encoder.cpp:137-142 | sampling channel A replaces bit 1 and keeps bit 0 |
| Encoder.WithChannelB | sl_robot_encoder.cpp:143-148 | sampling channel B replaces bit 0 and keeps bit 1 |
| Encoder.SingleChannelNeverSkips | sl_robot_encoder.cpp:137-148 | a single-channel sample can never be a skipped transition |
| Encoder.PreviousState | sl_robot_encoder.cpp:65-128 | the reverse step undoes the forward step |
| Encoder.ForwardTraceCounts | sl_robot_encoder.cpp:65-128 | k forward steps add exactly k to the count and skip nothing |
| Encoder.ReverseTraceCounts | sl_robot_encoder.cpp:65-128 | k reverse steps subtract exactly k and skip nothing |
| Encoder.FullForwardCycle | sl_robot_encoder.cpp:65-128 | a full forward cycle returns to the start state and adds exactly 4 |
| Encoder.RpmFollowsDirection | sl_robot_encoder.cpp:163-177 | frequency and rpm have the sign of the counted ticks and are odd in them |
| Encoder.RpmOfWholeRevolutions | sl_robot_encoder.cpp:163-177 | counting whole output revolutions gives rpm = revolutions * 60000 * num / dt, truncated |
| Encoder.OneRevolutionInHalfASecond | sl_robot_encoder.cpp:163-177 | 12 counts in 500 ms at 12 counts per revolution and 1/1 give 120 rpm and 24 counts/s |
| Encoder.Encoder.Basic | sl_robot_encoder.cpp:16-38 | counters, frequency and rpm zero, one count per revolution, 1/1 reduction, state from the pins |
| Encoder.Encoder.constructor | sl_robot_encoder.cpp:40-51 | as above with the given direction, counts per revolution and reduction stored |
| Encoder.Encoder.ApplyNewState | sl_robot_encoder.cpp:54-136 | the count moves by the transition's step, the skip counter by its skip, and the new state is stored; an equal sample changes nothing |
| Encoder.Encoder.SampleChannelA | sl_robot_encoder.cpp:137-142 | the state gets channel A's level and the count moves accordingly; the skip counter is never touched |
| Encoder.Encoder.SampleChannelB | sl_robot_encoder.cpp:143-148 | the state gets channel B's level and the count moves accordingly; the skip counter is never touched |
| Encoder.Encoder.SampleChannels | sl_robot_encoder.cpp:149-153 | both levels are applied as one transition |
| Encoder.Encoder.ComputeRotationFrequency | sl_robot_encoder.cpp:155-179 | no change unless now is past the last update; otherwise the signed count is snapshotted, the count reset, and frequency and rpm computed over the elapsed time |
| Encoder.Encoder.Loop | sl_robot_encoder.cpp:212-215 | one tick is one frequency update |
| Encoder.CountFrequency | sl_robot_encoder.cpp:172-173 | counts per second over dt ms: keeps the sign of the count, and its magnitude times dt never exceeds 1000 times the count's |
| Encoder.RpmFrom | sl_robot_encoder.cpp:174-175 | output-shaft rpm over dt ms: with a positive count per revolution it keeps the count's sign, and it is 0 for no count or a zero ratio numerator |
| Encoder.Encoder.GetRpm | sl_robot_encoder.hpp:83 | the rpm of the last frequency update |
| Encoder.Encoder.GetCountFrequency | sl_robot_encoder.hpp:84 | the count frequency of the last frequency update |
| Encoder.Encoder.GetLastCount | sl_robot_encoder.hpp:85 | the signed count snapshotted at the last frequency update |
| Encoder.Encoder.GetCount | sl_robot_encoder.cpp:181-189 | the running count since the last frequency update |
| Encoder.Encoder.GetSkippedCount | sl_robot_encoder.cpp:190-199 | the number of samples that changed both channels |
| Encoder.Encoder.GetState | sl_robot_encoder.cpp:200-209 | the last sampled channel state |
| MotorDriverTypes.DisableReason.Index | sl_robot_motor_driver.hpp:20-28 | ESTOP, DRIVE_STRATEGY and FAULT are 0, 1 and 2 |
| MotorDriverTypes.ReasonBitsDistinct | sl_robot_motor_driver.hpp:20-28 | the three reasons take three distinct low bits |
| MotorDriverTypes.SetReasonKeepsOnlyReasonBits | sl_robot_motor_driver.cpp:125-129 | setting a reason keeps the mask within the reason bits |
| MotorDriverTypes.ClearReasonKeepsOnlyReasonBits | sl_robot_motor_driver.cpp:130-133 | clearing a reason keeps the mask within the reason bits |
| MotorDriverTypes.NonzeroMaskHasReason | sl_robot_motor_driver.cpp:134-145 | a reason-only mask is nonzero exactly when some reason is set |
| MotorDriverTypes.EnableOneOfTwoKeepsDisabled | sl_robot_motor_driver.cpp:125-133 | disabling for two reasons and enabling one leaves the other set and the mask nonzero |
| MotorDriverTypes.Config.NeutralRpm | sl_robot_motor_driver.hpp:102 | the neutral rpm lies within the rpm range |
| MotorDriverTypes.Config.NeutralCommandedRpm | sl_robot_motor_driver.hpp:105 | the neutral command lies within the commanded range |
| MotorDriverTypes.DefaultConfigIsCentred | sl_robot_motor_driver.cpp:15-30 | the default +/-1024 configuration is valid with both neutrals at 0 |
| MotorDriverTypes.SetRpmFor | sl_robot_motor_driver.cpp:85-104 | the stored set rpm is in range: the clamped request, or for an inverted motor its mirror image (the two sum to min + max) |
| MotorDriverTypes.InversionMirrors | sl_robot_motor_driver.cpp:85-104 | the inverted and plain stored values of one request sum to min + max |
| MotorDriverTypes.NeutralRequestStoresNeutral | sl_robot_motor_driver.cpp:85-104 | requesting neutral stores neutral exactly when the motor is not inverted or min + max is even |
| MotorDriverTypes.InvertedOddRangeMissesNeutral | sl_robot_motor_driver.cpp:120-123 | an inverted -1024..1023 motor has neutral 0 but stores -1 for a neutral request |
| MotorDriverTypes.CommandedFromSetRpm | sl_robot_motor_driver.cpp:61-83 | the pass-through command is in range; neutral maps to neutral; each half keeps its side; each end point maps to its end point |
| MotorDriverTypes.CommandedFromSetRpmMonotone | sl_robot_motor_driver.cpp:61-83 | the pass-through mapping never reverses order |
| Drv8256p.Duty | src/sl_robot_motor_driver_drv8256p.cpp:25-43 | the duty is at most max_value, is zero at zero distance, and reaches max_value at full distance |
| Drv8256p.CommandPins | src/sl_robot_motor_driver_drv8256p.cpp:23-53 | awake; at most one input driven; above neutral only IN1, below only IN2, neither at neutral; either extreme gives full duty |
| Drv8256p.CommandPinsMonotone | src/sl_robot_motor_driver_drv8256p.cpp:25-43 | the forward duty grows with the command and the reverse duty grows as it falls |
| Drv8256p.FaultStatusFor | src/sl_robot_motor_driver_drv8256p.cpp:82-94 | only FAULT or UNKNOWN is reported, never NONE; it is faulty exactly when the wired fault pin reads low |
| MotorDriver.MotorDriver.constructor | sl_robot_motor_driver.cpp:41-47 | corrected init: no reason set, not limping, both rpms at their neutrals, then asleep through one `disable_motor` call |
| MotorDriver.MotorDriver.InitAsWritten | sl_robot_motor_driver.cpp:41-47 | init as written: the same, except the set rpm is the neutral request stored through the inversion, `SetRpmFor(config, NeutralRpm)` |
| MotorDriverTypes.Faulty | sl_robot_motor_driver.hpp:47-50 | a status is faulty when it is neither none nor unknown |
| MotorDriver.MotorDriver.GetMinRpm | sl_robot_motor_driver.hpp:101 | the configured minimum, at or below the neutral rpm of a valid configuration |
| MotorDriver.MotorDriver.GetMaxRpm | sl_robot_motor_driver.hpp:103 | the configured maximum, at or above the neutral rpm of a valid configuration |
| MotorDriver.MotorDriver.GetMinCommandedRpm | sl_robot_motor_driver.hpp:104 | the configured commanded minimum, at or below the commanded neutral |
| MotorDriver.MotorDriver.GetMaxCommandedRpm | sl_robot_motor_driver.hpp:106 | the configured commanded maximum, at or above the commanded neutral |
| MotorDriver.MotorDriver.GetSetRpm | sl_robot_motor_driver.cpp:188-197 | the set rpm, which a valid driver keeps inside the rpm range |
| MotorDriver.MotorDriver.GetCommandedRpm | sl_robot_motor_driver.hpp:113 | the commanded rpm, which a valid driver keeps inside the commanded range |
| MotorDriver.MotorDriver.GetRealRpm | sl_robot_motor_driver.cpp:199-209 | the encoder's rpm when an encoder is attached; otherwise the set rpm, so inside the rpm range |
| MotorDriver.MotorDriver.GetFaultStatus | src/sl_robot_motor_driver_drv8256p.cpp:82-94 | a definite fault exactly when a fault pin is wired and reads low |
| MotorDriver.MotorDriver.Disabled | sl_robot_motor_driver.cpp:134-145 | disabled exactly when the failsafe reports or one of the three reasons is set |
| MotorDriver.MotorDriver.ChangeSetRpm | sl_robot_motor_driver.cpp:85-104 | the set rpm becomes the saturated, possibly mirrored request; nothing else changes |
| MotorDriver.MotorDriver.ChangeCommandedRpm | sl_robot_motor_driver.cpp:106-118 | the commanded rpm becomes the request clamped into the commanded range; nothing else changes |
| MotorDriver.MotorDriver.BrakeMotorAsWritten | sl_robot_motor_driver.cpp:120-123 | the set rpm becomes the neutral request as stored through the inversion |
| MotorDriver.MotorDriver.BrakeMotor | sl_robot_motor_driver.cpp:120-123 | the set rpm becomes the neutral rpm; nothing else changes |
| MotorDriver.MotorDriver.DisableMotor | src/sl_robot_motor_driver_drv8256p.cpp:14-21 | sleep low and both inputs zero, recorded as one `disable_motor` call |
| MotorDriver.MotorDriver.CommandMotor | src/sl_robot_motor_driver_drv8256p.cpp:23-53 | the pins follow the commanded rpm, recorded as one `command_motor` call |
| MotorDriver.MotorDriver.Disable | sl_robot_motor_driver.cpp:125-129 | the reason's bit is set and the motor de-energised through `disable_motor` |
| MotorDriver.MotorDriver.Enable | sl_robot_motor_driver.cpp:130-133 | only the reason's bit is cleared, no hook is called, every other reason is kept |
| MotorDriver.MotorDriver.SetLimpMode | sl_robot_motor_driver.cpp:212-215 | only the limp flag changes |
| MotorDriver.MotorDriver.Loop | sl_robot_motor_driver.cpp:152-186 | when disabled, the loop is reset to neutral, the command is neutral, the motor is de-energised and `command_motor` is never called; when active, the command follows the closed loop (set rpm against the real rpm, exact-neutral bypass) or the pass-through, and the motor is commanded once; in the closed-loop branch the integral follows the anti-windup rule and the previous error becomes the new error |
| ArcadeDrive.SpeedFromRc | sl_cr_arcade_drive.cpp:54-69 | zero inside the inclusive deadzone; outside it, the nominal channel range scaled linearly onto [min, max], end point to end point |
| ArcadeDrive.SpeedFromRcMonotone | sl_cr_arcade_drive.cpp:58-65 | outside the deadzone a larger channel value never gives a lower speed |
| ArcadeDrive.LeftSpeed | sl_cr_arcade_drive.cpp:84-88 | the left speed lies in the motor's range and, with one stick centred, is the other stick's speed saturated |
| ArcadeDrive.RightSpeed | sl_cr_arcade_drive.cpp:85-90 | the right speed lies in the motor's range and, with one stick centred, is the throttle's speed or the steering's negated speed, saturated |
| ArcadeDrive.CentredSteeringDrivesStraight | sl_cr_arcade_drive.cpp:84-90 | centred steering drives both sides alike, and centred sticks stop both |
| ArcadeDrive.CentredThrottleSpinsInPlace | sl_cr_arcade_drive.cpp:84-90 | with centred throttle and a range symmetric about zero, the sides turn at opposite speeds |
| ArcadeDrive.ArcadeDrive.constructor | sl_cr_arcade_drive.cpp:13-39 | the two motors stored, deadzone 50, no failsafe check, so never disabled |
| ArcadeDrive.ArcadeDrive.SetMotorSpeeds | sl_cr_arcade_drive.cpp:71-99 | invalid input disables both motors for the drive strategy, puts both bridges to sleep and keeps their set rpm; valid input stores the mixed speeds, lifts only that reason on both and leaves pins and hooks alone |
| ArcadeDrive.ArcadeDrive.Loop | sl_cr_arcade_drive.cpp:101-114 | a reported failsafe disables both motors without mixing; otherwise the sticks are mixed as `SetMotorSpeeds` states; each motor's hook record grows by one `disable_motor` call, and its bridge sleeps, exactly when it is disabled, while mixing leaves pins alone; limp flags and commanded rpms never change |
| ArcadeDrive.ArcadeDrive.Disabled | sl_cr_arcade_drive.cpp:41-52 | disabled only when a failsafe check is attached and reports failsafe |
| CircularBuffer.RingIndex | sl_cr_circular_buffer.cpp:39 | the slot k places on is the modular sum, always a valid slot |
| CircularBuffer.Window | sl_cr_circular_buffer.cpp:28-113 | the queued entries are the slots walked forward from the read index |
| CircularBuffer.WindowAppend | sl_cr_circular_buffer.cpp:37-39 | writing the slot after the queue appends to the queue |
| CircularBuffer.WindowPop | sl_cr_circular_buffer.cpp:94-96 | freeing the head slot and stepping past it drops the head of the queue |
| CircularBuffer.WindowUpdate | sl_cr_circular_buffer.cpp:72 | changing a queued slot changes only that queue entry |
| CircularBuffer.OccupiedAppend | sl_cr_circular_buffer.cpp:37-39 | the occupied run grows by the written slot |
| CircularBuffer.OccupiedPop | sl_cr_circular_buffer.cpp:94-96 | the occupied run shrinks from its head |
| CircularBuffer.OccupiedUpdate | sl_cr_circular_buffer.cpp:72 | committing an allocated slot keeps the occupied run |
| CircularBuffer.CircularBuffer.constructor | sl_cr_circular_buffer.cpp:13-19 | all slots free and zero, both indices 0, empty queue |
| CircularBuffer.CircularBuffer.Advance | sl_cr_circular_buffer.cpp:39 | an index advances by one around the ring |
| CircularBuffer.CircularBuffer.WriteSlotFreeIffRoom | sl_cr_circular_buffer.cpp:34-35 | in an ordered ring the write slot is free exactly when the ring is not full |
| CircularBuffer.CircularBuffer.Push | sl_cr_circular_buffer.cpp:28-43 | with a free write slot or force, the item is committed there and the write index advances; otherwise nothing changes; an unforced push appends to the queue while there is room |
| CircularBuffer.CircularBuffer.PushAsWritten | sl_cr_circular_buffer.cpp:28-43 | the result is false whether or not the item was stored; the state change is Push's: a free slot or a forced write takes the item and advances the write index, otherwise nothing changes, and in an ordered ring with room the queue gains the item |
| CircularBuffer.CircularBuffer.Allocate | sl_cr_circular_buffer.cpp:44-59 | a free write slot becomes allocated and is returned, and the write index advances; otherwise nothing is returned and nothing changes |
| CircularBuffer.CircularBuffer.WriteAllocated | sl_cr_circular_buffer.cpp:44-53 | the caller's write through the returned slot changes only that slot's data |
| CircularBuffer.CircularBuffer.Commit | sl_cr_circular_buffer.cpp:60-79 | true exactly when the slot is an allocated slot of the ring, which becomes committed; otherwise nothing changes |
| CircularBuffer.CircularBuffer.AvailableMeansHeadCommitted | sl_cr_circular_buffer.cpp:82-86 | data is available exactly when the oldest queued entry is committed |
| CircularBuffer.CircularBuffer.IsAvailable | sl_cr_circular_buffer.cpp:81-86 | whether the slot under the read index is committed (related to the queue by AvailableMeansHeadCommitted) |
| CircularBuffer.CircularBuffer.Pop | sl_cr_circular_buffer.cpp:88-102 | an available head is returned, freed and zeroed, and the read index advances; otherwise the zero value and no change |
| CircularBuffer.CircularBuffer.PopVoid | sl_cr_circular_buffer.cpp:104-113 | the state effect of pop without the value |
| CircularBuffer.CircularBuffer.PeekPtr | sl_cr_circular_buffer.cpp:115-126 | the read slot when data is available, nothing otherwise |
| CircularBuffer.CircularBuffer.Peek | sl_cr_circular_buffer.cpp:128-137 | the head entry's data when available, the zero value otherwise |
| CircularBuffer.PushPopIsFifo | sl_cr_circular_buffer.cpp:28-102 | two unforced pushes into an empty ring pop back in push order |
| Imu.InitConfig | src/sl_robot_imu.cpp:15-31 | the default is three dimensions with every quantity supported, so every axis is valid |
| Imu.AccelerationAssertAsWritten | src/sl_robot_imu.cpp:77 | the acceleration assertion as written: support and a nonzero axis enumerator |
| Imu.AccelerationAssertMismatch | src/sl_robot_imu.cpp:75-98 | the acceleration assertion rejects axis X of the default unit and admits axis Y of a one-dimensional unit |
| Imu.AccelerationAssertAgreement | src/sl_robot_imu.cpp:77-95 | on a unit with three dimensions, the as-written and intended checks agree exactly on the Y and Z axes |
| Imu.Imu.constructor | src/sl_robot_imu.cpp:33-61 | needs at least one dimension; each supported quantity gets one zeroed entry per dimension, each unsupported one none |
| Imu.Imu.Default | src/sl_robot_imu.cpp:51-55 | the default unit reads zero on every axis of every quantity |
| Imu.Imu.SetOrientation | src/sl_robot_imu.cpp:63-68 | needs support and a valid axis; the axis then reads back the value; every other axis is unchanged |
| Imu.Imu.SetRotationRate | src/sl_robot_imu.cpp:69-74 | needs support and a valid axis; the axis then reads back the value; every other axis is unchanged |
| Imu.Imu.SetAcceleration | src/sl_robot_imu.cpp:75-80 | guarded like the other setters; the axis then reads back the value; every other axis is unchanged |
| Imu.Imu.GetOrientation | src/sl_robot_imu.cpp:81-86 | needs support and a valid axis; the axis's stored orientation, as SetOrientation leaves it |
| Imu.Imu.GetRotationRate | src/sl_robot_imu.cpp:87-92 | needs support and a valid axis; the axis's stored rotation rate, as SetRotationRate leaves it |
| Imu.Imu.GetAcceleration | src/sl_robot_imu.cpp:93-98 | guarded like the other getters; the axis's stored acceleration, as SetAcceleration leaves it |

## Left out

- Integer width: all arithmetic is on mathematical integers. The 32-bit
  overflow of products such as `last_count*60000*num` or
  `(rc-172)*motor_range`, and the wrap of `millis()`, are not modelled.
- ArcadeDrive.SpeedFromRc, ArcadeDrive.ArcadeDrive.SetMotorSpeeds and
  ArcadeDrive.ArcadeDrive.Loop: require every valid channel value to be
  at least 172 (`Scalable`), and SpeedFromRc also requires a deadzone of at
  most 819. Below 172 the unsigned subtraction of the source wraps, and the
  model does not follow it. Worked out by hand (not executed): throttle 170
  gives `(170-172)*2048` = 4294963200 as a 32-bit unsigned value, `/1639`
  gives 2620477, and adding -1024 gives 2619453, which
  sl_cr_arcade_drive.cpp:87 clamps to max_rpm, so a stick just below the
  nominal minimum drives full forward.
- ArcadeDrive.ArcadeDrive.Loop: the failsafe callback is never attached in
  the arcade drive, so the disabled branch is stated but no constructed
  drive reaches it.
- SBUS decoding and link staleness, which fall outside this model: channel values are
  parameters.
- Logging and all `Serial` prints (the control loop's log line and the
  failsafe mask messages), plus the printing virtual motor drivers.
- Pin setup (`pinMode`, `analogWriteFrequency`, `analogWriteResolution`),
  the floating-point PWM frequency, and interrupt and critical-section
  plumbing. Each call is one atomic step.
- The `init_config` helpers' null-pointer check (motor driver and IMU):
  they are modelled as returning the default configuration.
- The superseded `sl_cr_*` variants of the encoder, motor driver, control
  loop, PID loop, tank drive and DRV8256P driver.
- ControlLoop.PidLoop.constructor: requires `sp_min <= sp_max` and
  `output_min <= output_max` and non-zero gain denominators, which the
  source assumes but does not check. The PID constructor leaves
  `error_prev` and `error_integrated` uninitialised; the model starts them
  at 0.
- Encoder.Encoder.Basic: the two-pin constructor leaves `invert_direction`
  unset; the model sets it to false.
- Encoder.Encoder.constructor: requires a nonzero count per revolution and
  a positive reduction denominator, which the rpm division needs.
- CircularBuffer.CircularBuffer.constructor: requires a positive size, and
  assumes all slots start free and zeroed, because the source reads
  uninitialised `malloc`ed memory. Pointers into the ring are slot
  indices.
- CircularBuffer.CircularBuffer.Push: after a forced push over an occupied
  slot, the ring no longer reads in write order. The model then tracks the
  slots exactly, but no longer the queue.
- Imu.Imu.SetAcceleration and Imu.Imu.GetAcceleration: both are guarded by
  support and the valid-axis check the other accessors use, not by the
  source's `support && (axis)` assertion (see Findings). The store holds
  plain integers.
- MotorDriver.MotorDriver.constructor and
  MotorDriver.MotorDriver.BrakeMotor store the neutral rpm directly rather
  than through `change_set_rpm` (see Findings). The as-written behaviour is
  MotorDriver.MotorDriver.InitAsWritten and
  MotorDriver.MotorDriver.BrakeMotorAsWritten.

## Findings

| source | as written | input that shows it | evidently intended | confidence | as-written member | corrected member |
|---|---|---|---|---|---|---|
| sl_robot_motor_driver.cpp:41-47,120-123 | `init` and `brake_motor` pass the neutral rpm through `change_set_rpm`, which mirrors it for an inverted motor | invert_direction with min_rpm -1024, max_rpm 1023: neutral is 0 but -1 is stored, so the loop's exact-neutral bypass (line 170) is missed | initialising and braking store the neutral rpm itself | not executed | MotorDriver.MotorDriver.InitAsWritten, MotorDriver.MotorDriver.BrakeMotorAsWritten, MotorDriverTypes.InvertedOddRangeMissesNeutral | MotorDriver.MotorDriver.constructor, MotorDriver.MotorDriver.BrakeMotor |
| sl_cr_circular_buffer.cpp:26-43 | `push` never sets `ret_val`, so it returns false even when it stores the item | any push into an empty buffer | true when the item was stored, as the comment says | not executed | CircularBuffer.CircularBuffer.PushAsWritten | CircularBuffer.CircularBuffer.Push |
| src/sl_robot_imu.cpp:77,95 | the acceleration accessors assert `support && (axis)` rather than `AXIS_VALID(axis)` | AXIS_X on the default 3-D unit fails the assertion; AXIS_Y on a 1-D unit passes it and indexes past the one-entry array | the valid-axis check of the other accessors | not executed | Imu.AccelerationAssertMismatch | Imu.Imu.SetAcceleration |
