/** Arcade drive: one stick channel for throttle, one for steering, mixed
    into a left and a right motor speed. Invalid input or a failsafe
    disables both motors for the drive-strategy reason. */
module ArcadeDrive {
  import opened IntMath
  import opened Bits
  import opened Rc
  import opened MotorDriverTypes
  import opened Drv8256p
  import opened MotorDriver

  /** Channel values within this distance of the centre read as neutral. */
  const DEFAULT_DEADZONE: nat := 50

  predicate InDeadzone(rc: nat, deadzone: nat) {
    RC_CENTER_VALUE - deadzone <= rc <= RC_CENTER_VALUE + deadzone
  }

  /** A motor speed proportional to the channel value: zero inside the
      deadzone, otherwise the nominal channel range scaled linearly onto
      the motor's rpm range. Channel values below the nominal minimum are
      excluded, where the unsigned arithmetic of the source wraps. */
  function SpeedFromRc(rc: nat, deadzone: nat, minRpm: int, maxRpm: int): (speed: int)
    requires RC_MIN_VALUE <= rc && deadzone <= RC_CENTER_VALUE - RC_MIN_VALUE && minRpm <= maxRpm
    ensures InDeadzone(rc, deadzone) ==> speed == 0
    ensures !InDeadzone(rc, deadzone) && rc <= RC_MAX_VALUE ==> minRpm <= speed <= maxRpm
    ensures !InDeadzone(rc, deadzone) && rc == RC_MIN_VALUE ==> speed == minRpm
    ensures !InDeadzone(rc, deadzone) && rc == RC_MAX_VALUE ==> speed == maxRpm
  {
    if rc > RC_CENTER_VALUE + deadzone || rc < RC_CENTER_VALUE - deadzone then
      var inputRange := RC_MAX_VALUE - RC_MIN_VALUE;
      var motorRange := maxRpm - minRpm;
      var scaled := TDiv((rc - RC_MIN_VALUE) * motorRange, inputRange) + minRpm;
      if rc <= RC_MAX_VALUE then (ScaleWithin(rc - RC_MIN_VALUE, inputRange, motorRange); scaled) else scaled
    else
      0
  }

  /** Outside the deadzone, a larger channel value never gives a lower
      speed. */
  lemma {:induction false} SpeedFromRcMonotone(x: nat, y: nat, deadzone: nat, minRpm: int, maxRpm: int)
    requires RC_MIN_VALUE <= x <= y && deadzone <= RC_CENTER_VALUE - RC_MIN_VALUE && minRpm <= maxRpm
    requires !InDeadzone(x, deadzone) && !InDeadzone(y, deadzone)
    ensures SpeedFromRc(x, deadzone, minRpm, maxRpm) <= SpeedFromRc(y, deadzone, minRpm, maxRpm)
  {
    ScaledMonotone(x - RC_MIN_VALUE, y - RC_MIN_VALUE, maxRpm - minRpm, RC_MAX_VALUE - RC_MIN_VALUE);
  }

  /** The speed a motor with configuration `c` is asked for on the left
      side: throttle plus steering, each scaled onto that motor's range,
      then saturated into the range. */
  function LeftSpeed(c: Config, deadzone: nat, throttle: nat, steering: nat): (r: int)
    requires c.Valid() && deadzone <= RC_CENTER_VALUE - RC_MIN_VALUE
    requires RC_MIN_VALUE <= throttle && RC_MIN_VALUE <= steering
    ensures c.minRpm <= r <= c.maxRpm
    ensures InDeadzone(steering, deadzone) ==> r == Clamp(SpeedFromRc(throttle, deadzone, c.minRpm, c.maxRpm), c.minRpm, c.maxRpm)
    ensures InDeadzone(throttle, deadzone) ==> r == Clamp(SpeedFromRc(steering, deadzone, c.minRpm, c.maxRpm), c.minRpm, c.maxRpm)
  {
    var speed := SpeedFromRc(throttle, deadzone, c.minRpm, c.maxRpm)
               + SpeedFromRc(steering, deadzone, c.minRpm, c.maxRpm);
    var capped := if speed > c.maxRpm then c.maxRpm else speed;
    if capped < c.minRpm then c.minRpm else capped
  }

  /** The right side: throttle minus steering, saturated. */
  function RightSpeed(c: Config, deadzone: nat, throttle: nat, steering: nat): (r: int)
    requires c.Valid() && deadzone <= RC_CENTER_VALUE - RC_MIN_VALUE
    requires RC_MIN_VALUE <= throttle && RC_MIN_VALUE <= steering
    ensures c.minRpm <= r <= c.maxRpm
    ensures InDeadzone(steering, deadzone) ==> r == Clamp(SpeedFromRc(throttle, deadzone, c.minRpm, c.maxRpm), c.minRpm, c.maxRpm)
    ensures InDeadzone(throttle, deadzone) ==> r == Clamp(-SpeedFromRc(steering, deadzone, c.minRpm, c.maxRpm), c.minRpm, c.maxRpm)
  {
    var speed := SpeedFromRc(throttle, deadzone, c.minRpm, c.maxRpm)
               - SpeedFromRc(steering, deadzone, c.minRpm, c.maxRpm);
    var capped := if speed > c.maxRpm then c.maxRpm else speed;
    if capped < c.minRpm then c.minRpm else capped
  }

  /** Centred steering drives both sides alike; with both sticks centred
      and zero inside the range, both sides stop. */
  lemma {:induction false} CentredSteeringDrivesStraight(c: Config, deadzone: nat, throttle: nat, steering: nat)
    requires c.Valid() && deadzone <= RC_CENTER_VALUE - RC_MIN_VALUE
    requires RC_MIN_VALUE <= throttle && RC_MIN_VALUE <= steering
    requires InDeadzone(steering, deadzone)
    ensures LeftSpeed(c, deadzone, throttle, steering) == RightSpeed(c, deadzone, throttle, steering)
    ensures InDeadzone(throttle, deadzone) && c.minRpm <= 0 <= c.maxRpm ==>
      LeftSpeed(c, deadzone, throttle, steering) == 0 && RightSpeed(c, deadzone, throttle, steering) == 0
  {
    var l := LeftSpeed(c, deadzone, throttle, steering);
    var r := RightSpeed(c, deadzone, throttle, steering);
  }

  /** With centred throttle on a range symmetric about zero, the two sides
      turn at equal and opposite speeds: the robot spins in place. */
  lemma {:induction false} CentredThrottleSpinsInPlace(c: Config, deadzone: nat, throttle: nat, steering: nat)
    requires c.Valid() && deadzone <= RC_CENTER_VALUE - RC_MIN_VALUE && c.minRpm == -c.maxRpm
    requires RC_MIN_VALUE <= throttle && RC_MIN_VALUE <= steering
    requires InDeadzone(throttle, deadzone)
    ensures LeftSpeed(c, deadzone, throttle, steering) == -RightSpeed(c, deadzone, throttle, steering)
  {
    var l := LeftSpeed(c, deadzone, throttle, steering);
    var r := RightSpeed(c, deadzone, throttle, steering);
  }

  /** A raw value the drive can scale: the invalid value, or at least the
      nominal minimum. */
  predicate Scalable(raw: nat) {
    ChannelValueValid(raw) ==> RC_MIN_VALUE <= raw
  }

  class ArcadeDrive {
    const left: MotorDriver
    const right: MotorDriver
    const deadzone: nat
    /** Whether a failsafe check is attached; nothing ever attaches one. */
    const hasFailsafe: bool

    ghost predicate Valid()
      reads this, left, right, left.controlLoop, right.controlLoop
    {
      left != right && left.Valid() && right.Valid()
      && deadzone <= RC_CENTER_VALUE - RC_MIN_VALUE
    }

    /** A drive over two distinct motors with the default deadzone and no
        failsafe check. */
    constructor (left: MotorDriver, right: MotorDriver)
      requires left != right && left.Valid() && right.Valid()
      ensures Valid()
      ensures this.left == left && this.right == right
      ensures deadzone == DEFAULT_DEADZONE && !hasFailsafe
      ensures forall failsafeActive: bool :: !Disabled(failsafeActive)
    {
      this.left := left;
      this.right := right;
      deadzone := DEFAULT_DEADZONE;
      hasFailsafe := false;
    }

    /** Disabled only when a failsafe check is attached and reports
        failsafe (`failsafeActive`). */
    predicate Disabled(failsafeActive: bool)
      reads this
    {
      hasFailsafe && failsafeActive
    }

    /** Invalid input on either channel disables both motors for the drive
        strategy and leaves their set rpm alone; valid input stores the
        mixed speeds and then lifts the drive-strategy reason on both. */
    method SetMotorSpeeds(throttle: nat, steering: nat)
      requires Valid() && Scalable(throttle) && Scalable(steering)
      modifies left, right
      ensures Valid()
      ensures (!ChannelValueValid(throttle) || !ChannelValueValid(steering)) ==>
        left.disableMask == SetBit(old(left.disableMask), DriveStrategy.Index())
        && right.disableMask == SetBit(old(right.disableMask), DriveStrategy.Index())
        && left.setRpm == old(left.setRpm) && right.setRpm == old(right.setRpm)
        && left.hooks == old(left.hooks) + [DisableMotorCall]
        && right.hooks == old(right.hooks) + [DisableMotorCall]
        && left.pins == ASLEEP && right.pins == ASLEEP
      ensures (ChannelValueValid(throttle) && ChannelValueValid(steering)) ==>
        left.setRpm == SetRpmFor(left.config, LeftSpeed(left.config, deadzone, throttle, steering))
        && right.setRpm == SetRpmFor(right.config, RightSpeed(right.config, deadzone, throttle, steering))
        && left.disableMask == ClearBit(old(left.disableMask), DriveStrategy.Index())
        && right.disableMask == ClearBit(old(right.disableMask), DriveStrategy.Index())
        && left.hooks == old(left.hooks) && right.hooks == old(right.hooks)
        && left.pins == old(left.pins) && right.pins == old(right.pins)
      ensures left.commandedRpm == old(left.commandedRpm) && right.commandedRpm == old(right.commandedRpm)
      ensures left.limp == old(left.limp) && right.limp == old(right.limp)
    {
      if !ChannelValueValid(throttle) || !ChannelValueValid(steering) {
        left.Disable(DriveStrategy);
        right.Disable(DriveStrategy);
      } else {
        var leftSpeed := LeftSpeed(left.config, deadzone, throttle, steering);
        var rightSpeed := RightSpeed(right.config, deadzone, throttle, steering);
        left.ChangeSetRpm(leftSpeed);
        right.ChangeSetRpm(rightSpeed);
        left.Enable(DriveStrategy);
        right.Enable(DriveStrategy);
      }
    }

    /** One tick: a failsafe disables both motors without mixing;
        otherwise the sticks are read and mixed. */
    method Loop(failsafeActive: bool, throttle: nat, steering: nat)
      requires Valid() && Scalable(throttle) && Scalable(steering)
      modifies left, right
      ensures Valid()
      ensures Disabled(failsafeActive) ==>
        left.disableMask == SetBit(old(left.disableMask), DriveStrategy.Index())
        && right.disableMask == SetBit(old(right.disableMask), DriveStrategy.Index())
        && left.setRpm == old(left.setRpm) && right.setRpm == old(right.setRpm)
        && left.hooks == old(left.hooks) + [DisableMotorCall]
        && right.hooks == old(right.hooks) + [DisableMotorCall]
        && left.pins == ASLEEP && right.pins == ASLEEP
      ensures !Disabled(failsafeActive) && (!ChannelValueValid(throttle) || !ChannelValueValid(steering)) ==>
        left.disableMask == SetBit(old(left.disableMask), DriveStrategy.Index())
        && right.disableMask == SetBit(old(right.disableMask), DriveStrategy.Index())
        && left.setRpm == old(left.setRpm) && right.setRpm == old(right.setRpm)
        && left.hooks == old(left.hooks) + [DisableMotorCall]
        && right.hooks == old(right.hooks) + [DisableMotorCall]
        && left.pins == ASLEEP && right.pins == ASLEEP
      ensures !Disabled(failsafeActive) && ChannelValueValid(throttle) && ChannelValueValid(steering) ==>
        left.setRpm == SetRpmFor(left.config, LeftSpeed(left.config, deadzone, throttle, steering))
        && right.setRpm == SetRpmFor(right.config, RightSpeed(right.config, deadzone, throttle, steering))
        && left.disableMask == ClearBit(old(left.disableMask), DriveStrategy.Index())
        && right.disableMask == ClearBit(old(right.disableMask), DriveStrategy.Index())
        && left.hooks == old(left.hooks) && right.hooks == old(right.hooks)
        && left.pins == old(left.pins) && right.pins == old(right.pins)
      ensures left.commandedRpm == old(left.commandedRpm) && right.commandedRpm == old(right.commandedRpm)
      ensures left.limp == old(left.limp) && right.limp == old(right.limp)
    {
      if Disabled(failsafeActive) {
        left.Disable(DriveStrategy);
        right.Disable(DriveStrategy);
      } else {
        SetMotorSpeeds(throttle, steering);
      }
    }
  }
}
