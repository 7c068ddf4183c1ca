/** A motor driver: a disable mask and an external failsafe decide whether
    the motor may run; a drive strategy stores a set rpm; each tick either
    de-energises the motor or commands it, through the control loop or the
    pass-through mapping. The driver is the DRV8256P one: its two hooks
    write the pin outputs, and every hook call is also recorded. */
module MotorDriver {
  import opened IntMath
  import opened Bits
  import opened MotorDriverTypes
  import opened Drv8256p
  import opened ControlLoop
  import opened Encoder

  /** The observable calls of the two hardware hooks. */
  datatype HookEvent = DisableMotorCall | CommandMotorCall(commandedRpm: int)

  class MotorDriver {
    const config: Config
    /** Optional feedback and closed-loop control, shared with the drive. */
    const encoder: Encoder?
    const controlLoop: PidLoop?
    /** DRV8256P configuration: PWM full scale and whether the fault pin is
        wired. */
    const pwmMaxValue: nat
    const hasFaultPin: bool

    var disableMask: Mask
    var setRpm: int
    var commandedRpm: int
    var limp: bool
    var pins: PinOutputs
    var hooks: seq<HookEvent>

    ghost predicate Valid()
      reads this, controlLoop
    {
      config.Valid()
      && config.minRpm <= setRpm <= config.maxRpm
      && config.minCommandedRpm <= commandedRpm <= config.maxCommandedRpm
      && OnlyReasonBits(disableMask)
      && (controlLoop != null ==> controlLoop.Valid())
    }

    /** Construction of a DRV8256P driver: the generic initialisation
        (no disable reason, not limping, commanded and set rpm at their
        neutrals), then `disable_motor`, so the bridge starts asleep. */
    constructor (config: Config, encoder: Encoder?, controlLoop: PidLoop?, pwmMaxValue: nat, hasFaultPin: bool)
      requires config.Valid()
      requires controlLoop != null ==> controlLoop.Valid()
      ensures Valid()
      ensures this.config == config && this.encoder == encoder && this.controlLoop == controlLoop
      ensures this.pwmMaxValue == pwmMaxValue && this.hasFaultPin == hasFaultPin
      ensures disableMask == 0 && !limp
      ensures commandedRpm == config.NeutralCommandedRpm() && setRpm == config.NeutralRpm()
      ensures pins == ASLEEP && hooks == [DisableMotorCall]
    {
      this.config := config;
      this.encoder := encoder;
      this.controlLoop := controlLoop;
      this.pwmMaxValue := pwmMaxValue;
      this.hasFaultPin := hasFaultPin;
      disableMask := 0;
      limp := false;
      commandedRpm := config.NeutralCommandedRpm();
      setRpm := config.NeutralRpm();
      pins := ASLEEP;
      hooks := [DisableMotorCall];
    }

    /** `init` as written: the neutral rpm is stored through the set rpm
        path, so an inverted motor starts at its mirror image. */
    constructor InitAsWritten(config: Config, encoder: Encoder?, controlLoop: PidLoop?, pwmMaxValue: nat, hasFaultPin: bool)
      requires config.Valid()
      requires controlLoop != null ==> controlLoop.Valid()
      ensures Valid()
      ensures this.config == config && this.encoder == encoder && this.controlLoop == controlLoop
      ensures this.pwmMaxValue == pwmMaxValue && this.hasFaultPin == hasFaultPin
      ensures disableMask == 0 && !limp
      ensures commandedRpm == config.NeutralCommandedRpm() && setRpm == SetRpmFor(config, config.NeutralRpm())
      ensures pins == ASLEEP && hooks == [DisableMotorCall]
    {
      this.config := config;
      this.encoder := encoder;
      this.controlLoop := controlLoop;
      this.pwmMaxValue := pwmMaxValue;
      this.hasFaultPin := hasFaultPin;
      disableMask := 0;
      limp := false;
      commandedRpm := config.NeutralCommandedRpm();
      setRpm := SetRpmFor(config, config.NeutralRpm());
      pins := ASLEEP;
      hooks := [DisableMotorCall];
    }

    /** The range getters: each bound lies on its side of the neutral. */
    function GetMinRpm(): (r: int)
      reads this
      ensures config.Valid() ==> r <= config.NeutralRpm()
    {
      config.minRpm
    }

    function GetMaxRpm(): (r: int)
      reads this
      ensures config.Valid() ==> config.NeutralRpm() <= r
    {
      config.maxRpm
    }

    function GetMinCommandedRpm(): (r: int)
      reads this
      ensures config.Valid() ==> r <= config.NeutralCommandedRpm()
    {
      config.minCommandedRpm
    }

    function GetMaxCommandedRpm(): (r: int)
      reads this
      ensures config.Valid() ==> config.NeutralCommandedRpm() <= r
    {
      config.maxCommandedRpm
    }

    /** The stored set rpm, which always lies inside the rpm range. */
    function GetSetRpm(): (r: int)
      reads this, controlLoop
      ensures Valid() ==> GetMinRpm() <= r <= GetMaxRpm()
    {
      setRpm
    }

    /** The stored commanded rpm, which always lies inside the commanded
        range. */
    function GetCommandedRpm(): (r: int)
      reads this, controlLoop
      ensures Valid() ==> GetMinCommandedRpm() <= r <= GetMaxCommandedRpm()
    {
      commandedRpm
    }

    /** The rpm reported by the motor: the encoder's reading when one is
        attached; without an encoder, the set rpm, so it stays inside the
        rpm range. */
    function GetRealRpm(): (r: int)
      reads this, encoder, controlLoop
      ensures encoder != null ==> r == encoder.GetRpm()
      ensures encoder == null && Valid() ==> r == GetSetRpm() && config.minRpm <= r <= config.maxRpm
    {
      if encoder != null then encoder.rpm else setRpm
    }

    predicate DisabledFor(r: DisableReason)
      reads this
    {
      HasBit(disableMask, r.Index())
    }

    /** The motor is disabled when any reason is set or the configured
        failsafe check reports failsafe (`failsafeActive`). */
    predicate Disabled(failsafeActive: bool)
      reads this, controlLoop
      requires Valid()
      ensures Disabled(failsafeActive) <==>
        failsafeActive || DisabledFor(Estop) || DisabledFor(DriveStrategy) || DisabledFor(Fault)
    {
      NonzeroMaskHasReason(disableMask);
      disableMask != 0 || failsafeActive
    }

    /** A definite fault is reported only by a wired pin that reads low. */
    function GetFaultStatus(faultPinHigh: bool): (s: FaultStatus)
      reads this
      ensures Faulty(s) <==> hasFaultPin && !faultPinHigh
    {
      FaultStatusFor(hasFaultPin, faultPinHigh)
    }

    /** Stores a new set rpm: saturated into the rpm range, mirrored for an
        inverted motor. */
    method ChangeSetRpm(newRpm: int)
      requires Valid()
      modifies this
      ensures Valid()
      ensures setRpm == SetRpmFor(config, newRpm)
      ensures disableMask == old(disableMask) && commandedRpm == old(commandedRpm) && limp == old(limp)
      ensures pins == old(pins) && hooks == old(hooks)
    {
      var rpm := newRpm;
      if rpm > config.maxRpm {
        rpm := config.maxRpm;
      }
      if rpm < config.minRpm {
        rpm := config.minRpm;
      }
      if config.invertDirection {
        rpm := (config.maxRpm + config.minRpm) - rpm;
      }
      setRpm := rpm;
    }

    /** Stores a new commanded rpm, saturated into the commanded range. */
    method ChangeCommandedRpm(newRpm: int)
      requires Valid()
      modifies this
      ensures Valid()
      ensures commandedRpm == Clamp(newRpm, config.minCommandedRpm, config.maxCommandedRpm)
      ensures disableMask == old(disableMask) && setRpm == old(setRpm) && limp == old(limp)
      ensures pins == old(pins) && hooks == old(hooks)
    {
      var rpm := newRpm;
      if rpm > config.maxCommandedRpm {
        rpm := config.maxCommandedRpm;
      }
      if rpm < config.minCommandedRpm {
        rpm := config.minCommandedRpm;
      }
      commandedRpm := rpm;
    }

    /** `brake_motor` as written: the neutral rpm goes through the set rpm
        path, so an inverted motor stores its mirror image instead. */
    method BrakeMotorAsWritten()
      requires Valid()
      modifies this
      ensures Valid()
      ensures setRpm == SetRpmFor(config, config.NeutralRpm())
      ensures disableMask == old(disableMask) && commandedRpm == old(commandedRpm) && limp == old(limp)
      ensures pins == old(pins) && hooks == old(hooks)
    {
      ChangeSetRpm(config.NeutralRpm());
    }

    /** Braking: the set rpm becomes neutral, so the next tick takes the
        exact-neutral bypass whatever the direction setting. */
    method BrakeMotor()
      requires Valid()
      modifies this
      ensures Valid()
      ensures setRpm == config.NeutralRpm()
      ensures disableMask == old(disableMask) && commandedRpm == old(commandedRpm) && limp == old(limp)
      ensures pins == old(pins) && hooks == old(hooks)
    {
      setRpm := config.NeutralRpm();
    }

    /** The DRV8256P `disable_motor` hook. */
    method DisableMotor()
      modifies this
      ensures pins == ASLEEP && hooks == old(hooks) + [DisableMotorCall]
      ensures disableMask == old(disableMask) && setRpm == old(setRpm)
      ensures commandedRpm == old(commandedRpm) && limp == old(limp)
    {
      pins := ASLEEP;
      hooks := hooks + [DisableMotorCall];
    }

    /** The DRV8256P `command_motor` hook. */
    method CommandMotor()
      requires Valid()
      modifies this
      ensures Valid()
      ensures pins == CommandPins(config, commandedRpm, pwmMaxValue)
      ensures hooks == old(hooks) + [CommandMotorCall(commandedRpm)]
      ensures disableMask == old(disableMask) && setRpm == old(setRpm)
      ensures commandedRpm == old(commandedRpm) && limp == old(limp)
    {
      var n := config.NeutralCommandedRpm();
      if commandedRpm > n {
        var positiveRange := config.maxCommandedRpm - n;
        pins := PinOutputs(pins.sleepHigh, Duty(commandedRpm - n, positiveRange, pwmMaxValue), 0);
      } else if commandedRpm < n {
        var negativeRange := n - config.minCommandedRpm;
        pins := PinOutputs(pins.sleepHigh, 0, Duty(n - commandedRpm, negativeRange, pwmMaxValue));
      } else {
        pins := PinOutputs(pins.sleepHigh, 0, 0);
      }
      pins := pins.(sleepHigh := true);
      hooks := hooks + [CommandMotorCall(commandedRpm)];
    }

    /** Disables the motor for `reason` and de-energises it at once. */
    method Disable(reason: DisableReason)
      requires Valid()
      modifies this
      ensures Valid()
      ensures disableMask == SetBit(old(disableMask), reason.Index())
      ensures DisabledFor(reason)
      ensures pins == ASLEEP && hooks == old(hooks) + [DisableMotorCall]
      ensures setRpm == old(setRpm) && commandedRpm == old(commandedRpm) && limp == old(limp)
    {
      SetReasonKeepsOnlyReasonBits(disableMask, reason);
      SetBitSets(disableMask, reason.Index());
      disableMask := SetBit(disableMask, reason.Index());
      DisableMotor();
    }

    /** Lifts one disable reason; the motor is not touched until the next
        tick. */
    method Enable(reason: DisableReason)
      requires Valid()
      modifies this
      ensures Valid()
      ensures disableMask == ClearBit(old(disableMask), reason.Index())
      ensures !DisabledFor(reason)
      ensures forall q: DisableReason :: q != reason ==> (DisabledFor(q) <==> old(DisabledFor(q)))
      ensures pins == old(pins) && hooks == old(hooks)
      ensures setRpm == old(setRpm) && commandedRpm == old(commandedRpm) && limp == old(limp)
    {
      ClearReasonKeepsOnlyReasonBits(disableMask, reason);
      ClearBitClears(disableMask, reason.Index());
      disableMask := ClearBit(disableMask, reason.Index());
      forall q: DisableReason | q != reason
        ensures DisabledFor(q) <==> old(DisabledFor(q))
      {
        ReasonBitsDistinct(reason, q);
        ClearKeepsOtherBit(old(disableMask), reason.Index(), q.Index());
      }
    }

    method SetLimpMode(newLimp: bool)
      requires Valid()
      modifies this
      ensures Valid()
      ensures limp == newLimp
      ensures disableMask == old(disableMask) && setRpm == old(setRpm) && commandedRpm == old(commandedRpm)
      ensures pins == old(pins) && hooks == old(hooks)
    {
      limp := newLimp;
    }

    /** One tick. Disabled: the control loop is reset to the neutral rpm,
        the command goes to neutral and the motor is de-energised, with no
        `command_motor` call. Active: the control loop (unless limping)
        tracks the set rpm against the real rpm, the command follows the
        loop output, or neutral at an exactly neutral set rpm, or the
        pass-through mapping; then the motor is commanded. */
    method Loop(failsafeActive: bool)
      requires Valid()
      modifies this, controlLoop
      ensures Valid()
      ensures disableMask == old(disableMask) && setRpm == old(setRpm) && limp == old(limp)
      ensures old(Disabled(failsafeActive)) ==>
        commandedRpm == config.NeutralCommandedRpm()
        && pins == ASLEEP && hooks == old(hooks) + [DisableMotorCall]
        && (controlLoop != null ==>
              controlLoop.sp == Clamp(config.NeutralRpm(), controlLoop.spMin, controlLoop.spMax)
              && controlLoop.output == Midpoint(controlLoop.outputMin, controlLoop.outputMax)
              && controlLoop.error == 0 && controlLoop.errorPrev == 0 && controlLoop.errorIntegrated == 0)
      ensures !old(Disabled(failsafeActive)) ==>
        pins == CommandPins(config, commandedRpm, pwmMaxValue)
        && hooks == old(hooks) + [CommandMotorCall(commandedRpm)]
      ensures !old(Disabled(failsafeActive)) && (limp || controlLoop == null) ==>
        commandedRpm == CommandedFromSetRpm(config, setRpm)
        && (controlLoop != null ==> unchanged(controlLoop))
      ensures !old(Disabled(failsafeActive)) && !limp && controlLoop != null ==>
        controlLoop.sp == Clamp(setRpm, controlLoop.spMin, controlLoop.spMax)
        && controlLoop.error == controlLoop.sp - old(GetRealRpm())
        && controlLoop.output == Clamp(Candidate(controlLoop.params, controlLoop.error,
                                                 old(controlLoop.errorPrev), old(controlLoop.errorIntegrated)),
                                       controlLoop.outputMin, controlLoop.outputMax)
        && controlLoop.errorIntegrated == NextIntegral(Candidate(controlLoop.params, controlLoop.error,
                                                               old(controlLoop.errorPrev), old(controlLoop.errorIntegrated)),
                                                     controlLoop.error, old(controlLoop.errorIntegrated),
                                                     controlLoop.outputMin, controlLoop.outputMax)
        && controlLoop.errorPrev == controlLoop.error
        && commandedRpm == (if setRpm == config.NeutralRpm() then config.NeutralCommandedRpm()
                            else Clamp(controlLoop.output, config.minCommandedRpm, config.maxCommandedRpm))
    {
      if disableMask != 0 || failsafeActive {
        if controlLoop != null {
          controlLoop.Reset(config.NeutralRpm());
        }
        ChangeCommandedRpm(config.NeutralCommandedRpm());
        DisableMotor();
      } else {
        if !limp && controlLoop != null {
          var _ := controlLoop.SetSetpoint(setRpm);
          var _ := controlLoop.Loop(GetRealRpm());
          if setRpm == config.NeutralRpm() {
            ChangeCommandedRpm(config.NeutralCommandedRpm());
          } else {
            ChangeCommandedRpm(controlLoop.output);
          }
        } else {
          ChangeCommandedRpm(CommandedFromSetRpm(config, setRpm));
        }
        CommandMotor();
      }
    }
  }
}
