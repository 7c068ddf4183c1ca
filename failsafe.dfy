/** The global failsafe mask of the combat robot: one bit per independent
    reason that forbids powering the motors. Motors may run only while the
    mask is zero. */
module Failsafe {
  import opened IntMath
  import opened Bits
  import opened Rc

  datatype FailsafeReason =
    | Boot             // set at power-up until the robot is armed
    | ArmSwitchDisarm  // arming switch has not yet passed through disarmed
    | ArmSwitch        // arming switch is in the disarmed position
    | Sbus             // receiver reports its own failsafe
    | SbusStale        // receiver data is stale
    | SbusMax
    | SbusInvalid
  {
    /** The reason's enumerator value, which selects its bit. */
    function Index(): bv5 {
      match this
      case Boot => 0
      case ArmSwitchDisarm => 1
      case ArmSwitch => 2
      case Sbus => 3
      case SbusStale => 4
      case SbusMax => 5
      case SbusInvalid => 6
    }
  }

  /** Distinct reasons own distinct bits. */
  lemma ReasonIndexInjective(r: FailsafeReason, q: FailsafeReason)
    requires r != q
    ensures r.Index() != q.Index()
  {
  }

  /** The arm switch counts as disarmed up to 90 % of the channel maximum. */
  const ARM_SWITCH_THRESHOLD: int := TDiv(RC_MAX_VALUE * 90, 100)

  class FailsafeMask {
    var mask: Mask

    /** The mask starts with only the boot reason set, so the robot is in
        failsafe until every subsystem has cleared its reason. */
    constructor ()
      ensures mask == Bit(Boot.Index())
      ensures GetFailsafeSet() && GetFailsafeSetFor(Boot)
    {
      mask := Bit(Boot.Index());
    }

    method SetReason(reason: FailsafeReason)
      modifies this
      ensures mask == SetBit(old(mask), reason.Index())
      ensures GetFailsafeSetFor(reason) && GetFailsafeSet()
      ensures forall q: FailsafeReason :: q != reason ==> (GetFailsafeSetFor(q) <==> old(GetFailsafeSetFor(q)))
    {
      SetBitSets(mask, reason.Index());
      mask := SetBit(mask, reason.Index());
      forall q: FailsafeReason | q != reason
        ensures GetFailsafeSetFor(q) <==> old(GetFailsafeSetFor(q))
      {
        ReasonIndexInjective(reason, q);
        SetKeepsOtherBit(old(mask), reason.Index(), q.Index());
      }
    }

    method ClearReason(reason: FailsafeReason)
      modifies this
      ensures mask == ClearBit(old(mask), reason.Index())
      ensures !GetFailsafeSetFor(reason)
      ensures forall q: FailsafeReason :: q != reason ==> (GetFailsafeSetFor(q) <==> old(GetFailsafeSetFor(q)))
    {
      ClearBitClears(mask, reason.Index());
      mask := ClearBit(mask, reason.Index());
      forall q: FailsafeReason | q != reason
        ensures GetFailsafeSetFor(q) <==> old(GetFailsafeSetFor(q))
      {
        ReasonIndexInjective(reason, q);
        ClearKeepsOtherBit(old(mask), reason.Index(), q.Index());
      }
    }

    method SetReasonValue(reason: FailsafeReason, value: bool)
      modifies this
      ensures value ==> mask == SetBit(old(mask), reason.Index())
      ensures !value ==> mask == ClearBit(old(mask), reason.Index())
      ensures GetFailsafeSetFor(reason) == value
    {
      if value {
        SetReason(reason);
      } else {
        ClearReason(reason);
      }
    }

    function GetFailsafeMask(): Mask
      reads this
    {
      mask
    }

    /** Failsafe is active as soon as any reason is set; when it is not
        active, no reason is set. */
    function GetFailsafeSet(): (active: bool)
      reads this
      ensures forall q: FailsafeReason :: GetFailsafeSetFor(q) ==> active
      ensures !active ==> mask == 0
    {
      GetFailsafeMask() != 0
    }

    /** Whether one reason holds; any reason that holds puts the mask
        off zero. */
    function GetFailsafeSetFor(reason: FailsafeReason): (held: bool)
      reads this
      ensures held ==> GetFailsafeMask() != 0
    {
      HasBit(GetFailsafeMask(), reason.Index())
    }

    /** One tick of arm-switch supervision: the arm-switch reason is set
        exactly when the channel reads at or below the threshold (an
        invalid reading, reported as 0, therefore disarms). */
    method ArmSwitchLoop(channelValue: nat)
      modifies this
      ensures channelValue <= ARM_SWITCH_THRESHOLD ==> mask == SetBit(old(mask), ArmSwitch.Index())
      ensures channelValue > ARM_SWITCH_THRESHOLD ==> mask == ClearBit(old(mask), ArmSwitch.Index())
      ensures GetFailsafeSetFor(ArmSwitch) <==> channelValue <= 1629
    {
      SetReasonValue(ArmSwitch, !(channelValue > ARM_SWITCH_THRESHOLD));
    }
  }
}
