/** The DRV8256P H-bridge back end: what its two hooks write to the
    sleep and input pins, and how it reports faults. */
module Drv8256p {
  import opened IntMath
  import opened MotorDriverTypes

  /** The three driven pins: `nSLEEP` (active low, so `true` means awake)
      and the PWM duty on IN1 and IN2. */
  datatype PinOutputs = PinOutputs(sleepHigh: bool, in1: nat, in2: nat)

  /** `disable_motor`: asleep, no PWM on either input. */
  const ASLEEP: PinOutputs := PinOutputs(false, 0, 0)

  /** The PWM duty of one direction: the distance from neutral scaled
      from `range` onto `[0, maxValue]`. */
  function Duty(distance: nat, range: nat, maxValue: nat): (d: nat)
    requires 0 < range && distance <= range
    ensures d <= maxValue
    ensures distance == range ==> d == maxValue
    ensures distance == 0 ==> d == 0
  {
    ScaleWithin(distance, range, maxValue);
    DivBounds(distance * maxValue, range);
    (distance * maxValue) / range
  }

  /** `command_motor`: forward above neutral on IN1, reverse below neutral
      on IN2, both low (brake) at neutral; the driver is then awake. */
  function CommandPins(c: Config, commanded: int, maxValue: nat): (p: PinOutputs)
    requires c.Valid() && c.minCommandedRpm <= commanded <= c.maxCommandedRpm
    ensures p.sleepHigh
    ensures p.in1 == 0 || p.in2 == 0
    ensures p.in1 <= maxValue && p.in2 <= maxValue
    ensures commanded <= c.NeutralCommandedRpm() ==> p.in1 == 0
    ensures commanded >= c.NeutralCommandedRpm() ==> p.in2 == 0
    ensures commanded == c.maxCommandedRpm && commanded > c.NeutralCommandedRpm() ==> p.in1 == maxValue
    ensures commanded == c.minCommandedRpm && commanded < c.NeutralCommandedRpm() ==> p.in2 == maxValue
  {
    var n := c.NeutralCommandedRpm();
    if commanded > n then
      PinOutputs(true, Duty(commanded - n, c.maxCommandedRpm - n, maxValue), 0)
    else if commanded < n then
      PinOutputs(true, 0, Duty(n - commanded, n - c.minCommandedRpm, maxValue))
    else
      PinOutputs(true, 0, 0)
  }

  /** The forward duty grows with the command, and so does the reverse
      duty as the command falls. */
  lemma {:induction false} CommandPinsMonotone(c: Config, x: int, y: int, maxValue: nat)
    requires c.Valid() && c.minCommandedRpm <= x <= y <= c.maxCommandedRpm
    ensures CommandPins(c, x, maxValue).in1 <= CommandPins(c, y, maxValue).in1
    ensures CommandPins(c, y, maxValue).in2 <= CommandPins(c, x, maxValue).in2
  {
    var n := c.NeutralCommandedRpm();
    if n < x {
      assert CommandPins(c, x, maxValue).in1 == Duty(x - n, c.maxCommandedRpm - n, maxValue);
      assert CommandPins(c, y, maxValue).in1 == Duty(y - n, c.maxCommandedRpm - n, maxValue);
      MulMonotone(x - n, y - n, maxValue);
      DivMonotone((x - n) * maxValue, (y - n) * maxValue, c.maxCommandedRpm - n);
    }
    if y < n {
      assert CommandPins(c, x, maxValue).in2 == Duty(n - x, n - c.minCommandedRpm, maxValue);
      assert CommandPins(c, y, maxValue).in2 == Duty(n - y, n - c.minCommandedRpm, maxValue);
      MulMonotone(n - y, n - x, maxValue);
      DivMonotone((n - y) * maxValue, (n - x) * maxValue, n - c.minCommandedRpm);
    }
  }

  /** `get_fault_status`: the active-low fault pin, when one is wired,
      reports a generic fault; otherwise the status is unknown. */
  function FaultStatusFor(hasFaultPin: bool, faultPinHigh: bool): (s: FaultStatus)
    ensures s == Faulted || s == Unknown
    ensures Faulty(s) <==> hasFaultPin && !faultPinHigh
  {
    if hasFaultPin && !faultPinHigh then Faulted else Unknown
  }
}
