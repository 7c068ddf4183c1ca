/** The motor driver interface: disable reasons and their mask bits, fault
    status, the configuration with its neutral points, and the two value
    mappings every driver applies (set rpm saturation with optional
    direction inversion, and the piecewise-linear pass-through from set rpm
    to commanded rpm). */
module MotorDriverTypes {
  import opened IntMath
  import opened Bits

  datatype DisableReason =
    | Estop          // emergency stop
    | DriveStrategy  // requested by the drive strategy
    | Fault          // motor driver fault
  {
    /** The reason's enumerator value, which selects its mask bit. */
    function Index(): bv5 {
      match this
      case Estop => 0
      case DriveStrategy => 1
      case Fault => 2
    }
  }

  /** The three reasons occupy three distinct bits, the low three. */
  lemma ReasonBitsDistinct(r: DisableReason, q: DisableReason)
    ensures r != q ==> r.Index() != q.Index()
    ensures r.Index() < 3
  {
  }

  /** A disable mask only ever holds reason bits. */
  predicate OnlyReasonBits(m: Mask) {
    m & !0x7 == 0
  }

  lemma SetReasonKeepsOnlyReasonBits(m: Mask, r: DisableReason)
    requires OnlyReasonBits(m)
    ensures OnlyReasonBits(SetBit(m, r.Index()))
  {
  }

  lemma ClearReasonKeepsOnlyReasonBits(m: Mask, r: DisableReason)
    requires OnlyReasonBits(m)
    ensures OnlyReasonBits(ClearBit(m, r.Index()))
  {
  }

  /** A mask of reason bits is nonzero exactly when some reason is set. */
  lemma NonzeroMaskHasReason(m: Mask)
    requires OnlyReasonBits(m)
    ensures m != 0 <==> HasBit(m, Estop.Index()) || HasBit(m, DriveStrategy.Index()) || HasBit(m, Fault.Index())
  {
  }

  /** Disabling for two different reasons and then enabling one of them
      leaves the motor disabled for the other. */
  lemma {:induction false} EnableOneOfTwoKeepsDisabled(m: Mask, a: DisableReason, b: DisableReason)
    requires a != b
    ensures HasBit(ClearBit(SetBit(SetBit(m, a.Index()), b.Index()), a.Index()), b.Index())
    ensures ClearBit(SetBit(SetBit(m, a.Index()), b.Index()), a.Index()) != 0
  {
    var m2 := SetBit(SetBit(m, a.Index()), b.Index());
    SetBitSets(SetBit(m, a.Index()), b.Index());
    ClearKeepsOtherBit(m2, a.Index(), b.Index());
    BitSetMeansNonzero(ClearBit(m2, a.Index()), b.Index());
  }

  datatype FaultStatus = None | Faulted | OverCurrent | OverVoltage | OverTemp | Unknown

  /** `MOTOR_DRIVER_FAULTY`: a definite fault, neither "no fault" nor
      "unknown". */
  predicate Faulty(s: FaultStatus) {
    s != None && s != Unknown
  }

  /** The driver configuration without its object links, which are fields
      of the driver. */
  datatype Config = Config(invertDirection: bool,
                           minRpm: int, maxRpm: int,
                           minCommandedRpm: int, maxCommandedRpm: int)
  {
    predicate Valid() {
      minRpm <= maxRpm && minCommandedRpm <= maxCommandedRpm
    }

    /** `(min_rpm + max_rpm) / 2`, truncated. */
    function NeutralRpm(): (n: int)
      requires Valid()
      ensures minRpm <= n <= maxRpm
    {
      Midpoint(minRpm, maxRpm)
    }

    /** `(min_commanded_rpm + max_commanded_rpm) / 2`, truncated. */
    function NeutralCommandedRpm(): (n: int)
      requires Valid()
      ensures minCommandedRpm <= n <= maxCommandedRpm
    {
      Midpoint(minCommandedRpm, maxCommandedRpm)
    }
  }

  const DEFAULT_MAX_RPM: int := 1024
  const DEFAULT_MIN_RPM: int := -DEFAULT_MAX_RPM

  /** The default configuration: no inversion, +/-1024 for both ranges. */
  const DEFAULT_CONFIG: Config := Config(false, DEFAULT_MIN_RPM, DEFAULT_MAX_RPM, DEFAULT_MIN_RPM, DEFAULT_MAX_RPM)

  lemma DefaultConfigIsCentred()
    ensures DEFAULT_CONFIG.Valid()
    ensures DEFAULT_CONFIG.NeutralRpm() == 0 && DEFAULT_CONFIG.NeutralCommandedRpm() == 0
  {
  }

  /** The set rpm stored for a request: saturated into the rpm range, then
      mirrored inside it for an inverted motor. */
  function SetRpmFor(c: Config, rpm: int): (r: int)
    requires c.Valid()
    ensures c.minRpm <= r <= c.maxRpm
    ensures !c.invertDirection ==> r == Clamp(rpm, c.minRpm, c.maxRpm)
    ensures c.invertDirection ==> r + Clamp(rpm, c.minRpm, c.maxRpm) == c.minRpm + c.maxRpm
  {
    var clamped := if rpm > c.maxRpm then c.maxRpm else if rpm < c.minRpm then c.minRpm else rpm;
    if c.invertDirection then c.maxRpm + c.minRpm - clamped else clamped
  }

  /** Inversion mirrors the stored value about the middle of the range. */
  lemma {:induction false} InversionMirrors(c: Config, rpm: int)
    requires c.Valid()
    ensures SetRpmFor(c.(invertDirection := true), rpm) + SetRpmFor(c.(invertDirection := false), rpm)
            == c.minRpm + c.maxRpm
  {
  }

  /** Storing the neutral request yields the neutral rpm exactly when the
      motor is not inverted or the range's end points sum to an even
      number: an inverted odd-sum range stores the neighbour of neutral. */
  lemma {:induction false} NeutralRequestStoresNeutral(c: Config)
    requires c.Valid()
    ensures SetRpmFor(c, c.NeutralRpm()) == c.NeutralRpm() <==>
      !c.invertDirection || (c.minRpm + c.maxRpm) % 2 == 0
  {
    var s := c.minRpm + c.maxRpm;
    var n := c.NeutralRpm();
    TDivHalf(s);
    assert n == TDiv(s, 2);
  }

  /** An inverted motor over -1024..1023: the neutral request stores -1,
      while the neutral rpm is 0. */
  lemma InvertedOddRangeMissesNeutral()
    ensures Config(true, -1024, 1023, -1024, 1023).NeutralRpm() == 0
    ensures SetRpmFor(Config(true, -1024, 1023, -1024, 1023), 0) == -1
  {
  }

  /** Twice the truncated half of `s` is `s` exactly when `s` is even. */
  lemma TDivHalf(s: int)
    ensures 2 * TDiv(s, 2) == s <==> s % 2 == 0
  {
    if s >= 0 {
      DivBounds(s, 2);
    } else {
      DivBounds(-s, 2);
      assert TDiv(s, 2) == -((-s) / 2);
    }
  }

  /** The positive half of the pass-through mapping. */
  lemma PositiveHalf(c: Config, rpm: int)
    requires c.Valid() && c.NeutralRpm() < rpm <= c.maxRpm
    ensures 0 <= TDiv((rpm - c.NeutralRpm()) * (c.maxCommandedRpm - c.NeutralCommandedRpm()), c.maxRpm - c.NeutralRpm())
               <= c.maxCommandedRpm - c.NeutralCommandedRpm()
    ensures rpm == c.maxRpm ==>
      TDiv((rpm - c.NeutralRpm()) * (c.maxCommandedRpm - c.NeutralCommandedRpm()), c.maxRpm - c.NeutralRpm())
      == c.maxCommandedRpm - c.NeutralCommandedRpm()
  {
    ScaleWithin(rpm - c.NeutralRpm(), c.maxRpm - c.NeutralRpm(), c.maxCommandedRpm - c.NeutralCommandedRpm());
  }

  /** The negative half, rewritten with non-negative factors. */
  lemma NegativeHalf(c: Config, rpm: int)
    requires c.Valid() && c.minRpm <= rpm < c.NeutralRpm()
    ensures TDiv((rpm - c.NeutralRpm()) * (c.minCommandedRpm - c.NeutralCommandedRpm()), c.minRpm - c.NeutralRpm())
            == -TDiv((c.NeutralRpm() - rpm) * (c.NeutralCommandedRpm() - c.minCommandedRpm), c.NeutralRpm() - c.minRpm)
    ensures 0 <= TDiv((c.NeutralRpm() - rpm) * (c.NeutralCommandedRpm() - c.minCommandedRpm), c.NeutralRpm() - c.minRpm)
               <= c.NeutralCommandedRpm() - c.minCommandedRpm
    ensures rpm == c.minRpm ==>
      TDiv((c.NeutralRpm() - rpm) * (c.NeutralCommandedRpm() - c.minCommandedRpm), c.NeutralRpm() - c.minRpm)
      == c.NeutralCommandedRpm() - c.minCommandedRpm
  {
    var n, nC := c.NeutralRpm(), c.NeutralCommandedRpm();
    assert (rpm - n) * (c.minCommandedRpm - nC) == (n - rpm) * (nC - c.minCommandedRpm);
    assert c.minRpm - n == -(n - c.minRpm);
    TDivNegDivisor((n - rpm) * (nC - c.minCommandedRpm), n - c.minRpm);
    ScaleWithin(n - rpm, n - c.minRpm, nC - c.minCommandedRpm);
  }

  /** `commanded_from_set_rpm`: neutral maps to neutral, and each half of
      the rpm range is scaled linearly (with truncation) onto the matching
      half of the commanded range, end point to end point. */
  function CommandedFromSetRpm(c: Config, rpm: int): (r: int)
    requires c.Valid() && c.minRpm <= rpm <= c.maxRpm
    ensures c.minCommandedRpm <= r <= c.maxCommandedRpm
    ensures rpm == c.NeutralRpm() ==> r == c.NeutralCommandedRpm()
    ensures rpm > c.NeutralRpm() ==> r >= c.NeutralCommandedRpm()
    ensures rpm < c.NeutralRpm() ==> r <= c.NeutralCommandedRpm()
    ensures rpm == c.maxRpm && c.maxRpm > c.NeutralRpm() ==> r == c.maxCommandedRpm
    ensures rpm == c.minRpm && c.minRpm < c.NeutralRpm() ==> r == c.minCommandedRpm
  {
    var n, nC := c.NeutralRpm(), c.NeutralCommandedRpm();
    if rpm > n then
      PositiveHalf(c, rpm);
      nC + TDiv((rpm - n) * (c.maxCommandedRpm - nC), c.maxRpm - n)
    else if rpm < n then
      NegativeHalf(c, rpm);
      nC + TDiv((rpm - n) * (c.minCommandedRpm - nC), c.minRpm - n)
    else
      nC
  }

  /** The pass-through mapping never reverses order. */
  lemma {:induction false} CommandedFromSetRpmMonotone(c: Config, x: int, y: int)
    requires c.Valid() && c.minRpm <= x <= y <= c.maxRpm
    ensures CommandedFromSetRpm(c, x) <= CommandedFromSetRpm(c, y)
  {
    var n, nC := c.NeutralRpm(), c.NeutralCommandedRpm();
    if n < x {
      ScaledMonotone(x - n, y - n, c.maxCommandedRpm - nC, c.maxRpm - n);
    } else if y < n {
      NegativeHalf(c, x);
      NegativeHalf(c, y);
      ScaledMonotone(n - y, n - x, nC - c.minCommandedRpm, n - c.minRpm);
    }
  }
}
