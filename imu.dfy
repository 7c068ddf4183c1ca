/** Storage for an inertial measurement unit's readings: per axis, an
    orientation (mrad), a rotation rate (mrad/s) and an acceleration
    (mm/s^2), each kept only when the configuration supports it. */
module Imu {

  /** The Cartesian axes, in enumerator order. */
  datatype Axis = X | Y | Z
  {
    function Index(): nat {
      match this
      case X => 0
      case Y => 1
      case Z => 2
    }
  }

  datatype ImuConfig = ImuConfig(dimensions: nat,
                                 orientationSupport: bool,
                                 rotationRateSupport: bool,
                                 accelerationSupport: bool)

  /** Three dimensions, every quantity supported. */
  const DEFAULT_IMU_CONFIG: ImuConfig := ImuConfig(3, true, true, true)

  /** `init_config`: the default configuration. */
  function InitConfig(): (c: ImuConfig)
    ensures c.dimensions == 3
    ensures c.orientationSupport && c.rotationRateSupport && c.accelerationSupport
    ensures forall a: Axis :: AxisValid(c, a)
  {
    DEFAULT_IMU_CONFIG
  }

  /** `AXIS_VALID`: the axis lies below the configured dimension count. */
  predicate AxisValid(c: ImuConfig, a: Axis) {
    a.Index() < c.dimensions
  }

  /** The condition the acceleration accessors assert as written: support
      and a nonzero axis, with no bound against the dimension count. */
  predicate AccelerationAssertAsWritten(c: ImuConfig, a: Axis) {
    c.accelerationSupport && a.Index() != 0
  }

  /** The as-written acceleration assertion and the one the other
      accessors use disagree both ways: it rejects the X axis of the
      default three-dimensional unit, and it admits the Y axis of a
      one-dimensional unit, whose acceleration array has a single entry. */
  lemma AccelerationAssertMismatch()
    ensures DEFAULT_IMU_CONFIG.accelerationSupport && AxisValid(DEFAULT_IMU_CONFIG, X)
    ensures !AccelerationAssertAsWritten(DEFAULT_IMU_CONFIG, X)
    ensures AccelerationAssertAsWritten(ImuConfig(1, true, true, true), Y)
    ensures !AxisValid(ImuConfig(1, true, true, true), Y)
  {
  }

  /** The as-written assertion agrees with the intended one exactly on the
      Y and Z axes of a unit with all three dimensions. */
  lemma {:induction false} AccelerationAssertAgreement(c: ImuConfig, a: Axis)
    requires c.accelerationSupport && c.dimensions >= 3
    ensures AccelerationAssertAsWritten(c, a) == AxisValid(c, a) <==> a != X
  {
    assert a.Index() < 3;
  }

  class Imu {
    const config: ImuConfig
    const orientation: array<int>
    const rotationRate: array<int>
    const acceleration: array<int>

    /** Each supported quantity has one entry per dimension; an unsupported
        one has no storage. */
    ghost predicate Valid()
      reads this
    {
      0 < config.dimensions
      && orientation.Length == (if config.orientationSupport then config.dimensions else 0)
      && rotationRate.Length == (if config.rotationRateSupport then config.dimensions else 0)
      && acceleration.Length == (if config.accelerationSupport then config.dimensions else 0)
      && orientation != rotationRate && orientation != acceleration && rotationRate != acceleration
    }

    /** `init` for a given configuration, which must have at least one
        dimension: every stored reading starts at zero. */
    constructor (config: ImuConfig)
      requires 0 < config.dimensions
      ensures Valid() && this.config == config
      ensures forall i :: 0 <= i < orientation.Length ==> orientation[i] == 0
      ensures forall i :: 0 <= i < rotationRate.Length ==> rotationRate[i] == 0
      ensures forall i :: 0 <= i < acceleration.Length ==> acceleration[i] == 0
      ensures fresh(orientation) && fresh(rotationRate) && fresh(acceleration)
    {
      this.config := config;
      orientation := new int[if config.orientationSupport then config.dimensions else 0](_ => 0);
      rotationRate := new int[if config.rotationRateSupport then config.dimensions else 0](_ => 0);
      acceleration := new int[if config.accelerationSupport then config.dimensions else 0](_ => 0);
    }

    /** The default-configured unit: three zeroed axes of each quantity. */
    constructor Default()
      ensures Valid() && config == DEFAULT_IMU_CONFIG
      ensures forall a: Axis :: GetOrientation(a) == 0 && GetRotationRate(a) == 0 && GetAcceleration(a) == 0
      ensures fresh(orientation) && fresh(rotationRate) && fresh(acceleration)
    {
      config := DEFAULT_IMU_CONFIG;
      orientation := new int[3](_ => 0);
      rotationRate := new int[3](_ => 0);
      acceleration := new int[3](_ => 0);
    }

    function GetOrientation(a: Axis): int
      reads this, orientation
      requires Valid() && config.orientationSupport && AxisValid(config, a)
    {
      orientation[a.Index()]
    }

    function GetRotationRate(a: Axis): int
      reads this, rotationRate
      requires Valid() && config.rotationRateSupport && AxisValid(config, a)
    {
      rotationRate[a.Index()]
    }

    /** The acceleration getter, guarded like the other two accessors. */
    function GetAcceleration(a: Axis): int
      reads this, acceleration
      requires Valid() && config.accelerationSupport && AxisValid(config, a)
    {
      acceleration[a.Index()]
    }

    /** Stores the orientation of one axis; the other axes and the other
        quantities keep their readings. */
    method SetOrientation(a: Axis, mrad: int)
      requires Valid() && config.orientationSupport && AxisValid(config, a)
      modifies orientation
      ensures Valid()
      ensures GetOrientation(a) == mrad
      ensures forall b: Axis :: b != a && AxisValid(config, b) ==> GetOrientation(b) == old(GetOrientation(b))
      ensures orientation[..] == old(orientation[..])[a.Index() := mrad]
    {
      orientation[a.Index()] := mrad;
    }

    /** Stores the rotation rate of one axis; nothing else changes. */
    method SetRotationRate(a: Axis, mradPs: int)
      requires Valid() && config.rotationRateSupport && AxisValid(config, a)
      modifies rotationRate
      ensures Valid()
      ensures GetRotationRate(a) == mradPs
      ensures forall b: Axis :: b != a && AxisValid(config, b) ==> GetRotationRate(b) == old(GetRotationRate(b))
      ensures rotationRate[..] == old(rotationRate[..])[a.Index() := mradPs]
    {
      rotationRate[a.Index()] := mradPs;
    }

    /** Stores the acceleration of one axis, guarded like the other two
        setters; nothing else changes. */
    method SetAcceleration(a: Axis, mmPs: int)
      requires Valid() && config.accelerationSupport && AxisValid(config, a)
      modifies acceleration
      ensures Valid()
      ensures GetAcceleration(a) == mmPs
      ensures forall b: Axis :: b != a && AxisValid(config, b) ==> GetAcceleration(b) == old(GetAcceleration(b))
      ensures acceleration[..] == old(acceleration[..])[a.Index() := mmPs]
    {
      acceleration[a.Index()] := mmPs;
    }
  }
}
