/** Rotation unit conversions between (milli-)rpm and (milli-)radians per
    second, all in integer arithmetic with C++ truncating division. */
module Rotation {
  import opened IntMath

  /** SL_ROBOT_1000PI: pi scaled by 1000 and rounded. */
  const MILLI_PI: int := 3142
  /** Milli-radians in one revolution with the scaled pi above. */
  const MILLI_RAD_PER_REV: int := 2 * MILLI_PI
  /** Milliseconds in one minute: 1000 * 60. */
  const MILLI_SECONDS_PER_MINUTE: int := 1000 * 60

  /** Each conversion scales by a positive ratio and truncates toward
      zero, so the result never has the opposite sign of the input. */
  function MrpmToMRadPs(mrpm: int): (r: int)
    ensures mrpm >= 0 ==> r >= 0
    ensures mrpm <= 0 ==> r <= 0
  {
    TDiv(mrpm * MILLI_RAD_PER_REV, MILLI_SECONDS_PER_MINUTE)
  }

  function RpmToRadPs(rpm: int): (r: int)
    ensures rpm >= 0 ==> r >= 0
    ensures rpm <= 0 ==> r <= 0
  {
    TDiv(MrpmToMRadPs(rpm * 1000), 1000)
  }

  function MRadPsToMrpm(mRadPs: int): (r: int)
    ensures mRadPs >= 0 ==> r >= 0
    ensures mRadPs <= 0 ==> r <= 0
  {
    TDiv(mRadPs * MILLI_SECONDS_PER_MINUTE, MILLI_RAD_PER_REV)
  }

  function RadPsToRpm(radPs: int): (r: int)
    ensures radPs >= 0 ==> r >= 0
    ensures radPs <= 0 ==> r <= 0
  {
    TDiv(MRadPsToMrpm(radPs * 1000), 1000)
  }

  /** All four conversions map 0 to 0 and reverse direction exactly:
      truncation toward zero treats both signs alike. */
  lemma {:induction false} ConversionsAreOdd(x: int)
    ensures MrpmToMRadPs(0) == 0 && MRadPsToMrpm(0) == 0
    ensures RpmToRadPs(0) == 0 && RadPsToRpm(0) == 0
    ensures MrpmToMRadPs(-x) == -MrpmToMRadPs(x)
    ensures MRadPsToMrpm(-x) == -MRadPsToMrpm(x)
    ensures RpmToRadPs(-x) == -RpmToRadPs(x)
    ensures RadPsToRpm(-x) == -RadPsToRpm(x)
  {
    ScaledOdd(x, MILLI_RAD_PER_REV, MILLI_SECONDS_PER_MINUTE);
    ScaledOdd(x, MILLI_SECONDS_PER_MINUTE, MILLI_RAD_PER_REV);
    ScaledOdd(x * 1000, MILLI_RAD_PER_REV, MILLI_SECONDS_PER_MINUTE);
    ScaledOdd(x * 1000, MILLI_SECONDS_PER_MINUTE, MILLI_RAD_PER_REV);
    assert (-x) * 1000 == -(x * 1000);
    TDivNeg(MrpmToMRadPs(x * 1000), 1000);
    TDivNeg(MRadPsToMrpm(x * 1000), 1000);
  }

  /** All four conversions are monotone non-decreasing. */
  lemma {:induction false} ConversionsAreMonotone(x: int, y: int)
    requires x <= y
    ensures MrpmToMRadPs(x) <= MrpmToMRadPs(y)
    ensures MRadPsToMrpm(x) <= MRadPsToMrpm(y)
    ensures RpmToRadPs(x) <= RpmToRadPs(y)
    ensures RadPsToRpm(x) <= RadPsToRpm(y)
  {
    ScaledMonotone(x, y, MILLI_RAD_PER_REV, MILLI_SECONDS_PER_MINUTE);
    ScaledMonotone(x, y, MILLI_SECONDS_PER_MINUTE, MILLI_RAD_PER_REV);
    MulMonotone(x, y, 1000);
    ScaledMonotone(x * 1000, y * 1000, MILLI_RAD_PER_REV, MILLI_SECONDS_PER_MINUTE);
    ScaledMonotone(x * 1000, y * 1000, MILLI_SECONDS_PER_MINUTE, MILLI_RAD_PER_REV);
    TDivMonotone(MrpmToMRadPs(x * 1000), MrpmToMRadPs(y * 1000), 1000);
    TDivMonotone(MRadPsToMrpm(x * 1000), MRadPsToMrpm(y * 1000), 1000);
  }

  /** For non-negative `m`, scaling by `c / d` and back by `d / c`, each
      step truncated, never overshoots `m`. */
  lemma ScaleBackShrinks(m: nat, c: nat, d: nat)
    requires c > 0 && d > 0
    ensures 0 <= TDiv(TDiv(m * c, d) * d, c) <= m
  {
    var a := TDiv(m * c, d);
    var b := TDiv(a * d, c);
    assert a * d <= m * c;
    assert b * c <= a * d;
    if b > m {
      MulMonotone(m + 1, b, c);
    }
  }

  /** Converting milli-rpm to milli-radians per second and back (or the
      other way round) never grows the magnitude and keeps the sign. */
  lemma {:induction false} RoundTripsShrink(x: int)
    ensures Abs(MRadPsToMrpm(MrpmToMRadPs(x))) <= Abs(x)
    ensures Abs(MrpmToMRadPs(MRadPsToMrpm(x))) <= Abs(x)
    ensures x >= 0 ==> MRadPsToMrpm(MrpmToMRadPs(x)) >= 0 && MrpmToMRadPs(MRadPsToMrpm(x)) >= 0
    ensures x <= 0 ==> MRadPsToMrpm(MrpmToMRadPs(x)) <= 0 && MrpmToMRadPs(MRadPsToMrpm(x)) <= 0
  {
    var m := Abs(x);
    ScaleBackShrinks(m, MILLI_RAD_PER_REV, MILLI_SECONDS_PER_MINUTE);
    ScaleBackShrinks(m, MILLI_SECONDS_PER_MINUTE, MILLI_RAD_PER_REV);
    if x < 0 {
      ConversionsAreOdd(m);
      ConversionsAreOdd(MrpmToMRadPs(m));
      ConversionsAreOdd(MRadPsToMrpm(m));
    }
  }
}
