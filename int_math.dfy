/** Integer helpers shared by every component: C++ integer division
    (truncation toward zero), saturation, and range midpoints. */
module IntMath {

  function Abs(x: int): (r: nat)
    ensures r == x || r == -x
  {
    if x < 0 then -x else x
  }

  /** C++ `a / b` on signed integers: the quotient truncated toward zero.
      Dafny's own `/` is Euclidean and differs for negative operands. */
  function TDiv(a: int, b: int): (q: int)
    requires b != 0
    ensures Abs(q) * Abs(b) <= Abs(a) < Abs(q) * Abs(b) + Abs(b)
    ensures (a >= 0) == (b > 0) ==> q >= 0
    ensures (a >= 0) != (b > 0) ==> q <= 0
  {
    DivBounds(Abs(a), Abs(b));
    var n := Abs(a) / Abs(b);
    if (a >= 0) == (b > 0) then n else -n
  }

  /** Truncating division is an odd function of its dividend. */
  lemma TDivNeg(a: int, b: int)
    requires b != 0
    ensures TDiv(-a, b) == -TDiv(a, b)
  {
    assert Abs(-a) == Abs(a);
  }

  /** Truncating division is also odd in its divisor. */
  lemma TDivNegDivisor(a: int, b: int)
    requires b != 0
    ensures TDiv(a, -b) == -TDiv(a, b)
  {
    assert Abs(-b) == Abs(b);
  }

  /** Truncating division by a positive divisor is monotone. */
  lemma TDivMonotone(a1: int, a2: int, b: int)
    requires b > 0 && a1 <= a2
    ensures TDiv(a1, b) <= TDiv(a2, b)
  {
    if a1 >= 0 {
      DivMonotone(a1, a2, b);
    } else if a2 >= 0 {
    } else {
      DivMonotone(-a2, -a1, b);
    }
  }

  lemma DivBounds(a: nat, b: nat)
    requires b > 0
    ensures 0 <= a / b
    ensures (a / b) * b <= a < (a / b) * b + b
  {
  }

  lemma DivMonotone(x: nat, y: nat, b: nat)
    requires b > 0 && x <= y
    ensures x / b <= y / b
  {
    DivBounds(x, b);
    DivBounds(y, b);
    if x / b > y / b {
      MulMonotone(y / b + 1, x / b, b);
    }
  }

  lemma MulMonotone(x: int, y: int, c: nat)
    requires x <= y
    ensures x * c <= y * c
  {
  }

  lemma MulDivCancel(k: nat, b: nat)
    requires b > 0
    ensures (k * b) / b == k
  {
    var q := (k * b) / b;
    DivBounds(k * b, b);
    if q < k {
      MulMonotone(q + 1, k, b);
    } else if q > k {
      MulMonotone(k + 1, q, b);
    }
  }

  /** Division is determined by any quotient and remainder pair. */
  lemma DivUnique(n: nat, d: nat, q: nat, r: nat)
    requires d > 0 && n == q * d + r && r < d
    ensures n / d == q
  {
    DivBounds(n, d);
    var q' := n / d;
    if q' < q {
      MulMonotone(q' + 1, q, d);
    } else if q' > q {
      MulMonotone(q + 1, q', d);
    }
  }

  /** A common positive factor of dividend and divisor cancels. */
  lemma DivCancelFactor(x: nat, y: nat, c: nat)
    requires y > 0 && c > 0
    ensures (x * c) / (y * c) == x / y
  {
    DivBounds(x, y);
    var q := x / y;
    var r := x - q * y;
    assert x * c == q * (y * c) + r * c;
    MulMonotone(r + 1, y, c);
    DivUnique(x * c, y * c, q, r * c);
  }

  lemma AbsScaled(a: int, c: nat)
    requires c > 0
    ensures Abs(a * c) == Abs(a) * c
    ensures (a * c >= 0) == (a >= 0) && (a * c > 0) == (a > 0)
  {
    if a < 0 {
      assert a * c == -((-a) * c);
    }
  }

  /** The same cancellation for truncating division. */
  lemma TDivCancelFactor(a: int, b: int, c: nat)
    requires b != 0 && c > 0
    ensures TDiv(a * c, b * c) == TDiv(a, b)
  {
    AbsScaled(a, c);
    AbsScaled(b, c);
    DivCancelFactor(Abs(a), Abs(b), c);
  }

  /** Scaling `x` out of `range` onto `target` with truncation stays
      within `target`, and hits it exactly at `x == range`. */
  lemma ScaleWithin(x: nat, range: nat, target: nat)
    requires 0 < range && x <= range
    ensures 0 <= TDiv(x * target, range) <= target
    ensures x == range ==> TDiv(x * target, range) == target
  {
    MulMonotone(x, range, target);
    DivMonotone(x * target, target * range, range);
    MulDivCancel(target, range);
    assert TDiv(x * target, range) == (x * target) / range;
  }

  /** `x * c / d` with truncation is odd in `x`. */
  lemma ScaledOdd(x: int, c: int, d: int)
    requires d != 0
    ensures TDiv((-x) * c, d) == -TDiv(x * c, d)
  {
    assert (-x) * c == -(x * c);
    TDivNeg(x * c, d);
  }

  /** `x * c / d` with truncation is monotone in `x` for positive `c`, `d`. */
  lemma ScaledMonotone(x: int, y: int, c: nat, d: int)
    requires d > 0 && x <= y
    ensures TDiv(x * c, d) <= TDiv(y * c, d)
  {
    MulMonotone(x, y, c);
    TDivMonotone(x * c, y * c, d);
  }

  /** Two-sided saturation as written in the setters: anything above `hi`
      becomes `hi`, anything below `lo` becomes `lo`. */
  function Clamp(v: int, lo: int, hi: int): (r: int)
    requires lo <= hi
    ensures lo <= r <= hi
    ensures lo <= v <= hi <==> r == v
    ensures v > hi ==> r == hi
    ensures v < lo ==> r == lo
  {
    if v > hi then hi else if v < lo then lo else v
  }

  /** `(lo + hi) / 2` in C++: the truncated midpoint of a range. */
  function Midpoint(lo: int, hi: int): (m: int)
    requires lo <= hi
    ensures lo <= m <= hi
    ensures hi - lo >= 2 ==> lo < m < hi
  {
    TDiv(lo + hi, 2)
  }
}
