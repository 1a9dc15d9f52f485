/** Arithmetic shared by the trading components: prices and cash are exact reals,
    and rounding is modelled only where a recorded value is a rounded one. */
module Numbers {

  datatype Option<+T> = None | Some(value: T)

  function Abs(x: real): real { if x < 0.0 then -x else x }

  function AbsInt(x: int): nat { if x < 0 then -x else x }

  function MinInt(x: int, y: int): int { if x <= y then x else y }

  function MaxInt(x: int, y: int): int { if x >= y then x else y }

  function Min(x: real, y: real): real { if x <= y then x else y }

  function Max(x: real, y: real): real { if x >= y then x else y }

  /** Rounds to the nearest integer, ties to even, as Python's `round` does. */
  function RoundInt(x: real): int {
    var f := x.Floor;
    var d := x - f as real;
    if d < 0.5 then f
    else if d > 0.5 then f + 1
    else if f % 2 == 0 then f else f + 1
  }

  /** `round(x, 4)`: the precision of recorded prices and commissions. */
  function Round4(x: real): real { RoundInt(x * 10000.0) as real / 10000.0 }

  /** `round(x, 2)`: the precision of equity snapshots. */
  function Round2(x: real): real { RoundInt(x * 100.0) as real / 100.0 }

  /** Half a unit in the fourth decimal place. */
  const HALF_UNIT := 0.00005

  lemma RoundErrors(x: real)
    ensures Abs(Round4(x) - x) <= HALF_UNIT
    ensures Abs(Round2(x) - x) <= 0.005
  {
  }

  lemma Round4Monotone(x: real, y: real)
    requires x <= y
    ensures Round4(x) <= Round4(y)
  {
    var a, b := x * 10000.0, y * 10000.0;
    if a.Floor < b.Floor {
      assert RoundInt(a) <= a.Floor + 1 <= b.Floor <= RoundInt(b);
    }
    assert RoundInt(a) <= RoundInt(b);
  }

  lemma MulMonotone(c: real, x: real, y: real)
    requires c >= 0.0 && x <= y
    ensures c * x <= c * y
  {
    assert c * (y - x) >= 0.0;
  }

  lemma CancelMonotone(d: real, x: real, y: real)
    requires d > 0.0 && d * x <= d * y
    ensures x <= y
  {
    assert x > y ==> d * (x - y) > 0.0;
  }

  /** A weighted mean lies between any bounds on what is averaged. */
  lemma MeanBetween(h: real, q: real, a: real, x: real, lo: real, hi: real)
    requires h >= 0.0 && q > 0.0 && lo <= a <= hi && lo <= x <= hi
    ensures lo <= (a * h + x * q) / (h + q) <= hi
  {
    var m := (a * h + x * q) / (h + q);
    MulMonotone(h, lo, a);
    MulMonotone(q, lo, x);
    MeanAbove(h, q, m, a * h, x * q, lo);
    MulMonotone(h, a, hi);
    MulMonotone(q, x, hi);
    MeanBelow(h, q, m, a * h, x * q, hi);
  }

  lemma MeanAbove(h: real, q: real, m: real, u: real, v: real, lo: real)
    requires h + q > 0.0 && m == (u + v) / (h + q) && h * lo <= u && q * lo <= v
    ensures lo <= m
  {
    assert m * (h + q) == u + v;
    assert lo * (h + q) == h * lo + q * lo;
    CancelMonotone(h + q, lo, m);
  }

  lemma MeanBelow(h: real, q: real, m: real, u: real, v: real, hi: real)
    requires h + q > 0.0 && m == (u + v) / (h + q) && u <= h * hi && v <= q * hi
    ensures m <= hi
  {
    assert m * (h + q) == u + v;
    assert hi * (h + q) == h * hi + q * hi;
    CancelMonotone(h + q, m, hi);
  }

  lemma MeanOfOne(a: real, x: real, q: real)
    requires q > 0.0
    ensures (a * 0.0 + x * q) / q == x
  {
    assert x * q / q == x;
  }
}
