/** Python's built-in `round(x, d)` on exact reals: round to the nearest
    multiple of 10^-d, ties to the even neighbour ("banker's rounding").
    Every calculator of app.py passes its raw value through it. */
module Rounding {

  /** 10^d. */
  function Pow10(d: nat): (p: nat)
    ensures p >= 1
  {
    if d == 0 then 1 else 10 * Pow10(d - 1)
  }

  /** The scale factor 10^d as a real. */
  function Scale(d: nat): (s: real)
    ensures s >= 1.0
  {
    Pow10(d) as real
  }

  /** Half a unit in the last kept decimal place: the largest error `round` makes. */
  function HalfUlp(d: nat): (h: real)
    ensures 0.0 < h <= 0.5
  {
    0.5 / Scale(d)
  }

  /** `a` is within half a unit in the d-th decimal place of `x`. */
  predicate Near(a: real, x: real, d: nat) {
    -HalfUlp(d) <= a - x <= HalfUlp(d)
  }

  /** Round a real to the nearest integer, ties to the even integer. */
  function RoundInt(y: real): (n: int)
    ensures y - 0.5 <= n as real <= y + 0.5
    ensures y - 0.5 == n as real ==> n % 2 == 0
    ensures y + 0.5 == n as real ==> n % 2 == 0
  {
    var f := y.Floor;
    var frac := y - f as real;
    if frac < 0.5 then f
    else if frac > 0.5 then f + 1
    else if f % 2 == 0 then f
    else f + 1
  }

  /** Python's `round(x, d)` over the reals. */
  function Round(x: real, d: nat): real
  {
    RoundInt(x * Scale(d)) as real / Scale(d)
  }

  /** The definition of `Round`, for the proofs whose solver step does not
      unfold it unaided. */
  lemma RoundUnfold(x: real, d: nat)
    ensures Round(x, d) == RoundInt(x * Scale(d)) as real / Scale(d)
  {
  }

  /** `round(x, d)` is off by at most half a unit in the d-th decimal place. */
  lemma RoundError(x: real, d: nat)
    ensures Near(Round(x, d), x, d)
  {
    ScaledError(x, d);
  }

  lemma ScaledError(x: real, d: nat)
    ensures Near(RoundInt(x * Scale(d)) as real / Scale(d), x, d)
  {
    ScaleBack(RoundInt(x * Scale(d)) as real, x * Scale(d), Scale(d));
    DivMul(x, Scale(d));
  }

  /** Dividing by the scale shrinks the rounding error by the same factor. */
  lemma ScaleBack(n: real, y: real, s: real)
    requires s >= 1.0
    requires y - 0.5 <= n <= y + 0.5
    ensures -(0.5 / s) <= n / s - y / s <= 0.5 / s
  {
    assert n / s - y / s == (n - y) / s;
    assert -0.5 / s <= (n - y) / s <= 0.5 / s by {
      assert (n - y + 0.5) / s >= 0.0;
      assert (0.5 - (n - y)) / s >= 0.0;
    }
  }

  /** Rounding to an integer never reverses order. */
  lemma RoundIntMonotone(y1: real, y2: real)
    requires y1 <= y2
    ensures RoundInt(y1) <= RoundInt(y2)
  {
    var f1, f2 := y1.Floor, y2.Floor;
    if f1 < f2 {
      assert RoundInt(y1) <= f1 + 1 <= f2 <= RoundInt(y2);
    } else {
      assert f1 == f2;
    }
  }

  /** Scaling by a positive factor keeps order. */
  lemma ScaleMonotone(a: real, b: real, s: real)
    requires a <= b && s > 0.0
    ensures a * s <= b * s && a / s <= b / s
  {
    assert b * s - a * s == (b - a) * s;
    assert b / s - a / s == (b - a) / s;
  }

  /** `round(x, d)` never reverses order. */
  lemma RoundMonotone(x1: real, x2: real, d: nat)
    requires x1 <= x2
    ensures Round(x1, d) <= Round(x2, d)
  {
    RoundUnfold(x1, d);
    RoundUnfold(x2, d);
    ScaledMonotone(x1, x2, Scale(d));
  }

  lemma ScaledMonotone(x1: real, x2: real, s: real)
    requires x1 <= x2 && s >= 1.0
    ensures RoundInt(x1 * s) as real / s <= RoundInt(x2 * s) as real / s
  {
    ScaleMonotone(x1, x2, s);
    RoundIntMonotone(x1 * s, x2 * s);
    ScaleMonotone(RoundInt(x1 * s) as real, RoundInt(x2 * s) as real, s);
  }

  /** An integer is already rounded. */
  lemma RoundIntExact(k: int)
    ensures RoundInt(k as real) == k
  {
    assert (k as real).Floor == k;
  }

  /** A value with at most d decimal places (x * 10^d is the integer k) is
      left unchanged by `round(., d)`. */
  lemma RoundExact(x: real, d: nat, k: int)
    requires x * Scale(d) == k as real
    ensures Round(x, d) == x
  {
    RoundUnfold(x, d);
    RoundIntExact(k);
    MulDiv(x, Scale(d), k as real);
  }

  lemma MulDiv(x: real, s: real, y: real)
    requires s != 0.0 && x * s == y
    ensures y / s == x
  {
  }

  /** Dividing and multiplying by the same non-zero factor cancel. */
  lemma DivMul(a: real, s: real)
    requires s != 0.0
    ensures a / s * s == a
  {
  }

  /** To zero decimals `round` is `RoundInt`. */
  lemma RoundUnits(x: real)
    ensures Round(x, 0) == RoundInt(x) as real
  {
    assert Scale(0) == 1.0;
    assert x * Scale(0) == x;
  }

  /** Shifting by an even integer commutes with rounding to an integer,
      ties included. */
  lemma RoundIntShiftEven(y: real, k: int)
    requires k % 2 == 0
    ensures RoundInt(y + k as real) == RoundInt(y) + k
  {
    assert (y + k as real).Floor == y.Floor + k;
    assert (y.Floor + k) % 2 == y.Floor % 2;
  }

  /** `round(x, 0)` commutes with adding an even integer: the tie rule
      looks only at parity, which an even shift keeps. */
  lemma RoundUnitsShiftEven(x: real, k: int)
    requires k % 2 == 0
    ensures Round(x + k as real, 0) == Round(x, 0) + k as real
  {
    RoundUnits(x);
    RoundUnits(x + k as real);
    RoundIntShiftEven(x, k);
  }

  /** Rounding a non-negative value gives a non-negative value. */
  lemma RoundNonNegative(x: real, d: nat)
    requires x >= 0.0
    ensures Round(x, d) >= 0.0
  {
    RoundMonotone(0.0, x, d);
    RoundExact(0.0, d, 0);
  }
}
