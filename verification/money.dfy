/** Money is held as an integer number of cents (Django's
    `DecimalField(decimal_places=2)`). Intermediate Decimal values that are
    not whole cents are held as exact ratios of cents, and
    `Decimal.quantize(Decimal("0.01"))` in the default context, whose
    rounding mode is ROUND_HALF_EVEN, becomes `RoundHalfEven`. */
module Money {

  /** An exact quantity of cents: `num / den`. */
  datatype Ratio = Ratio(num: int, den: int)

  predicate ValidRatio(x: Ratio) {
    x.den > 0
  }

  function Abs(x: int): (r: int)
    ensures r >= 0
    ensures r == x || r == -x
  {
    if x < 0 then -x else x
  }

  /** Rounds `num / den` to the nearest integer, ties to the even one. */
  function RoundHalfEven(num: int, den: int): (r: int)
    requires den > 0
    ensures 2 * Abs(num - r * den) <= den
    ensures 2 * Abs(num - r * den) == den ==> r % 2 == 0
  {
    var q := num / den;
    var rem := num % den;
    if 2 * rem < den then q
    else if 2 * rem > den then q + 1
    else if q % 2 == 0 then q
    else q + 1
  }

  /** The two properties of `RoundHalfEven` pin its result down: no other
      integer is as close to `num / den` with the same tie rule. */
  lemma RoundHalfEvenUnique(num: int, den: int, k: int)
    requires den > 0
    requires 2 * Abs(num - k * den) <= den
    requires 2 * Abs(num - k * den) == den ==> k % 2 == 0
    ensures k == RoundHalfEven(num, den)
  {
    var r := RoundHalfEven(num, den);
    var e := num - r * den;
    var f := num - k * den;
    assert f - e == (r - k) * den by {
      assert r * den - k * den == (r - k) * den;
    }
    NearestEvenUnique(e, f, r, k, den);
  }

  /** Two candidates `r` and `k` whose errors `e` and `f` are both within
      half a unit, and even on a tie, are the same integer. */
  lemma NearestEvenUnique(e: int, f: int, r: int, k: int, den: int)
    requires den > 0
    requires 2 * Abs(e) <= den && 2 * Abs(f) <= den
    requires 2 * Abs(e) == den ==> r % 2 == 0
    requires 2 * Abs(f) == den ==> k % 2 == 0
    requires f - e == (r - k) * den
    ensures r == k
  {
    var d := r - k;
    QuotientOfHalves(e, f, d, den);
    assert d == 1 ==> f - e == den;
    assert d == -1 ==> e - f == den;
    // A difference of one whole unit is only possible when both are ties,
    // and ties are even on both sides.
    assert d != 0 ==> 2 * Abs(e) == den && 2 * Abs(f) == den;
  }

  /** Two values within half a unit of the same point differ by at most
      one unit. */
  lemma QuotientOfHalves(e: int, f: int, d: int, den: int)
    requires den > 0
    requires -den <= 2 * e <= den && -den <= 2 * f <= den
    requires f - e == d * den
    ensures -1 <= d <= 1
  {
    if d >= 2 {
      MulAtLeast(d, den);
    } else if d <= -2 {
      MulAtLeast(-d, den);
    }
  }

  lemma MulAtLeast(a: int, b: int)
    requires a >= 2 && b > 0
    ensures a * b >= 2 * b
  {
    assert a * b == (a - 2) * b + 2 * b;
  }

  /** Whole amounts are left unchanged by rounding. */
  lemma RoundHalfEvenExact(n: int, den: int)
    requires den > 0
    ensures RoundHalfEven(n * den, den) == n
  {
    RoundHalfEvenUnique(n * den, den, n);
  }

  /** `x.quantize(Decimal("0.01"))` for a quantity of cents. */
  function QuantizeCents(x: Ratio): (r: int)
    requires ValidRatio(x)
    ensures 2 * Abs(x.num - r * x.den) <= x.den
  {
    RoundHalfEven(x.num, x.den)
  }
}
