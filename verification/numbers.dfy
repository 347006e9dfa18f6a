/** The part of JavaScript number arithmetic the weekly comparison summarizers
    rely on. Values are exact reals instead of doubles, but a division whose
    divisor is zero does not fail: it yields a signed infinity or NaN, exactly
    as the summarizers see it, and the comparisons the summarizers make
    (`>= 0`, `> 5`) are false on NaN. */
module Numbers {

  /** A number as the summarizers can produce it. */
  datatype Num = Finite(value: real) | Infinity(positive: bool) | NaN

  /** `Math.abs` on a finite value. */
  function Abs(x: real): real {
    if x >= 0.0 then x else -x
  }

  /** `a / b`: a quotient when `b` is non-zero, otherwise an infinity carrying
      the sign of `a`, or NaN for `0 / 0`. */
  function Divide(a: real, b: real): Num {
    if b != 0.0 then Finite(a / b)
    else if a > 0.0 then Infinity(true)
    else if a < 0.0 then Infinity(false)
    else NaN
  }

  /** With a non-zero divisor the quotient is finite, and multiplying it
      back by the divisor gives the dividend. */
  lemma DivideInverse(a: real, b: real)
    requires b != 0.0
    ensures Divide(a, b).Finite? && Divide(a, b).value * b == a
  {
  }

  /** `n * k` for a positive finite constant `k`. */
  function Scale(n: Num, k: real): Num
    requires k > 0.0
  {
    match n
    case Finite(v) => Finite(v * k)
    case Infinity(p) => Infinity(p)
    case NaN => NaN
  }

  /** `Math.abs` on any number. */
  function AbsNum(n: Num): Num {
    match n
    case Finite(v) => Finite(Abs(v))
    case Infinity(_) => Infinity(true)
    case NaN => NaN
  }

  /** The comparison `n >= c`. */
  predicate AtLeast(n: Num, c: real) {
    match n
    case Finite(v) => v >= c
    case Infinity(p) => p
    case NaN => false
  }

  /** The comparison `n > c`. */
  predicate Above(n: Num, c: real) {
    match n
    case Finite(v) => v > c
    case Infinity(p) => p
    case NaN => false
  }

  /** `delta / base * 100`, the percentage change both summarizers compute. */
  function Percentage(delta: real, base: real): Num {
    Scale(Divide(delta, base), 100.0)
  }

  /** `delta / base` is non-negative exactly when `delta * base` is. */
  lemma QuotientSign(delta: real, base: real)
    requires base != 0.0
    ensures delta / base >= 0.0 <==> delta * base >= 0.0
  {
    var q := delta / base;
    assert q * base == delta;
    assert delta * base == q * (base * base);
    assert base * base > 0.0;
    if q >= 0.0 {
      assert q * (base * base) >= 0.0;
    } else {
      assert q * (base * base) < 0.0;
    }
  }

  /** The percentage is non-negative (`>= 0` holds) exactly when the change
      and the base agree in sign; with a zero base only a strictly positive
      change qualifies, since `0 / 0` is NaN. */
  lemma PercentageSign(delta: real, base: real)
    ensures AtLeast(Percentage(delta, base), 0.0)
        <==> (if base != 0.0 then delta * base >= 0.0 else delta > 0.0)
  {
    if base != 0.0 {
      QuotientSign(delta, base);
    }
  }

  /** A relative bound of 5 percent, stated without division. */
  lemma FivePercentBound(a: real, b: real, d: real)
    requires b > 0.0 && d == a * b
    ensures a * 100.0 > 5.0 <==> 20.0 * d > b
  {
    assert 20.0 * d == (20.0 * a) * b;
    if 20.0 * a > 1.0 {
      assert (20.0 * a) * b > 1.0 * b;
    } else {
      assert (20.0 * a) * b <= 1.0 * b;
    }
  }

  /** `Math.abs` distributes over a product. */
  lemma AbsProduct(x: real, y: real)
    ensures Abs(x * y) == Abs(x) * Abs(y)
  {
    if x >= 0.0 && y < 0.0 {
      assert x * y <= 0.0;
      assert Abs(x * y) == x * -y;
    } else if x < 0.0 && y >= 0.0 {
      assert x * y <= 0.0;
      assert Abs(x * y) == -x * y;
    } else if x < 0.0 && y < 0.0 {
      assert x * y > 0.0;
      assert -x * -y == x * y;
    } else {
      assert x * y >= 0.0;
    }
  }

  /** The 5 percent gate on a finite quotient `q` of `delta` by `base`. */
  lemma QuotientAboveFive(delta: real, base: real, q: real)
    requires base != 0.0 && q * base == delta
    ensures Above(AbsNum(Finite(q * 100.0)), 5.0) <==> 20.0 * Abs(delta) > Abs(base)
  {
    AbsProduct(q, base);
    AbsProduct(q, 100.0);
    FivePercentBound(Abs(q), Abs(base), Abs(delta));
  }

  /** The 5 percent gate when the base is non-zero, so the quotient is finite. */
  lemma PercentageAboveFiveNonZero(delta: real, base: real)
    requires base != 0.0
    ensures Above(AbsNum(Percentage(delta, base)), 5.0) <==> 20.0 * Abs(delta) > Abs(base)
  {
    var q := delta / base;
    assert Percentage(delta, base) == Finite(q * 100.0);
    QuotientAboveFive(delta, base, q);
  }

  /** The magnitude of the percentage exceeds 5 exactly when the change is
      more than a twentieth of the base, with no division involved. */
  lemma PercentageAboveFive(delta: real, base: real)
    ensures Above(AbsNum(Percentage(delta, base)), 5.0) <==> 20.0 * Abs(delta) > Abs(base)
  {
    if base != 0.0 {
      PercentageAboveFiveNonZero(delta, base);
    }
  }

  /** With a non-zero base the reported magnitude is the finite relative change in percent. */
  lemma PercentageMagnitude(delta: real, base: real)
    requires base != 0.0
    ensures AbsNum(Percentage(delta, base)) == Finite(Abs(delta) / Abs(base) * 100.0)
  {
    DivideInverse(delta, base);
    var q := Divide(delta, base).value;
    assert Abs(delta) == Abs(q) * Abs(base);
    assert Abs(q) == Abs(delta) / Abs(base);
  }
}
