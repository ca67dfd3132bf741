/** Conversion keeps the order of amounts and of rates, however many decimals a rate is written with
  * and however long the product: both roundings depend on the value alone and keep its order.
  */
module RatesOrder {
  import opened Numbers
  import opened Rates
  import opened Rounding

  // ---------- ten times a number ----------

  lemma TenfoldQuotient(x: nat, unit: nat)
    requires unit >= 1
    ensures (10 * x) / (10 * unit) == x / unit && (10 * x) % (10 * unit) == 10 * (x % unit)
  {
    var q := x / unit;
    DivisionBounds(x, unit);
    assert q * (10 * unit) == 10 * (q * unit);
    StepUp(q, q + 1, 10 * unit);
    QuotientAbove(10 * x, 10 * unit, q);
    QuotientBelow(10 * x, 10 * unit, q + 1);
    DivisionBounds(10 * x, 10 * unit);
  }

  lemma RoundHalfUpOfTen(n: nat, unit: nat)
    requires unit >= 1 && unit % 2 == 0
    ensures RoundHalfUp(10 * n, 10 * unit) == 10 * RoundHalfUp(n, unit)
  {
    TenfoldQuotient(n + unit / 2, unit);
    var q := (n + unit / 2) / unit;
    assert 10 * n + 10 * unit / 2 == 10 * (n + unit / 2);
    assert q * (10 * unit) == 10 * (q * unit);
  }

  lemma RoundHalfUpToTen(n: nat)
    ensures RoundHalfUp(10 * n, 10) == 10 * n
  {
  }

  lemma FitOfTen(n: nat)
    ensures Fit(10 * n) == 10 * Fit(n)
  {
    if n >= 1 {
      assert Digits(10 * n) == Digits(n) + 1;
      if Digits(n) == PRECISION {
        assert Pow10(1) == 10;
        RoundHalfUpToTen(n);
      } else if Digits(n) > PRECISION {
        var unit := Pow10(Digits(n) - PRECISION);
        assert unit == 10 * Pow10(Digits(n) - PRECISION - 1);
        RoundHalfUpOfTen(n, unit);
      }
    }
  }

  lemma RoundHalfEvenOfTen(m: nat, unit: nat)
    requires unit >= 1
    ensures RoundHalfEven(10 * m, 10 * unit) == RoundHalfEven(m, unit)
  {
    TenfoldQuotient(m, unit);
  }

  lemma PowStep(n: nat, k: nat)
    requires k > 0
    ensures n * Pow10(k) == 10 * (n * Pow10(k - 1))
  {
  }

  lemma {:induction false} FitOfPow(n: nat, k: nat)
    ensures Fit(n * Pow10(k)) == Fit(n) * Pow10(k)
    decreases k
  {
    if k == 0 {
      assert Pow10(k) == 1;
    } else {
      FitOfPow(n, k - 1);
      var m := n * Pow10(k - 1);
      FitOfTen(m);
      PowStep(n, k);
      PowStep(Fit(n), k);
    }
  }

  lemma {:induction false} RoundHalfEvenOfPow(m: nat, unit: nat, k: nat)
    requires unit >= 1
    ensures unit * Pow10(k) >= 1 && RoundHalfEven(m * Pow10(k), unit * Pow10(k)) == RoundHalfEven(m, unit)
    decreases k
  {
    if k == 0 {
      assert Pow10(k) == 1;
    } else {
      RoundHalfEvenOfPow(m, unit, k - 1);
      PowStep(m, k);
      PowStep(unit, k);
      RoundHalfEvenOfTen(m * Pow10(k - 1), unit * Pow10(k - 1));
    }
  }

  /** What a product with that scale is converted to. */
  function Rounded(n: nat, scale: nat): nat {
    RoundHalfEven(Fit(n), Pow10(scale))
  }

  /** Zeros at the end do not matter. */
  lemma RoundedOfPow(n: nat, scale: nat, k: nat)
    ensures Rounded(n * Pow10(k), scale + k) == Rounded(n, scale)
  {
    FitOfPow(n, k);
    Pow10Add(scale, k);
    RoundHalfEvenOfPow(Fit(n), Pow10(scale), k);
  }

  // ---------- order ----------

  lemma {:induction false} DigitsGrow(a: nat, b: nat)
    requires a <= b
    ensures Digits(a) <= Digits(b)
  {
    if a >= 10 {
      DigitsGrow(a / 10, b / 10);
    }
  }

  lemma RoundHalfUpIsMonotone(a: nat, b: nat, unit: nat)
    requires unit >= 1 && a <= b
    ensures RoundHalfUp(a, unit) <= RoundHalfUp(b, unit)
  {
    DivisionBounds(a + unit / 2, unit);
    QuotientAbove(b + unit / 2, unit, (a + unit / 2) / unit);
    ProductIsMonotone((a + unit / 2) / unit, (b + unit / 2) / unit, unit, unit);
  }

  /** Rounding to multiples of 10^cut stays between powers of ten that are such multiples. */
  lemma RoundStaysBetween(n: nat, cut: nat, low: nat, high: nat)
    requires Pow10(low + cut) <= n <= Pow10(high + cut)
    ensures Pow10(low + cut) <= RoundHalfUp(n, Pow10(cut)) <= Pow10(high + cut)
  {
    Pow10Add(low, cut);
    Pow10Add(high, cut);
    RoundHalfUpStaysOnSide(n, Pow10(cut), Pow10(low));
    RoundHalfUpStaysOnSide(n, Pow10(cut), Pow10(high));
  }

  /** Cutting keeps a number within its own digits. */
  lemma FitKeepsDigits(n: nat)
    requires n >= 1
    ensures Pow10(Digits(n) - 1) <= Fit(n) <= Pow10(Digits(n))
  {
    DigitsReach(n);
    if Digits(n) > PRECISION {
      RoundStaysBetween(n, Digits(n) - PRECISION, PRECISION - 1, PRECISION);
    }
  }

  lemma FitIsMonotone(a: nat, b: nat)
    requires a <= b
    ensures Fit(a) <= Fit(b)
  {
    DigitsGrow(a, b);
    if a >= 1 && Digits(a) < Digits(b) {
      FitKeepsDigits(a);
      FitKeepsDigits(b);
      Pow10Grows(Digits(a), Digits(b) - 1);
    } else if Digits(a) > PRECISION {
      RoundHalfUpIsMonotone(a, b, Pow10(Digits(a) - PRECISION));
    }
  }

  lemma RoundedIsMonotone(n: nat, m: nat, scale: nat)
    requires n <= m
    ensures Rounded(n, scale) <= Rounded(m, scale)
  {
    FitIsMonotone(n, m);
    RoundHalfEvenIsNearest(Fit(n), Pow10(scale));
    RoundHalfEvenIsNearest(Fit(m), Pow10(scale));
    NearestIsMonotone(Rounded(n, scale), Rounded(m, scale), Fit(n), Fit(m), Pow10(scale));
  }

  // ---------- the theorems ----------

  /** The rate is no higher than the other one. */
  ghost predicate AtMost(rate: Decimal, other: Decimal) {
    rate.coef * Pow10(other.scale) <= other.coef * Pow10(rate.scale)
  }

  /** No greater amount and no higher rate never converts to more. */
  lemma ConvertIsMonotone(a: nat, b: nat, rate: Decimal, faster: Decimal)
    requires a <= b && AtMost(rate, faster)
    ensures ConvertMinor(a, rate) <= ConvertMinor(b, faster)
  {
    RoundedOfPow(a * rate.coef, rate.scale, faster.scale);
    RoundedOfPow(b * faster.coef, faster.scale, rate.scale);
    CrossProducts(a, b, rate.coef, faster.coef, Pow10(rate.scale), Pow10(faster.scale));
    RoundedIsMonotone(a * rate.coef * Pow10(faster.scale), b * faster.coef * Pow10(rate.scale),
                      rate.scale + faster.scale);
  }

  lemma CrossProducts(a: nat, b: nat, c: nat, d: nat, x: nat, y: nat)
    requires a <= b && c * y <= d * x
    ensures a * c * y <= b * d * x
  {
    ProductIsMonotone(a, b, c * y, d * x);
    assert a * c * y == a * (c * y) && b * d * x == b * (d * x);
  }

  /** The same rate written with more decimals converts alike. */
  lemma SameRateConvertsAlike(amount: nat, rate: Decimal, other: Decimal)
    requires rate.coef * Pow10(other.scale) == other.coef * Pow10(rate.scale)
    ensures ConvertMinor(amount, rate) == ConvertMinor(amount, other)
  {
    ConvertIsMonotone(amount, amount, rate, other);
    ConvertIsMonotone(amount, amount, other, rate);
  }

  /** Rate one, however many zeros it is written with, converts nothing. */
  lemma ConvertAtRateOne(amount: nat, scale: nat)
    requires Digits(amount) <= PRECISION
    ensures ConvertMinor(amount, Decimal(Pow10(scale), scale)) == amount
  {
    assert Pow10(scale) * Pow10(0) == 1 * Pow10(scale);
    SameRateConvertsAlike(amount, Decimal(Pow10(scale), scale), ONE);
    ConvertAtOne(amount);
  }

  lemma ConvertAtOne(amount: nat)
    requires Digits(amount) <= PRECISION
    ensures ConvertMinor(amount, ONE) == amount
  {
    assert amount * 1 == amount && Pow10(0) == 1;
    assert amount / 1 == amount && amount % 1 == 0;
  }
}
