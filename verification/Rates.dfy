/** Currency conversion: backend/src/rates/convert-minor.ts.
  *
  * Prisma's Decimal is decimal.js with its default settings: a product is first rounded half up
  * to 20 significant digits, and only then to a whole number of minor units, half to even.
  * Both roundings are modelled, because together they are not always one rounding.
  */
module Rates {
  import opened Numbers
  import opened Rounding

  /** Significant digits a product keeps. */
  const PRECISION: nat := 20

  /** The number of decimal digits of n; zero has one. */
  function Digits(n: nat): (d: nat)
    ensures d >= 1
  {
    if n < 10 then 1 else 1 + Digits(n / 10)
  }

  /** A non-negative decimal number, coef / 10^scale. */
  datatype Decimal = Decimal(coef: nat, scale: nat)

  const ONE := Decimal(1, 0)

  /** n rounded half up to a multiple of unit. */
  function RoundHalfUp(n: nat, unit: nat): nat
    requires unit >= 1
  {
    (n + unit / 2) / unit * unit
  }

  /** What the product's coefficient becomes when it is cut to PRECISION digits. */
  function Fit(coef: nat): nat {
    if Digits(coef) <= PRECISION then coef else RoundHalfUp(coef, Pow10(Digits(coef) - PRECISION))
  }

  function ConvertMinor(amount: nat, rate: Decimal): nat {
    RoundHalfEven(Fit(amount * rate.coef), Pow10(rate.scale))
  }

  /** The product needs no more digits than a Decimal keeps. */
  ghost predicate FitsPrecision(amount: nat, rate: Decimal) {
    Digits(amount * rate.coef) <= PRECISION
  }

  // ---------- conversion within the working precision ----------

  /** Within the working precision a conversion is the exact product rounded once, to nearest with
    * ties to even, and it is the only whole number of which that is true. */
  lemma ConvertIsNearest(amount: nat, rate: Decimal, r: int)
    requires FitsPrecision(amount, rate)
    ensures r == ConvertMinor(amount, rate) <==> NearestTiesEven(r, amount * rate.coef, Pow10(rate.scale))
  {
    var n, unit := amount * rate.coef, Pow10(rate.scale);
    RoundHalfEvenIsNearest(n, unit);
    if NearestTiesEven(r, n, unit) {
      NearestIsUnique(r, ConvertMinor(amount, rate), n, unit);
    }
  }

  lemma ProductIsMonotone(a: nat, b: nat, c: nat, d: nat)
    requires a <= b && c <= d
    ensures a * c <= b * d
  {
    assert a * c <= b * c <= b * d;
  }

  // ---------- splitting ----------

  function SumOf(parts: seq<nat>): nat {
    if parts == [] then 0 else SumOf(parts[..|parts| - 1]) + parts[|parts| - 1]
  }

  function ConvertEach(parts: seq<nat>, rate: Decimal): nat {
    if parts == [] then 0
    else ConvertEach(parts[..|parts| - 1], rate) + ConvertMinor(parts[|parts| - 1], rate)
  }

  ghost predicate AllFit(parts: seq<nat>, rate: Decimal) {
    forall i :: 0 <= i < |parts| ==> FitsPrecision(parts[i], rate)
  }

  lemma {:induction false} PartsDriftAtMostHalfEach(parts: seq<nat>, rate: Decimal)
    requires AllFit(parts, rate)
    ensures var unit, exact := Pow10(rate.scale), SumOf(parts) * rate.coef;
            var each := ConvertEach(parts, rate) * unit;
            -(|parts| * unit) <= 2 * each - 2 * exact <= |parts| * unit
  {
    if parts != [] {
      var init, last := parts[..|parts| - 1], parts[|parts| - 1];
      PartsDriftAtMostHalfEach(init, rate);
      ConvertIsNearest(last, rate, ConvertMinor(last, rate));
      Distribute(|init|, 1, Pow10(rate.scale));
      Distribute(SumOf(init), last, rate.coef);
      Distribute(ConvertEach(init, rate), ConvertMinor(last, rate), Pow10(rate.scale));
    }
  }

  /** Sending an amount in k parts instead of at once shifts the total credit by at most (k+1)/2. */
  lemma SplittingShiftsCredit(parts: seq<nat>, rate: Decimal)
    requires AllFit(parts, rate) && FitsPrecision(SumOf(parts), rate)
    ensures -(|parts| + 1) <= 2 * (ConvertEach(parts, rate) - ConvertMinor(SumOf(parts), rate)) <= |parts| + 1
  {
    PartsDriftAtMostHalfEach(parts, rate);
    var whole, each := ConvertMinor(SumOf(parts), rate), ConvertEach(parts, rate);
    ConvertIsNearest(SumOf(parts), rate, whole);
    DriftsCancel(each, whole, |parts|, SumOf(parts) * rate.coef, Pow10(rate.scale));
  }

  lemma DriftsCancel(each: nat, whole: nat, k: nat, exact: nat, unit: nat)
    requires unit >= 1
    requires -(k * unit) <= 2 * (each * unit) - 2 * exact <= k * unit
    requires 0 - unit <= 2 * (whole * unit) - 2 * exact <= unit
    ensures -(k + 1) <= 2 * (each - whole) <= k + 1
  {
    Distribute(each, each, unit);
    Distribute(whole, whole, unit);
    Distribute(k, 1, unit);
    Distribute(2 * whole, k + 1, unit);
    CancelUnit(2 * each, 2 * whole + (k + 1), unit);
    Distribute(2 * each, k + 1, unit);
    CancelUnit(2 * whole, 2 * each + (k + 1), unit);
  }

  // ---------- beyond the working precision ----------

  /** Cutting n to cut landed it exactly on a tie it was not on, and the even neighbour of that
    * tie is the farther one. */
  predicate Tips(n: nat, cut: nat, unit: nat)
    requires unit >= 1
  {
    TipsFrom(n, cut, cut / unit, cut % unit, unit)
  }

  predicate TipsFrom(n: nat, cut: nat, q: nat, rest: nat, unit: nat) {
    2 * rest == unit && ((cut < n && q % 2 == 0) || (cut > n && q % 2 == 1))
  }

  predicate Tipped(amount: nat, rate: Decimal) {
    Tips(amount * rate.coef, Fit(amount * rate.coef), Pow10(rate.scale))
  }

  lemma {:induction false} DigitsBound(n: nat, k: nat)
    requires k >= 1 && n < Pow10(k)
    ensures Digits(n) <= k
  {
    if n >= 10 {
      assert k >= 2;
      DigitsBound(n / 10, k - 1);
    }
  }

  /** Rounding to multiples of a unit never crosses such a multiple. */
  lemma RoundHalfUpStaysOnSide(n: nat, unit: nat, k: nat)
    requires unit >= 1
    ensures n <= k * unit ==> RoundHalfUp(n, unit) <= k * unit
    ensures n >= k * unit ==> RoundHalfUp(n, unit) >= k * unit
  {
    var q := (n + unit / 2) / unit;
    if n <= k * unit {
      StepUp(k, k + 1, unit);
      QuotientBelow(n + unit / 2, unit, k + 1);
      ProductIsMonotone(q, k, unit, unit);
    }
    if n >= k * unit {
      QuotientAbove(n + unit / 2, unit, k);
      ProductIsMonotone(k, q, unit, unit);
    }
  }

  /** Half of a scale's unit is a multiple of every coarser digit that can be cut away. */
  lemma HalfUnitIsMultiple(scale: nat, cut: nat) returns (k: nat)
    requires cut < scale
    ensures Pow10(scale) == 2 * (k * Pow10(cut))
  {
    Pow10Add(scale - 1 - cut, cut);
    k := 5 * Pow10(scale - 1 - cut);
    assert k * Pow10(cut) == 5 * (Pow10(scale - 1 - cut) * Pow10(cut));
  }

  function Halves(h: int, unit: nat): int {
    h * unit
  }

  /** cut is on the same side as n of every whole and half number of units. */
  ghost predicate SameSide(n: nat, cut: nat, unit: nat) {
    forall h: nat ::
      && (2 * n <= Halves(h, unit) ==> 2 * cut <= Halves(h, unit))
      && (2 * n >= Halves(h, unit) ==> 2 * cut >= Halves(h, unit))
  }

  lemma HalvesOfHalf(h: nat, k: nat, cut: nat, unit: nat)
    requires unit == 2 * (k * cut)
    ensures Halves(h, unit) == 2 * (h * k * cut)
  {
  }

  /** Cutting to PRECISION digits never crosses a whole or half number of minor units. */
  lemma FitStaysOnSide(n: nat, scale: nat, h: nat)
    requires n < Pow10(19 + scale)
    ensures 2 * n <= Halves(h, Pow10(scale)) ==> 2 * Fit(n) <= Halves(h, Pow10(scale))
    ensures 2 * n >= Halves(h, Pow10(scale)) ==> 2 * Fit(n) >= Halves(h, Pow10(scale))
  {
    if Digits(n) > PRECISION {
      DigitsBound(n, 19 + scale);
      var cut := Digits(n) - PRECISION;
      var k := HalfUnitIsMultiple(scale, cut);
      HalvesOfHalf(h, k, Pow10(cut), Pow10(scale));
      RoundHalfUpStaysOnSide(n, Pow10(cut), h * k);
    }
  }

  lemma FitIsSameSide(n: nat, scale: nat)
    requires n < Pow10(19 + scale)
    ensures SameSide(n, Fit(n), Pow10(scale))
  {
    forall h: nat
      ensures 2 * n <= Halves(h, Pow10(scale)) ==> 2 * Fit(n) <= Halves(h, Pow10(scale))
      ensures 2 * n >= Halves(h, Pow10(scale)) ==> 2 * Fit(n) >= Halves(h, Pow10(scale))
    {
      FitStaysOnSide(n, scale, h);
    }
  }

  /** Half numbers of units around q whole ones. */
  lemma HalvesAround(q: nat, unit: nat)
    ensures Halves(2 * q, unit) == 2 * (q * unit)
    ensures Halves(2 * q + 1, unit) == 2 * (q * unit) + unit
    ensures Halves(2 * q + 2, unit) == 2 * (q * unit) + 2 * unit
    ensures Halves(2 * q - 1, unit) == 2 * (q * unit) - unit
  {
    Distribute(q, q, unit);
    Distribute(2 * q, 1, unit);
    Distribute(2 * q, 2, unit);
    Distribute(2 * q, -1, unit);
  }

  /** The choice between the two neighbours of cut, against the choice for n. */
  lemma TipDecides(n: nat, cut: nat, unit: nat, q: nat, rest: nat)
    requires unit >= 1 && cut == q * unit + rest && rest < unit && SameSide(n, cut, unit)
    ensures NearestTiesEven(NearerEven(q, rest, unit), n, unit) <==> !TipsFrom(n, cut, q, rest, unit)
  {
    HalvesAround(q, unit);
    StepUp(q, q + 1, unit);
    if q > 0 {
      var h: nat := 2 * q - 1;
      assert 2 * n <= Halves(h, unit) ==> 2 * cut <= Halves(h, unit);
    }
  }

  lemma CutIsNearestIffNotTipped(n: nat, cut: nat, unit: nat)
    requires unit >= 1 && SameSide(n, cut, unit)
    ensures NearestTiesEven(RoundHalfEven(cut, unit), n, unit) <==> !Tips(n, cut, unit)
  {
    DivisionBounds(cut, unit);
    TipDecides(n, cut, unit, cut / unit, cut % unit);
  }

  /** Exactly when the two roundings agree with one: for every product below 10^19 minor units
    * (any larger credit is refused by the 32-bit balance column) the conversion is the nearest
    * whole number, ties to even, if and only if the first rounding did not tip a tie. */
  lemma ConvertIsNearestIffNotTipped(amount: nat, rate: Decimal)
    requires amount * rate.coef < Pow10(19 + rate.scale)
    ensures NearestTiesEven(ConvertMinor(amount, rate), amount * rate.coef, Pow10(rate.scale))
            <==> !Tipped(amount, rate)
  {
    FitIsSameSide(amount * rate.coef, rate.scale);
    CutIsNearestIffNotTipped(amount * rate.coef, Fit(amount * rate.coef), Pow10(rate.scale));
  }

  /** A number of at least k + 1 digits. */
  lemma {:induction false} DigitsAtLeast(n: nat, k: nat)
    requires n >= Pow10(k)
    ensures Digits(n) >= k + 1
  {
    if k > 0 {
      DigitsAtLeast(n / 10, k - 1);
    }
  }

  lemma {:induction false} DigitsReach(n: nat)
    requires n >= 1
    ensures Pow10(Digits(n) - 1) <= n < Pow10(Digits(n))
  {
    if n >= 10 {
      DigitsReach(n / 10);
    }
  }

  /** A product beyond 19 digits before the point stays well above one minor unit. */
  lemma LargeStaysLarge(n: nat, scale: nat)
    requires n >= Pow10(19 + scale)
    ensures Fit(n) >= Pow10(scale)
  {
    Pow10Grows(scale, 19 + scale);
    if Digits(n) > PRECISION {
      var cut := Digits(n) - PRECISION;
      DigitsAtLeast(n, 19 + scale);
      DigitsReach(n);
      Pow10Grows(cut, Digits(n) - 1);
      RoundHalfUpStaysOnSide(n, Pow10(cut), 1);
      Pow10Grows(scale, cut);
    }
  }

  /** A product beyond 19 digits before the point converts to more than 19 digits. */
  lemma LargeConvertsLarge(amount: nat, rate: Decimal)
    requires amount * rate.coef >= Pow10(19 + rate.scale)
    ensures ConvertMinor(amount, rate) >= Pow10(19)
  {
    var n, unit := amount * rate.coef, Pow10(rate.scale);
    LargeFitsLarge(n, rate.scale);
    Pow10Add(19, rate.scale);
    QuotientAbove(Fit(n), unit, Pow10(19));
  }

  lemma LargeFitsLarge(n: nat, scale: nat)
    requires n >= Pow10(19 + scale)
    ensures Fit(n) >= Pow10(19 + scale)
  {
    if Digits(n) > PRECISION {
      var cut := Digits(n) - PRECISION;
      DigitsAtLeast(n, 19 + scale);
      DigitsReach(n);
      Pow10Add(19, cut);
      RoundHalfUpStaysOnSide(n, Pow10(cut), Pow10(19));
      Pow10Grows(19 + scale, 19 + cut);
    }
  }

  /** What a product of 20 + k digits is cut to: the multiple of ten to the k nearest to it, of two the
    * greater. */
  lemma FitIsNearest(n: nat, k: nat) returns (m: nat)
    requires k >= 1 && Pow10(19 + k) <= n < Pow10(20 + k)
    ensures Fit(n) == m * Pow10(k)
    ensures -(Pow10(k) as int) < 2 * Fit(n) - 2 * n <= Pow10(k)
  {
    LongFits(n, k);
    m := RoundHalfUpIsNearest(n, Pow10(k));
  }

  lemma LongFits(n: nat, k: nat)
    requires k >= 1 && Pow10(19 + k) <= n < Pow10(20 + k)
    ensures Fit(n) == RoundHalfUp(n, Pow10(k)) && Pow10(k) % 2 == 0
  {
    DigitsAtLeast(n, 19 + k);
    DigitsBound(n, 20 + k);
    assert Digits(n) == 20 + k;
    assert Pow10(k) == 2 * (5 * Pow10(k - 1));
  }

  lemma RoundHalfUpIsNearest(n: nat, unit: nat) returns (m: nat)
    requires unit >= 1 && unit % 2 == 0
    ensures RoundHalfUp(n, unit) == m * unit
    ensures -(unit as int) < 2 * RoundHalfUp(n, unit) - 2 * n <= unit
  {
    m := (n + unit / 2) / unit;
    DivisionBounds(n + unit / 2, unit);
  }

  /** The nearer whole number to m / unit is zero only up to half a unit. */
  lemma PositiveAboveHalf(m: nat, unit: nat)
    requires unit >= 1
    ensures RoundHalfEven(m, unit) > 0 <==> 2 * m > unit
  {
    DivisionBounds(m, unit);
    if m / unit >= 1 {
      ProductIsMonotone(1, m / unit, unit, unit);
    }
  }

  /** More than half of the scale's unit is at least that half after cutting, and half or less is at
    * most it. */
  lemma FitStaysOfHalf(n: nat, scale: nat)
    ensures 2 * n > Pow10(scale) ==> 2 * Fit(n) >= Pow10(scale)
    ensures 2 * n <= Pow10(scale) ==> 2 * Fit(n) <= Pow10(scale)
  {
    if n < Pow10(19 + scale) {
      FitStaysOnSide(n, scale, 1);
      assert Halves(1, Pow10(scale)) == Pow10(scale);
    } else {
      LargeStaysLarge(n, scale);
      Pow10Grows(scale, 19 + scale);
    }
  }

  /** The schema calls every ledger amount positive. A converted credit is positive exactly when the
    * exact product is more than half a minor unit and is not cut to just half of one; a credit of
    * zero for more than half a unit is a tipped tie. */
  lemma CreditIsPositiveIff(amount: nat, rate: Decimal)
    ensures var n, unit := amount * rate.coef, Pow10(rate.scale);
            && (ConvertMinor(amount, rate) > 0 <==> 2 * n > unit && 2 * Fit(n) != unit)
            && (ConvertMinor(amount, rate) == 0 && 2 * n > unit ==> Tipped(amount, rate))
  {
    var n, unit := amount * rate.coef, Pow10(rate.scale);
    PositiveAboveHalf(Fit(n), unit);
    FitStaysOfHalf(n, rate.scale);
    if 2 * Fit(n) == unit && 2 * n > unit {
      DivisionBounds(Fit(n), unit);
      assert Fit(n) / unit == 0 by {
        QuotientBelow(Fit(n), unit, 1);
      }
    }
  }

  /** 17829 minor units at 0.000028044197655505076 are worth 0.500000000000000000004 and credited 0. */
  lemma LostCreditExample()
    ensures var n := 17829 * 28044197655505076;
            2 * n > Pow10(21) && ConvertMinor(17829, Decimal(28044197655505076, 21)) == 0
  {
    var n: nat := 500000000000000000004;
    assert 17829 * 28044197655505076 == n;
    Pow10Add(16, 5);
    Pow10Add(16, 4);
    DigitsAre(n, 21);
    CreditIsPositiveIff(17829, Decimal(28044197655505076, 21));
  }

  /** A tipped tie: 10001 minor units at 1.4997000299970003 are worth 14998.5000000000000003, so
    * 14999 is nearest, but the code credits 14998. */
  lemma TippedExample()
    ensures Tipped(10001, Decimal(14997000299970003, 16))
    ensures ConvertMinor(10001, Decimal(14997000299970003, 16)) == 14998
    ensures NearestTiesEven(14999, 10001 * 14997000299970003, Pow10(16))
  {
    var n: nat := 149985000000000000003;
    Pow10Add(16, 4);
    Pow10Add(16, 5);
    DigitsAre(n, 21);
  }

  lemma {:induction false} DigitsAre(n: nat, k: nat)
    requires k >= 2 && Pow10(k - 1) <= n < Pow10(k)
    ensures Digits(n) == k
  {
    if k > 2 {
      DigitsAre(n / 10, k - 1);
    }
  }
}
