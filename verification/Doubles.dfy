/** Whole numbers in a binary floating-point format, and what a count comes to when it is computed in
  * them: IEEE 754-2019, rounded to nearest, ties to even. JavaScript's numbers are binary64, which is
  * Widths(53, 1024).
  */
module Doubles {
  import opened Rounding

  /** The bits of a mantissa, and the exponent of the least power of two that is too great. */
  datatype Widths = Widths(bits: nat, top: nat)

  /** The standard's least format, binary16, has 11 bits and ends below 2^16. */
  type Format = f: Widths | 11 <= f.bits < f.top witness Widths(11, 16)

  /** A computed count; it may come out as Infinity or NaN. */
  datatype Count = Exactly(n: nat) | Endless | Undefined

  function Pow2(k: nat): (r: nat)
    ensures r >= 1
  {
    if k == 0 then 1 else 2 * Pow2(k - 1)
  }

  predicate IsScaled(n: nat, m: nat, e: nat) {
    n == m * Pow2(e)
  }

  /** A mantissa times a power of two. */
  ghost predicate Representable(n: nat, f: Format) {
    n < Pow2(f.top) && exists m: nat, e: nat :: m < Pow2(f.bits) && IsScaled(n, m, e)
  }

  /** How many times n must be halved to fit a mantissa. */
  function Exponent(n: nat, f: Format): nat {
    if n < Pow2(f.bits) then 0 else 1 + Exponent(n / 2, f)
  }

  function Unit(n: nat, f: Format): (u: nat)
    ensures u >= 1
  {
    Pow2(Exponent(n, f))
  }

  function Mantissa(n: nat, f: Format): nat {
    RoundHalfEven(n, Unit(n, f))
  }

  function Round(n: nat, f: Format): Count {
    var v := Mantissa(n, f) * Unit(n, f);
    if v < Pow2(f.top) then Exactly(v) else Endless
  }

  /** From here on, half a unit below the least power that is too great, a count becomes Infinity. */
  function Overflow(f: Format): nat {
    Pow2Grows(f.top - f.bits - 1, f.top);
    Pow2(f.top) - Pow2(f.top - f.bits - 1)
  }

  /** The product of two counts. */
  function Times(a: Count, b: nat, f: Format): Count {
    match a
    case Exactly(n) => Round(n * b, f)
    case Endless => if b == 0 then Undefined else Endless
    case Undefined => Undefined
  }

  // ---------- powers and exponents ----------

  lemma {:induction false} Pow2Grows(a: nat, b: nat)
    requires a <= b
    ensures Pow2(a) <= Pow2(b)
    decreases b
  {
    if a < b {
      Pow2Grows(a, b - 1);
    }
  }

  lemma {:induction false} Pow2Add(a: nat, b: nat)
    ensures Pow2(a + b) == Pow2(a) * Pow2(b)
  {
    if a > 0 {
      Pow2Add(a - 1, b);
      Regroup(2, Pow2(a - 1), Pow2(b));
    }
  }

  lemma Regroup(a: nat, b: nat, c: nat)
    ensures (a * b) * c == a * (b * c)
  {
  }

  lemma ProductsGrow(a: nat, b: nat, u: nat)
    ensures a <= b ==> a * u <= b * u
    ensures a < b && u >= 1 ==> a * u < b * u
  {
    if a < b && u >= 1 {
      StepUp(a, b, u);
    }
  }

  lemma {:induction false} ExponentFits(n: nat, f: Format)
    ensures n < Pow2(f.bits + Exponent(n, f))
    ensures Exponent(n, f) > 0 ==> Pow2(f.bits - 1 + Exponent(n, f)) <= n
  {
    if n >= Pow2(f.bits) {
      ExponentFits(n / 2, f);
    }
  }

  /** n is between the least and the greatest number of that exponent. */
  lemma UnitFits(n: nat, f: Format)
    ensures n < Pow2(f.bits) * Unit(n, f) == Pow2(f.bits + Exponent(n, f))
    ensures Pow2(f.bits - 1) * Unit(n, f) == Pow2(f.bits - 1 + Exponent(n, f))
    ensures Exponent(n, f) > 0 ==> Pow2(f.bits - 1 + Exponent(n, f)) <= n
  {
    ExponentFits(n, f);
    Pow2Add(f.bits, Exponent(n, f));
    Pow2Add(f.bits - 1, Exponent(n, f));
  }

  lemma MantissaFits(n: nat, f: Format)
    ensures NearestTiesEven(Mantissa(n, f), n, Unit(n, f)) && Mantissa(n, f) <= Pow2(f.bits)
    ensures Exponent(n, f) > 0 ==> Mantissa(n, f) >= Pow2(f.bits - 1)
  {
    var u := Unit(n, f);
    RoundHalfEvenIsNearest(n, u);
    UnitFits(n, f);
    NearestIsMonotone(Mantissa(n, f), Pow2(f.bits), n, Pow2(f.bits) * u, u);
    if Exponent(n, f) > 0 {
      NearestIsMonotone(Pow2(f.bits - 1), Mantissa(n, f), Pow2(f.bits - 1) * u, n, u);
    }
  }

  /** A number scaled as much as n or more is a multiple of n's unit. */
  lemma MultipleOfUnit(n: nat, w: nat, m: nat, e: nat, f: Format) returns (k: nat)
    requires IsScaled(w, m, e) && Exponent(n, f) <= e
    ensures w == k * Unit(n, f)
  {
    k := m * Pow2(e - Exponent(n, f));
    Pow2Add(e - Exponent(n, f), Exponent(n, f));
    Regroup(m, Pow2(e - Exponent(n, f)), Unit(n, f));
  }

  /** A number scaled less than n is below all numbers of n's exponent. */
  lemma ScaledLess(n: nat, w: nat, m: nat, e: nat, f: Format)
    requires IsScaled(w, m, e) && m < Pow2(f.bits) && e < Exponent(n, f)
    ensures w < Pow2(f.bits - 1) * Unit(n, f) <= n
  {
    UnitFits(n, f);
    ProductsGrow(m, Pow2(f.bits), Pow2(e));
    Pow2Add(f.bits, e);
    Pow2Grows(f.bits + e, f.bits - 1 + Exponent(n, f));
  }

  // ---------- rounding ----------

  lemma RoundIsExact(n: nat, f: Format)
    requires Representable(n, f)
    ensures Round(n, f) == Exactly(n)
  {
    var m: nat, e: nat :| m < Pow2(f.bits) && IsScaled(n, m, e);
    if e < Exponent(n, f) {
      ScaledLess(n, n, m, e, f);
    }
    var k := MultipleOfUnit(n, n, m, e, f);
    MantissaFits(n, f);
    NearestIsUnique(Mantissa(n, f), k, n, Unit(n, f));
  }

  lemma RoundIsRepresentable(n: nat, f: Format)
    requires Round(n, f).Exactly?
    ensures Representable(Round(n, f).n, f)
  {
    MantissaFits(n, f);
    var v, e := Round(n, f).n, Exponent(n, f);
    if Mantissa(n, f) < Pow2(f.bits) {
      assert IsScaled(v, Mantissa(n, f), e);
    } else {
      Doubled(f.bits, e);
      assert IsScaled(v, Pow2(f.bits - 1), e + 1);
    }
  }

  lemma Doubled(b: nat, e: nat)
    requires b >= 1
    ensures Pow2(b) * Pow2(e) == Pow2(b - 1) * Pow2(e + 1)
  {
    Pow2Add(b, e);
    Pow2Add(b - 1, e + 1);
  }

  function Gap(a: nat, b: nat): nat {
    if a <= b then b - a else a - b
  }

  lemma NearestOfMultiples(q: nat, k: nat, n: nat, u: nat)
    requires u >= 1 && NearestTiesEven(q, n, u)
    ensures Gap(q * u, n) <= Gap(k * u, n)
  {
    if k < q {
      StepUp(k, q, u);
    } else if q < k {
      StepUp(q, k, u);
    }
  }

  /** No double is nearer to a count than what it is rounded to. */
  lemma RoundIsNearest(n: nat, w: nat, f: Format)
    requires Round(n, f).Exactly? && Representable(w, f)
    ensures Gap(Round(n, f).n, n) <= Gap(w, n)
  {
    var m: nat, e: nat :| m < Pow2(f.bits) && IsScaled(w, m, e);
    MantissaFits(n, f);
    if e < Exponent(n, f) {
      ScaledLess(n, w, m, e, f);
      NearestOfMultiples(Mantissa(n, f), Pow2(f.bits - 1), n, Unit(n, f));
    } else {
      var k := MultipleOfUnit(n, w, m, e, f);
      NearestOfMultiples(Mantissa(n, f), k, n, Unit(n, f));
    }
  }

  lemma SmallIsRepresentable(n: nat, f: Format)
    requires n <= Pow2(f.bits)
    ensures Representable(n, f)
  {
    Pow2Grows(f.bits + 1, f.top);
    if n < Pow2(f.bits) {
      assert IsScaled(n, n, 0);
    } else {
      assert IsScaled(n, Pow2(f.bits - 1), 1);
    }
  }

  lemma PowerIsRepresentable(k: nat, f: Format)
    requires k < f.top
    ensures Representable(Pow2(k), f)
  {
    Pow2Grows(k + 1, f.top);
    Pow2Grows(1, f.bits);
    assert IsScaled(Pow2(k), 1, k);
  }

  /** A count is rounded to Infinity exactly from half a unit below the least power too great. */
  lemma OverflowsIff(n: nat, f: Format)
    ensures Round(n, f).Endless? <==> n >= Overflow(f)
  {
    MantissaFits(n, f);
    UnitFits(n, f);
    if f.bits + Exponent(n, f) > f.top {
      TooGreat(n, f);
    } else if f.bits + Exponent(n, f) < f.top {
      SmallEnough(n, f);
    } else {
      LastUnit(Mantissa(n, f), n, Unit(n, f), Pow2(f.bits - 1));
    }
  }

  lemma TooGreat(n: nat, f: Format)
    requires f.bits + Exponent(n, f) > f.top
    ensures Round(n, f).Endless? && n >= Overflow(f)
  {
    MantissaFits(n, f);
    UnitFits(n, f);
    Pow2Grows(f.top, f.bits - 1 + Exponent(n, f));
    ProductsGrow(Pow2(f.bits - 1), Mantissa(n, f), Unit(n, f));
  }

  lemma SmallEnough(n: nat, f: Format)
    requires f.bits + Exponent(n, f) < f.top
    ensures Round(n, f).Exactly? && n < Overflow(f)
  {
    MantissaFits(n, f);
    UnitFits(n, f);
    Pow2Grows(f.bits + Exponent(n, f), f.top - 1);
    Pow2Grows(f.top - f.bits - 1, f.top - 1);
    ProductsGrow(Mantissa(n, f), Pow2(f.bits), Unit(n, f));
  }

  /** In the last binade, of 2h mantissas. */
  lemma LastUnit(q: nat, n: nat, u: nat, h: nat)
    requires u >= 1 && h >= 1 && NearestTiesEven(q, n, u)
    ensures q * u >= 2 * h * u <==> 2 * n >= 2 * (2 * h * u) - u
  {
    if q < 2 * h {
      StepUp(q, 2 * h, u);
    } else {
      ProductsGrow(2 * h, q, u);
    }
  }
}
