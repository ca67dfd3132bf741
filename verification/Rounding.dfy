/** Products, quotients, and rounding to the nearest whole number, ties to even. */
module Rounding {

  /** n / unit rounded to a whole number, ties to even. */
  function RoundHalfEven(n: nat, unit: nat): nat
    requires unit >= 1
  {
    NearerEven(n / unit, n % unit, unit)
  }

  function NearerEven(q: nat, rest: nat, unit: nat): nat {
    if 2 * rest < unit || (2 * rest == unit && q % 2 == 0) then q else q + 1
  }

  /** The rule of roundTiesToEven, section 4.3.1 of IEEE 754-2019, for the quotient n / unit:
    * r is nearest, and even when two whole numbers are equally near. */
  ghost predicate NearestTiesEven(r: int, n: int, unit: int) {
    var error := if r * unit >= n then r * unit - n else n - r * unit;
    2 * error < unit || (2 * error == unit && r % 2 == 0)
  }

  // ---------- products and quotients ----------

  lemma Distribute(a: int, b: int, unit: int)
    ensures (a + b) * unit == a * unit + b * unit
  {
  }

  /** Each step up adds a whole unit to the product. */
  lemma StepUp(a: int, b: int, unit: int)
    requires unit >= 1 && a < b
    ensures a * unit + unit <= b * unit
    ensures b == a + 1 ==> b * unit == a * unit + unit
    ensures b >= a + 2 ==> a * unit + 2 * unit <= b * unit
  {
    var d := b - a;
    Distribute(a, d, unit);
    if d >= 2 {
      Distribute(d - 2, 2, unit);
    }
  }

  lemma CancelUnit(a: int, b: int, unit: nat)
    requires unit >= 1 && a * unit <= b * unit
    ensures a <= b
  {
    if a > b {
      StepUp(b, a, unit);
    }
  }

  lemma DivisionBounds(n: nat, unit: nat)
    requires unit >= 1
    ensures n / unit * unit + n % unit == n && 0 <= n % unit < unit
  {
  }

  lemma QuotientAbove(n: nat, unit: nat, k: int)
    requires unit >= 1 && k * unit <= n
    ensures k <= n / unit
  {
    DivisionBounds(n, unit);
    if k > n / unit {
      StepUp(n / unit, k, unit);
    }
  }

  lemma QuotientBelow(n: nat, unit: nat, k: int)
    requires unit >= 1 && n < k * unit
    ensures n / unit < k
  {
    DivisionBounds(n, unit);
    if k < n / unit {
      StepUp(k, n / unit, unit);
    }
  }

  // ---------- one rounding ----------

  lemma RoundHalfEvenIsNearest(n: nat, unit: nat)
    requires unit >= 1
    ensures NearestTiesEven(RoundHalfEven(n, unit), n, unit)
  {
    DivisionBounds(n, unit);
    StepUp(n / unit, n / unit + 1, unit);
  }

  /** Rounding to even keeps order. */
  lemma NearestIsMonotone(r: int, s: int, n: int, m: int, unit: int)
    requires unit >= 1 && NearestTiesEven(r, n, unit) && NearestTiesEven(s, m, unit) && n <= m
    ensures r <= s
  {
    if s < r {
      StepUp(s, r, unit);
    }
  }

  lemma NearestIsUnique(r: int, s: int, n: int, unit: int)
    requires unit >= 1 && NearestTiesEven(r, n, unit) && NearestTiesEven(s, n, unit)
    ensures r == s
  {
    NearestIsMonotone(r, s, n, n, unit);
    NearestIsMonotone(s, r, n, n, unit);
  }
}
