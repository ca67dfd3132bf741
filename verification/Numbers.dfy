/** Powers of ten, for decimal numbers, and numbers no set holds, for fresh ids. */
module Numbers {

  function Pow10(n: nat): (r: nat)
    ensures r >= 1
  {
    if n == 0 then 1 else 10 * Pow10(n - 1)
  }

  lemma {:induction false} Pow10Grows(a: nat, b: nat)
    requires a <= b
    ensures Pow10(a) <= Pow10(b)
    decreases b
  {
    if a < b {
      Pow10Grows(a, b - 1);
    }
  }

  lemma {:induction false} Pow10Add(a: nat, b: nat)
    ensures Pow10(a + b) == Pow10(a) * Pow10(b)
  {
    if a > 0 {
      Pow10Add(a - 1, b);
      assert Pow10(a) * Pow10(b) == 10 * (Pow10(a - 1) * Pow10(b));
    }
  }

  lemma {:induction false} AboveAll(used: set<nat>) returns (x: nat)
    ensures x !in used && forall y :: y in used ==> y < x
    decreases |used|
  {
    x := 0;
    if used != {} {
      var y :| y in used;
      var rest := AboveAll(used - {y});
      assert forall z :: z in used ==> z == y || z in used - {y};
      x := if rest <= y then y + 1 else rest;
    }
  }
}
