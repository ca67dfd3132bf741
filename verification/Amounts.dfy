/** The text of an amount and its worth in cents: customer/lib/format/parse-amount.ts. */
module Amounts {
  import opened Wrappers
  import opened Fields
  import opened Numbers

  // ---------- text ----------

  /** The white space and line ends that trim removes. */
  predicate IsSpace(c: char) {
    c in {'\t', '\n', '\r', ' '} || c in {'\U{B}', '\U{C}', '\U{A0}', '\U{1680}', '\U{2028}', '\U{2029}', '\U{202F}'}
    || '\U{2000}' <= c <= '\U{200A}' || c in {'\U{205F}', '\U{3000}', '\U{FEFF}'}
  }

  function Trim(s: string): string
    decreases |s|
  {
    if s == "" then ""
    else if IsSpace(s[0]) then Trim(s[1..])
    else if IsSpace(s[|s| - 1]) then Trim(s[..|s| - 1])
    else s
  }

  /** Digits, and possibly a point and one or two more digits. */
  predicate Matches(s: string) {
    && Whole(s) != "" && AllDigits(Whole(s))
    && AllDigits(Fraction(s)) && |Fraction(s)| <= 2 && (HasPoint(s) ==> Fraction(s) != "")
  }

  predicate AllSpace(s: string) {
    forall i :: 0 <= i < |s| ==> IsSpace(s[i])
  }

  /** The text is its trimmed form between two stretches of white space. */
  predicate Trims(s: string, before: string, after: string) {
    s == before + Trim(s) + after && AllSpace(before) && AllSpace(after)
  }

  lemma TrimsFront(s: string, before: string, after: string)
    requires s != "" && IsSpace(s[0]) && Trims(s[1..], before, after)
    ensures Trims(s, [s[0]] + before, after)
  {
    assert [s[0]] + before + Trim(s) + after == [s[0]] + (before + Trim(s) + after) == s;
  }

  lemma TrimsBack(s: string, before: string, after: string)
    requires s != "" && !IsSpace(s[0]) && IsSpace(s[|s| - 1]) && Trims(s[..|s| - 1], before, after)
    ensures Trims(s, before, after + [s[|s| - 1]])
  {
    assert before + Trim(s) + (after + [s[|s| - 1]]) == s[..|s| - 1] + [s[|s| - 1]] == s;
  }

  /** Trimming takes nothing but white space off the ends. */
  lemma {:induction false} TrimSplits(s: string) returns (before: string, after: string)
    ensures Trims(s, before, after)
    decreases |s|
  {
    before, after := "", "";
    if s != "" {
      if IsSpace(s[0]) {
        before, after := TrimSplits(s[1..]);
        TrimsFront(s, before, after);
        before := [s[0]] + before;
      } else if IsSpace(s[|s| - 1]) {
        before, after := TrimSplits(s[..|s| - 1]);
        TrimsBack(s, before, after);
        after := after + [s[|s| - 1]];
      }
    }
  }

  /** A text in parts: some digits, alone or followed by a point and one or two more. */
  predicate IsAmount(s: string, whole: string, fraction: string) {
    && whole != "" && AllDigits(whole) && AllDigits(fraction) && |fraction| <= 2
    && s == if fraction == "" then whole else whole + "." + fraction
  }

  lemma MatchesIff(s: string)
    ensures Matches(s) <==> exists whole, fraction :: IsAmount(s, whole, fraction)
  {
    if Matches(s) {
      assert HasPoint(s) ==> s == Whole(s) + "." + Fraction(s);
      PointOfMember(s);
      assert IsAmount(s, Whole(s), Fraction(s));
    }
    if whole, fraction :| IsAmount(s, whole, fraction) {
      PartsOfJoin(whole, fraction);
      PointOfDigits(whole);
      PointOfMember(whole);
    }
  }

  // ---------- numbers ----------

  function DigitValue(c: char): nat
    requires IsDigit(c)
  {
    c as int - '0' as int
  }

  function NatOf(s: string): nat
    requires AllDigits(s)
  {
    if s == "" then 0 else 10 * NatOf(s[..|s| - 1]) + DigitValue(s[|s| - 1])
  }

  function PadToTwo(s: string): string {
    if |s| == 0 then "00" else if |s| == 1 then s + "0" else s
  }

  /** Cents, or None where the code returns NaN. */
  function ParseAmount(input: string): Option<nat> {
    var trimmed := Trim(input);
    if !Matches(trimmed) then None else
    var minor := NatOf(Whole(trimmed)) * 100 + NatOf(PadToTwo(Fraction(trimmed)));
    if minor > 0 then Some(minor) else None
  }

  /** What the text says, read as a decimal number. */
  function Worth(s: string): real
    requires AllDigits(Whole(s)) && AllDigits(Fraction(s))
  {
    NatOf(Whole(s)) as real + NatOf(Fraction(s)) as real / Pow10(|Fraction(s)|) as real
  }

  lemma SmallPowers()
    ensures Pow10(0) == 1 && Pow10(1) == 10 && Pow10(2) == 100 && Pow10(9) == 1_000_000_000
  {
    assert Pow10(3) == 1000;
    assert Pow10(6) == 1000 * Pow10(3);
  }

  lemma PaddedReads(f: string)
    requires AllDigits(f) && |f| <= 2
    ensures AllDigits(PadToTwo(f))
    ensures NatOf(PadToTwo(f)) == if |f| == 0 then 0 else if |f| == 1 then 10 * NatOf(f) else NatOf(f)
  {
    if |f| == 0 {
      assert "00"[..1] == "0" && "0"[..0] == "";
    } else if |f| == 1 {
      assert (f + "0")[..1] == f;
    }
  }

  /** n / 10^k in hundredths, for the k the parser admits. */
  lemma Hundredths(n: nat, k: nat)
    requires k <= 2
    ensures 100.0 * (n as real / Pow10(k) as real) == (if k == 0 then 100 * n else if k == 1 then 10 * n else n) as real
  {
    SmallPowers();
  }

  lemma PaddedIsHundredths(f: string)
    requires AllDigits(f) && |f| <= 2
    ensures AllDigits(PadToTwo(f))
    ensures NatOf(PadToTwo(f)) as real == 100.0 * (NatOf(f) as real / Pow10(|f|) as real)
  {
    PaddedReads(f);
    Hundredths(NatOf(f), |f|);
    assert |f| == 0 ==> NatOf(f) == 0;
  }

  /** The parser accepts exactly the positive amounts of the form it matches, and is exact: it
    * answers a hundred times what the text is worth. */
  lemma ParseIsExact(input: string)
    ensures var s := Trim(input);
            && (ParseAmount(input).Some? <==> Matches(s) && Worth(s) > 0.0)
            && (ParseAmount(input).Some? ==> ParseAmount(input).value as real == 100.0 * Worth(s))
  {
    var s := Trim(input);
    if Matches(s) {
      PaddedIsHundredths(Fraction(s));
    }
  }

  lemma {:induction false} NatOfIsBounded(s: string)
    requires AllDigits(s)
    ensures NatOf(s) < Pow10(|s|)
    decreases |s|
  {
    if s != "" {
      NatOfIsBounded(s[..|s| - 1]);
    }
  }

  lemma GrammarIsTrimmed(s: string, limits: Limits)
    requires InGrammar(s, limits)
    ensures Trim(s) == s
  {
    if s != "" {
      assert s[0] == Whole(s)[0];
      if HasPoint(s) && Fraction(s) != "" {
        assert s[|s| - 1] == Fraction(s)[|Fraction(s)| - 1];
      } else if !HasPoint(s) {
        assert s[|s| - 1] == Whole(s)[|s| - 1];
      }
    }
  }

  /** On what an amount field holds the parser is defined exactly when the text ends in a digit and
    * is not zero; its answer is exact and far below 2^53, where the code's numbers are exact too. */
  lemma FieldsParse(raw: string)
    ensures var s := Sanitize(raw, AMOUNT);
            && AllDigits(Whole(s)) && AllDigits(Fraction(s))
            && (ParseAmount(s).Some? <==> s != "" && IsDigit(s[|s| - 1]) && Worth(s) > 0.0)
            && (ParseAmount(s).Some? ==>
                  && ParseAmount(s).value as real == 100.0 * Worth(s)
                  && ParseAmount(s).value < 100_000_000_000)
  {
    var s := Sanitize(raw, AMOUNT);
    SanitizedIsInGrammar(raw, AMOUNT);
    GrammarIsTrimmed(s, AMOUNT);
    ParseIsExact(s);
    FieldMatches(s);
    NatOfIsBounded(Whole(s));
    if Matches(s) {
      PaddedIsHundredths(Fraction(s));
      NatOfIsBounded(PadToTwo(Fraction(s)));
      Pow10Grows(|Whole(s)|, 9);
      SmallPowers();
    }
  }

  lemma FieldMatches(s: string)
    requires InGrammar(s, AMOUNT)
    ensures Matches(s) <==> s != "" && IsDigit(s[|s| - 1])
  {
    if s != "" {
      if HasPoint(s) && Fraction(s) != "" {
        assert s[|s| - 1] == Fraction(s)[|Fraction(s)| - 1];
      } else if !HasPoint(s) {
        assert s[|s| - 1] == Whole(s)[|s| - 1];
      }
    }
  }

  // ---------- printing ----------

  function Digit(d: nat): (c: char)
    requires d < 10
    ensures IsDigit(c) && DigitValue(c) == d
  {
    "0123456789"[d]
  }

  function PrintNat(n: nat): string {
    if n < 10 then [Digit(n)] else PrintNat(n / 10) + [Digit(n % 10)]
  }

  /** An amount with two decimals, as the quick amounts are filled in. */
  function PrintCents(n: nat): string {
    PrintNat(n / 100) + "." + [Digit(n / 10 % 10), Digit(n % 10)]
  }

  lemma {:induction false} PrintNatReads(n: nat)
    ensures var s := PrintNat(n);
            && s != "" && AllDigits(s) && NatOf(s) == n
            && (|s| > 1 ==> s[0] != '0') && (|s| == 1 <==> n < 10)
            && Pow10(|s| - 1) <= if n == 0 then 1 else n
  {
    var s := PrintNat(n);
    if n < 10 {
      assert s[..0] == "";
    } else {
      PrintNatReads(n / 10);
      assert s[..|s| - 1] == PrintNat(n / 10);
      if |PrintNat(n / 10)| == 1 {
        assert PrintNat(n / 10) == [Digit(n / 10)];
        assert Digit(n / 10) != '0';
      }
    }
  }

  lemma TwoDecimals(whole: string, a: char, b: char)
    requires AllDigits(whole) && IsDigit(a) && IsDigit(b)
    ensures var s := whole + "." + [a, b];
            Point(s) == |whole| && HasPoint(s) && Whole(s) == whole && Fraction(s) == [a, b]
  {
    PointOfDigits(whole);
    PointOfExtension(whole, '.');
    PointOfExtension(whole + ".", a);
    PointOfExtension(whole + "." + [a], b);
    assert whole + "." + [a, b] == whole + "." + [a] + [b];
  }

  lemma PrintCentsParts(n: nat)
    ensures var s := PrintCents(n);
            && Point(s) == |PrintNat(n / 100)| && HasPoint(s) && Whole(s) == PrintNat(n / 100)
            && Fraction(s) == [Digit(n / 10 % 10), Digit(n % 10)]
  {
    PrintNatReads(n / 100);
    TwoDecimals(PrintNat(n / 100), Digit(n / 10 % 10), Digit(n % 10));
  }

  lemma PrintedIsTrimmed(n: nat)
    ensures Trim(PrintCents(n)) == PrintCents(n)
  {
    var s := PrintCents(n);
    PrintNatReads(n / 100);
    PrintCentsParts(n);
    assert s[0] == PrintNat(n / 100)[0] && s[|s| - 1] == Digit(n % 10);
  }

  lemma LastTwoDigits(n: nat)
    ensures n % 100 == 10 * (n / 10 % 10) + n % 10
    ensures n == 100 * (n / 100) + n % 100
  {
  }

  lemma TwoDigitsRead(a: char, b: char)
    requires IsDigit(a) && IsDigit(b)
    ensures NatOf([a, b]) == 10 * DigitValue(a) + DigitValue(b)
  {
    assert [a, b][..1] == [a] && [a][..0] == "";
    assert NatOf([a]) == DigitValue(a);
  }

  /** Printing then parsing gives the amount back; zero is not an amount. */
  lemma PrintedAmountsParse(n: nat)
    ensures ParseAmount(PrintCents(n)) == if n == 0 then None else Some(n)
  {
    PrintNatReads(n / 100);
    PrintCentsParts(n);
    PrintedIsTrimmed(n);
    TwoDigitsRead(Digit(n / 10 % 10), Digit(n % 10));
    LastTwoDigits(n);
    assert Matches(PrintCents(n));
  }

  /** Up to the field's limit a printed amount is left as it is by the field. */
  lemma PrintedAmountsAreKept(n: nat)
    requires n < 100_000_000_000
    ensures Sanitize(PrintCents(n), AMOUNT) == PrintCents(n)
  {
    PrintNatReads(n / 100);
    PrintCentsParts(n);
    SmallPowers();
    var whole := PrintNat(n / 100);
    if |whole| > 9 {
      Pow10Grows(9, |whole| - 1);
    }
    GrammarIsFixed(PrintCents(n), AMOUNT);
  }
}
