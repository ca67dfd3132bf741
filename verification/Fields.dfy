/** Number fields: what a keystroke may leave in one, and what the finished text is worth.
  *
  * customer/lib/format/sanitize-number.ts filters a field's text on every change;
  * customer/lib/format/parse-amount.ts turns the text into whole cents.
  */
module Fields {

  datatype Limits = Limits(maxWhole: nat, maxDecimals: nat)

  const AMOUNT := Limits(9, 2)

  predicate IsDigit(c: char) {
    '0' <= c <= '9'
  }

  predicate AllDigits(s: string) {
    forall i :: 0 <= i < |s| ==> IsDigit(s[i])
  }

  /** Where the first point is, or the length if there is none. */
  function Point(s: string): (p: nat)
    ensures p <= |s| && (p < |s| ==> s[p] == '.') && forall i :: 0 <= i < p ==> s[i] != '.'
  {
    if s == "" then 0 else
    var last := |s| - 1;
    var p := Point(s[..last]);
    if p == last && s[last] != '.' then |s| else p
  }

  predicate HasPoint(s: string) {
    Point(s) < |s|
  }

  function Whole(s: string): string {
    s[..Point(s)]
  }

  function Fraction(s: string): string {
    if HasPoint(s) then s[Point(s) + 1..] else ""
  }

  // ---------- sanitizeDecimal ----------

  /** The field's text after one more character. */
  function Feed(text: string, c: char, limits: Limits): string {
    if c == '.' then
      if limits.maxDecimals == 0 || HasPoint(text) then text
      else if text == "" then "0."
      else text + "."
    else if !IsDigit(c) then text
    else if HasPoint(text) then
      if |Fraction(text)| >= limits.maxDecimals then text else text + [c]
    else if text == "0" then [c]
    else if |text| < limits.maxWhole then text + [c]
    else text
  }

  function Sanitize(raw: string, limits: Limits): string {
    if raw == "" then "" else Feed(Sanitize(raw[..|raw| - 1], limits), raw[|raw| - 1], limits)
  }

  method SanitizeDecimal(raw: string, limits: Limits) returns (text: string)
    ensures text == Sanitize(raw, limits)
  {
    text := "";
    for k := 0 to |raw|
      invariant text == Sanitize(raw[..k], limits)
    {
      assert raw[..k + 1][..k] == raw[..k];
      var c := raw[k];
      if c == '.' {
        if limits.maxDecimals == 0 || '.' in text {
          PointOfMember(text);
          continue;
        }
        PointOfMember(text);
        text := if text == "" then "0." else text + ".";
        continue;
      }
      if c < '0' || c > '9' {
        continue;
      }
      PointOfMember(text);
      var whole, fraction := Whole(text), Fraction(text);
      if '.' in text {
        if |fraction| >= limits.maxDecimals {
          continue;
        }
        text := text + [c];
      } else if whole == "0" {
        text := if c == '0' then "0" else [c];
      } else if |whole| < limits.maxWhole {
        text := text + [c];
      }
    }
    assert raw[..|raw|] == raw;
  }

  lemma PointOfMember(s: string)
    ensures '.' in s <==> HasPoint(s)
    ensures !HasPoint(s) ==> Whole(s) == s
  {
  }

  /** The texts a field can hold: nothing, or digits without a needless leading zero, and after
    * them possibly a point and some decimals. The whole part is within its limit, but for the
    * zero that is put before a leading point. */
  predicate InGrammar(s: string, limits: Limits) {
    s == "" ||
    var whole, fraction := Whole(s), Fraction(s);
    && AllDigits(whole) && AllDigits(fraction)
    && whole != "" && (|whole| > 1 ==> whole[0] != '0')
    && (|whole| <= limits.maxWhole || (whole == "0" && HasPoint(s)))
    && |fraction| <= limits.maxDecimals && (HasPoint(s) ==> limits.maxDecimals > 0)
  }

  lemma PointOfMore(s: string, c: char)
    ensures Point(s + [c]) == if HasPoint(s) || c == '.' then Point(s) else |s| + 1
  {
    assert (s + [c])[..|s|] == s;
  }

  lemma PointOfExtension(s: string, c: char)
    ensures Point(s + [c]) == if HasPoint(s) || c == '.' then Point(s) else |s| + 1
    ensures Whole(s + [c]) == if HasPoint(s) || c == '.' then Whole(s) else s + [c]
    ensures Fraction(s + [c]) == if HasPoint(s) then Fraction(s) + [c] else ""
  {
    PointOfMore(s, c);
    SlicesOfMore(s, c, Point(s));
  }

  lemma SlicesOfMore(s: string, c: char, p: nat)
    requires p <= |s|
    ensures (s + [c])[..p] == s[..p] && (s + [c])[..|s| + 1] == s + [c]
    ensures p < |s| ==> (s + [c])[p + 1..] == s[p + 1..] + [c]
    ensures p == |s| ==> (s + [c])[p + 1..] == ""
  {
  }

  lemma PointStaysInGrammar(s: string, limits: Limits)
    requires InGrammar(s, limits)
    ensures InGrammar(Feed(s, '.', limits), limits)
  {
    PointOfExtension(s, '.');
    if s == "" {
      assert Point("0.") == 1;
    }
  }

  lemma DigitStaysInGrammar(s: string, c: char, limits: Limits)
    requires InGrammar(s, limits) && IsDigit(c)
    ensures InGrammar(Feed(s, c, limits), limits)
  {
    PointOfExtension(s, c);
    if s == "0" {
      assert Point([c]) == 1;
    }
  }

  lemma FeedStaysInGrammar(s: string, c: char, limits: Limits)
    requires InGrammar(s, limits)
    ensures InGrammar(Feed(s, c, limits), limits)
  {
    if c == '.' {
      PointStaysInGrammar(s, limits);
    } else if IsDigit(c) {
      DigitStaysInGrammar(s, c, limits);
    }
  }

  /** Whatever is typed or pasted, the field holds a text of the grammar. */
  lemma {:induction false} SanitizedIsInGrammar(raw: string, limits: Limits)
    ensures InGrammar(Sanitize(raw, limits), limits)
    decreases |raw|
  {
    if raw != "" {
      SanitizedIsInGrammar(raw[..|raw| - 1], limits);
      FeedStaysInGrammar(Sanitize(raw[..|raw| - 1], limits), raw[|raw| - 1], limits);
    }
  }

  /** Without its last character a text of the grammar is one too, unless it is the point after the
    * zero that only the point brought. */
  lemma GrammarUnfeeds(s: string, limits: Limits)
    requires InGrammar(s, limits) && s != ""
    ensures var rest, c := s[..|s| - 1], s[|s| - 1];
            if limits.maxWhole == 0 && s == "0."
            then Sanitize(rest, limits) == "" && Feed("", c, limits) == s
            else InGrammar(rest, limits) && Feed(rest, c, limits) == s
  {
    var rest, c := s[..|s| - 1], s[|s| - 1];
    assert s == rest + [c];
    PointOfExtension(rest, c);
    if limits.maxWhole == 0 && s == "0." {
      assert rest == "0" && rest[..0] == "";
      assert Sanitize(rest, limits) == Feed(Sanitize("", limits), '0', limits);
    }
  }

  lemma {:induction false} GrammarIsFixed(s: string, limits: Limits)
    requires InGrammar(s, limits)
    ensures Sanitize(s, limits) == s
    decreases |s|
  {
    if s != "" {
      GrammarUnfeeds(s, limits);
      if !(limits.maxWhole == 0 && s == "0.") {
        GrammarIsFixed(s[..|s| - 1], limits);
      }
    }
  }

  /** The texts the filter leaves alone are exactly those of the grammar. */
  lemma FixedExactlyOnGrammar(s: string, limits: Limits)
    ensures Sanitize(s, limits) == s <==> InGrammar(s, limits)
  {
    SanitizedIsInGrammar(s, limits);
    if InGrammar(s, limits) {
      GrammarIsFixed(s, limits);
    }
  }

  /** The limit on the whole part is kept on every input exactly when it admits the zero before a
    * leading point, or when there is never a point. */
  lemma WholeLimitIsKeptIff(limits: Limits)
    ensures (forall raw :: |Whole(Sanitize(raw, limits))| <= limits.maxWhole)
       <==> limits.maxWhole >= 1 || limits.maxDecimals == 0
  {
    if limits.maxWhole >= 1 || limits.maxDecimals == 0 {
      forall raw
        ensures |Whole(Sanitize(raw, limits))| <= limits.maxWhole
      {
        SanitizedIsInGrammar(raw, limits);
      }
    } else {
      assert "."[..0] == "";
      assert Sanitize(".", limits) == Feed(Sanitize("", limits), '.', limits) == "0.";
      assert Point("0.") == 1;
      assert |Whole(Sanitize(".", limits))| > limits.maxWhole;
    }
  }

  /** The field after its keys are struck one by one: each change filters the whole text again. */
  function Typed(keys: string, limits: Limits): string {
    if keys == "" then "" else Sanitize(Typed(keys[..|keys| - 1], limits) + [keys[|keys| - 1]], limits)
  }

  /** Typing key by key leaves what pasting the whole would. */
  lemma {:induction false} TypingIsPasting(keys: string, limits: Limits)
    ensures Typed(keys, limits) == Sanitize(keys, limits)
    decreases |keys|
  {
    if keys != "" {
      var rest, c := keys[..|keys| - 1], keys[|keys| - 1];
      TypingIsPasting(rest, limits);
      var text := Sanitize(rest, limits);
      SanitizedIsInGrammar(rest, limits);
      GrammarIsFixed(text, limits);
      assert (text + [c])[..|text|] == text;
    }
  }

  /** withSanitizer: the element's value is replaced before the form reads it. */
  class InputElement {
    var value: string

    constructor (value: string)
      ensures this.value == value
    {
      this.value := value;
    }

    method OnChange(limits: Limits) returns (read: string)
      modifies this
      ensures value == Sanitize(old(value), limits) && read == value
      ensures InGrammar(value, limits)
    {
      SanitizedIsInGrammar(value, limits);
      value := SanitizeDecimal(value, limits);
      read := value;
    }
  }

  // ---------- sanitizeDigits ----------

  function OnlyDigits(s: string): string {
    if s == "" then "" else OnlyDigits(s[..|s| - 1]) + if IsDigit(s[|s| - 1]) then [s[|s| - 1]] else ""
  }

  function Capped(s: string, max: nat): string {
    if |s| <= max then s else s[..max]
  }

  function SanitizeDigits(raw: string, max: nat): string {
    Capped(OnlyDigits(raw), max)
  }

  lemma {:induction false} OnlyDigitsOfJoin(a: string, b: string)
    ensures OnlyDigits(a + b) == OnlyDigits(a) + OnlyDigits(b)
    decreases |b|
  {
    if b == "" {
      assert a + b == a;
    } else {
      OnlyDigitsOfJoin(a, b[..|b| - 1]);
      assert (a + b)[..|a + b| - 1] == a + b[..|b| - 1];
    }
  }

  lemma {:induction false} OnlyDigitsOfDigits(s: string)
    requires AllDigits(s)
    ensures OnlyDigits(s) == s
    decreases |s|
  {
    if s != "" {
      OnlyDigitsOfDigits(s[..|s| - 1]);
    }
  }

  lemma {:induction false} OnlyDigitsAreDigits(s: string)
    ensures AllDigits(OnlyDigits(s))
    decreases |s|
  {
    if s != "" {
      OnlyDigitsAreDigits(s[..|s| - 1]);
    }
  }

  lemma CapTwice(d: string, e: string, max: nat)
    ensures Capped(Capped(d, max) + e, max) == Capped(d + e, max)
  {
    if |d| > max {
      assert (d[..max] + e)[..max] == d[..max] == (d + e)[..max];
      assert Capped(d[..max] + e, max) == (d[..max] + e)[..max];
    }
  }

  /** A code field filters the same whether it is filled at once or in pieces. */
  lemma CodesCanBeTyped(a: string, b: string, max: nat)
    ensures SanitizeDigits(SanitizeDigits(a, max) + b, max) == SanitizeDigits(a + b, max)
  {
    OnlyDigitsOfJoin(a, b);
    OnlyDigitsAreDigits(a);
    OnlyDigitsOfJoin(SanitizeDigits(a, max), b);
    OnlyDigitsOfDigits(SanitizeDigits(a, max));
    CapTwice(OnlyDigits(a), OnlyDigits(b), max);
  }

  // ---------- what becomes of a text ----------

  lemma {:induction false} PointOfDigits(s: string)
    requires AllDigits(s)
    ensures Point(s) == |s|
    decreases |s|
  {
    if s != "" {
      PointOfDigits(s[..|s| - 1]);
    }
  }

  /** Without needless zeros in front. */
  function StripZeros(digits: string): string {
    if |digits| > 1 && digits[0] == '0' then StripZeros(digits[1..]) else digits
  }

  function WholePart(digits: string, limits: Limits): string {
    Capped(StripZeros(digits), limits.maxWhole)
  }

  /** What a field makes of a text, at one look: of its digits before the first point, without needless
    * zeros, and of those after it, as many as the limits admit. Nothing else counts. */
  function Kept(raw: string, limits: Limits): string {
    if limits.maxDecimals == 0 || !HasPoint(raw) then WholePart(OnlyDigits(raw), limits) else
    var whole := WholePart(OnlyDigits(Whole(raw)), limits);
    (if whole == "" then "0" else whole) + "." + Capped(OnlyDigits(Fraction(raw)), limits.maxDecimals)
  }

  lemma OnlyDigitsOfMore(s: string, c: char)
    ensures OnlyDigits(s + [c]) == if IsDigit(c) then OnlyDigits(s) + [c] else OnlyDigits(s)
  {
    assert (s + [c])[..|s|] == s;
  }

  lemma {:induction false} StripZerosOfMore(digits: string, c: char)
    ensures StripZeros(digits + [c]) == if StripZeros(digits) == "0" then [c] else StripZeros(digits) + [c]
    ensures |StripZeros(digits)| > 1 ==> StripZeros(digits)[0] != '0'
    decreases |digits|
  {
    if |digits| > 1 && digits[0] == '0' {
      StripZerosOfMore(digits[1..], c);
      assert (digits + [c])[1..] == digits[1..] + [c];
    } else if digits == "0" {
      assert ("0" + [c])[1..] == [c];
    }
  }

  lemma CappedMore(s: string, c: char, max: nat)
    ensures Capped(s + [c], max) == if |Capped(s, max)| < max then Capped(s, max) + [c] else Capped(s, max)
  {
    if |s| >= max {
      assert (s + [c])[..max] == s[..max];
    }
  }

  lemma WholePartOfMore(digits: string, c: char, limits: Limits)
    ensures var text := WholePart(digits, limits);
            WholePart(digits + [c], limits)
              == if text == "0" then [c] else if |text| < limits.maxWhole then text + [c] else text
  {
    StripZerosOfMore(digits, c);
    CappedMore(StripZeros(digits), c, limits.maxWhole);
  }

  lemma PartsOfJoin(whole: string, fraction: string)
    requires AllDigits(whole)
    ensures var s := whole + "." + fraction;
            HasPoint(s) && Point(s) == |whole| && Whole(s) == whole && Fraction(s) == fraction
    decreases |fraction|
  {
    if fraction == "" {
      PointOfDigits(whole);
      PointOfExtension(whole, '.');
      assert whole + "." + fraction == whole + ['.'];
    } else {
      var n := |fraction| - 1;
      PartsOfJoin(whole, fraction[..n]);
      PointOfExtension(whole + "." + fraction[..n], fraction[n]);
      assert whole + "." + fraction == whole + "." + fraction[..n] + [fraction[n]];
    }
  }

  lemma {:induction false} StripZerosAreDigits(digits: string)
    requires AllDigits(digits)
    ensures AllDigits(StripZeros(digits))
    decreases |digits|
  {
    if |digits| > 1 && digits[0] == '0' {
      StripZerosAreDigits(digits[1..]);
    }
  }

  lemma WholePartIsDigits(s: string, limits: Limits)
    ensures AllDigits(WholePart(OnlyDigits(s), limits)) && AllDigits(Capped(OnlyDigits(s), limits.maxDecimals))
  {
    OnlyDigitsAreDigits(s);
    StripZerosAreDigits(OnlyDigits(s));
  }

  /** The parts of what is kept of a text with a point. */
  lemma KeptParts(raw: string, limits: Limits)
    requires limits.maxDecimals > 0 && HasPoint(raw)
    ensures var whole := WholePart(OnlyDigits(Whole(raw)), limits);
            && HasPoint(Kept(raw, limits)) && Whole(Kept(raw, limits)) == (if whole == "" then "0" else whole)
            && Fraction(Kept(raw, limits)) == Capped(OnlyDigits(Fraction(raw)), limits.maxDecimals)
  {
    WholePartIsDigits(Whole(raw), limits);
    var whole := WholePart(OnlyDigits(Whole(raw)), limits);
    PartsOfJoin(if whole == "" then "0" else whole, Capped(OnlyDigits(Fraction(raw)), limits.maxDecimals));
  }

  /** One more character, while there is no point that counts. */
  lemma FeedWhole(raw: string, c: char, limits: Limits)
    requires limits.maxDecimals == 0 || (!HasPoint(raw) && c != '.')
    ensures Kept(raw + [c], limits) == Feed(Kept(raw, limits), c, limits)
  {
    PointOfExtension(raw, c);
    OnlyDigitsOfMore(raw, c);
    WholePartIsDigits(raw, limits);
    PointOfDigits(Kept(raw, limits));
    WholePartOfMore(OnlyDigits(raw), c, limits);
  }

  lemma FeedPoint(raw: string, limits: Limits)
    requires limits.maxDecimals > 0 && !HasPoint(raw)
    ensures Kept(raw + ['.'], limits) == Feed(Kept(raw, limits), '.', limits)
  {
    PointOfExtension(raw, '.');
    PointOfMember(raw);
    WholePartIsDigits(raw, limits);
    var whole := Kept(raw, limits);
    PointOfDigits(whole);
    assert Capped(OnlyDigits(""), limits.maxDecimals) == "";
    assert Kept(raw + ['.'], limits) == (if whole == "" then "0" else whole) + "." + "";
  }

  lemma FeedFraction(raw: string, c: char, limits: Limits)
    requires limits.maxDecimals > 0 && HasPoint(raw)
    ensures Kept(raw + [c], limits) == Feed(Kept(raw, limits), c, limits)
  {
    PointOfExtension(raw, c);
    OnlyDigitsOfMore(Fraction(raw), c);
    KeptParts(raw, limits);
    CappedMore(OnlyDigits(Fraction(raw)), c, limits.maxDecimals);
  }

  /** Reading a text character by character makes of it what one look says. */
  lemma {:induction false} SanitizeKeeps(raw: string, limits: Limits)
    ensures Sanitize(raw, limits) == Kept(raw, limits)
    decreases |raw|
  {
    if raw != "" {
      var rest, c := raw[..|raw| - 1], raw[|raw| - 1];
      SanitizeKeeps(rest, limits);
      assert raw == rest + [c];
      if limits.maxDecimals > 0 && HasPoint(rest) {
        FeedFraction(rest, c, limits);
      } else if limits.maxDecimals > 0 && c == '.' {
        FeedPoint(rest, limits);
      } else {
        FeedWhole(rest, c, limits);
      }
    }
  }

  lemma SanitizeOfMore(s: string, c: char, limits: Limits)
    ensures Sanitize(s + [c], limits) == Feed(Sanitize(s, limits), c, limits)
  {
    assert (s + [c])[..|s|] == s;
  }

  /** Only digits and points count: any other character might as well not be there, so that a grouped
    * amount can be pasted. */
  lemma {:induction false} OthersAreDropped(before: string, c: char, after: string, limits: Limits)
    requires !IsDigit(c) && c != '.'
    ensures Sanitize(before + [c] + after, limits) == Sanitize(before + after, limits)
    decreases |after|
  {
    if after == "" {
      SanitizeOfMore(before, c, limits);
      assert before + [c] + after == before + [c] && before + after == before;
    } else {
      var rest, last := after[..|after| - 1], after[|after| - 1];
      OthersAreDropped(before, c, rest, limits);
      SanitizeOfJoin(before + [c], rest, last, limits);
      SanitizeOfJoin(before, rest, last, limits);
      assert after == rest + [last];
    }
  }

  lemma SanitizeOfJoin(s: string, rest: string, last: char, limits: Limits)
    ensures Sanitize(s + (rest + [last]), limits) == Feed(Sanitize(s + rest, limits), last, limits)
  {
    SanitizeOfMore(s + rest, last, limits);
    assert s + (rest + [last]) == s + rest + [last];
  }
}
