/** What decimal text looks like: the one text a value is shown as, and why a text is refused. */
module DecimalForms {
  import opened MatchingTypes
  import opened Decimal

  // ------------------------------------------------------------------ the one text of a value

  /** No leading zero but in "0"; at least the minimum width; past it, no trailing zero. */
  predicate Canonical(whole: string, fraction: string, minFraction: nat) {
    && AllDigits(whole) && AllDigits(fraction) && whole != "" && (whole[0] == '0' ==> whole == "0")
    && |fraction| >= minFraction && (|fraction| > minFraction ==> fraction[|fraction| - 1] != '0')
  }

  function Text(negative: bool, whole: string, fraction: string): string {
    (if negative then "-" else "") + whole + (if |fraction| > 0 then "." + fraction else "")
  }

  function Size(value: int): nat { if value < 0 then -value else value }

  /** The digits spell `size / 10^decimals`. */
  ghost predicate Spells(whole: string, fraction: string, size: nat, decimals: nat) {
    && AllDigits(whole + fraction)
    && Spelled(whole + fraction) * Pow10(decimals) == size * Pow10(|fraction|)
  }

  lemma {:induction false} NoLeadingZero(n: nat)
    ensures Digits(n) != "" && (Digits(n)[0] == '0' ==> Digits(n) == "0")
  {
    if n < 10 {
    } else {
      NoLeadingZero(n / 10);
      DigitsSpell(n / 10);
      assert Digits(n)[0] == Digits(n / 10)[0];
    }
  }

  lemma {:induction false} StripEnds(s: string)
    ensures Strip(s) != "" ==> Strip(s)[|Strip(s)| - 1] != '0'
  {
    if s != "" && s[|s| - 1] == '0' { StripEnds(s[..|s| - 1]); }
  }

  lemma WholePart(n: nat, decimals: nat)
    ensures var digits := PadStart(Digits(n), decimals + 1);
      && AllDigits(digits) && |digits| > decimals
      && var whole := digits[..|digits| - decimals]; whole != "" && (whole[0] == '0' ==> whole == "0")
  {
    DigitsSpell(n);
    NoLeadingZero(n);
    PadStartSpells(Digits(n), decimals + 1);
    hide Digits, Spelled;
    var digits := PadStart(Digits(n), decimals + 1);
    var whole := digits[..|digits| - decimals];
    if |Digits(n)| < decimals + 1 {
      assert |whole| == 1;
    } else {
      assert digits == Digits(n) && whole[0] == Digits(n)[0];
    }
  }

  /** Every value is shown in canonical form, and the digits shown spell it. */
  lemma {:induction false} FormatIsCanonical(value: int, decimals: nat, minFraction: nat)
    returns (whole: string, fraction: string)
    ensures FormatDecimal(value, decimals, minFraction) == Text(value < 0, whole, fraction)
    ensures Canonical(whole, fraction, minFraction) && Spells(whole, fraction, Size(value), decimals)
  {
    hide Digits, Spelled, Strip, Pow10, PadStart, PadEnd;
    var digits := PadStart(Digits(Size(value)), decimals + 1);
    DigitsSpell(Size(value));
    PadStartSpells(Digits(Size(value)), decimals + 1);
    WholePart(Size(value), decimals);
    whole := digits[..|digits| - decimals];
    var full := digits[|digits| - decimals..];
    assert digits == whole + full;
    FractionKeepsValue(whole, full, minFraction);
    fraction := PadEnd(Strip(full), minFraction);
    FractionPart(full, minFraction);
  }

  lemma FractionPart(full: string, minFraction: nat)
    ensures var fraction := PadEnd(Strip(full), minFraction);
      |fraction| >= minFraction && (|fraction| > minFraction ==> fraction[|fraction| - 1] != '0')
  {
    StripEnds(full);
    hide Strip;
  }

  // ------------------------------------------------------------------ and no other

  lemma {:induction false} SameDigits(a: string, b: string)
    requires AllDigits(a) && AllDigits(b) && |a| == |b| && Spelled(a) == Spelled(b)
    ensures a == b
  {
    if a == "" {
    } else {
      var n := |a| - 1;
      SameDigits(a[..n], b[..n]);
      assert DigitOf(a[n]) == DigitOf(b[n]);
      assert a == a[..n] + [a[n]] && b == b[..n] + [b[n]];
    }
  }

  lemma {:induction false} WholeIsDigits(w: string)
    requires AllDigits(w) && w != "" && (w[0] == '0' ==> w == "0")
    ensures Digits(Spelled(w)) == w
    ensures w[0] != '0' ==> Spelled(w) > 0
  {
    var n := |w| - 1;
    assert w == w[..n] + [w[n]];
    if n == 0 {
      assert Spelled(w[..0]) == 0;
    } else {
      assert w[..n][0] == w[0];
      WholeIsDigits(w[..n]);
    }
  }

  lemma SplitUnique(w: nat, f: nat, v: nat, g: nat, p: nat)
    requires f < p && g < p && w * p + f == v * p + g
    ensures w == v && f == g
  {
    assert (w - v) * p == g - f && (v - w) * p == f - g;
    if w > v { MulAtLeast(w - v, p); assert false; }
    if w < v { MulAtLeast(v - w, p); assert false; }
  }

  /** Two canonical forms of one number are the same form. */
  lemma CanonicalUnique(w: string, f: string, v: string, g: string, minFraction: nat)
    requires Canonical(w, f, minFraction) && Canonical(v, g, minFraction)
    requires Spelled(w + f) * Pow10(|g|) == Spelled(v + g) * Pow10(|f|)
    ensures w == v && f == g
  {
    if |f| > |g| {
      NoTrailing(w, f, v, g);
      assert false;
    } else if |g| > |f| {
      NoTrailing(v, g, w, f);
      assert false;
    }
    SpelledAppend(w, f);
    SpelledAppend(v, g);
    SpelledBounds(f);
    SpelledBounds(g);
    MulCancel(Spelled(w + f), Spelled(v + g), Pow10(|f|));
    SplitUnique(Spelled(w), Spelled(f), Spelled(v), Spelled(g), Pow10(|f|));
    SameDigits(f, g);
    WholeIsDigits(w);
    WholeIsDigits(v);
  }

  /** A longer fraction of the same number ends in a zero. */
  lemma NoTrailing(w: string, f: string, v: string, g: string)
    requires AllDigits(w) && AllDigits(f) && AllDigits(v) && AllDigits(g) && |f| > |g|
    requires Spelled(w + f) * Pow10(|g|) == Spelled(v + g) * Pow10(|f|)
    ensures f[|f| - 1] == '0'
  {
    hide Pow10, Spelled;
    PowAdd(|f| - |g|, |g|);
    TenDivides(|f| - |g|);
    EndsInZero(Spelled(w + f), Spelled(v + g), Pow10(|f| - |g|), Pow10(|g|));
    LastDigit(w + f);
    EndsAsFraction(w, f);
  }

  lemma EndsAsFraction(w: string, f: string)
    requires f != ""
    ensures (w + f)[|w + f| - 1] == f[|f| - 1]
  {
  }

  lemma LastDigit(s: string)
    requires AllDigits(s) && s != ""
    ensures Spelled(s) % 10 == 0 <==> s[|s| - 1] == '0'
  {
  }

  lemma TenDivides(k: nat)
    requires k > 0
    ensures Pow10(k) % 10 == 0
  {
  }

  lemma EndsInZero(s: nat, t: nat, p: nat, q: nat)
    requires p % 10 == 0 && q > 0 && s * q == t * (p * q)
    ensures s % 10 == 0
  {
    assert t * (p * q) == (t * p) * q;
    MulCancel(s, t * p, q);
    assert t * p == 10 * (t * (p / 10));
  }

  lemma SameNumber(s: nat, f: nat, t: nat, g: nat, d: nat, size: nat)
    requires d > 0 && s * d == size * f && t * d == size * g
    ensures s * g == t * f
  {
    assert (s * g) * d == (s * d) * g == size * f * g;
    assert (t * f) * d == (t * d) * f == size * g * f;
    assert size * f * g == size * g * f;
    MulCancel(s * g, t * f, d);
  }

  /** A text is what a value is shown as if and only if it is in canonical form, with the value's sign, and its
      digits spell the value. */
  lemma {:induction false} FormatExactly(value: int, decimals: nat, minFraction: nat, text: string)
    ensures text == FormatDecimal(value, decimals, minFraction)
       <==> exists whole, fraction :: && Canonical(whole, fraction, minFraction)
                                      && text == Text(value < 0, whole, fraction)
                                      && Spells(whole, fraction, Size(value), decimals)
  {
    hide Canonical, FormatDecimal, Text, Spells;
    var w, f := FormatIsCanonical(value, decimals, minFraction);
    forall v, g | Canonical(v, g, minFraction) && Spells(v, g, Size(value), decimals) ensures v == w && g == f {
      OneForm(v, g, w, f, Size(value), decimals, minFraction);
    }
  }

  lemma OneForm(v: string, g: string, w: string, f: string, size: nat, decimals: nat, minFraction: nat)
    requires Canonical(v, g, minFraction) && Spells(v, g, size, decimals)
    requires Canonical(w, f, minFraction) && Spells(w, f, size, decimals)
    ensures v == w && g == f
  {
    hide Pow10, Spelled;
    SameNumber(Spelled(v + g), Pow10(|g|), Spelled(w + f), Pow10(|f|), Pow10(decimals), size);
    CanonicalUnique(v, g, w, f, minFraction);
  }

  // ------------------------------------------------------------------ why a text is refused

  predicate Blank(s: string) { forall i :: 0 <= i < |s| ==> IsSpace(s[i]) }

  /** Trimming takes off the surrounding spaces, all of them and nothing else. */
  lemma {:induction false} TrimExactly(s: string) returns (before: string, after: string)
    ensures s == before + Trim(s) + after && Blank(before) && Blank(after)
    ensures Trim(s) != "" ==> !IsSpace(Trim(s)[0]) && !IsSpace(Trim(s)[|Trim(s)| - 1])
    ensures Trim(s) == "" <==> Blank(s)
  {
    before := TrimsStart(s);
    after := TrimsEnd(TrimStart(s));
    hide TrimStart, TrimEnd, IsSpace;
    var t := TrimStart(s);
    if Trim(s) != "" {
      assert Trim(s)[0] == t[0] == s[|before|];
      assert IsSpace(s[|before|]) == IsSpace(Trim(s)[0]);
    }
  }

  lemma {:induction false} TrimsStart(s: string) returns (before: string)
    ensures s == before + TrimStart(s) && Blank(before)
    ensures TrimStart(s) != "" ==> !IsSpace(TrimStart(s)[0])
  {
    hide IsSpace;
    before := "";
    if s != "" && IsSpace(s[0]) {
      var rest := TrimsStart(s[1..]);
      before := [s[0]] + rest;
      assert s == [s[0]] + s[1..];
    }
  }

  lemma {:induction false} TrimsEnd(s: string) returns (after: string)
    ensures s == TrimEnd(s) + after && Blank(after)
    ensures TrimEnd(s) != "" ==> !IsSpace(TrimEnd(s)[|TrimEnd(s)| - 1])
  {
    hide IsSpace;
    after := "";
    if s != "" && IsSpace(s[|s| - 1]) {
      var rest := TrimsEnd(s[..|s| - 1]);
      after := rest + [s[|s| - 1]];
      assert s == s[..|s| - 1] + [s[|s| - 1]];
    }
  }

  /** The grammar: digits; digits, a point and perhaps more digits; or a point and digits. */
  predicate IsNumeral(text: string, p: Parts) {
    && AllDigits(p.whole) && AllDigits(p.fraction)
    && (|| (p.whole != "" && (text == p.whole + "." + p.fraction || (p.fraction == "" && text == p.whole)))
        || (p.whole == "0" && p.fraction != "" && text == "." + p.fraction))
  }

  lemma {:induction false} GrammarExactly(text: string, p: Parts)
    ensures Matched(text) == Some(p) <==> IsNumeral(text, p)
  {
    var i := PointAt(text);
    assert text == text[..i] + text[i..];
    if i < |text| { assert text[i..] == "." + text[i + 1..]; }
    if IsNumeral(text, p) {
      var w := if text[0] == '.' then "" else p.whole;
      assert text[..|w|] == w;
      PointAfterDigits(text, w);
      assert text[..i] == w;
    }
  }

  lemma PointAfterDigits(text: string, w: string)
    requires AllDigits(w) && |w| <= |text| && text[..|w|] == w && (|w| < |text| ==> text[|w|] == '.')
    ensures PointAt(text) == |w|
  {
    assert forall j :: 0 <= j < |w| ==> text[j] == w[j];
  }

  /** Each refusal says what it should: nothing there; not a number; a number finer than the scale can hold; or a
      number held exactly but beyond u64. */
  lemma {:induction false} RefusalExactly(input: string, decimals: nat)
    ensures ParseDecimal(input, decimals) == Empty <==> Blank(input)
    ensures ParseDecimal(input, decimals) == Malformed <==> !Blank(input) && forall p :: !IsNumeral(Trim(input), p)
    ensures ParseDecimal(input, decimals) == TooPrecise
       <==> (exists p :: IsNumeral(Trim(input), p)) && forall value: nat :: !Denotes(input, decimals, value)
    ensures ParseDecimal(input, decimals) == TooLarge
       <==> exists value: nat :: Denotes(input, decimals, value) && value > MAX_U64
  {
    var before, after := TrimExactly(input);
    var parts := Matched(Trim(input));
    forall p ensures parts == Some(p) <==> IsNumeral(Trim(input), p) { GrammarExactly(Trim(input), p); }
    hide Trim, Matched, IsNumeral, Blank;
    if parts.Some? { WhatIsDenoted(input, decimals); }
  }

  lemma WhatIsDenoted(input: string, decimals: nat)
    requires Trim(input) != "" && Matched(Trim(input)).Some?
    ensures ParseDecimal(input, decimals) == TooPrecise <==> forall value: nat :: !Denotes(input, decimals, value)
    ensures ParseDecimal(input, decimals) == TooLarge
       <==> exists value: nat :: Denotes(input, decimals, value) && value > MAX_U64
    ensures ParseDecimal(input, decimals) != Empty && ParseDecimal(input, decimals) != Malformed
  {
    hide Trim, Matched;
    var Parts(whole, fraction) := Matched(Trim(input)).value;
    if |fraction| <= decimals {
      forall value ensures Denotes(input, decimals, value)
                      <==> value == Spelled(whole + PadEnd(fraction, decimals)) {
        ShortFraction(whole, fraction, decimals, value);
      }
      assert fraction[..Min(decimals, |fraction|)] == fraction;
      assert Denotes(input, decimals, Spelled(whole + PadEnd(fraction, decimals)));
    } else {
      var kept, excess := fraction[..decimals], fraction[decimals..];
      assert fraction == kept + excess;
      var zeros := forall i :: 0 <= i < |excess| ==> excess[i] == '0';
      forall value ensures Denotes(input, decimals, value) <==> value == Spelled(whole + kept) && zeros {
        LongFraction(whole, kept, excess, decimals, value);
      }
      assert zeros ==> Denotes(input, decimals, Spelled(whole + kept));
      assert PadEnd(kept, decimals) == kept;
    }
  }
}
