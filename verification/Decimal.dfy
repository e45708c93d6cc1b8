/** Human decimals to integers and back, without a float and without rounding. */
module Decimal {
  import opened MatchingTypes

  datatype DecimalParse = Ok(value: nat) | Empty | Malformed | TooPrecise | TooLarge

  // ------------------------------------------------------------------ digits

  function Pow10(n: nat): (p: nat)
    ensures p > 0
  {
    if n == 0 then 1 else 10 * Pow10(n - 1)
  }

  predicate IsDigit(c: char) { '0' <= c <= '9' }

  predicate AllDigits(s: string) { forall i :: 0 <= i < |s| ==> IsDigit(s[i]) }

  function DigitOf(c: char): nat
    requires IsDigit(c)
  {
    c as int - '0' as int
  }

  function CharOf(d: nat): (c: char)
    requires d < 10
    ensures IsDigit(c) && DigitOf(c) == d
  {
    ('0' as int + d) as char
  }

  /** The integer a string of digits spells. */
  function Spelled(s: string): nat
    requires AllDigits(s)
  {
    if s == "" then 0 else 10 * Spelled(s[..|s| - 1]) + DigitOf(s[|s| - 1])
  }

  /** An integer in decimal, without leading zeros. */
  function Digits(n: nat): string {
    if n < 10 then [CharOf(n)] else Digits(n / 10) + [CharOf(n % 10)]
  }

  function Zeros(n: nat): string { seq(n, i => '0') }

  function PadEnd(s: string, width: nat): string { if |s| < width then s + Zeros(width - |s|) else s }
  function PadStart(s: string, width: nat): string { if |s| < width then Zeros(width - |s|) + s else s }

  /** Drop trailing zeros. */
  function Strip(s: string): string {
    if s != "" && s[|s| - 1] == '0' then Strip(s[..|s| - 1]) else s
  }

  // ------------------------------------------------------------------ the pattern

  predicate IsSpace(c: char) {
    var u := c as int;
    9 <= u <= 13 || u == 0x20 || u == 0xA0 || u == 0x1680 || 0x2000 <= u <= 0x200A || u == 0x2028 || u == 0x2029
    || u == 0x202F || u == 0x205F || u == 0x3000 || u == 0xFEFF
  }

  function TrimStart(s: string): string { if s != "" && IsSpace(s[0]) then TrimStart(s[1..]) else s }
  function TrimEnd(s: string): string { if s != "" && IsSpace(s[|s| - 1]) then TrimEnd(s[..|s| - 1]) else s }
  function Trim(s: string): string { TrimEnd(TrimStart(s)) }

  function PointAt(s: string): (i: nat)
    ensures i <= |s| && (i < |s| ==> s[i] == '.') && forall j :: 0 <= j < i ==> s[j] != '.'
  {
    if s == "" || s[0] == '.' then 0 else 1 + PointAt(s[1..])
  }

  datatype Parts = Parts(whole: string, fraction: string)

  /** Digits, optionally a point and more digits; or a point and digits. No sign, no exponent, no separators. */
  function Matched(text: string): (p: Option<Parts>)
    ensures p.Some? ==> AllDigits(p.value.whole) && AllDigits(p.value.fraction) && p.value.whole != ""
  {
    var i := PointAt(text);
    var whole, fraction := text[..i], if i < |text| then text[i + 1..] else "";
    if !AllDigits(whole) || !AllDigits(fraction) then None
    else if whole != "" then Some(Parts(whole, fraction))
    else if fraction != "" then Some(Parts("0", fraction))
    else None
  }

  // ------------------------------------------------------------------ parse and format

  function ParseDecimal(input: string, decimals: nat): DecimalParse {
    var text := Trim(input);
    if text == "" then Empty
    else match Matched(text)
      case None => Malformed
      case Some(Parts(whole, fraction)) =>
        var kept, excess := fraction[..Min(decimals, |fraction|)], fraction[Min(decimals, |fraction|)..];
        if exists i :: 0 <= i < |excess| && excess[i] != '0' then TooPrecise
        else
          var value := Spelled(whole + PadEnd(kept, decimals));
          if value > MAX_U64 then TooLarge else Ok(value)
  }

  /** `150250000` with 6 decimals is `150.25`; trailing zeros stay only up to the minimum width. */
  function FormatDecimal(value: int, decimals: nat, minFraction: nat): string {
    var digits := PadStart(Digits(if value < 0 then -value else value), decimals + 1);
    var cut := |digits| - decimals;
    var fraction := PadEnd(Strip(digits[cut..]), minFraction);
    (if value < 0 then "-" else "") + digits[..cut] + (if |fraction| > 0 then "." + fraction else "")
  }

  /** What a text means: digits with a point is the rational `spelled / 10^|fraction|`. It denotes a
      value when that rational is exactly `value / 10^decimals`. */
  ghost predicate Denotes(input: string, decimals: nat, value: nat) {
    var parts := Matched(Trim(input));
    && parts.Some?
    && Spelled(parts.value.whole + parts.value.fraction) * Pow10(decimals) == value * Pow10(|parts.value.fraction|)
  }

  // ------------------------------------------------------------------ arithmetic of digit strings

  lemma {:induction false} PowAdd(a: nat, b: nat)
    ensures Pow10(a + b) == Pow10(a) * Pow10(b)
  {
    if b == 0 {
    } else {
      PowAdd(a, b - 1);
    }
  }

  lemma {:induction false} SpelledAppend(a: string, b: string)
    requires AllDigits(a) && AllDigits(b)
    ensures AllDigits(a + b) && Spelled(a + b) == Spelled(a) * Pow10(|b|) + Spelled(b)
    decreases |b|
  {
    if b == "" {
      assert a + b == a;
    } else {
      var n := |b| - 1;
      assert (a + b)[..|a + b| - 1] == a + b[..n];
      SpelledAppend(a, b[..n]);
      Shift(Spelled(a), Pow10(n), Spelled(b[..n]), DigitOf(b[n]));
    }
  }

  lemma Shift(x: nat, p: nat, s: nat, d: nat)
    ensures 10 * (x * p + s) + d == x * (10 * p) + (10 * s + d)
  {
  }

  lemma {:induction false} SpelledZeros(n: nat)
    ensures AllDigits(Zeros(n)) && Spelled(Zeros(n)) == 0
  {
    if n == 0 {
    } else {
      assert Zeros(n)[..n - 1] == Zeros(n - 1);
      SpelledZeros(n - 1);
    }
  }

  lemma {:induction false} SpelledBounds(s: string)
    requires AllDigits(s)
    ensures Spelled(s) < Pow10(|s|)
    ensures Spelled(s) == 0 <==> forall i :: 0 <= i < |s| ==> s[i] == '0'
  {
    if s == "" {
    } else {
      SpelledBounds(s[..|s| - 1]);
    }
  }

  lemma {:induction false} DigitsSpell(n: nat)
    ensures AllDigits(Digits(n)) && Digits(n) != "" && Spelled(Digits(n)) == n
  {
    if n < 10 {
    } else {
      DigitsSpell(n / 10);
      assert Digits(n)[..|Digits(n)| - 1] == Digits(n / 10);
    }
  }

  lemma {:induction false} StripIsPrefix(s: string)
    ensures |Strip(s)| <= |s| && s == Strip(s) + Zeros(|s| - |Strip(s)|)
  {
    if s != "" && s[|s| - 1] == '0' {
      var most := s[..|s| - 1];
      StripIsPrefix(most);
      assert Zeros(|s| - |Strip(s)|) == Zeros(|most| - |Strip(most)|) + "0";
      assert s == most + "0";
    }
  }

  lemma MulCancel(a: nat, b: nat, p: nat)
    requires p > 0 && a * p == b * p
    ensures a == b
  {
  }

  // ------------------------------------------------------------------ parsing is exact

  /** Padding a kept fraction to the scale multiplies by the missing powers of ten. */
  lemma PadScales(whole: string, kept: string, decimals: nat)
    requires AllDigits(whole) && AllDigits(kept) && |kept| <= decimals
    ensures AllDigits(whole + PadEnd(kept, decimals)) && AllDigits(whole + kept)
    ensures Spelled(whole + PadEnd(kept, decimals)) == Spelled(whole + kept) * Pow10(decimals - |kept|)
  {
    var z := Zeros(decimals - |kept|);
    SpelledZeros(decimals - |kept|);
    SpelledAppend(whole + kept, z);
    assert whole + PadEnd(kept, decimals) == whole + kept + z;
  }

  /** A fraction no longer than the scale: the padded value is the one and only value denoted. */
  lemma ShortFraction(whole: string, fraction: string, decimals: nat, value: nat)
    requires AllDigits(whole) && AllDigits(fraction) && |fraction| <= decimals
    ensures AllDigits(whole + fraction) && AllDigits(whole + PadEnd(fraction, decimals))
    ensures Spelled(whole + fraction) * Pow10(decimals) == value * Pow10(|fraction|)
       <==> value == Spelled(whole + PadEnd(fraction, decimals))
  {
    hide Spelled, Pow10, AllDigits;
    PadScales(whole, fraction, decimals);
    PowAdd(decimals - |fraction|, |fraction|);
    ShortArithmetic(Spelled(whole + fraction), Pow10(decimals - |fraction|), Pow10(|fraction|), value);
  }

  lemma ShortArithmetic(s: nat, p: nat, q: nat, value: nat)
    requires q > 0
    ensures s * (p * q) == value * q <==> value == s * p
  {
    assert s * (p * q) == (s * p) * q;
    if (s * p) * q == value * q { MulCancel(s * p, value, q); }
  }

  /** A longer one: the excess digits must all be zero, and then the kept ones are the value. */
  lemma LongFraction(whole: string, kept: string, excess: string, decimals: nat, value: nat)
    requires AllDigits(whole) && AllDigits(kept) && AllDigits(excess) && |kept| == decimals
    ensures AllDigits(whole + kept) && AllDigits(whole + (kept + excess))
    ensures Spelled(whole + (kept + excess)) * Pow10(decimals) == value * Pow10(|kept + excess|)
       <==> value == Spelled(whole + kept) && forall i :: 0 <= i < |excess| ==> excess[i] == '0'
  {
    assert AllDigits(whole + kept);
    SpelledBounds(excess);
    SpelledAppend(whole + kept, excess);
    assert whole + (kept + excess) == (whole + kept) + excess;
    hide Spelled, Pow10, AllDigits;
    PowAdd(decimals, |excess|);
    LongArithmetic(Spelled(whole + kept), Spelled(excess), Pow10(decimals), Pow10(|excess|), value);
  }

  lemma LongArithmetic(s: nat, e: nat, p: nat, q: nat, value: nat)
    requires e < q && p > 0
    ensures (s * q + e) * p == value * (p * q) <==> value == s && e == 0
  {
    assert value * (p * q) == (value * q) * p;
    if (s * q + e) * p == (value * q) * p { MulCancel(s * q + e, value * q, p); }
    if s * q + e == value * q {
      assert (value - s) * q == e;
      OnlyZero(value - s, q, e);
    }
  }

  lemma OnlyZero(k: int, q: nat, e: nat)
    requires k * q == e < q
    ensures k == 0 && e == 0
  {
    if k >= 1 {
      MulAtLeast(k, q);
      assert false;
    }
    if k <= -1 {
      MulAtLeast(-k, q);
      assert false;
    }
  }

  lemma MulAtLeast(k: int, q: nat)
    requires k >= 1
    ensures k * q >= q
  {
  }

  lemma NothingMatched()
    ensures Matched("") == None
  {
  }

  lemma AlreadyLong(s: string, width: nat)
    requires |s| >= width
    ensures PadEnd(s, width) == s
  {
  }

  /** Accepted exactly when the text denotes a value that fits, and then that value: nothing is ever
      rounded, and nothing representable is ever refused. */
  lemma {:induction false} ParseIsExact(input: string, decimals: nat, value: nat)
    ensures ParseDecimal(input, decimals) == Ok(value) <==> Denotes(input, decimals, value) && value <= MAX_U64
  {
    hide Trim, Spelled, Pow10, PadEnd;
    var parts := Matched(Trim(input));
    NothingMatched();
    hide Matched;
    if parts.Some? {
      var whole, fraction := parts.value.whole, parts.value.fraction;
      if |fraction| <= decimals {
        ShortFraction(whole, fraction, decimals, value);
        assert fraction[..Min(decimals, |fraction|)] == fraction && fraction[Min(decimals, |fraction|)..] == "";
      } else {
        var kept, excess := fraction[..decimals], fraction[decimals..];
        assert fraction == kept + excess;
        LongFraction(whole, kept, excess, decimals, value);
        AlreadyLong(kept, decimals);
      }
    }
  }

  // ------------------------------------------------------------------ the round trip

  lemma {:induction false} NoSpaces(s: string)
    requires forall i :: 0 <= i < |s| ==> !IsSpace(s[i])
    ensures Trim(s) == s
  {
  }

  lemma PointWhere(whole: string, fraction: string)
    requires AllDigits(whole) && AllDigits(fraction) && whole != ""
    ensures var text := whole + (if |fraction| > 0 then "." + fraction else "");
      Trim(text) == text && Matched(text) == Some(Parts(whole, fraction))
  {
    var text := whole + (if |fraction| > 0 then "." + fraction else "");
    NoSpaces(text);
    assert forall j :: 0 <= j < |whole| ==> text[j] == whole[j];
    assert |fraction| > 0 ==> text[|whole|] == '.';
    assert PointAt(text) == |whole|;
    assert text[..|whole|] == whole;
    if |fraction| > 0 { assert text[|whole| + 1..] == fraction; } else { assert fraction == ""; }
  }

  /** Formatting then parsing gives the value back, for every scale and every minimum width. */
  lemma {:induction false} RoundTrip(value: nat, decimals: nat, minFraction: nat)
    requires value <= MAX_U64
    ensures ParseDecimal(FormatDecimal(value, decimals, minFraction), decimals) == Ok(value)
  {
    hide ParseDecimal, Strip, PadEnd, PadStart, Pow10, Spelled, Digits, Matched, Trim;
    DigitsSpell(value);
    PadStartSpells(Digits(value), decimals + 1);
    var digits := PadStart(Digits(value), decimals + 1);
    var cut := |digits| - decimals;
    var whole, full := digits[..cut], digits[cut..];
    assert digits == whole + full;
    FractionKeepsValue(whole, full, minFraction);
    PointWhere(whole, PadEnd(Strip(full), minFraction));
    var fraction := PadEnd(Strip(full), minFraction);
    assert FormatDecimal(value, decimals, minFraction) == whole + (if |fraction| > 0 then "." + fraction else "");
    ParseIsExact(FormatDecimal(value, decimals, minFraction), decimals, value);
  }

  lemma PadStartSpells(s: string, width: nat)
    requires AllDigits(s)
    ensures AllDigits(PadStart(s, width)) && Spelled(PadStart(s, width)) == Spelled(s) && |PadStart(s, width)| >= width
  {
    if |s| < width {
      SpelledZeros(width - |s|);
      SpelledAppend(Zeros(width - |s|), s);
    }
  }

  /** Dropping and padding zeros at the end of a fraction does not change what it denotes. */
  lemma FractionKeepsValue(whole: string, full: string, minFraction: nat)
    requires AllDigits(whole) && AllDigits(full)
    ensures var fraction := PadEnd(Strip(full), minFraction);
      && AllDigits(whole + full) && AllDigits(fraction) && AllDigits(whole + fraction)
      && Spelled(whole + fraction) * Pow10(|full|) == Spelled(whole + full) * Pow10(|fraction|)
  {
    StripIsPrefix(full);
    hide Spelled, Pow10, Strip;
    var s := Strip(full);
    var fraction, k, j := PadEnd(s, minFraction), |full| - |s|, if |s| < minFraction then minFraction - |s| else 0;
    assert AllDigits(s) by { assert forall i :: 0 <= i < |s| ==> s[i] == full[i]; }
    assert fraction == s + Zeros(j);
    SpelledZeros(k);
    SpelledZeros(j);
    SpelledAppend(whole + s, Zeros(k));
    SpelledAppend(whole + s, Zeros(j));
    assert whole + full == whole + s + Zeros(k) && whole + fraction == whole + s + Zeros(j);
    PowAdd(|s|, k);
    PowAdd(|s|, j);
    Swap(Spelled(whole + s), Pow10(j), Pow10(|s|), Pow10(k));
  }

  lemma Swap(t: nat, a: nat, b: nat, c: nat)
    ensures (t * a) * (b * c) == (t * c) * (b * a)
  {
  }

  /** A negative amount can be shown but never typed back. */
  lemma {:induction false} NegativeIsRefused(value: nat, decimals: nat, minFraction: nat)
    requires value > 0
    ensures ParseDecimal(FormatDecimal(0 - value, decimals, minFraction), decimals) == Malformed
  {
    hide Strip, PadEnd, PadStart, Spelled, Digits, ParseDecimal;
    DigitsSpell(value);
    PadStartSpells(Digits(value), decimals + 1);
    var digits := PadStart(Digits(value), decimals + 1);
    var cut := |digits| - decimals;
    FractionKeepsValue(digits[..cut], digits[cut..], minFraction);
    var fraction := PadEnd(Strip(digits[cut..]), minFraction);
    var body := digits[..cut] + (if |fraction| > 0 then "." + fraction else "");
    assert FormatDecimal(0 - value, decimals, minFraction) == "-" + body;
    assert IsDigit(body[|body| - 1]);
    DashIsMalformed("-" + body, decimals);
  }

  lemma DashIsMalformed(text: string, decimals: nat)
    requires text != "" && text[0] == '-' && !IsSpace(text[|text| - 1])
    ensures ParseDecimal(text, decimals) == Malformed
  {
    assert Trim(text) == text;
    assert PointAt(text) > 0 && text[..PointAt(text)][0] == '-';
  }
}
