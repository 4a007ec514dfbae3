/** Decimal text: rendering naturals and fixed-point numbers (`%d`, `%02d`,
    `%.3f`), and reading them back as Kotlin's `toLongOrNull` and
    `toDoubleOrNull` do for plain decimal input. */
module Decimal {
  import opened Wrappers
  import opened Numerics

  function Pow10(d: nat): (p: nat)
    ensures p >= 1
  {
    if d == 0 then 1 else 10 * Pow10(d - 1)
  }

  predicate IsDigit(c: char) {
    '0' <= c <= '9'
  }

  predicate AllDigits(s: string) {
    forall i :: 0 <= i < |s| ==> IsDigit(s[i])
  }

  function DigitChar(d: nat): (c: char)
    requires d < 10
    ensures IsDigit(c)
  {
    (d + '0' as int) as char
  }

  function DigitValue(c: char): nat
    requires IsDigit(c)
  {
    c as int - '0' as int
  }

  /** The decimal text of `n`, without sign or leading zeros. */
  function DigitsOf(n: nat): (s: string)
    ensures |s| >= 1 && AllDigits(s)
  {
    if n < 10 then [DigitChar(n)] else DigitsOf(n / 10) + [DigitChar(n % 10)]
  }

  /** The number a string of decimal digits denotes. */
  function ValueOf(s: string): nat
    requires AllDigits(s)
  {
    if s == [] then 0 else 10 * ValueOf(s[..|s| - 1]) + DigitValue(s[|s| - 1])
  }

  function Zeros(k: nat): (s: string)
    ensures |s| == k && AllDigits(s)
  {
    seq(k, _ => '0')
  }

  /** `%0<width>d`: left-pads with zeros to at least `width` characters. */
  function ZeroPad(s: string, width: nat): (r: string)
    ensures |r| == Max(|s|, width)
    ensures AllDigits(s) ==> AllDigits(r)
  {
    if |s| >= width then s else Zeros(width - |s|) + s
  }

  lemma DivMod(u: nat, p: nat)
    requires p >= 1
    ensures u / p >= 0 && 0 <= u % p < p && u == (u / p) * p + u % p
  {
  }

  /** Renders `units / 10^decimals` with exactly `decimals` fraction digits:
      the integer part, a point, then the remainder zero-padded. */
  function FormatFixed(units: nat, decimals: nat): (r: string)
    requires decimals >= 1
    ensures |r| >= decimals + 2 && IsDigit(r[0]) && r[|r| - decimals - 1] == '.'
  {
    var p := Pow10(decimals);
    DivMod(units, p);
    var w := DigitsOf(units / p);
    var f := ZeroPad(DigitsOf(units % p), decimals);
    DigitsOfLength(units % p, decimals);
    assert IsDigit(w[0]);
    w + "." + f
  }

  /** `String.format("%.<decimals>f", x)`: the exact value rounded half away
      from zero to `decimals` fraction digits, with a leading minus sign for
      a negative value. The text starts with a minus sign exactly when `x`
      is negative and has its point `decimals` places from the end. */
  function FixedText(x: real, decimals: nat): (r: string)
    requires decimals >= 1
    ensures |r| >= decimals + 2 && r[|r| - decimals - 1] == '.'
    ensures r[0] == '-' <==> x < 0.0
  {
    if x < 0.0 then "-" + FormatFixed(Max(0, ScaledRound(-x, decimals)), decimals)
    else FormatFixed(Max(0, ScaledRound(x, decimals)), decimals)
  }

  /** `x` rounded half up to a whole number of `10^-decimals` units. */
  function ScaledRound(x: real, decimals: nat): int {
    RoundHalfUp(x * Pow10(decimals) as real)
  }

  /** `x` rounded half up to `decimals` fraction digits. */
  function Rounded(x: real, decimals: nat): real {
    ScaledRound(x, decimals) as real / Pow10(decimals) as real
  }

  /** `x` rounded half away from zero to `decimals` fraction digits: the
      magnitude is rounded half up and the sign kept. */
  function RoundedAway(x: real, decimals: nat): real {
    if x < 0.0 then -Rounded(-x, decimals) else Rounded(x, decimals)
  }

  /** The first index of `c` in `s`, or `|s|` when `c` does not occur. */
  function IndexOf(s: string, c: char): (k: nat)
    ensures k <= |s|
    ensures k < |s| ==> s[k] == c
    ensures forall i :: 0 <= i < k ==> s[i] != c
  {
    if s == [] then 0 else if s[0] == c then 0 else 1 + IndexOf(s[1..], c)
  }

  /** `toLongOrNull()`: an optional sign followed by at least one digit,
      whose value fits in a `Long`. */
  function ParseLong(s: string): (r: Option<int>)
    ensures r.Some? ==> IsLong(r.value)
  {
    var signed := |s| > 0 && (s[0] == '-' || s[0] == '+');
    var body := if signed then s[1..] else s;
    if |body| >= 1 && AllDigits(body) then
      var n: int := ValueOf(body);
      var v := if signed && s[0] == '-' then -n else n;
      if IsLong(v) then Some(v) else None
    else None
  }

  /** The value of the decimal text `whole.frac` once its two digit runs
      are read: `whole + frac / 10^digits`. */
  function DecimalValue(whole: nat, frac: nat, digits: nat): real {
    whole as real + frac as real / Pow10(digits) as real
  }

  /** A plain decimal without sign: digits, optionally a point and more
      digits, with at least one digit in all. */
  function ParseUnsignedDecimal(s: string): (r: Option<real>)
    ensures r.Some? ==> r.value >= 0.0
  {
    var k := IndexOf(s, '.');
    var whole := s[..k];
    var frac := if k < |s| then s[k + 1..] else "";
    if AllDigits(whole) && AllDigits(frac) && |whole| + |frac| >= 1 then
      Some(DecimalValue(ValueOf(whole), ValueOf(frac), |frac|))
    else None
  }

  /** `toDoubleOrNull()` restricted to plain decimal text: an optional sign
      then an unsigned decimal. Empty text never reads, and text reads as
      a negative value only after a minus sign. */
  function ParseDecimal(s: string): (r: Option<real>)
    ensures r.Some? ==> |s| >= 1
    ensures r.Some? && r.value < 0.0 ==> s[0] == '-'
    ensures r.Some? && s[0] == '-' ==> r.value <= 0.0
  {
    if |s| > 0 && (s[0] == '-' || s[0] == '+') then
      match ParseUnsignedDecimal(s[1..])
      case None => None
      case Some(v) => Some(if s[0] == '-' then -v else v)
    else ParseUnsignedDecimal(s)
  }

  predicate IsDecimalChar(c: char) {
    IsDigit(c) || c == '.'
  }

  // ---------------------------------------------------------------------
  // Round trips between rendering and reading

  lemma {:induction false} ValueOfDigitsOf(n: nat)
    ensures ValueOf(DigitsOf(n)) == n
  {
    if n >= 10 {
      var s := DigitsOf(n / 10) + [DigitChar(n % 10)];
      assert s[..|s| - 1] == DigitsOf(n / 10);
      ValueOfDigitsOf(n / 10);
    }
  }

  lemma {:induction false} DigitsOfLength(n: nat, d: nat)
    requires d >= 1 && n < Pow10(d)
    ensures |DigitsOf(n)| <= d
  {
    if n >= 10 {
      DigitsOfLength(n / 10, d - 1);
    }
  }

  lemma {:induction false} ValueOfZeros(k: nat)
    ensures ValueOf(Zeros(k)) == 0
  {
    if k > 0 {
      assert Zeros(k)[..k - 1] == Zeros(k - 1);
      ValueOfZeros(k - 1);
    }
  }

  /** Leading zeros do not change the value of a digit string. */
  lemma {:induction false} ValueOfLeadingZeros(k: nat, s: string)
    requires AllDigits(s)
    ensures AllDigits(Zeros(k) + s) && ValueOf(Zeros(k) + s) == ValueOf(s)
  {
    var t := Zeros(k) + s;
    assert AllDigits(t);
    if s == [] {
      assert t == Zeros(k);
      ValueOfZeros(k);
    } else {
      assert t[..|t| - 1] == Zeros(k) + s[..|s| - 1];
      ValueOfLeadingZeros(k, s[..|s| - 1]);
    }
  }

  lemma ValueOfZeroPad(n: nat, width: nat)
    ensures AllDigits(ZeroPad(DigitsOf(n), width))
    ensures ValueOf(ZeroPad(DigitsOf(n), width)) == n
  {
    var s := DigitsOf(n);
    ValueOfDigitsOf(n);
    if |s| < width {
      ValueOfLeadingZeros(width - |s|, s);
    }
  }

  /** A string of digits contains no point, so it reads back as the whole
      number it denotes. */
  lemma ParseDigitsAsDecimal(s: string)
    requires |s| >= 1 && AllDigits(s)
    ensures ParseDecimal(s) == Some(ValueOf(s) as real)
  {
    assert IsDigit(s[0]);
    UnsignedDigits(s);
  }

  lemma UnsignedDigits(s: string)
    requires |s| >= 1 && AllDigits(s)
    ensures ParseUnsignedDecimal(s) == Some(ValueOf(s) as real)
  {
    IndexOfAbsent(s, '.');
    assert s[..|s|] == s;
    assert DecimalValue(ValueOf(s), 0, 0) == ValueOf(s) as real;
  }

  lemma IndexOfAbsent(s: string, c: char)
    requires forall i :: 0 <= i < |s| ==> s[i] != c
    ensures IndexOf(s, c) == |s|
  {
  }

  lemma ParseDigitsAsLong(s: string)
    requires |s| >= 1 && AllDigits(s) && ValueOf(s) <= LONG_MAX
    ensures ParseLong(s) == Some(ValueOf(s))
  {
    assert IsDigit(s[0]);
  }

  /** Digits, a point and digits read back as the whole part plus the
      fraction. */
  lemma ParseWithPoint(w: string, f: string)
    requires |w| >= 1 && AllDigits(w) && AllDigits(f)
    ensures ParseDecimal(w + "." + f)
            == Some(DecimalValue(ValueOf(w), ValueOf(f), |f|))
  {
    assert IsDigit((w + "." + f)[0]);
    UnsignedWithPoint(w, f);
  }

  lemma UnsignedWithPoint(w: string, f: string)
    requires |w| >= 1 && AllDigits(w) && AllDigits(f)
    ensures ParseUnsignedDecimal(w + "." + f)
            == Some(DecimalValue(ValueOf(w), ValueOf(f), |f|))
  {
    var s := w + "." + f;
    assert IndexOf(s, '.') == |w| by {
      assert forall i :: 0 <= i < |w| ==> s[i] != '.';
      assert s[|w|] == '.';
    }
    assert s[..|w|] == w;
    assert s[|w| + 1..] == f;
  }

  lemma WholePlusFraction(q: nat, r: nat, d: nat)
    ensures DecimalValue(q, r, d) == (q * Pow10(d) + r) as real / Pow10(d) as real
  {
    var p := Pow10(d);
    calc {
      DecimalValue(q, r, d);
      q as real + r as real / p as real;
      (q as real * p as real + r as real) / p as real;
      (q * p + r) as real / p as real;
    }
  }

  /** The fixed-point text of `units` reads back as exactly
      `units / 10^decimals`. */
  lemma ParseFormatFixed(units: nat, decimals: nat)
    requires decimals >= 1
    ensures ParseDecimal(FormatFixed(units, decimals))
            == Some(units as real / Pow10(decimals) as real)
  {
    var w, f := FormatFixedParts(units, decimals);
    ParseSplit(FormatFixed(units, decimals), w, f, units, decimals);
  }

  /** The whole digits and the fraction digits fixed-point text is made
      of, and the unit count they spell. */
  lemma FormatFixedParts(units: nat, decimals: nat) returns (w: string, f: string)
    requires decimals >= 1
    ensures FormatFixed(units, decimals) == w + "." + f
    ensures |w| >= 1 && AllDigits(w) && AllDigits(f) && |f| == decimals
    ensures units == ValueOf(w) * Pow10(decimals) + ValueOf(f)
  {
    var p := Pow10(decimals);
    DivMod(units, p);
    var q: nat, r: nat := units / p, units % p;
    w := DigitsOf(q);
    f := ZeroPad(DigitsOf(r), decimals);
    assert |f| == decimals by { DigitsOfLength(r, decimals); }
    assert ValueOf(w) == q by { ValueOfDigitsOf(q); }
    assert AllDigits(f) && ValueOf(f) == r by { ValueOfZeroPad(r, decimals); }
  }

  /** Digits, a point and `d` fraction digits read back as the value whose
      whole part and remainder they spell. */
  lemma ParseSplit(s: string, w: string, f: string, units: nat, d: nat)
    requires s == w + "." + f && |w| >= 1 && AllDigits(w) && AllDigits(f) && |f| == d
    requires units == ValueOf(w) * Pow10(d) + ValueOf(f)
    ensures ParseDecimal(s) == Some(units as real / Pow10(d) as real)
  {
    ParseWithPoint(w, f);
    SplitValue(units, ValueOf(w), ValueOf(f), d);
  }

  /** A whole part and a remainder read back as the value they split. */
  lemma SplitValue(units: nat, q: nat, r: nat, d: nat)
    requires units == q * Pow10(d) + r
    ensures DecimalValue(q, r, d) == units as real / Pow10(d) as real
  {
    WholePlusFraction(q, r, d);
  }

  lemma ScaleBack(u: nat, p: nat)
    requires p >= 1
    ensures u as real / p as real >= 0.0
    ensures (u as real / p as real) * p as real == u as real
  {
  }

  lemma RoundWhole(n: int)
    ensures RoundHalfUp(n as real) == n
  {
  }

  lemma FixedTextExact(x: real, decimals: nat, units: nat)
    requires decimals >= 1 && x == units as real / Pow10(decimals) as real
    ensures FixedText(x, decimals) == FormatFixed(units, decimals)
  {
    assert x >= 0.0 by { ScaleBack(units, Pow10(decimals)); }
    assert Max(0, ScaledRound(x, decimals)) == units by { ScaledRoundExact(decimals, units); }
  }

  /** `%.<d>f` text reads back as `x` rounded half away from zero to a
      whole number of `10^-d` units: the sign, then the rounded magnitude. */
  lemma FixedTextReadsBack(x: real, decimals: nat)
    requires decimals >= 1
    ensures ParseDecimal(FixedText(x, decimals)) == Some(RoundedAway(x, decimals))
  {
    if x < 0.0 {
      ReadsBackNegative(x, decimals);
    } else {
      ReadsBackNonNegative(x, decimals);
    }
  }

  lemma ReadsBackNonNegative(x: real, decimals: nat)
    requires decimals >= 1 && x >= 0.0
    ensures ParseDecimal(FixedText(x, decimals))
            == Some(Rounded(x, decimals))
  {
    FixedTextNonNegative(x, decimals);
    ParseFormatFixed(ScaledRound(x, decimals), decimals);
  }

  lemma ReadsBackNegative(x: real, decimals: nat)
    requires decimals >= 1 && x < 0.0
    ensures ParseDecimal(FixedText(x, decimals)) == Some(-Rounded(-x, decimals))
  {
    FixedTextNonNegative(-x, decimals);
    ParseNegatedFixed(ScaledRound(-x, decimals), decimals);
  }

  /** Fixed-point text after a minus sign reads back as the negated
      value. */
  lemma ParseNegatedFixed(units: nat, decimals: nat)
    requires decimals >= 1
    ensures ParseDecimal("-" + FormatFixed(units, decimals))
            == Some(-(units as real / Pow10(decimals) as real))
  {
    ParseFormatFixed(units, decimals);
    ReadNegated(FormatFixed(units, decimals), units as real / Pow10(decimals) as real);
  }

  lemma ReadNegated(t: string, v: real)
    requires |t| >= 1 && IsDigit(t[0]) && ParseDecimal(t) == Some(v)
    ensures ParseDecimal("-" + t) == Some(-v)
  {
    ParseNegated(t);
  }

  /** A minus sign in front of unsigned digits negates what they read as. */
  lemma ParseNegated(s: string)
    requires |s| >= 1 && IsDigit(s[0]) && ParseDecimal(s).Some?
    ensures ParseDecimal("-" + s) == Some(-ParseDecimal(s).value)
  {
    assert ("-" + s)[1..] == s;
  }

  lemma ScaledRoundExact(decimals: nat, units: nat)
    ensures ScaledRound(units as real / Pow10(decimals) as real, decimals) == units
  {
    var p := Pow10(decimals);
    ScaleBack(units, p);
    RoundWhole(units);
  }

  /** A non-negative value with at most `decimals` fraction digits is
      rendered exactly by `FixedText` and reads back unchanged. */
  lemma ParseFixedText(x: real, decimals: nat, units: nat)
    requires decimals >= 1 && x == units as real / Pow10(decimals) as real
    ensures FixedText(x, decimals) == FormatFixed(units, decimals)
    ensures ParseDecimal(FixedText(x, decimals)) == Some(x)
  {
    FixedTextExact(x, decimals, units);
    ParseFormatFixed(units, decimals);
  }

  /** A non-negative value is rendered as its rounded unit count, without
      a sign. */
  lemma FixedTextNonNegative(x: real, decimals: nat)
    requires decimals >= 1 && x >= 0.0
    ensures ScaledRound(x, decimals) >= 0
    ensures FixedText(x, decimals) == FormatFixed(ScaledRound(x, decimals), decimals)
  {
    assert x * Pow10(decimals) as real >= 0.0;
  }

  /** The last `decimals` characters of `%.<decimals>f` text are digits. */
  lemma FixedTextFraction(x: real, decimals: nat)
    requires decimals >= 1
    ensures var r := FixedText(x, decimals); AllDigits(r[|r| - decimals..])
  {
    if x < 0.0 {
      var u := Max(0, ScaledRound(-x, decimals));
      FormatFixedFraction(u, decimals);
      SignedFraction(FormatFixed(u, decimals), decimals);
    } else {
      FormatFixedFraction(Max(0, ScaledRound(x, decimals)), decimals);
    }
  }

  lemma FormatFixedFraction(units: nat, decimals: nat)
    requires decimals >= 1
    ensures var t := FormatFixed(units, decimals); AllDigits(t[|t| - decimals..])
  {
    var w, f := FormatFixedParts(units, decimals);
    assert (w + "." + f)[|w| + 1..] == f;
  }

  lemma SignedFraction(t: string, decimals: nat)
    requires |t| >= decimals && AllDigits(t[|t| - decimals..])
    ensures var s := "-" + t; AllDigits(s[|s| - decimals..])
  {
    assert ("-" + t)[|t| + 1 - decimals..] == t[|t| - decimals..];
  }

  /** Zeros in front of fixed-point text (`%0<width>.<decimals>f`) do not
      change the value it reads back as. */
  lemma ParseZeroPaddedFixed(units: nat, decimals: nat, width: nat)
    requires decimals >= 1
    ensures ParseDecimal(ZeroPad(FormatFixed(units, decimals), width))
            == Some(units as real / Pow10(decimals) as real)
  {
    if |FormatFixed(units, decimals)| >= width {
      ParseFormatFixed(units, decimals);
    } else {
      ParsePaddedFixed(units, decimals, width);
    }
  }

  /** Leading zeros in front of fixed-point text do not change what it
      reads as. */
  lemma ParsePaddedFixed(units: nat, decimals: nat, width: nat)
    requires decimals >= 1 && |FormatFixed(units, decimals)| < width
    ensures ParseDecimal(ZeroPad(FormatFixed(units, decimals), width))
            == Some(units as real / Pow10(decimals) as real)
  {
    var t := FormatFixed(units, decimals);
    var w, f := FormatFixedParts(units, decimals);
    ParseLeadingZeros(ZeroPad(t, width), Zeros(width - |t|), w, f, units, decimals);
  }

  lemma ParseLeadingZeros(s: string, z: string, w: string, f: string, units: nat, d: nat)
    requires s == z + (w + "." + f) && z == Zeros(|z|)
    requires |w| >= 1 && AllDigits(w) && AllDigits(f) && |f| == d
    requires units == ValueOf(w) * Pow10(d) + ValueOf(f)
    ensures ParseDecimal(s) == Some(units as real / Pow10(d) as real)
  {
    assert s == (z + w) + "." + f;
    ValueOfLeadingZeros(|z|, w);
    ParseSplit(s, z + w, f, units, d);
  }
}
