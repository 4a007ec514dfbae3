/** The trim screen's own logic: rendering times as `MM:SS` and
    `MM:SS.cc`, reading a typed `mm:ss(.cc)` back to whole centiseconds,
    and the clamps its range slider, text fields and speed slider apply
    before they call the view model. */
module Screen {
  import opened Wrappers
  import opened Numerics
  import opened Decimal
  import opened Formats
  import Session

  // ---------------------------------------------------------------------
  // Rendering times

  /** `formatTime`: whole seconds (never negative) as minutes and seconds,
      each part at least two digits; the seconds part is below 60 and the
      two parts together give back the whole seconds. */
  function FormatTime(timeMs: int): (r: string)
    ensures |r| >= 5 && r[|r| - 3] == ':'
    ensures AllDigits(r[..|r| - 3]) && AllDigits(r[|r| - 2..])
    ensures ValueOf(r[|r| - 2..]) < 60
    ensures ValueOf(r[..|r| - 3]) * 60 + ValueOf(r[|r| - 2..]) == Max(TruncDiv(timeMs, 1000), 0)
    ensures timeMs < 1000 ==> r == "00:00"
  {
    var totalSeconds := Max(TruncDiv(timeMs, 1000), 0);
    var minutes := ZeroPad(DigitsOf(totalSeconds / 60), 2);
    var seconds := ZeroPad(DigitsOf(totalSeconds % 60), 2);
    DigitsOfLength(totalSeconds % 60, 2);
    ValueOfZeroPad(totalSeconds / 60, 2);
    ValueOfZeroPad(totalSeconds % 60, 2);
    assert (minutes + ":" + seconds)[..|minutes|] == minutes;
    assert (minutes + ":" + seconds)[|minutes| + 1..] == seconds;
    minutes + ":" + seconds
  }

  /** `formatToTimeInput`: whole minutes, then the remaining seconds with
      two decimals, zero-padded to five characters. Everything before the
      first `:` is at least two digits spelling the whole minutes of the
      time (never negative), and the text ends in a point and two
      fraction digits. */
  function FormatToTimeInput(ms: int): (r: string)
    ensures var k := IndexOf(r, ':');
            2 <= k < |r| - 4 && AllDigits(r[..k]) && ValueOf(r[..k]) == Max(ms, 0) / 60000
    ensures r[|r| - 3] == '.' && AllDigits(r[|r| - 2..])
  {
    var totalMs := Max(ms, 0);
    var seconds := (totalMs % 60000) as real / 1000.0;
    var m := ZeroPad(DigitsOf(totalMs / 60000), 2);
    var f := ZeroPad(FixedText(seconds, 2), 5);
    ValueOfZeroPad(totalMs / 60000, 2);
    MinutesField(m, f);
    FixedTextFraction(seconds, 2);
    SecondsField(m, FixedText(seconds, 2), f);
    m + ":" + f
  }

  /** Zero-padding `%.2f` text to five characters keeps its point and its
      two fraction digits at the end of `m:f`. */
  lemma SecondsField(m: string, t: string, f: string)
    requires |t| >= 4 && t[|t| - 3] == '.' && AllDigits(t[|t| - 2..]) && f == ZeroPad(t, 5)
    ensures var r := m + ":" + f; r[|r| - 3] == '.' && r[|r| - 2..] == t[|t| - 2..]
  {
    var r := m + ":" + f;
    assert f[|f| - 3..] == t[|t| - 3..];
    assert r[|r| - 3..] == f[|f| - 3..];
  }

  /** In `m:f` with `m` all digits, the first `:` is the one after `m`. */
  lemma MinutesField(m: string, f: string)
    requires AllDigits(m)
    ensures IndexOf(m + ":" + f, ':') == |m| && (m + ":" + f)[..|m|] == m
  {
    var r := m + ":" + f;
    assert r[|m|] == ':';
  }

  // ---------------------------------------------------------------------
  // Reading typed times

  /** `Char.isWhitespace`: the Java whitespace controls and every Unicode
      space, line and paragraph separator. */
  predicate IsWhitespace(c: char) {
    || c == ' ' || ('\t' <= c <= '\r') || ('\U{1C}' <= c <= '\U{1F}')
    || c == '\U{A0}' || c == '\U{1680}' || ('\U{2000}' <= c <= '\U{200A}')
    || c == '\U{2028}' || c == '\U{2029}' || c == '\U{202F}' || c == '\U{205F}'
    || c == '\U{3000}'
  }

  /** Drops leading whitespace: the result is a suffix of `s` that does
      not start with whitespace, and everything dropped is whitespace. */
  function TrimStart(s: string): (r: string)
    ensures |r| <= |s| && r == s[|s| - |r|..]
    ensures r != [] ==> !IsWhitespace(r[0])
    ensures forall i :: 0 <= i < |s| - |r| ==> IsWhitespace(s[i])
  {
    if s != [] && IsWhitespace(s[0]) then TrimStart(s[1..]) else s
  }

  /** Drops trailing whitespace: the result is a prefix of `s` that does
      not end with whitespace, and everything dropped is whitespace. */
  function TrimEnd(s: string): (r: string)
    ensures |r| <= |s| && r == s[..|r|]
    ensures r != [] ==> !IsWhitespace(r[|r| - 1])
    ensures forall i :: |r| <= i < |s| ==> IsWhitespace(s[i])
  {
    if s != [] && IsWhitespace(s[|s| - 1]) then TrimEnd(s[..|s| - 1]) else s
  }

  /** `trim()`. */
  function Trim(s: string): string {
    TrimEnd(TrimStart(s))
  }

  /** `replace(',', '.')`. */
  function CommaToPoint(s: string): string {
    seq(|s|, i requires 0 <= i < |s| => if s[i] == ',' then '.' else s[i])
  }

  /** What the parser works on: trimmed, with decimal commas as points. */
  function Cleaned(input: string): string {
    CommaToPoint(Trim(input))
  }

  /** A typed time as its two parsed parts. */
  datatype Clock = Clock(minutes: int, seconds: real)

  function TotalSeconds(c: Clock): real {
    c.minutes as real * 60.0 + c.seconds
  }

  /** The parsing part of `snapToMsFromInput`: the cleaned text must split
      on `:` into exactly two parts, a `Long` and a decimal number. */
  function ParseClock(input: string): (r: Option<Clock>)
    ensures r.Some? ==> IsLong(r.value.minutes)
  {
    var cleaned := Cleaned(input);
    var k := IndexOf(cleaned, ':');
    if k == |cleaned| then None
    else
      var rest := cleaned[k + 1..];
      if IndexOf(rest, ':') < |rest| then None
      else
        match (ParseLong(cleaned[..k]), ParseDecimal(rest))
        case (Some(m), Some(sec)) => Some(Clock(m, sec))
        case _ => None
  }

  /** `snapToMsFromInput` as written: `minutes * 60` and the final `* 10`
      are `Long` products and wrap around. */
  function SnapToMsAsWritten(input: string): (r: Option<int>)
    ensures r.Some? ==> IsLong(r.value)
    ensures r.Some? ==> ParseClock(input).Some?
  {
    match ParseClock(input)
    case None => None
    case Some(c) => SnapClockAsWritten(c.minutes, c.seconds)
  }

  /** The arithmetic of `snapToMsFromInput` on `Long` minutes and `Double`
      seconds, as written. */
  function SnapClockAsWritten(minutes: int, seconds: real): (r: Option<int>)
    ensures r.Some? ==> IsLong(r.value)
  {
    var totalSeconds := WrapLong(minutes * 60) as real + seconds;
    if totalSeconds < 0.0 then None
    else Some(WrapLong(SaturateLong(RoundHalfUp(totalSeconds * 100.0)) * 10))
  }

  /** `snapToMsFromInput` with exact arithmetic: a typed time with a
      negative total is refused, any other is rounded to the nearest
      centisecond and given in milliseconds, and a time too large for a
      `Long` is refused instead of wrapping. */
  function SnapToMs(input: string): (r: Option<int>)
    ensures r.Some? ==> 0 <= r.value <= LONG_MAX && r.value % 10 == 0
    ensures r.Some? ==> ParseClock(input).Some? && TotalSeconds(ParseClock(input).value) >= 0.0
    ensures r.Some? ==>
              var exact := TotalSeconds(ParseClock(input).value) * 1000.0;
              exact - 5.0 < r.value as real <= exact + 5.0
    ensures ParseClock(input).Some? && TotalSeconds(ParseClock(input).value) < 0.0 ==> r.None?
    ensures ParseClock(input).Some? && 0.0 <= TotalSeconds(ParseClock(input).value)
            && TotalSeconds(ParseClock(input).value) * 1000.0 <= (LONG_MAX - 5) as real
            ==> r.Some?
  {
    var parsed := ParseClock(input);
    if parsed.None? then None else SnapSeconds(TotalSeconds(parsed.value))
  }

  /** A total in seconds to whole centiseconds, in milliseconds: refused
      when negative or too large for a `Long`, otherwise within 5 ms of the
      exact value. */
  function SnapSeconds(total: real): (r: Option<int>)
    ensures r.Some? ==> 0 <= r.value <= LONG_MAX && r.value % 10 == 0
    ensures r.Some? ==> total >= 0.0
    ensures r.Some? ==> total * 1000.0 - 5.0 < r.value as real <= total * 1000.0 + 5.0
    ensures total < 0.0 ==> r.None?
    ensures 0.0 <= total && total * 1000.0 <= (LONG_MAX - 5) as real ==> r.Some?
  {
    if total < 0.0 then None
    else
      var centis := RoundHalfUp(total * 100.0);
      CentisToMillis(total, centis);
      if centis * 10 <= LONG_MAX then Some(centis * 10) else None
  }

  lemma CentisToMillis(total: real, centis: int)
    requires total * 100.0 - 0.5 < centis as real <= total * 100.0 + 0.5
    ensures total * 1000.0 - 5.0 < (centis * 10) as real <= total * 1000.0 + 5.0
    ensures total >= 0.0 ==> centis >= 0
  {
  }

  /** Where no `Long` product overflows, the code as written and the exact
      reading agree. */
  lemma SnapAsWrittenAgrees(input: string)
    requires ParseClock(input).Some? && IsLong(ParseClock(input).value.minutes * 60)
    requires SnapToMs(input).Some?
    ensures SnapToMsAsWritten(input) == SnapToMs(input)
  {
    var c := ParseClock(input).value;
    SnapClockAgrees(c.minutes, c.seconds);
  }

  lemma SnapClockAgrees(minutes: int, seconds: real)
    requires IsLong(minutes * 60)
    requires SnapSeconds(TotalSeconds(Clock(minutes, seconds))).Some?
    ensures SnapClockAsWritten(minutes, seconds) == SnapSeconds(TotalSeconds(Clock(minutes, seconds)))
  {
    var total := TotalSeconds(Clock(minutes, seconds));
    assert WrapLong(minutes * 60) as real + seconds == total;
    var centis := RoundHalfUp(total * 100.0);
    assert SnapSeconds(total) == Some(centis * 10);
  }

  /** The `* 10` wraps: 200000000000000 minutes is 1.2e18 centiseconds,
      and ten times that exceeds `Long.MAX_VALUE`, so the code as written
      answers with a negative time. The exact reading refuses it. */
  lemma SnapOverflowsToNegative()
    ensures SnapToMsAsWritten(DigitsOf(200000000000000) + ":00") == Some(-6446744073709551616)
    ensures SnapToMs(DigitsOf(200000000000000) + ":00") == None
  {
    var c := ReadWholeMinutes(200000000000000);
    CentisOverflow();
  }

  lemma CentisOverflow()
    ensures SnapClockAsWritten(200000000000000, 0.0) == Some(-6446744073709551616)
    ensures SnapSeconds(TotalSeconds(Clock(200000000000000, 0.0))) == None
  {
    assert WrapLong(200000000000000 * 60) == 12000000000000000;
    assert (12000000000000000 as real + 0.0) * 100.0 == 1200000000000000000 as real;
    RoundWhole(1200000000000000000);
    WrapAbove(12000000000000000000);
  }

  /** `minutes * 60` wraps: 307445734561825861 minutes is 2^64 + 44
      seconds, so the code as written reads the text as 44 seconds. The
      exact reading refuses it. */
  lemma SnapMinutesWrap()
    ensures SnapToMsAsWritten(DigitsOf(307445734561825861) + ":00") == Some(44000)
    ensures SnapToMs(DigitsOf(307445734561825861) + ":00") == None
  {
    var c := ReadWholeMinutes(307445734561825861);
    MinutesOverflow();
  }

  lemma MinutesOverflow()
    ensures SnapClockAsWritten(307445734561825861, 0.0) == Some(44000)
    ensures SnapSeconds(TotalSeconds(Clock(307445734561825861, 0.0))) == None
  {
    WrapAbove(307445734561825861 * 60);
    assert (44 as real + 0.0) * 100.0 == 4400 as real;
    RoundWhole(4400);
    assert TotalSeconds(Clock(307445734561825861, 0.0)) * 100.0 == 1844674407370955166000 as real;
    RoundWhole(1844674407370955166000);
  }

  /** A whole number of minutes typed as `<digits>:00`. */
  lemma ReadWholeMinutes(minutes: nat) returns (c: Clock)
    requires minutes <= LONG_MAX
    ensures c == Clock(minutes, 0.0)
    ensures ParseClock(DigitsOf(minutes) + ":00") == Some(c)
  {
    var m := DigitsOf(minutes);
    ValueOfDigitsOf(minutes);
    assert m + ":00" == m + ":" + "00";
    assert AllDigits("00") && ValueOf("00") == 0 by {
      assert "00"[..1] == "0";
    }
    ParseDigitsAsDecimal("00");
    assert forall i :: 0 <= i < |"00"| ==> IsDecimalChar("00"[i]);
    ParseClockOf(m, "00");
    c := Clock(minutes, 0.0);
  }

  // ---------------------------------------------------------------------
  // Characterising the parser

  /** With its first `:` at `k`, the cleaned text reads as a time exactly
      when no other `:` follows and both parts parse. */
  lemma ParseClockAt(input: string, k: nat)
    requires k < |Cleaned(input)| && Cleaned(input)[k] == ':'
    requires forall j :: 0 <= j < k ==> Cleaned(input)[j] != ':'
    ensures var cleaned := Cleaned(input);
            ParseClock(input)
            == if (forall j :: k < j < |cleaned| ==> cleaned[j] != ':')
                  && ParseLong(cleaned[..k]).Some? && ParseDecimal(cleaned[k + 1..]).Some?
               then Some(Clock(ParseLong(cleaned[..k]).value, ParseDecimal(cleaned[k + 1..]).value))
               else None
  {
    var cleaned := Cleaned(input);
    var rest := cleaned[k + 1..];
    if forall j :: k < j < |cleaned| ==> cleaned[j] != ':' {
      assert cleaned == cleaned[..k] + ":" + rest;
      forall i | 0 <= i < |rest|
        ensures rest[i] != ':'
      {
        assert rest[i] == cleaned[k + 1 + i];
      }
      ParseClockSplit(input, cleaned[..k], rest);
    } else {
      var j :| k < j < |cleaned| && cleaned[j] == ':';
      assert rest[j - k - 1] == ':';
      assert IndexOf(cleaned, ':') == k;
    }
  }

  /** Text without a `:` never reads as a time. */
  lemma ParseClockNoColon(input: string)
    requires forall j :: 0 <= j < |Cleaned(input)| ==> Cleaned(input)[j] != ':'
    ensures ParseClock(input).None?
  {
  }

  /** Minutes digits, a colon and a decimal text are read back part by
      part. */
  lemma ParseClockOf(minutes: string, seconds: string)
    requires |minutes| >= 1 && AllDigits(minutes) && ValueOf(minutes) <= LONG_MAX
    requires forall i :: 0 <= i < |seconds| ==> IsDecimalChar(seconds[i])
    ensures ParseDecimal(seconds).Some? ==>
              ParseClock(minutes + ":" + seconds)
              == Some(Clock(ValueOf(minutes), ParseDecimal(seconds).value))
    ensures ParseDecimal(seconds).None? ==> ParseClock(minutes + ":" + seconds).None?
  {
    var s := minutes + ":" + seconds;
    assert Cleaned(s) == s by {
      assert forall i :: 0 <= i < |s| ==> IsDecimalChar(s[i]) || s[i] == ':';
      CleanedIdentity(s);
    }
    assert forall i :: 0 <= i < |minutes| ==> minutes[i] != ':' by {
      assert forall i :: 0 <= i < |minutes| ==> IsDigit(minutes[i]);
    }
    ParseClockSplit(s, minutes, seconds);
    ParseDigitsAsLong(minutes);
  }

  /** Text that cleans to two colon-free parts around one `:` reads as the
      pair of their values, when both parse. */
  lemma ParseClockSplit(input: string, head: string, tail: string)
    requires Cleaned(input) == head + ":" + tail
    requires forall i :: 0 <= i < |head| ==> head[i] != ':'
    requires forall i :: 0 <= i < |tail| ==> tail[i] != ':'
    ensures ParseClock(input)
            == if ParseLong(head).Some? && ParseDecimal(tail).Some?
               then Some(Clock(ParseLong(head).value, ParseDecimal(tail).value))
               else None
  {
    SplitAtColon(head, tail);
  }

  /** Joining two colon-free texts with `:` puts the first colon between
      them and no colon after it. */
  lemma SplitAtColon(head: string, tail: string)
    requires forall i :: 0 <= i < |head| ==> head[i] != ':'
    requires forall i :: 0 <= i < |tail| ==> tail[i] != ':'
    ensures var s := head + ":" + tail;
            && IndexOf(s, ':') == |head|
            && s[..|head|] == head
            && s[|head| + 1..] == tail
            && IndexOf(tail, ':') == |tail|
  {
    var s := head + ":" + tail;
    assert IndexOf(s, ':') == |head| by {
      assert forall j :: 0 <= j < |head| ==> s[j] != ':';
      assert s[|head|] == ':';
    }
    assert s[..|head|] == head;
    assert s[|head| + 1..] == tail;
  }

  /** Text of digits, points and colons is already clean. */
  lemma CleanedIdentity(s: string)
    requires forall i :: 0 <= i < |s| ==> IsDecimalChar(s[i]) || s[i] == ':'
    ensures Cleaned(s) == s
  {
    assert TrimStart(s) == s;
    assert TrimEnd(s) == s;
    assert CommaToPoint(s) == s;
  }

  // ---------------------------------------------------------------------
  // Round trips between rendering and reading

  /** The text `formatTime` shows reads back as its whole seconds in
      milliseconds. */
  lemma SnapFormatTime(timeMs: int)
    requires IsLong(timeMs)
    ensures SnapToMs(FormatTime(timeMs)) == Some(Max(TruncDiv(timeMs, 1000), 0) * 1000)
  {
    var r := FormatTime(timeMs);
    var t := Max(TruncDiv(timeMs, 1000), 0);
    var m, s := r[..|r| - 3], r[|r| - 2..];
    assert ValueOf(m) <= t <= LONG_MAX;
    ReadClockFields(r, m, s);
    SnapOfClock(r, Clock(ValueOf(m), ValueOf(s) as real));
    WholeSecondsFit(timeMs);
    SnapWholeSeconds(ValueOf(m), ValueOf(s), t);
  }

  /** Text that reads as a clock snaps as that clock's total seconds. */
  lemma SnapOfClock(input: string, c: Clock)
    requires ParseClock(input) == Some(c)
    ensures SnapToMs(input) == SnapSeconds(TotalSeconds(c))
  {
  }

  /** Text of the shape `formatTime` gives (digits, `:`, two digits) reads
      as its minute and second fields. */
  lemma ReadClockFields(r: string, m: string, s: string)
    requires |r| >= 5 && r[|r| - 3] == ':' && m == r[..|r| - 3] && s == r[|r| - 2..]
    requires AllDigits(m) && AllDigits(s) && ValueOf(m) <= LONG_MAX
    ensures ParseClock(r) == Some(Clock(ValueOf(m), ValueOf(s) as real))
  {
    assert r == m + ":" + s;
    ReadMinutesSeconds(m, s);
  }

  /** Minute digits, `:` and second digits read back as their values. */
  lemma ReadMinutesSeconds(m: string, s: string)
    requires |m| >= 1 && AllDigits(m) && ValueOf(m) <= LONG_MAX
    requires |s| >= 1 && AllDigits(s)
    ensures ParseClock(m + ":" + s) == Some(Clock(ValueOf(m), ValueOf(s) as real))
  {
    assert forall i :: 0 <= i < |s| ==> IsDecimalChar(s[i]);
    ParseDigitsAsDecimal(s);
    ParseClockOf(m, s);
  }

  /** The whole seconds of a `Long` time, back in milliseconds, still fit
      in a `Long`. */
  lemma WholeSecondsFit(timeMs: int)
    requires IsLong(timeMs)
    ensures 0 <= Max(TruncDiv(timeMs, 1000), 0) * 1000 <= LONG_MAX
  {
  }

  lemma SnapWholeSeconds(minutes: nat, seconds: nat, total: nat)
    requires minutes * 60 + seconds == total && total * 1000 <= LONG_MAX
    ensures SnapSeconds(TotalSeconds(Clock(minutes, seconds as real))) == Some(total * 1000)
  {
    var x := TotalSeconds(Clock(minutes, seconds as real));
    assert x == total as real;
    assert x * 100.0 == (total * 100) as real;
    RoundWhole(total * 100);
  }

  /** The text `formatToTimeInput` puts in a field reads back as the same
      time to within 5 ms, on a whole number of centiseconds. */
  lemma SnapTimeInput(ms: int)
    requires Max(ms, 0) <= LONG_MAX - 5
    ensures SnapToMs(FormatToTimeInput(ms)).Some?
    ensures var v := SnapToMs(FormatToTimeInput(ms)).value;
            v % 10 == 0 && Max(ms, 0) - 5 < v <= Max(ms, 0) + 5
  {
    var totalMs := Max(ms, 0);
    var minutes := totalMs / 60000;
    var rem := totalMs % 60000;
    var seconds := rem as real / 1000.0;
    var units := ScaledRound(seconds, 2);
    CentisOfRemainder(rem, units);
    var text := FormatToTimeInput(ms);
    var c := Clock(minutes, units as real / Pow10(2) as real);
    assert ParseClock(text) == Some(c) by {
      FixedTextNonNegative(seconds, 2);
      var m := ZeroPad(DigitsOf(minutes), 2);
      var f := ZeroPad(FormatFixed(units, 2), 5);
      assert text == m + ":" + f;
      ParseZeroPaddedFixed(units, 2, 5);
      ValueOfZeroPad(minutes, 2);
      FixedTextChars(units, 5);
      ParseClockOf(m, f);
    }
    assert SnapToMs(text) == SnapSeconds(TotalSeconds(c));
    SnapCentiseconds(minutes, units, rem, totalMs);
  }

  lemma CentisOfRemainder(rem: nat, units: int)
    requires units == ScaledRound(rem as real / 1000.0, 2)
    ensures 0 <= units && rem - 5 < units * 10 <= rem + 5
  {
    assert Pow10(2) == 100;
    assert (rem as real / 1000.0) * 100.0 == rem as real / 10.0;
  }

  lemma SnapCentiseconds(minutes: nat, units: nat, rem: nat, totalMs: nat)
    requires totalMs == minutes * 60000 + rem && totalMs <= LONG_MAX - 5
    requires rem - 5 < units * 10 <= rem + 5
    ensures SnapSeconds(TotalSeconds(Clock(minutes, units as real / Pow10(2) as real)))
            == Some(minutes * 60000 + units * 10)
  {
    assert Pow10(2) == 100;
    var x := TotalSeconds(Clock(minutes, units as real / 100.0));
    assert x * 100.0 == (minutes * 6000 + units) as real;
    RoundWhole(minutes * 6000 + units);
  }

  /** Zero-padded fixed-point text is made of digits and a point. */
  lemma FixedTextChars(units: nat, width: nat)
    ensures var f := ZeroPad(FormatFixed(units, 2), width);
            forall i :: 0 <= i < |f| ==> IsDecimalChar(f[i])
  {
  }

  // ---------------------------------------------------------------------
  // Clamps

  /** The largest time a typed value may take: the duration, or no limit
      (`Long.MAX_VALUE`) before a duration is known. */
  function DurationLimit(durationMs: int): int {
    if durationMs > 0 then durationMs else LONG_MAX
  }

  /** The start field: the typed start is kept within `[0, min(limit,
      end)]`. */
  function ClampTypedStart(snapped: int, durationMs: int, endMs: int): (r: int)
    requires 0 <= Min(DurationLimit(durationMs), endMs)
    ensures 0 <= r <= endMs && r <= DurationLimit(durationMs)
    ensures 0 <= snapped <= endMs && snapped <= DurationLimit(durationMs) ==> r == snapped
  {
    CoerceIn(snapped, 0, Min(DurationLimit(durationMs), endMs))
  }

  /** The end field: the typed end is kept within `[start, limit]`. */
  function ClampTypedEnd(snapped: int, startMs: int, durationMs: int): (r: int)
    requires startMs <= DurationLimit(durationMs)
    ensures startMs <= r <= DurationLimit(durationMs)
    ensures startMs <= snapped <= DurationLimit(durationMs) ==> r == snapped
  {
    CoerceIn(snapped, startMs, DurationLimit(durationMs))
  }

  /** The slider's upper bound: the duration, or 1000 before one is
      known. */
  function MaxRange(durationMs: int): (r: real)
    ensures r > 0.0
  {
    if durationMs > 0 then durationMs as real else 1000.0
  }

  datatype SliderRange = SliderRange(start: real, end: real)

  /** The range slider: the start is kept within `[0, end]`, then the end
      within `[start, maxRange]`; a range already inside is unchanged. */
  function ClampSliderRange(start: real, end: real, durationMs: int): (r: SliderRange)
    requires 0.0 <= end
    requires start <= MaxRange(durationMs) || end <= MaxRange(durationMs)
    ensures 0.0 <= r.start <= r.end <= MaxRange(durationMs)
    ensures 0.0 <= start <= end <= MaxRange(durationMs) ==> r == SliderRange(start, end)
  {
    var clampedStart := CoerceInReal(start, 0.0, end);
    SliderRange(clampedStart, CoerceInReal(end, clampedStart, MaxRange(durationMs)))
  }

  /** The speed slider: the raw value rounded to tenths, then clamped into
      `[0.1, 4]`. */
  function SnapSpeed(raw: real): (r: real)
    ensures MIN_SPEED <= r <= MAX_SPEED
    ensures (r * 10.0).Floor as real == r * 10.0
  {
    var tenths := SaturateInt(RoundHalfUp(raw * 10.0));
    var snapped := tenths as real / 10.0;
    var r := ClampSpeed(snapped);
    assert r == snapped || r == MIN_SPEED || r == MAX_SPEED;
    assert (snapped * 10.0) == tenths as real;
    r
  }

  /** A snapped speed is a fixed point: snapping it again or clamping it
      as the view model does leaves it as it is, and a raw value in the
      slider's range moves by at most half a tenth. */
  lemma SnapSpeedStable(raw: real)
    ensures ClampSpeed(SnapSpeed(raw)) == SnapSpeed(raw)
    ensures SnapSpeed(SnapSpeed(raw)) == SnapSpeed(raw)
    ensures MIN_SPEED <= raw <= MAX_SPEED ==>
              raw - 0.05 < SnapSpeed(raw) <= raw + 0.05
  {
    var r := SnapSpeed(raw);
    var k := (r * 10.0).Floor;
    assert r * 10.0 == k as real;
    RoundWhole(k);
    assert 1 <= k <= 40;
    assert r == k as real / 10.0;
  }

  // ---------------------------------------------------------------------
  // The screen's calls into the view model

  /** The start field's change handler: a time that reads back is clamped
      and sent with the current end; the end is not moved and the
      selection stays ordered. */
  method OnStartTyped(vm: Session.AudioCutterViewModel, text: string)
    requires vm.Valid() && 0 <= vm.uiState.endMs
    modifies vm`uiState
    ensures vm.Valid()
    ensures SnapToMsAsWritten(text).None? ==> vm.uiState == old(vm.uiState)
    ensures SnapToMsAsWritten(text).Some? ==>
              vm.uiState == old(vm.uiState).(
                startMs := ClampTypedStart(SnapToMsAsWritten(text).value, old(vm.uiState).durationMs,
                                           old(vm.uiState).endMs))
    ensures SnapToMsAsWritten(text).Some? ==> 0 <= vm.uiState.startMs <= vm.uiState.endMs
  {
    var snapped := SnapToMsAsWritten(text);
    if snapped.Some? {
      var safeStart := ClampTypedStart(snapped.value, vm.uiState.durationMs, vm.uiState.endMs);
      WholeMillis(safeStart);
      WholeMillis(vm.uiState.endMs);
      vm.OnRangeChange(safeStart as real, vm.uiState.endMs as real);
    }
  }

  /** The end field's change handler: a time that reads back is clamped
      and sent with the current start; the start is not moved and the
      selection stays ordered within the duration. */
  method OnEndTyped(vm: Session.AudioCutterViewModel, text: string)
    requires vm.Valid() && 0 <= vm.uiState.startMs <= vm.uiState.durationMs
    modifies vm`uiState
    ensures vm.Valid()
    ensures SnapToMsAsWritten(text).None? ==> vm.uiState == old(vm.uiState)
    ensures SnapToMsAsWritten(text).Some? ==>
              vm.uiState == old(vm.uiState).(
                endMs := Min(ClampTypedEnd(SnapToMsAsWritten(text).value, old(vm.uiState).startMs,
                                           old(vm.uiState).durationMs),
                             old(vm.uiState).durationMs))
    ensures SnapToMsAsWritten(text).Some? ==> 0 <= vm.uiState.startMs <= vm.uiState.endMs <= vm.uiState.durationMs
  {
    var snapped := SnapToMsAsWritten(text);
    if snapped.Some? {
      var safeEnd := ClampTypedEnd(snapped.value, vm.uiState.startMs, vm.uiState.durationMs);
      WholeMillis(vm.uiState.startMs);
      WholeMillis(safeEnd);
      vm.OnRangeChange(vm.uiState.startMs as real, safeEnd as real);
    }
  }

  /** The range slider's change handler. */
  method OnSliderMoved(vm: Session.AudioCutterViewModel, start: real, end: real)
    requires vm.Valid() && 0.0 <= end
    requires start <= MaxRange(vm.uiState.durationMs) || end <= MaxRange(vm.uiState.durationMs)
    modifies vm`uiState
    ensures vm.Valid()
    ensures var r := ClampSliderRange(start, end, old(vm.uiState).durationMs);
            vm.uiState == old(vm.uiState).(startMs := TruncToLong(r.start),
                                            endMs := Min(TruncToLong(r.end), old(vm.uiState).durationMs))
    ensures vm.uiState.durationMs > 0 ==> 0 <= vm.uiState.startMs <= vm.uiState.endMs <= vm.uiState.durationMs
  {
    var r := ClampSliderRange(start, end, vm.uiState.durationMs);
    vm.OnRangeChange(r.start, r.end);
  }

  /** The speed slider's change handler: the view model ends up holding
      the snapped speed itself. */
  method OnSpeedSliderMoved(vm: Session.AudioCutterViewModel, raw: real)
    requires vm.Valid()
    modifies vm`uiState
    ensures vm.Valid()
    ensures vm.uiState == old(vm.uiState).(speed := SnapSpeed(raw))
  {
    SnapSpeedStable(raw);
    vm.UpdateSpeed(SnapSpeed(raw));
  }

  /** A whole number of milliseconds is unchanged by `toLong()`. */
  lemma WholeMillis(n: int)
    requires IsLong(n)
    ensures TruncToLong(n as real) == n
  {
  }
}
