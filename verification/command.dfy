/** The trim side of the audio processor: the time-range check, the seek and
    duration arithmetic, the tempo filter chain, the per-format codec
    arguments, and the command line handed to the media engine. */
module TrimCommand {
  import opened Wrappers
  import opened Numerics
  import opened Decimal
  import opened Formats

  // ---------------------------------------------------------------------
  // Command line: quoting and joining

  /** `quoteIfNeeded`: an argument holding a space is wrapped in double
      quotes; any other is left as it is. */
  function Quote(arg: string): (r: string)
    ensures ' ' !in arg ==> r == arg
    ensures ' ' in arg ==> |r| == |arg| + 2 && r[0] == '"' && r[|r| - 1] == '"'
  {
    if ' ' in arg then "\"" + arg + "\"" else arg
  }

  function QuoteAll(args: seq<string>): (r: seq<string>)
    ensures |r| == |args|
    ensures forall i :: 0 <= i < |args| ==> r[i] == Quote(args[i])
  {
    seq(|args|, i requires 0 <= i < |args| => Quote(args[i]))
  }

  /** `joinToString(sep)`: no parts give the empty text; otherwise the
      text starts with the first part and ends with the last. */
  function Join(parts: seq<string>, sep: string): (r: string)
    ensures |parts| == 0 ==> r == ""
    ensures |parts| >= 1 ==> |r| >= |parts[0]| && r[..|parts[0]|] == parts[0]
    ensures |parts| >= 1 ==> |r| >= |parts[|parts| - 1]| && r[|r| - |parts[|parts| - 1]|..] == parts[|parts| - 1]
  {
    if |parts| == 0 then ""
    else if |parts| == 1 then parts[0]
    else
      var rest := Join(parts[1..], sep);
      assert (parts[0] + sep + rest)[..|parts[0]|] == parts[0];
      assert (parts[0] + sep + rest)[|parts[0] + sep + rest| - |parts[|parts| - 1]|..]
             == rest[|rest| - |parts[|parts| - 1]|..];
      parts[0] + sep + rest
  }

  /** The single string the media engine is invoked with: when no argument
      holds a space, the arguments joined by single spaces. */
  function CommandLine(args: seq<string>): (r: string)
    ensures (forall i :: 0 <= i < |args| ==> ' ' !in args[i]) ==> r == Join(args, " ")
  {
    assert (forall i :: 0 <= i < |args| ==> ' ' !in args[i]) ==> QuoteAll(args) == args;
    Join(QuoteAll(args), " ")
  }

  /** A reference reader of a command line: it splits on spaces outside
      double quotes and drops the quote characters themselves. `cur` is the
      argument read so far and `quoted` says whether a quote is open. */
  function Tokens(s: string, cur: string, quoted: bool): seq<string>
    decreases |s|
  {
    if s == [] then (if cur == [] then [] else [cur])
    else if s[0] == '"' then Tokens(s[1..], cur, !quoted)
    else if s[0] == ' ' && !quoted then
      (if cur == [] then [] else [cur]) + Tokens(s[1..], [], false)
    else Tokens(s[1..], cur + [s[0]], quoted)
  }

  /** An argument the reader gives back unchanged: not empty and free of
      double quotes. */
  predicate PlainArgument(a: string) {
    a != [] && '"' !in a
  }

  /** Characters that are neither quotes nor (outside quotes) spaces are
      simply appended to the argument being read. */
  lemma {:induction false} TokensAbsorb(w: string, rest: string, cur: string, quoted: bool)
    requires '"' !in w && (quoted || ' ' !in w)
    ensures Tokens(w + rest, cur, quoted) == Tokens(rest, cur + w, quoted)
    decreases |w|
  {
    if w == [] {
      assert w + rest == rest;
      assert cur + w == cur;
    } else {
      assert (w + rest)[0] == w[0];
      assert (w + rest)[1..] == w[1..] + rest;
      TokensAbsorb(w[1..], rest, cur + [w[0]], quoted);
      assert cur + [w[0]] + w[1..] == cur + w;
    }
  }

  /** Reading one quoted-if-needed argument yields exactly that argument. */
  lemma TokensOfQuote(a: string, rest: string)
    requires PlainArgument(a)
    ensures Tokens(Quote(a) + rest, [], false)
            == if rest == [] then [a] else Tokens(rest, a, false)
  {
    if ' ' in a {
      var q := "\"" + a + "\"";
      assert (q + rest)[0] == '"';
      assert (q + rest)[1..] == a + ("\"" + rest);
      TokensAbsorb(a, "\"" + rest, [], true);
      assert [] + a == a;
      assert ("\"" + rest)[0] == '"';
      assert ("\"" + rest)[1..] == rest;
      if rest == [] {
        assert Tokens([], a, false) == [a];
      }
    } else {
      TokensAbsorb(a, rest, [], false);
      assert [] + a == a;
      if rest == [] {
        assert a + rest == a;
      }
    }
  }

  lemma TokensAfterSpace(a: string, rest: string)
    requires a != []
    ensures Tokens(" " + rest, a, false) == [a] + Tokens(rest, [], false)
  {
    assert (" " + rest)[1..] == rest;
  }

  /** The command line reads back as the argument list it was built from,
      as long as every argument is plain. */
  lemma {:induction false} CommandLineReadsBack(args: seq<string>)
    requires AllPlain(args)
    ensures Tokens(CommandLine(args), [], false) == args
    decreases |args|
  {
    if args == [] {
      ReadEmpty(args);
    } else if |args| == 1 {
      ReadSingle(args);
    } else {
      PlainTail(args);
      CommandLineReadsBack(args[1..]);
      ReadCons(args);
    }
  }

  lemma ReadEmpty(args: seq<string>)
    requires args == []
    ensures Tokens(CommandLine(args), [], false) == args
  {
    assert CommandLine(args) == "";
  }

  lemma PlainTail(args: seq<string>)
    requires |args| >= 1 && AllPlain(args)
    ensures PlainArgument(args[0]) && AllPlain(args[1..])
  {
    assert forall i :: 0 <= i < |args| - 1 ==> args[1..][i] == args[i + 1];
  }

  /** Once the later arguments read back, so does the whole list. */
  lemma ReadCons(args: seq<string>)
    requires |args| >= 2 && PlainArgument(args[0])
    requires Tokens(CommandLine(args[1..]), [], false) == args[1..]
    ensures Tokens(CommandLine(args), [], false) == args
  {
    ReadFirst(args);
    HeadAndTail(args, Tokens(CommandLine(args), [], false), Tokens(CommandLine(args[1..]), [], false));
  }

  lemma HeadAndTail<T>(xs: seq<T>, whole: seq<T>, tail: seq<T>)
    requires |xs| >= 1 && whole == [xs[0]] + tail && tail == xs[1..]
    ensures whole == xs
  {
  }

  lemma ReadSingle(args: seq<string>)
    requires |args| == 1 && PlainArgument(args[0])
    ensures Tokens(CommandLine(args), [], false) == args
  {
    assert CommandLine(args) == Quote(args[0]);
    ReadLastArgument(args[0]);
  }

  /** The first argument is read back in front of the others. */
  lemma ReadFirst(args: seq<string>)
    requires |args| >= 2 && PlainArgument(args[0])
    ensures Tokens(CommandLine(args), [], false) == [args[0]] + Tokens(CommandLine(args[1..]), [], false)
  {
    CommandLineCons(args);
    ReadFirstArgument(args[0], CommandLine(args[1..]));
  }

  lemma ReadLastArgument(a: string)
    requires PlainArgument(a)
    ensures Tokens(Quote(a), [], false) == [a]
  {
    TokensOfQuote(a, []);
    assert Quote(a) + [] == Quote(a);
  }

  lemma ReadFirstArgument(a: string, tail: string)
    requires PlainArgument(a)
    ensures Tokens(Quote(a) + (" " + tail), [], false) == [a] + Tokens(tail, [], false)
  {
    TokensOfQuote(a, " " + tail);
    TokensAfterSpace(a, tail);
  }

  /** A command line of two or more arguments is the first one, quoted if
      need be, a space, and the command line of the others. */
  lemma CommandLineCons(args: seq<string>)
    requires |args| >= 2
    ensures CommandLine(args) == Quote(args[0]) + (" " + CommandLine(args[1..]))
  {
    var q := QuoteAll(args);
    assert q[1..] == QuoteAll(args[1..]);
    assert Join(q, " ") == q[0] + " " + Join(q[1..], " ");
  }

  // ---------------------------------------------------------------------
  // Codec arguments

  /** The encoder each container is produced with. */
  function EncoderName(format: OutputFormat): string {
    match format
    case MP3 => "libmp3lame"
    case M4A => "aac"
    case OGG => "libvorbis"
    case FLAC => "flac"
    case WAV => "pcm_s16le"
  }

  /** The bit-rate argument of a preset: its kilobits per second, then `k`. */
  function BitrateText(quality: QualityPreset): string {
    DigitsOf(quality.BitrateKbps()) + "k"
  }

  /** `codecArgs`: the encoder for every container; a bit rate for the lossy
      ones only; and the fast-start flag for M4A alone. */
  function CodecArgs(format: OutputFormat, quality: QualityPreset): (r: seq<string>)
    ensures |r| >= 2 && r[0] == "-c:a" && r[1] == EncoderName(format)
    ensures ("-b:a" in r) <==> format.IsLossy()
    ensures format.IsLossy() ==> |r| >= 4 && r[2] == "-b:a" && r[3] == BitrateText(quality)
    ensures ("-movflags" in r) <==> format == M4A
    ensures |r| == (if format == M4A then 6 else if format.IsLossy() then 4 else 2)
  {
    var bitrate := BitrateText(quality);
    match format
    case MP3 => ["-c:a", "libmp3lame", "-b:a", bitrate]
    case M4A => ["-c:a", "aac", "-b:a", bitrate, "-movflags", "+faststart"]
    case OGG => ["-c:a", "libvorbis", "-b:a", bitrate]
    case FLAC => ["-c:a", "flac"]
    case WAV => ["-c:a", "pcm_s16le"]
  }

  /** The bit-rate argument reads back as the preset's kilobits per
      second. */
  lemma BitrateReadsBack(quality: QualityPreset)
    ensures var t := BitrateText(quality);
            |t| >= 2 && t[|t| - 1] == 'k' && ParseLong(t[..|t| - 1]) == Some(quality.BitrateKbps())
  {
    var d := DigitsOf(quality.BitrateKbps());
    assert BitrateText(quality)[..|d|] == d;
    ValueOfDigitsOf(quality.BitrateKbps());
    ParseDigitsAsLong(d);
  }

  // ---------------------------------------------------------------------
  // Seek and duration

  /** `max(0.0, startMs / 1000.0)`. */
  function SeekSeconds(startMs: int): real {
    RealMax(0.0, startMs as real / 1000.0)
  }

  /** `max(0.1, (endMs - startMs) / 1000.0)`, where the difference of the
      two `Long` times is itself a `Long` and wraps around. */
  function DurationSeconds(startMs: int, endMs: int): real {
    RealMax(0.1, WrapLong(endMs - startMs) as real / 1000.0)
  }

  /** `format2`: three fraction digits. */
  function SecondsText(x: real): string {
    FixedText(x, 3)
  }

  lemma Pow10Three()
    ensures Pow10(3) == 1000
  {
    assert Pow10(1) == 10;
    assert Pow10(2) == 100;
  }

  lemma SeekIsWholeMillis(startMs: int)
    ensures SeekSeconds(startMs) == Max(0, startMs) as real / 1000.0
  {
  }

  lemma DurationIsWholeMillis(startMs: int, endMs: int)
    ensures DurationSeconds(startMs, endMs) == Max(100, WrapLong(endMs - startMs)) as real / 1000.0
  {
  }

  /** The seek argument is the start offset in whole milliseconds, written
      with three decimals, and reads back as exactly the seek in seconds. */
  lemma SeekTextExact(startMs: int)
    ensures SecondsText(SeekSeconds(startMs)) == FormatFixed(Max(0, startMs), 3)
    ensures ParseDecimal(SecondsText(SeekSeconds(startMs))) == Some(SeekSeconds(startMs))
  {
    Pow10Three();
    SeekIsWholeMillis(startMs);
    ParseFixedText(SeekSeconds(startMs), 3, Max(0, startMs));
  }

  /** The duration argument is the clip length in whole milliseconds (the
      `Long` difference of the two times, wrapped), at least 100, written
      with three decimals, and reads back exactly. When the exact
      difference fits in a `Long` it is the clip length itself. */
  lemma DurationTextExact(startMs: int, endMs: int)
    ensures SecondsText(DurationSeconds(startMs, endMs))
            == FormatFixed(Max(100, WrapLong(endMs - startMs)), 3)
    ensures IsLong(endMs - startMs) ==>
              SecondsText(DurationSeconds(startMs, endMs)) == FormatFixed(Max(100, endMs - startMs), 3)
    ensures ParseDecimal(SecondsText(DurationSeconds(startMs, endMs)))
            == Some(DurationSeconds(startMs, endMs))
  {
    Pow10Three();
    DurationIsWholeMillis(startMs, endMs);
    ParseFixedText(DurationSeconds(startMs, endMs), 3, Max(100, WrapLong(endMs - startMs)));
  }


  // ---------------------------------------------------------------------
  // Tempo filter chain

  function RealAbs(x: real): real { if x < 0.0 then -x else x }

  /** A clamped speed this close to 1 needs no tempo filter. */
  predicate NearOne(c: real) {
    RealAbs(c - 1.0) < 0.01
  }

  lemma FloorOfHalf(f: real)
    requires f > 2.0
    ensures 0 <= (f / 2.0).Floor < f.Floor
  {
  }

  lemma FloorOfReciprocal(f: real)
    requires 0.0 < f < 0.5
    ensures 0 <= (1.0 / (f / 0.5)).Floor < (1.0 / f).Floor
  {
    assert 1.0 / (f / 0.5) == (1.0 / f) / 2.0;
  }

  /** The stages the two loops of `buildAtempoFilters` emit for a positive
      factor: halve while above 2, double while below 0.5, then the rest. */
  function StagesFrom(f: real): (r: seq<real>)
    requires f > 0.0
    ensures |r| >= 1 && AllStagesInRange(r)
    decreases if f > 2.0 then f.Floor else 0, if f < 0.5 then (1.0 / f).Floor else 0
  {
    HalfTimesTwo(f);
    if f > 2.0 then
      FloorOfHalf(f);
      var rest := StagesFrom(f / 2.0);
      assert ([2.0] + rest)[1..] == rest;
      [2.0] + rest
    else if f < 0.5 then
      FloorOfReciprocal(f);
      var rest := StagesFrom(f / 0.5);
      assert ([0.5] + rest)[1..] == rest;
      [0.5] + rest
    else [f]
  }

  /** The tempo stages for a requested speed: none near 1, otherwise the
      stages of the clamped speed. */
  function AtempoStages(speed: real): (r: seq<real>)
    ensures r == [] <==> NearOne(ClampSpeed(speed))
    ensures r != [] ==> Product(r) == ClampSpeed(speed) && AllStagesInRange(r)
  {
    var c := ClampSpeed(speed);
    if NearOne(c) then [] else StagesProduct(c); StagesFrom(c)
  }

  function Product(s: seq<real>): real {
    if s == [] then 1.0 else s[0] * Product(s[1..])
  }

  predicate AllStagesInRange(s: seq<real>) {
    forall i :: 0 <= i < |s| ==> 0.5 <= s[i] <= 2.0
  }

  /** Every stage but the last equals `x`. */
  predicate LeadingStagesAre(s: seq<real>, x: real) {
    forall i :: 0 <= i < |s| - 1 ==> s[i] == x
  }

  lemma HalfTimesTwo(f: real)
    ensures 2.0 * (f / 2.0) == f && 0.5 * (f / 0.5) == f
  {
  }

  /** The stages multiply back to the factor they were cut from. */
  lemma {:induction false} StagesProduct(f: real)
    requires f > 0.0
    ensures Product(StagesFrom(f)) == f
    decreases if f > 2.0 then f.Floor else 0, if f < 0.5 then (1.0 / f).Floor else 0
  {
    var s := StagesFrom(f);
    HalfTimesTwo(f);
    if f > 2.0 {
      FloorOfHalf(f);
      StagesProduct(f / 2.0);
      assert s[1..] == StagesFrom(f / 2.0);
    } else if f < 0.5 {
      FloorOfReciprocal(f);
      StagesProduct(f / 0.5);
      assert s[1..] == StagesFrom(f / 0.5);
    }
  }

  /** What the two loops guarantee: the stages multiply back to the factor,
      each lies in the engine's range [0.5, 2.0], the leading stages are all
      2.0 (factor above 2) or all 0.5 (factor below 0.5), and the last one is
      left on the near side of 1 so no stage is wasted. */
  lemma {:induction false} StagesFromChain(f: real)
    requires f > 0.0
    ensures 0.5 <= f <= 2.0 ==> StagesFrom(f) == [f]
    ensures f > 2.0 ==> LeadingStagesAre(StagesFrom(f), 2.0) && Last(StagesFrom(f)) > 1.0
    ensures f < 0.5 ==> LeadingStagesAre(StagesFrom(f), 0.5) && Last(StagesFrom(f)) < 1.0
    decreases if f > 2.0 then f.Floor else 0, if f < 0.5 then (1.0 / f).Floor else 0
  {
    var s := StagesFrom(f);
    HalfTimesTwo(f);
    if f > 2.0 {
      FloorOfHalf(f);
      StagesFromChain(f / 2.0);
      assert s[1..] == StagesFrom(f / 2.0);
    } else if f < 0.5 {
      FloorOfReciprocal(f);
      StagesFromChain(f / 0.5);
      assert s[1..] == StagesFrom(f / 0.5);
    }
  }

  function Last(s: seq<real>): real
    requires |s| >= 1
  {
    s[|s| - 1]
  }

  /** The tempo-chain property: no stage when the clamped speed is within
      0.01 of 1, otherwise stages in [0.5, 2.0] whose product is the clamped
      speed, never mixing 2.0 and 0.5 among the leading stages. */
  lemma AtempoStagesChain(speed: real)
    ensures var c := ClampSpeed(speed);
            var s := AtempoStages(speed);
            && (s == [] <==> NearOne(c))
            && (s != [] ==> Product(s) == c && AllStagesInRange(s))
            && (s != [] ==> LeadingStagesAre(s, 2.0) || LeadingStagesAre(s, 0.5))
  {
    var c := ClampSpeed(speed);
    if !NearOne(c) {
      StagesFromChain(c);
      assert LeadingStagesAre([c], 2.0);
    }
  }

  /** One `atempo=<x>` stage, with two fraction digits. */
  function StageText(x: real): (r: string)
    ensures |r| >= 11 && r[..7] == "atempo=" && r[|r| - 3] == '.'
    ensures r[7] == '-' <==> x < 0.0
  {
    var t := FixedText(x, 2);
    assert ("atempo=" + t)[..7] == "atempo=";
    "atempo=" + t
  }

  /** After its prefix a stage text reads back as the factor rounded half
      away from zero to two decimals. */
  lemma StageTextReadsBack(x: real)
    ensures ParseDecimal(StageText(x)[7..]) == Some(RoundedAway(x, 2))
  {
    FixedTextReadsBack(x, 2);
    PrefixReadsBack(FixedText(x, 2), StageText(x), RoundedAway(x, 2));
  }

  lemma PrefixReadsBack(t: string, r: string, v: real)
    requires r == "atempo=" + t && ParseDecimal(t) == Some(v)
    ensures ParseDecimal(r[7..]) == Some(v)
  {
    assert r[7..] == t;
  }

  /** The filter argument: the stages joined by commas. */
  function ChainText(stages: seq<real>): (r: string)
    ensures r == "" <==> stages == []
  {
    var parts := seq(|stages|, i requires 0 <= i < |stages| => StageText(stages[i]));
    Join(parts, ",")
  }

  /** One pass of the halving loop keeps the emitted stages a prefix of the
      whole chain. */
  lemma HalvingStep(done: seq<real>, f: real, c: real)
    requires c > 0.0 && f > 2.0 && done + StagesFrom(f) == StagesFrom(c)
    ensures f / 2.0 > 0.0 && |StagesFrom(f / 2.0)| < |StagesFrom(f)|
    ensures (done + [2.0]) + StagesFrom(f / 2.0) == StagesFrom(c)
  {
    FloorOfHalf(f);
    assert StagesFrom(f) == [2.0] + StagesFrom(f / 2.0);
    assert (done + [2.0]) + StagesFrom(f / 2.0) == done + ([2.0] + StagesFrom(f / 2.0));
  }

  /** One pass of the doubling loop keeps the emitted stages a prefix of the
      whole chain. */
  lemma DoublingStep(done: seq<real>, f: real, c: real)
    requires c > 0.0 && 0.0 < f < 0.5 && done + StagesFrom(f) == StagesFrom(c)
    ensures 0.0 < f / 0.5 <= 2.0
    ensures |StagesFrom(f / 0.5)| < |StagesFrom(f)|
    ensures (done + [0.5]) + StagesFrom(f / 0.5) == StagesFrom(c)
  {
    FloorOfReciprocal(f);
    assert StagesFrom(f) == [0.5] + StagesFrom(f / 0.5);
    assert (done + [0.5]) + StagesFrom(f / 0.5) == done + ([0.5] + StagesFrom(f / 0.5));
  }

  /** `buildAtempoFilters`: clamps the speed, returns no filter near 1, and
      otherwise halves or doubles the factor, emitting one stage per step,
      then the remainder. */
  method BuildAtempoFilters(speed: real) returns (chain: string)
    ensures chain == ChainText(AtempoStages(speed))
    ensures chain == "" <==> NearOne(ClampSpeed(speed))
  {
    var clamped := ClampSpeed(speed);
    if NearOne(clamped) {
      return "";
    }
    var filters: seq<real> := [];
    var factor := clamped;
    while factor > 2.0
      invariant factor > 0.0
      invariant filters + StagesFrom(factor) == StagesFrom(clamped)
      decreases |StagesFrom(factor)|
    {
      HalvingStep(filters, factor, clamped);
      filters := filters + [2.0];
      factor := factor / 2.0;
    }
    while factor < 0.5
      invariant 0.0 < factor <= 2.0
      invariant filters + StagesFrom(factor) == StagesFrom(clamped)
      decreases |StagesFrom(factor)|
    {
      DoublingStep(filters, factor, clamped);
      filters := filters + [0.5];
      factor := factor / 0.5;
    }
    assert StagesFrom(factor) == [factor];
    filters := filters + [factor];
    assert filters == AtempoStages(speed);
    chain := ChainText(filters);
  }

  // ---------------------------------------------------------------------
  // The trim command

  /** `-filter:a <chain>` when there is a chain, nothing otherwise. */
  function FilterArgs(chain: string): seq<string> {
    if chain == "" then [] else ["-filter:a", chain]
  }

  /** The argument list of a trim, in the order the engine expects it:
      seek and duration before the input (input seeking), no video, the
      tempo filter with the stage chain exactly when the speed is not
      near 1, the codec
      arguments, overwrite, output. The seek and the duration are whole
      milliseconds written with three decimals. */
  function TrimArgumentList(startMs: int, endMs: int, inputPath: string, outputPath: string,
                            format: OutputFormat, quality: QualityPreset, speed: real): (r: seq<string>)
    ensures |r| >= 10 && r[0] == "-ss" && r[2] == "-t" && r[4] == "-i" && r[5] == inputPath && r[6] == "-vn"
    ensures r[1] == FormatFixed(Max(0, startMs), 3)
    ensures r[3] == FormatFixed(Max(100, WrapLong(endMs - startMs)), 3)
    ensures r[7] == "-filter:a" <==> !NearOne(ClampSpeed(speed))
    ensures !NearOne(ClampSpeed(speed)) ==> r[8] == ChainText(AtempoStages(speed))
    ensures |r| == 9 + |FilterArgs(ChainText(AtempoStages(speed)))| + |CodecArgs(format, quality)|
    ensures var codec := CodecArgs(format, quality);
            r[|r| - 2 - |codec|..|r| - 2] == codec && r[|r| - 2] == "-y" && r[|r| - 1] == outputPath
  {
    var r := ["-ss", SecondsText(SeekSeconds(startMs))] + ["-t", SecondsText(DurationSeconds(startMs, endMs))]
             + ["-i", inputPath] + ["-vn"] + FilterArgs(ChainText(AtempoStages(speed)))
             + CodecArgs(format, quality) + ["-y"] + [outputPath];
    ArgumentListLayout(startMs, endMs, inputPath, outputPath, format, quality, speed, r);
    r
  }

  /** The layout of the assembled argument list, group by group. */
  lemma ArgumentListLayout(startMs: int, endMs: int, inputPath: string, outputPath: string,
                           format: OutputFormat, quality: QualityPreset, speed: real, r: seq<string>)
    requires r == ["-ss", SecondsText(SeekSeconds(startMs))] + ["-t", SecondsText(DurationSeconds(startMs, endMs))]
                  + ["-i", inputPath] + ["-vn"] + FilterArgs(ChainText(AtempoStages(speed)))
                  + CodecArgs(format, quality) + ["-y"] + [outputPath]
    ensures |r| >= 10 && r[0] == "-ss" && r[2] == "-t" && r[4] == "-i" && r[5] == inputPath && r[6] == "-vn"
    ensures r[1] == FormatFixed(Max(0, startMs), 3)
    ensures r[3] == FormatFixed(Max(100, WrapLong(endMs - startMs)), 3)
    ensures r[7] == "-filter:a" <==> !NearOne(ClampSpeed(speed))
    ensures !NearOne(ClampSpeed(speed)) ==> r[8] == ChainText(AtempoStages(speed))
    ensures |r| == 9 + |FilterArgs(ChainText(AtempoStages(speed)))| + |CodecArgs(format, quality)|
    ensures var codec := CodecArgs(format, quality);
            r[|r| - 2 - |codec|..|r| - 2] == codec && r[|r| - 2] == "-y" && r[|r| - 1] == outputPath
  {
    var seek := SecondsText(SeekSeconds(startMs));
    var duration := SecondsText(DurationSeconds(startMs, endMs));
    var filter := FilterArgs(ChainText(AtempoStages(speed)));
    var codec := CodecArgs(format, quality);
    TimeTexts(startMs, endMs);
    FilterPresent(speed);
    GroupsLayout(seek, duration, inputPath, filter, codec, outputPath, r);
  }

  /** The seek and duration texts in whole milliseconds. */
  lemma TimeTexts(startMs: int, endMs: int)
    ensures SecondsText(SeekSeconds(startMs)) == FormatFixed(Max(0, startMs), 3)
    ensures SecondsText(DurationSeconds(startMs, endMs)) == FormatFixed(Max(100, WrapLong(endMs - startMs)), 3)
  {
    SeekIsWholeMillis(startMs);
    MillisText(SeekSeconds(startMs), Max(0, startMs));
    DurationIsWholeMillis(startMs, endMs);
    MillisText(DurationSeconds(startMs, endMs), Max(100, WrapLong(endMs - startMs)));
  }

  /** Whole milliseconds in seconds are written by `format2` as the
      millisecond count with the point three places from the end. */
  lemma MillisText(x: real, ms: nat)
    requires x == ms as real / 1000.0
    ensures SecondsText(x) == FormatFixed(ms, 3)
  {
    Pow10Three();
    FixedTextExact(x, 3, ms);
  }

  /** The filter group is `-filter:a` and its chain exactly when the speed
      is not near 1. */
  lemma FilterPresent(speed: real)
    ensures var filter := FilterArgs(ChainText(AtempoStages(speed)));
            && (filter == [] <==> NearOne(ClampSpeed(speed)))
            && (filter == [] || (|filter| == 2 && filter[0] == "-filter:a"))
  {
  }

  /** Where each group of a trim's arguments lands in the whole list. */
  lemma GroupsLayout(seek: string, duration: string, inputPath: string, filter: seq<string>,
                     codec: seq<string>, outputPath: string, r: seq<string>)
    requires filter == [] || (|filter| == 2 && filter[0] == "-filter:a")
    requires |codec| >= 2 && codec[0] == "-c:a"
    requires r == ["-ss", seek] + ["-t", duration] + ["-i", inputPath] + ["-vn"]
                  + filter + codec + ["-y"] + [outputPath]
    ensures |r| >= 10 && r[0] == "-ss" && r[1] == seek && r[2] == "-t" && r[3] == duration
            && r[4] == "-i" && r[5] == inputPath && r[6] == "-vn"
    ensures r[7] == "-filter:a" <==> filter != []
    ensures filter != [] ==> r[8] == filter[1]
    ensures |r| == 9 + |filter| + |codec|
    ensures r[|r| - 2 - |codec|..|r| - 2] == codec && r[|r| - 2] == "-y" && r[|r| - 1] == outputPath
  {
    var head := ["-ss", seek, "-t", duration, "-i", inputPath, "-vn"];
    assert ["-ss", seek] + ["-t", duration] + ["-i", inputPath] + ["-vn"] == head;
    assert r == head + filter + codec + ["-y"] + [outputPath];
    assert r[|r| - 2 - |codec|..|r| - 2] == codec;
  }

  lemma TrimArgumentsUnfold(startMs: int, endMs: int, inputPath: string, outputPath: string,
                            format: OutputFormat, quality: QualityPreset, speed: real, parts: seq<string>)
    requires parts == ["-ss", SecondsText(SeekSeconds(startMs))] + ["-t", SecondsText(DurationSeconds(startMs, endMs))]
                      + ["-i", inputPath] + ["-vn"] + FilterArgs(ChainText(AtempoStages(speed)))
                      + CodecArgs(format, quality) + ["-y"] + [outputPath]
    ensures parts == TrimArgumentList(startMs, endMs, inputPath, outputPath, format, quality, speed)
  {
  }

  /** What the processor needs from the world it cannot see: whether the
      source can be opened, where the scratch copy and the output go, and
      how the engine run ends. */
  datatype TrimEnvironment = TrimEnvironment(
    sourceReadable: bool,
    inputCopyPath: string,
    outputPath: string,
    engineSucceeded: bool,
    engineLog: string,
    outputExists: bool)

  datatype TrimError =
    | InvalidRange          // "End time must be greater than start time"
    | SourceUnavailable     // "Cannot open source file."
    | EngineFailed(log: string)
    | OutputMissing         // "Output file not created"

  /** The outcome of a trim and the argument list the engine was invoked
      with, if it was invoked at all. */
  datatype TrimOutcome = TrimOutcome(result: Result<string, TrimError>, engineArgs: Option<seq<string>>)

  /** `trimAudio`: checks the range before anything else, copies the source,
      builds the argument list step by step, runs the engine once, and
      reports the output or the first failure. */
  method TrimAudio(startMs: int, endMs: int, format: OutputFormat, quality: QualityPreset,
                   speed: real, env: TrimEnvironment) returns (outcome: TrimOutcome)
    requires IsLong(startMs) && IsLong(endMs)
    ensures endMs <= startMs ==> outcome == TrimOutcome(Failure(InvalidRange), None)
    ensures endMs > startMs && !env.sourceReadable
            ==> outcome == TrimOutcome(Failure(SourceUnavailable), None)
    ensures endMs > startMs && env.sourceReadable ==>
            && outcome.engineArgs
               == Some(TrimArgumentList(startMs, endMs, env.inputCopyPath, env.outputPath,
                                        format, quality, speed))
            && outcome.result
               == (if !env.engineSucceeded then Failure(EngineFailed(env.engineLog))
                   else if !env.outputExists then Failure(OutputMissing)
                   else Success(env.outputPath))
  {
    if endMs <= startMs {
      return TrimOutcome(Failure(InvalidRange), None);
    }
    if !env.sourceReadable {
      return TrimOutcome(Failure(SourceUnavailable), None);
    }
    var durationSec := DurationSeconds(startMs, endMs);
    var startSec := SeekSeconds(startMs);
    var atempoFilter := BuildAtempoFilters(speed);

    var cmdParts: seq<string> := [];
    cmdParts := cmdParts + ["-ss", SecondsText(startSec)];
    assert cmdParts == ["-ss", SecondsText(startSec)];
    cmdParts := cmdParts + ["-t", SecondsText(durationSec)];
    cmdParts := cmdParts + ["-i", env.inputCopyPath];
    cmdParts := cmdParts + ["-vn"];
    ghost var beforeFilter := cmdParts;
    if atempoFilter != "" {
      cmdParts := cmdParts + ["-filter:a", atempoFilter];
    }
    assert cmdParts == beforeFilter + FilterArgs(atempoFilter);
    var codec := CodecArgs(format, quality);
    cmdParts := cmdParts + codec;
    cmdParts := cmdParts + ["-y"];
    cmdParts := cmdParts + [env.outputPath];
    TrimArgumentsUnfold(startMs, endMs, env.inputCopyPath, env.outputPath, format, quality, speed, cmdParts);

    var result: Result<string, TrimError>;
    if !env.engineSucceeded {
      result := Failure(EngineFailed(env.engineLog));
    } else if !env.outputExists {
      result := Failure(OutputMissing);
    } else {
      result := Success(env.outputPath);
    }
    outcome := TrimOutcome(result, Some(cmdParts));
  }

  /** Every argument of a trim command is plain except, possibly, the two
      paths, so the engine reads back the exact list whenever the paths are
      plain. */
  lemma TrimCommandReadsBack(startMs: int, endMs: int, inputPath: string, outputPath: string,
                             format: OutputFormat, quality: QualityPreset, speed: real)
    requires PlainArgument(inputPath) && PlainArgument(outputPath)
    ensures var args := TrimArgumentList(startMs, endMs, inputPath, outputPath, format, quality, speed);
            Tokens(CommandLine(args), [], false) == args
  {
    TrimArgumentsPlain(startMs, endMs, inputPath, outputPath, format, quality, speed);
    CommandLineReadsBack(TrimArgumentList(startMs, endMs, inputPath, outputPath, format, quality, speed));
  }

  /** Every argument of a trim is plain when the two paths are. */
  lemma TrimArgumentsPlain(startMs: int, endMs: int, inputPath: string, outputPath: string,
                           format: OutputFormat, quality: QualityPreset, speed: real)
    requires PlainArgument(inputPath) && PlainArgument(outputPath)
    ensures AllPlain(TrimArgumentList(startMs, endMs, inputPath, outputPath, format, quality, speed))
  {
    var seek := SecondsText(SeekSeconds(startMs));
    var duration := SecondsText(DurationSeconds(startMs, endMs));
    var chain := ChainText(AtempoStages(speed));
    SecondsTextPlain(SeekSeconds(startMs));
    SecondsTextPlain(DurationSeconds(startMs, endMs));
    ChainTextPlain(AtempoStages(speed));
    CodecArgsPlain(format, quality);
    FilterArgsPlain(chain);
    GroupsPlain(seek, duration, inputPath, FilterArgs(chain), CodecArgs(format, quality), outputPath);
  }

  lemma FilterArgsPlain(chain: string)
    requires '"' !in chain
    ensures AllPlain(FilterArgs(chain))
  {
  }

  /** The argument groups of a trim, appended in order, stay plain when each
      of their variable parts is. */
  lemma GroupsPlain(seek: string, duration: string, inputPath: string, filter: seq<string>,
                    codec: seq<string>, outputPath: string)
    requires PlainArgument(seek) && PlainArgument(duration)
    requires PlainArgument(inputPath) && PlainArgument(outputPath)
    requires AllPlain(filter) && AllPlain(codec)
    ensures AllPlain(["-ss", seek] + ["-t", duration] + ["-i", inputPath] + ["-vn"]
                     + filter + codec + ["-y"] + [outputPath])
  {
    var args := ["-ss", seek];
    AllPlainConcat(args, ["-t", duration]);
    args := args + ["-t", duration];
    AllPlainConcat(args, ["-i", inputPath]);
    args := args + ["-i", inputPath];
    AllPlainConcat(args, ["-vn"]);
    args := args + ["-vn"];
    AllPlainConcat(args, filter);
    args := args + filter;
    AllPlainConcat(args, codec);
    args := args + codec;
    AllPlainConcat(args, ["-y"]);
    args := args + ["-y"];
    AllPlainConcat(args, [outputPath]);
  }

  predicate AllPlain(args: seq<string>) {
    forall i :: 0 <= i < |args| ==> PlainArgument(args[i])
  }

  lemma AllPlainConcat(a: seq<string>, b: seq<string>)
    requires AllPlain(a) && AllPlain(b)
    ensures AllPlain(a + b)
  {
  }

  lemma CodecArgsPlain(format: OutputFormat, quality: QualityPreset)
    ensures AllPlain(CodecArgs(format, quality))
  {
    BitratePlain(quality);
  }

  lemma DigitsPlain(s: string)
    requires AllDigits(s)
    ensures '"' !in s
  {
    assert forall i :: 0 <= i < |s| ==> s[i] != '"';
  }

  lemma FormatFixedPlain(units: nat, decimals: nat)
    requires decimals >= 1
    ensures PlainArgument(FormatFixed(units, decimals))
  {
    var p := Pow10(decimals);
    DivMod(units, p);
    var w := DigitsOf(units / p);
    var f := ZeroPad(DigitsOf(units % p), decimals);
    DigitsPlain(w);
    DigitsPlain(f);
    assert FormatFixed(units, decimals) == w + "." + f;
  }

  lemma FixedTextPlain(x: real, decimals: nat)
    requires decimals >= 1
    ensures PlainArgument(FixedText(x, decimals))
  {
    if x < 0.0 {
      FormatFixedPlain(Max(0, ScaledRound(-x, decimals)), decimals);
    } else {
      FormatFixedPlain(Max(0, ScaledRound(x, decimals)), decimals);
    }
  }

  lemma SecondsTextPlain(x: real)
    ensures PlainArgument(SecondsText(x))
  {
    FixedTextPlain(x, 3);
  }

  lemma BitratePlain(quality: QualityPreset)
    ensures PlainArgument(BitrateText(quality))
  {
    DigitsPlain(DigitsOf(quality.BitrateKbps()));
  }

  lemma {:induction false} JoinPlain(parts: seq<string>, sep: string)
    requires forall i :: 0 <= i < |parts| ==> '"' !in parts[i]
    requires '"' !in sep
    ensures '"' !in Join(parts, sep)
    decreases |parts|
  {
    if |parts| >= 2 {
      JoinPlain(parts[1..], sep);
    }
  }

  lemma ChainTextPlain(stages: seq<real>)
    ensures '"' !in ChainText(stages)
  {
    var parts := seq(|stages|, i requires 0 <= i < |stages| => StageText(stages[i]));
    forall i | 0 <= i < |parts|
      ensures '"' !in parts[i]
    {
      FixedTextPlain(stages[i], 2);
    }
    JoinPlain(parts, ",");
  }

  // ---------------------------------------------------------------------
  // Worked examples

  lemma FormatFixedExamples()
    ensures FormatFixed(2000, 3) == "2.000"
    ensures FormatFixed(5000, 3) == "5.000"
    ensures FormatFixed(100, 3) == "0.100"
  {
    Pow10Three();
    assert DigitsOf(0) == "0";
    assert ZeroPad("0", 3) == "000";
    assert DigitsOf(100) == "100";
    assert ZeroPad("100", 3) == "100";
  }

  /** A 2000..7000 ms range at normal speed seeks to "2.000", lasts "5.000"
      and has no tempo filter. */
  lemma TrimExample()
    ensures SecondsText(SeekSeconds(2000)) == "2.000"
    ensures SecondsText(DurationSeconds(2000, 7000)) == "5.000"
    ensures AtempoStages(1.0) == []
  {
    SeekTextExact(2000);
    DurationTextExact(2000, 7000);
    FormatFixedExamples();
  }

  /** Two `Long` times whose difference overflows: the subtraction wraps to
      a small positive value, so the duration written is 100 ms rather than
      the true span. */
  lemma DurationWrapExample()
    ensures SecondsText(DurationSeconds(-9_000_000_000_000_000_000, 9_000_000_000_000_000_000))
            == "0.100"
  {
    var d := 18_000_000_000_000_000_000;
    WrapAbove(d);
    assert WrapLong(d) == d - LONG_RANGE;
    DurationTextExact(-9_000_000_000_000_000_000, 9_000_000_000_000_000_000);
    assert Max(100, WrapLong(d)) == 100;
    FormatFixedExamples();
  }

  /** Speed 3.0 runs as 2.0 then 1.5; speed 0.25 as two halvings; speed
      0.2 as two halvings and then 0.8, since 0.4 is still below 0.5. */
  lemma TempoExamples()
    ensures AtempoStages(3.0) == [2.0, 1.5]
    ensures AtempoStages(0.25) == [0.5, 0.5]
    ensures AtempoStages(0.2) == [0.5, 0.5, 0.8]
  {
    assert StagesFrom(0.8) == [0.8];
    assert StagesFrom(0.4) == [0.5] + StagesFrom(0.8);
    assert StagesFrom(0.2) == [0.5] + StagesFrom(0.4);
    assert StagesFrom(1.5) == [1.5];
    assert StagesFrom(3.0) == [2.0] + StagesFrom(1.5);
    assert StagesFrom(0.5) == [0.5];
    assert StagesFrom(0.25) == [0.5] + StagesFrom(0.5);
  }
}
