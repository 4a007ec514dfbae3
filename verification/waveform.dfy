/** The waveform side of the audio processor: raw signed 16-bit
    little-endian mono PCM is read into amplitudes in [0, 32768/32767], then
    block-averaged into at most `buckets` display values in [0, 1]. */
module Waveform {
  import opened Wrappers
  import opened Numerics

  /** A Kotlin `Byte`: signed, -128..127. */
  newtype Byte = b: int | -128 <= b < 128

  const SHORT_MAX: int := 32767
  const DEFAULT_BUCKETS: int := 160

  predicate IsShort(v: int) {
    -32768 <= v <= 32767
  }

  /** `b.toInt() and 0xFF`. */
  function Unsigned(b: Byte): (r: int)
    ensures 0 <= r < 256
    ensures r == b as int || r == b as int + 256
  {
    if b < 0 then b as int + 256 else b as int
  }

  /** `toShort()`: keeps the low 16 bits, read as two's complement. */
  function ToShort(v: int): (r: int)
    ensures IsShort(r)
    ensures IsShort(v) ==> r == v
  {
    (v + 32768) % 65536 - 32768
  }

  /** One sample from a little-endian byte pair: `(b1 shl 8) or (b0 and
      0xFF)` truncated to `Short`. The shifted high byte has no bits in
      common with the masked low byte, so the `or` is a sum. */
  function Sample(b0: Byte, b1: Byte): int {
    ToShort(b1 as int * 256 + Unsigned(b0))
  }

  /** `chunked(2)` then one sample per chunk; a trailing odd byte reads as
      0. */
  function Samples(bytes: seq<Byte>): (r: seq<int>)
    ensures |r| == (|bytes| + 1) / 2
    ensures forall k :: 0 <= k < |r| ==> IsShort(r[k])
    decreases |bytes|
  {
    if |bytes| == 0 then []
    else if |bytes| == 1 then [0]
    else [Sample(bytes[0], bytes[1])] + Samples(bytes[2..])
  }

  /** `abs(sample) / Short.MAX_VALUE`, one amplitude per sample. */
  function Amplitudes(bytes: seq<Byte>): (r: seq<real>)
    ensures |r| == (|bytes| + 1) / 2
    ensures forall k :: 0 <= k < |r| ==> 0.0 <= r[k] <= 32768.0 / 32767.0
  {
    var s := Samples(bytes);
    seq(|s|, i requires 0 <= i < |s| => Abs(s[i]) as real / SHORT_MAX as real)
  }

  /** Sample `k` comes from bytes `2k` and `2k+1`, or is 0 for a lone last
      byte. */
  lemma {:induction false} SampleAt(bytes: seq<Byte>, k: nat)
    requires k < (|bytes| + 1) / 2
    ensures Samples(bytes)[k]
            == if 2 * k + 1 < |bytes| then Sample(bytes[2 * k], bytes[2 * k + 1]) else 0
    decreases k
  {
    if k > 0 {
      SampleAt(bytes[2..], k - 1);
    }
  }

  /** The two bytes a sample is stored as, low byte first. */
  function EncodeSample(v: int): (r: seq<Byte>)
    requires IsShort(v)
    ensures |r| == 2
  {
    var lo := v % 256;
    var hi := (v - lo) / 256;
    [(if lo >= 128 then lo - 256 else lo) as Byte, hi as Byte]
  }

  function EncodeSamples(vs: seq<int>): (r: seq<Byte>)
    requires forall k :: 0 <= k < |vs| ==> IsShort(vs[k])
    ensures |r| == 2 * |vs|
  {
    if vs == [] then [] else EncodeSample(vs[0]) + EncodeSamples(vs[1..])
  }

  lemma SampleOfEncoding(v: int)
    requires IsShort(v)
    ensures Sample(EncodeSample(v)[0], EncodeSample(v)[1]) == v
  {
  }

  /** Decoding reads back every sample written as little-endian pairs. */
  lemma {:induction false} SamplesOfEncoding(vs: seq<int>)
    requires forall k :: 0 <= k < |vs| ==> IsShort(vs[k])
    ensures Samples(EncodeSamples(vs)) == vs
    decreases |vs|
  {
    if vs != [] {
      var b := EncodeSamples(vs);
      SampleOfEncoding(vs[0]);
      assert b[2..] == EncodeSamples(vs[1..]);
      SamplesOfEncoding(vs[1..]);
      assert vs == [vs[0]] + vs[1..];
    }
  }

  // ---------------------------------------------------------------------
  // Downsampling

  function Sum(s: seq<real>): real {
    if s == [] then 0.0 else Sum(s[..|s| - 1]) + s[|s| - 1]
  }

  /** `average()`. */
  function Average(s: seq<real>): real
    requires |s| > 0
  {
    Sum(s) / |s| as real
  }

  /** `coerceIn(0f, 1f)`. */
  function Clamp01(x: real): real {
    CoerceInReal(x, 0.0, 1.0)
  }

  /** `max(1, n / buckets)`, with the JVM's truncating division. */
  function Step(n: nat, buckets: int): nat
    requires buckets != 0
  {
    Max(1, TruncDiv(n, buckets))
  }

  /** Display value `k`: the clamped average of samples
      `[k*step, min((k+1)*step, n))`. */
  function Bucket(amps: seq<real>, step: nat, k: nat): (r: real)
    requires step >= 1 && k * step < |amps|
    ensures 0.0 <= r <= 1.0
  {
    Clamp01(Average(amps[k * step .. Min(k * step + step, |amps|)]))
  }

  /** Amplitudes that already lie in [0, 1] are not clamped: the bucket is
      their plain average. */
  lemma BucketIsAverage(amps: seq<real>, step: nat, k: nat)
    requires step >= 1 && k * step < |amps|
    requires forall i :: k * step <= i < Min(k * step + step, |amps|) ==> 0.0 <= amps[i] <= 1.0
    ensures Bucket(amps, step, k) == Average(amps[k * step .. Min(k * step + step, |amps|)])
  {
    var slice := amps[k * step .. Min(k * step + step, |amps|)];
    assert forall j :: 0 <= j < |slice| ==> slice[j] == amps[k * step + j];
    AverageInUnit(slice);
  }

  /** Values in [0, 1] have their sum between 0 and their count. */
  lemma {:induction false} SumInUnit(s: seq<real>)
    requires forall i :: 0 <= i < |s| ==> 0.0 <= s[i] <= 1.0
    ensures 0.0 <= Sum(s) <= |s| as real
  {
    if s != [] {
      SumInUnit(s[..|s| - 1]);
    }
  }

  /** Values in [0, 1] average to a value in [0, 1]. */
  lemma AverageInUnit(s: seq<real>)
    requires |s| > 0
    requires forall i :: 0 <= i < |s| ==> 0.0 <= s[i] <= 1.0
    ensures 0.0 <= Average(s) <= 1.0
  {
    SumInUnit(s);
  }

  /** `out` is the envelope of `amps`: between one and `max(buckets, 1)`
      values, each the bucket at its position, every bucket starting inside
      the samples, and fewer than the cap only when the samples ran out. */
  predicate IsEnvelope(out: seq<real>, amps: seq<real>, buckets: int): (b: bool)
    requires buckets != 0
    ensures b ==> forall k :: 0 <= k < |out| ==> 0.0 <= out[k] <= 1.0
  {
    var step := Step(|amps|, buckets);
    && 1 <= |out| <= Max(buckets, 1)
    && (|out| < Max(buckets, 1) ==> |amps| <= |out| * step)
    && forall k :: 0 <= k < |out| ==> k * step < |amps| && out[k] == Bucket(amps, step, k)
  }

  datatype WaveformError =
    | SourceUnavailable        // "Cannot open source file."
    | EngineFailed(log: string)
    | DivisionByZero           // `n / buckets` with `buckets == 0`

  lemma NextBucketStart(count: nat, step: nat)
    ensures count * step + step == (count + 1) * step
  {
  }

  /** The block that starts at sample `i = k * step` is bucket `k`. */
  lemma BucketAt(amps: seq<real>, step: nat, k: nat, i: nat)
    requires step >= 1 && i == k * step && i < |amps|
    ensures Bucket(amps, step, k) == Clamp01(Average(amps[i .. Min(i + step, |amps|)]))
  {
  }

  /** The downsampling loop of `generateWaveform`. */
  method Downsample(amplitudes: seq<real>, buckets: int) returns (r: Result<seq<real>, WaveformError>)
    ensures amplitudes == [] ==> r == Success([])
    ensures amplitudes != [] && buckets == 0 ==> r == Failure(DivisionByZero)
    ensures amplitudes != [] && buckets != 0 ==> r.Success? && IsEnvelope(r.value, amplitudes, buckets)
  {
    var n := |amplitudes|;
    if n == 0 {
      return Success([]);
    }
    if buckets == 0 {
      return Failure(DivisionByZero);
    }
    var step := Step(n, buckets);
    var out: seq<real> := [];
    var i := 0;
    while i < n
      invariant i == |out| * step
      invariant |out| < Max(buckets, 1)
      invariant forall k :: 0 <= k < |out| ==> k * step < n && out[k] == Bucket(amplitudes, step, k)
      decreases n - i
    {
      var value := Clamp01(Average(amplitudes[i .. Min(i + step, n)]));
      BucketAt(amplitudes, step, |out|, i);
      out := out + [value];
      if |out| >= buckets {
        break;
      }
      NextBucketStart(|out| - 1, step);
      i := i + step;
    }
    r := Success(out);
  }

  /** Every display value lies in [0, 1]; with a positive bucket count there
      are at most `buckets` of them, and exactly `buckets` once there are at
      least that many samples. */
  lemma EnvelopeBounds(out: seq<real>, amps: seq<real>, buckets: int)
    requires buckets != 0 && IsEnvelope(out, amps, buckets)
    ensures forall k :: 0 <= k < |out| ==> 0.0 <= out[k] <= 1.0
    ensures buckets > 0 ==> |out| <= buckets
    ensures buckets > 0 && |amps| >= buckets ==> |out| == buckets
    ensures buckets < 0 ==> |out| == 1
  {
    var step := Step(|amps|, buckets);
    if buckets > 0 && |amps| >= buckets && |out| < buckets {
      FullEnvelope(|amps|, buckets, |out|);
    }
  }

  /** `ceil(n / step)`. */
  function CeilDiv(n: nat, step: nat): nat
    requires step >= 1
  {
    (n + step - 1) / step
  }

  /** The envelope has one value per started block of `step` samples, up
      to the cap: `min(max(buckets, 1), ceil(n / step))` values. */
  lemma EnvelopeLength(out: seq<real>, amps: seq<real>, buckets: int)
    requires buckets != 0 && IsEnvelope(out, amps, buckets)
    ensures |out| == Min(Max(buckets, 1), CeilDiv(|amps|, Step(|amps|, buckets)))
  {
    var step := Step(|amps|, buckets);
    var n := |amps|;
    var c := |out|;
    assert (c - 1) * step < n;
    NextBucketStart(c - 1, step);
    QuotientAtLeast(n + step - 1, step, c);
    if c < Max(buckets, 1) {
      QuotientBelow(n + step - 1, step, c + 1);
    }
  }

  lemma QuotientAtLeast(a: nat, step: nat, c: nat)
    requires step >= 1 && c * step <= a
    ensures a / step >= c
  {
    var q := a / step;
    assert a == q * step + a % step && a % step < step;
    if q < c {
      MulMonotone(q, c - 1, step);
      NextBucketStart(c - 1, step);
      assert false;
    }
  }

  lemma QuotientBelow(a: nat, step: nat, c: nat)
    requires step >= 1 && a < c * step
    ensures a / step < c
  {
  }

  lemma FullEnvelope(n: nat, buckets: int, count: nat)
    requires 0 < buckets <= n && count < buckets
    ensures n > count * Step(n, buckets)
  {
    var q := n / buckets;
    assert Step(n, buckets) == q;
    assert q * buckets <= n;
    assert count * q <= (buckets - 1) * q by {
      MulMonotone(count, buckets - 1, q);
    }
    assert (buckets - 1) * q == q * buckets - q;
  }

  lemma MulMonotone(a: nat, b: nat, c: nat)
    requires a <= b
    ensures a * c <= b * c
  {
  }

  /** `generateWaveform` once the engine has run: an engine failure is
      reported, an empty decode gives an empty envelope, and otherwise the
      amplitudes are downsampled. */
  method GenerateWaveform(sourceReadable: bool, engineSucceeded: bool, engineLog: string,
                          pcm: seq<Byte>, buckets: int) returns (r: Result<seq<real>, WaveformError>)
    ensures !sourceReadable ==> r == Failure(SourceUnavailable)
    ensures sourceReadable && !engineSucceeded ==> r == Failure(EngineFailed(engineLog))
    ensures sourceReadable && engineSucceeded && pcm == [] ==> r == Success([])
    ensures sourceReadable && engineSucceeded && pcm != [] && buckets == 0 ==> r == Failure(DivisionByZero)
    ensures sourceReadable && engineSucceeded && pcm != [] && buckets != 0
            ==> r.Success? && r.value != [] && IsEnvelope(r.value, Amplitudes(pcm), buckets)
  {
    if !sourceReadable {
      return Failure(SourceUnavailable);
    }
    if !engineSucceeded {
      return Failure(EngineFailed(engineLog));
    }
    var amplitudes := Amplitudes(pcm);
    r := Downsample(amplitudes, buckets);
  }
}
