/** The microphone probe of `check_mic`: a fixed number of 1024-frame reads of
    16-bit mono audio, decoded as int16 samples, judged by the mean of their
    absolute values. The audio device is an input: `read(i)` is the chunk the
    `i`-th `stream.read(CHUNK)` call returns. */
module Signal {
  import opened Wrappers

  const CHUNK: nat := 1024
  const RATE: nat := 44100
  const RECORD_SECONDS: nat := 3
  /** Bytes per frame: `paInt16` with one channel. */
  const SAMPLE_WIDTH: nat := 2

  /** The loop bound `int(RATE / CHUNK * RECORD_SECONDS)`. `RATE / CHUNK` has a
      power-of-two denominator, so the floating-point quotient and product are
      exact and equal these real-number ones; `int` truncates a positive value
      to its floor. */
  const READS: int := (RATE as real / CHUNK as real * RECORD_SECONDS as real).Floor

  /** One `stream.read(CHUNK)` result: CHUNK frames of SAMPLE_WIDTH bytes. */
  type Chunk = c: seq<byte> | |c| == CHUNK * SAMPLE_WIDTH witness seq(2048, _ => 0)

  type int16 = x: int | -32768 <= x < 32768

  const INT16_MIN: int16 := -32768

  /** The recording loop reads exactly 129 chunks: the largest whole number of
      chunks that fits in three seconds at 44100 Hz. */
  lemma ReadCount()
    ensures READS == 129
    ensures READS * CHUNK <= RATE * RECORD_SECONDS < (READS + 1) * CHUNK
  {
  }

  // ---------------------------------------------------------------------------
  // int16 decoding (`np.frombuffer(..., dtype=np.int16)`, little-endian)

  /** The sample stored in the byte pair `lo, hi` in two's complement. */
  function DecodeSample(lo: byte, hi: byte): (x: int16)
    ensures x < 0 <==> hi >= 128
    ensures x % 256 == lo
  {
    var u := lo + 256 * hi;
    if u < 32768 then u else u - 65536
  }

  /** The two bytes that store `x` (`np.int16(x).tobytes()`). */
  function EncodeSample(x: int16): (b: seq<byte>)
    ensures |b| == 2
  {
    var u := if x < 0 then x + 65536 else x;
    [u % 256, u / 256]
  }

  lemma SampleRoundTrip(x: int16)
    ensures DecodeSample(EncodeSample(x)[0], EncodeSample(x)[1]) == x
  {
  }

  lemma BytePairRoundTrip(lo: byte, hi: byte)
    ensures EncodeSample(DecodeSample(lo, hi)) == [lo, hi]
  {
  }

  /** Decodes consecutive byte pairs. */
  function DecodePairs(b: seq<byte>): (s: seq<int16>)
    requires |b| % 2 == 0
    ensures |s| == |b| / 2
  {
    if |b| == 0 then [] else [DecodeSample(b[0], b[1])] + DecodePairs(b[2..])
  }

  /** The bytes of an int16 array (`.tobytes()`), the inverse of decoding. */
  function Encode(s: seq<int16>): (b: seq<byte>)
    ensures |b| == 2 * |s|
  {
    if s == [] then [] else EncodeSample(s[0]) + Encode(s[1..])
  }

  /** `np.frombuffer(b, dtype=np.int16)`: raises `ValueError` when the buffer
      length is not a multiple of the element size. */
  function FromBuffer(b: seq<byte>): (r: Result<seq<int16>>)
    ensures r.Ok? <==> |b| % 2 == 0
    ensures r.Ok? ==> |r.value| == |b| / 2
  {
    if |b| % 2 != 0 then ValueError else Ok(DecodePairs(b))
  }

  /** Decoding loses no byte: re-encoding the samples gives the buffer back. */
  lemma {:induction false} FromBufferThenEncode(b: seq<byte>)
    requires |b| % 2 == 0
    ensures FromBuffer(b).Ok? && Encode(FromBuffer(b).value) == b
  {
    if |b| > 0 {
      FromBufferThenEncode(b[2..]);
      BytePairRoundTrip(b[0], b[1]);
      assert b == [b[0], b[1]] + b[2..];
    }
  }

  /** Every sample array is decoded from exactly its own bytes. */
  lemma {:induction false} EncodeThenFromBuffer(s: seq<int16>)
    ensures FromBuffer(Encode(s)) == Ok(s)
  {
    if s != [] {
      EncodeThenFromBuffer(s[1..]);
      SampleRoundTrip(s[0]);
      var b := Encode(s);
      assert b[2..] == Encode(s[1..]);
      assert [s[0]] + s[1..] == s;
    }
  }

  // ---------------------------------------------------------------------------
  // The verdict `np.abs(audio_data).mean() > 0`

  /** `np.abs` on int16: the magnitude, except that -32768 has none that fits
      and stays -32768. */
  function WrappedAbs(x: int16): (r: int16)
    ensures x != INT16_MIN ==> 0 <= r && (r == x || r == -x)
    ensures x == INT16_MIN ==> r == INT16_MIN
  {
    if x == INT16_MIN then INT16_MIN else if x < 0 then -x else x
  }

  /** The sum `mean` divides by the length; it stays below 2^53 in magnitude
      for any recording here, so the float64 accumulation is exact. */
  function WrappedAbsSum(s: seq<int16>): (sum: int)
    ensures -32768 * |s| <= sum <= 32767 * |s|
  {
    if s == [] then 0 else WrappedAbs(s[0]) + WrappedAbsSum(s[1..])
  }

  /** The verdict as the code computes it: the mean of an empty array is NaN,
      which is not positive; otherwise the mean is positive exactly when the
      sum is. */
  predicate MicVerdict(s: seq<int16>)
    ensures MicVerdict(s) ==> HasSignal(s)
  {
    WrappedSumDeficit(s);
    MagnitudeSumPositive(s);
    |s| > 0 && WrappedAbsSum(s) > 0
  }

  predicate HasSignal(s: seq<int16>)
  {
    exists i :: 0 <= i < |s| && s[i] != 0
  }

  function CountMin(s: seq<int16>): nat
  {
    if s == [] then 0 else (if s[0] == INT16_MIN then 1 else 0) + CountMin(s[1..])
  }

  /** The true sum of magnitudes. */
  function MagnitudeSum(s: seq<int16>): nat
  {
    if s == [] then 0 else (if s[0] < 0 then -s[0] else s[0]) + MagnitudeSum(s[1..])
  }

  lemma {:induction false} WrappedAbsSumAppend(a: seq<int16>, b: seq<int16>)
    ensures WrappedAbsSum(a + b) == WrappedAbsSum(a) + WrappedAbsSum(b)
  {
    if a == [] {
      assert a + b == b;
    } else {
      assert (a + b)[1..] == a[1..] + b;
      WrappedAbsSumAppend(a[1..], b);
    }
  }

  /** Each -32768 costs the wrapped sum 65536 against the true magnitudes. */
  lemma {:induction false} WrappedSumDeficit(s: seq<int16>)
    ensures WrappedAbsSum(s) == MagnitudeSum(s) - 65536 * CountMin(s)
  {
    if s != [] {
      WrappedSumDeficit(s[1..]);
    }
  }

  /** The code's verdict in closed form: the true magnitudes must outweigh
      65536 for every -32768 in the buffer. */
  lemma MicVerdictClosedForm(s: seq<int16>)
    ensures MicVerdict(s) <==> MagnitudeSum(s) > 65536 * CountMin(s)
  {
    WrappedSumDeficit(s);
    if s == [] {
      assert MagnitudeSum(s) == 0;
    }
  }

  lemma {:induction false} MagnitudeSumPositive(s: seq<int16>)
    ensures MagnitudeSum(s) > 0 <==> HasSignal(s)
  {
    if s != [] {
      MagnitudeSumPositive(s[1..]);
      if HasSignal(s[1..]) {
        var i :| 0 <= i < |s[1..]| && s[1..][i] != 0;
        assert s[i + 1] != 0;
      }
      if HasSignal(s) && s[0] == 0 {
        var i :| 0 <= i < |s| && s[i] != 0;
        assert s[1..][i - 1] != 0;
      }
    }
  }

  /** An all-zero buffer never passes. */
  lemma SilenceFails(s: seq<int16>)
    requires forall i :: 0 <= i < |s| ==> s[i] == 0
    ensures !MicVerdict(s)
  {
  }

  /** Without a -32768 sample, the check passes exactly when some sample is
      nonzero. */
  lemma {:induction false} VerdictWithoutMin(s: seq<int16>)
    requires forall i :: 0 <= i < |s| ==> s[i] != INT16_MIN
    ensures MicVerdict(s) <==> HasSignal(s)
  {
    CountMinZero(s);
    MicVerdictClosedForm(s);
    MagnitudeSumPositive(s);
  }

  lemma {:induction false} CountMinZero(s: seq<int16>)
    requires forall i :: 0 <= i < |s| ==> s[i] != INT16_MIN
    ensures CountMin(s) == 0
  {
    if s != [] {
      CountMinZero(s[1..]);
    }
  }

  lemma {:induction false} SilentSum(s: seq<int16>)
    requires forall i :: 0 <= i < |s| ==> s[i] == 0
    ensures WrappedAbsSum(s) == 0
  {
    if s != [] {
      SilentSum(s[1..]);
    }
  }

  /** The wrap defeats the check: a buffer starting with -32768 and 1, silent
      after that, carries a signal and still fails. */
  lemma WrapDefeatsSignal(rest: seq<int16>)
    requires forall i :: 0 <= i < |rest| ==> rest[i] == 0
    ensures HasSignal([INT16_MIN, 1] + rest)
    ensures !MicVerdict([INT16_MIN, 1] + rest)
  {
    var s := [INT16_MIN, 1] + rest;
    assert s[1] != 0;
    WrappedAbsSumAppend([INT16_MIN, 1], rest);
    SilentSum(rest);
  }

  /** The evidently intended verdict: mean true magnitude above zero. */
  predicate IntendedVerdict(s: seq<int16>)
  {
    |s| > 0 && MagnitudeSum(s) > 0
  }

  /** The intended verdict passes exactly the buffers that carry a signal. */
  lemma IntendedVerdictIffSignal(s: seq<int16>)
    ensures IntendedVerdict(s) <==> HasSignal(s)
  {
    MagnitudeSumPositive(s);
  }

  // ---------------------------------------------------------------------------
  // The recording loop

  /** The chunks the loop collects, in read order. */
  function Recording(read: nat -> Chunk): (frames: seq<Chunk>)
    ensures |frames| == READS
    ensures forall i :: 0 <= i < |frames| ==> frames[i] == read(i)
  {
    seq(READS, i requires 0 <= i => read(i))
  }

  /** `b''.join(frames)`: 2048 bytes per chunk. */
  function Join(frames: seq<Chunk>): (b: seq<byte>)
    ensures |b| == |frames| * (CHUNK * SAMPLE_WIDTH)
  {
    if frames == [] then [] else frames[0] + Join(frames[1..])
  }

  /** The joined bytes keep every chunk whole and in order: chunk `i` fills
      bytes `2048 * i` to `2048 * (i + 1)`. */
  lemma {:induction false} JoinChunkAt(frames: seq<Chunk>, i: nat)
    requires i < |frames|
    ensures Join(frames)[i * 2048 .. (i + 1) * 2048] == frames[i]
  {
    var b := Join(frames);
    assert b == frames[0] + Join(frames[1..]);
    if i > 0 {
      JoinChunkAt(frames[1..], i - 1);
      assert b[i * 2048 .. (i + 1) * 2048] == Join(frames[1..])[(i - 1) * 2048 .. i * 2048];
    }
  }

  /** The samples the probe judges: 129 * 1024 = 132096 of them, fewer than
      the 132300 of a full three seconds, whose bytes are exactly the joined
      chunks. */
  function RecordedSamples(read: nat -> Chunk): (s: seq<int16>)
    ensures |s| == READS * CHUNK < RATE * RECORD_SECONDS
    ensures Encode(s) == Join(Recording(read))
  {
    ReadCount();
    FromBufferThenEncode(Join(Recording(read)));
    FromBuffer(Join(Recording(read))).value
  }

  /** `check_mic`: read READS chunks one by one, join and decode them, and
      return the verdict on the decoded samples. */
  method CheckMic(read: nat -> Chunk) returns (ok: bool)
    ensures ok <==> MicVerdict(RecordedSamples(read))
  {
    ReadCount();
    var frames: seq<Chunk> := [];
    for i := 0 to READS
      invariant frames == Recording(read)[..i]
    {
      frames := frames + [read(i)];
    }
    assert frames == Recording(read);
    var audio := FromBuffer(Join(frames));
    ok := MicVerdict(audio.value);
  }
}
