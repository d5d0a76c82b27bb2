/** The amplitude transforms: gain with clipping, the Hamming fade, and
    peak and RMS normalisation, each with the name attribute of its output.
    The transcendental factors (`10**(gain / 10)`, the square root of the
    RMS scaling, the Hamming window's cosines) are parameters that satisfy
    the facts the transforms rely on. */
module AmpAug {
  import opened Wave
  import opened PyText
  import opened Signal
  import opened WavIO
  import opened TimeAug

  /** `min(max(-1.0, v), 1.0)`. */
  function Clamp(v: real): (r: real)
    ensures -1.0 <= r <= 1.0
    ensures -1.0 <= v <= 1.0 ==> r == v
    ensures v > 1.0 ==> r == 1.0
    ensures v < -1.0 ==> r == -1.0
  {
    var lo := if -1.0 >= v then -1.0 else v;
    if lo <= 1.0 then lo else 1.0
  }

  /** `np.minimum(np.maximum(-1.0, x), 1.0)`. */
  function ClampAll(s: seq<real>): (r: seq<real>)
    ensures |r| == |s|
    ensures forall i :: 0 <= i < |r| ==> -1.0 <= r[i] <= 1.0
  {
    seq(|s|, i requires 0 <= i < |s| => Clamp(s[i]))
  }

  predicate InUnitRange(s: seq<real>) {
    forall i :: 0 <= i < |s| ==> -1.0 <= s[i] <= 1.0
  }

  /** Clamping a buffer already inside [-1, 1] changes nothing; in
      particular clamping twice is clamping once. */
  lemma ClampInRangeIsIdentity(s: seq<real>)
    requires InUnitRange(s)
    ensures ClampAll(s) == s
  {
  }

  lemma ClampIdempotent(s: seq<real>)
    ensures ClampAll(ClampAll(s)) == ClampAll(s)
  {
    ClampInRangeIsIdentity(ClampAll(s));
  }

  /** A clamped sample is zero exactly when the sample is. */
  lemma ClampSilentIff(s: seq<real>)
    ensures IsSilent(ClampAll(s)) <==> IsSilent(s)
  {
    forall i | 0 <= i < |s| ensures ClampAll(s)[i] == 0.0 <==> s[i] == 0.0 {
      assert ClampAll(s)[i] == Clamp(s[i]);
    }
  }

  /** The buffer `apply_gain` normalises: every sample times the gain
      factor, clipped to [-1, 1]. */
  function GainedAndClipped(x: seq<real>, factor: real): (r: seq<real>)
    ensures |r| == |x| && InUnitRange(r)
  {
    ClampAll(Scale(x, factor))
  }

  /** What `apply_gain` computes from the samples: gain, clip, then
      `x /= np.mean(np.abs(x))`. */
  function GainOutput(x: seq<real>, factor: real): (r: Result<seq<real>>)
    ensures r.Ok? ==> |r.value| == |x|
  {
    NormalizeMeanAbs(GainedAndClipped(x, factor))
  }

  /** `"_augmented_with_%s_gain.wav" % str(gain)`. */
  function GainSuffix(gain: Number): string
  {
    "_augmented_with_" + gain.text + "_gain.wav"
  }

  /** `apply_gain(infile, gain)` on the decoded input `w`, with `factor`
      standing for `10**(gain / 10.0)`: the gain and clip build a fresh
      buffer, which is then divided in place by its mean magnitude. */
  method ApplyGain(infile: string, w: Waveform, gain: Number, factor: real)
    returns (r: Result<WriteRequest>)
    requires IsDbFactor(factor, gain.value, 10.0)
    ensures r == WriteResult(infile, GainSuffix(gain), w.rate, GainOutput(w.samples, factor))
  {
    var x := GainedAndClipped(w.samples, factor);
    var y := NormalizedCopy(x);
    r := WriteResult(infile, GainSuffix(gain), w.rate, y);
  }

  lemma {:induction false} ScaleSilentIff(x: seq<real>, factor: real)
    requires factor != 0.0
    ensures IsSilent(Scale(x, factor)) <==> IsSilent(x)
  {
    forall i | 0 <= i < |x| ensures Scale(x, factor)[i] == 0.0 <==> x[i] == 0.0 {
      ScaleAt(x, factor, i);
      if x[i] * factor == 0.0 {
        Cancel(x[i], factor);
        ZeroQuotient(factor);
      }
    }
  }

  /** Gain fails (numpy's division by zero) exactly on a silent non-empty
      recording, whatever the gain. */
  lemma {:induction false} GainFailsIffSilent(x: seq<real>, factor: real)
    requires factor > 0.0
    ensures GainOutput(x, factor).Err? <==> |x| > 0 && IsSilent(x)
  {
    ScaleSilentIff(x, factor);
    ClampSilentIff(Scale(x, factor));
    NormalizeFailsIffSilent(GainedAndClipped(x, factor));
  }

  /** A successful gain leaves a mean magnitude of exactly 1. */
  lemma {:induction false} GainMeanAbsIsOne(x: seq<real>, factor: real)
    requires GainOutput(x, factor).Ok? && |x| > 0
    ensures MeanAbs(GainOutput(x, factor).value) == 1.0
  {
    NormalizedMeanAbsIsOne(GainedAndClipped(x, factor));
  }

  /** When no sample is clipped the gain cancels out: the output is the
      input divided by its own mean magnitude, whatever the gain. */
  lemma {:induction false} UnclippedGainCancels(x: seq<real>, factor: real)
    requires factor > 0.0 && InUnitRange(Scale(x, factor))
    ensures GainOutput(x, factor) == NormalizeMeanAbs(x)
  {
    ClampInRangeIsIdentity(Scale(x, factor));
    NormalizeScaleInvariant(x, factor);
  }

  /** Gain is not idempotent even at 0 dB: the first pass may lift samples
      above 1, and the second pass clips them. */
  lemma ZeroDbGainTwiceDiffers()
    ensures IsDbFactor(1.0, 0.0, 10.0)
    ensures GainOutput([0.5, 0.25], 1.0) == Ok([4.0 / 3.0, 2.0 / 3.0])
    ensures GainOutput([4.0 / 3.0, 2.0 / 3.0], 1.0) == Ok([6.0 / 5.0, 4.0 / 5.0])
  {
    assert Scale([0.5, 0.25], 1.0) == [0.5, 0.25];
    assert GainedAndClipped([0.5, 0.25], 1.0) == [0.5, 0.25];
    assert SumAbs([0.5, 0.25]) == 0.75;
    assert Divided([0.5, 0.25], 0.375) == [4.0 / 3.0, 2.0 / 3.0];
    assert Scale([4.0 / 3.0, 2.0 / 3.0], 1.0) == [4.0 / 3.0, 2.0 / 3.0];
    assert GainedAndClipped([4.0 / 3.0, 2.0 / 3.0], 1.0) == [1.0, 2.0 / 3.0];
    assert SumAbs([1.0, 2.0 / 3.0]) == 5.0 / 3.0;
    assert Divided([1.0, 2.0 / 3.0], 5.0 / 6.0) == [6.0 / 5.0, 4.0 / 5.0];
  }

  /** The facts of `np.hamming(n)` the fade relies on: one coefficient per
      sample, each between 0.08 and 1, symmetric about the middle, and the
      single coefficient 1 when `n == 1`. */
  predicate IsHammingWindow(window: seq<real>, n: nat) {
    && |window| == n
    && (forall i :: 0 <= i < n ==> 0.08 <= window[i] <= 1.0)
    && (forall i :: 0 <= i < n ==> window[i] == window[n - 1 - i])
    && (n == 1 ==> window == [1.0])
  }

  /** `window * sig`, sample by sample. */
  function Windowed(window: seq<real>, s: seq<real>): (r: seq<real>)
    requires |window| == |s|
    ensures |r| == |s|
  {
    seq(|s|, i requires 0 <= i < |s| => window[i] * s[i])
  }

  /** What `fade_in_and_out` computes: the windowed buffer divided by its
      mean magnitude. */
  function FadeOutput(s: seq<real>, window: seq<real>): (r: Result<seq<real>>)
    requires |window| == |s|
    ensures r.Ok? ==> |r.value| == |s|
  {
    NormalizeMeanAbs(Windowed(window, s))
  }

  const FadeSuffix := "_augmented_fade_in_out.wav"

  /** `fade_in_and_out(infile)` on the decoded input `w`, with `window`
      standing for `np.hamming(len(sig))`. */
  method FadeInAndOut(infile: string, w: Waveform, window: seq<real>)
    returns (r: Result<WriteRequest>)
    requires IsHammingWindow(window, |w.samples|)
    ensures r == WriteResult(infile, FadeSuffix, w.rate, FadeOutput(w.samples, window))
  {
    var faded := Windowed(window, w.samples);
    var y := NormalizedCopy(faded);
    r := WriteResult(infile, FadeSuffix, w.rate, y);
  }

  /** The fade fails exactly on a silent non-empty recording: no Hamming
      coefficient is zero. */
  lemma {:induction false} FadeFailsIffSilent(s: seq<real>, window: seq<real>)
    requires IsHammingWindow(window, |s|)
    ensures FadeOutput(s, window).Err? <==> |s| > 0 && IsSilent(s)
  {
    forall i | 0 <= i < |s| ensures Windowed(window, s)[i] == 0.0 <==> s[i] == 0.0 {
      if window[i] * s[i] == 0.0 {
        Cancel(s[i], window[i]);
        ZeroQuotient(window[i]);
      }
    }
    NormalizeFailsIffSilent(Windowed(window, s));
  }

  /** The window is symmetric, so fading a reversed recording is reversing
      the faded one. */
  lemma {:induction false} FadeCommutesWithReverse(s: seq<real>, window: seq<real>)
    requires IsHammingWindow(window, |s|)
    ensures Windowed(window, Reverse(s)) == Reverse(Windowed(window, s))
  {
    var n := |s|;
    forall i | 0 <= i < n
      ensures Windowed(window, Reverse(s))[i] == Reverse(Windowed(window, s))[i]
    {
      assert window[i] == window[n - 1 - i];
    }
  }

  /** A one-sample recording is only normalised: its window is [1]. */
  lemma {:induction false} FadeOfOneSample(v: real, window: seq<real>)
    requires IsHammingWindow(window, 1) && v != 0.0
    ensures FadeOutput([v], window) == Ok([v / Abs(v)])
  {
    assert Windowed(window, [v]) == [v];
    assert SumAbs([v]) == Abs(v);
    assert MeanAbs([v]) == Abs(v);
    assert Divided([v], Abs(v)) == [v / Abs(v)] + Divided([], Abs(v));
    assert Divided([], Abs(v)) == [];
    assert Divided([v], Abs(v)) == [v / Abs(v)];
    assert NormalizeMeanAbs([v]) == Ok(Divided([v], MeanAbs([v])));
    assert NormalizeMeanAbs([v]) == Ok([v / Abs(v)]);
    assert FadeOutput([v], window) == NormalizeMeanAbs([v]);
  }

  /** `sig / np.max(sig)`: `np.max` raises on an empty buffer, and a
      largest sample of zero makes numpy divide by zero. */
  function PeakNormalize(s: seq<real>): (r: Result<seq<real>>)
    ensures |s| == 0 <==> r == Err(EmptyArray)
    ensures |s| > 0 ==> (r.Err? <==> SeqMax(s) == 0.0)
    ensures r.Err? && |s| > 0 ==> r.error == NonFinite
    ensures r.Ok? ==> |r.value| == |s|
  {
    if |s| == 0 then Err(EmptyArray)
    else if SeqMax(s) == 0.0 then Err(NonFinite)
    else Ok(Divided(s, SeqMax(s)))
  }

  /** The largest element of a buffer, identified by its two properties. */
  lemma MaxIsUnique(s: seq<real>, m: real)
    requires |s| > 0
    requires forall i :: 0 <= i < |s| ==> s[i] <= m
    requires exists i :: 0 <= i < |s| && s[i] == m
    ensures SeqMax(s) == m
  {
  }

  /** With a positive largest sample, the peak of the output is exactly 1. */
  lemma {:induction false} PeakIsOne(s: seq<real>)
    requires |s| > 0 && SeqMax(s) > 0.0
    ensures SeqMax(PeakNormalize(s).value) == 1.0
  {
    var m := SeqMax(s);
    var out := Divided(s, m);
    forall i | 0 <= i < |s| ensures out[i] <= 1.0 {
      DividedAt(s, m, i);
    }
    var j :| 0 <= j < |s| && s[j] == m;
    DividedAt(s, m, j);
    MaxIsUnique(out, 1.0);
  }

  /** The divisor is the largest sample, not the largest magnitude: when
      every sample is negative, every output sample is at least 1. */
  lemma {:induction false} PeakOfNegativeSignal(s: seq<real>)
    requires |s| > 0 && SeqMax(s) < 0.0
    ensures forall i :: 0 <= i < |s| ==> PeakNormalize(s).value[i] >= 1.0
  {
    var m := SeqMax(s);
    forall i | 0 <= i < |s| ensures PeakNormalize(s).value[i] >= 1.0 {
      DividedAt(s, m, i);
      QuotientOfNegatives(s[i], m);
    }
  }

  lemma QuotientOfNegatives(x: real, m: real)
    requires x <= m < 0.0
    ensures x / m >= 1.0
  {
    assert x / m == (-x) / (-m);
  }

  /** The scaling factor of RMS normalisation,
      `a = np.sqrt(len(sig) * r**2 / np.sum(sig**2))`, given by its square. */
  predicate IsRmsScale(a: real, s: seq<real>, level: real) {
    SumSquares(s) > 0.0 ==>
      a >= 0.0 && a * a == (|s| as real * (level * level)) / SumSquares(s)
  }

  /** `sig * a`: an empty buffer stays empty (numpy's 0/0 multiplies no
      sample); a silent non-empty one is multiplied by an infinite factor. */
  function RmsNormalize(s: seq<real>, a: real): (r: Result<seq<real>>)
    ensures |s| == 0 ==> r == Ok([])
    ensures |s| > 0 ==> (r.Err? <==> SumSquares(s) == 0.0)
    ensures r.Err? ==> r.error == NonFinite
    ensures r.Ok? ==> |r.value| == |s|
  {
    if |s| == 0 then Ok([])
    else if SumSquares(s) == 0.0 then Err(NonFinite)
    else Ok(Scale(s, a))
  }

  lemma QuotientTimesDivisor(x: real, d: real)
    requires d != 0.0
    ensures (x / d) * d == x
  {
  }

  lemma ProductCongruence(p: real, x: real, q: real)
    requires p == q
    ensures p * x == q * x
  {
  }

  /** RMS normalisation reaches its target: the mean square of the output is
      `r * r`, the square of the linear level. */
  lemma {:induction false} RmsReachesLevel(s: seq<real>, a: real, level: real)
    requires |s| > 0 && SumSquares(s) > 0.0 && IsRmsScale(a, s, level)
    ensures MeanSquare(RmsNormalize(s, a).value) == level * level
  {
    var n := |s| as real;
    var e := SumSquares(s);
    SumSquaresScale(s, a);
    ProductCongruence(a * a, e, (n * (level * level)) / e);
    QuotientTimesDivisor(n * (level * level), e);
    Cancel(level * level, n);
  }

  /** The RMS branch fails exactly on a silent non-empty recording. */
  lemma {:induction false} RmsFailsIffSilent(s: seq<real>, a: real)
    ensures RmsNormalize(s, a).Err? <==> |s| > 0 && IsSilent(s)
  {
    SumSquaresZeroIffSilent(s);
  }

  /** `normalize(infile, normalization_technique, rms_level)` on the
      samples: "peak", "rms", or any other string, for which the message is
      printed and `y` is never bound. `level` stands for
      `10**(rms_level / 10.0)` and `a` for the square root. */
  function Normalize(s: seq<real>, technique: string, level: real, a: real): (r: Result<seq<real>>)
    ensures technique != "peak" && technique != "rms" ==> r == Err(UnknownTechnique)
    ensures r.Ok? ==> |r.value| == |s|
  {
    if technique == "peak" then PeakNormalize(s)
    else if technique == "rms" then RmsNormalize(s, a)
    else Err(UnknownTechnique)
  }

  /** `"_augmented_{}_normalized.wav".format(normalization_technique)`. */
  function NormalizeSuffix(technique: string): string
  {
    "_augmented_" + technique + "_normalized.wav"
  }

  /** `normalize` from the decoded input to the write request. */
  function NormalizeFile(infile: string, w: Waveform, technique: string, rmsLevel: real,
                         level: real, a: real): (r: Result<WriteRequest>)
    requires IsDbFactor(level, rmsLevel, 10.0) && IsRmsScale(a, w.samples, level)
    ensures r.Ok? ==> r.value.rate == w.rate && |r.value.data| == |w.samples|
    ensures r.Ok? ==> technique == "peak" || technique == "rms"
    ensures var y := Normalize(w.samples, technique, level, a);
            && (r.Ok? <==> y.Ok?)
            && (r.Ok? ==> r.value.data == y.value)
            && (r.Err? ==> r.error == y.error)
    ensures r.Ok? ==> r.value == WriteFile(Dirname(infile), infile, NormalizeSuffix(technique),
                                           r.value.data, w.rate)
  {
    WriteResult(infile, NormalizeSuffix(technique), w.rate, Normalize(w.samples, technique, level, a))
  }

  /** At the default level of 0 dB the RMS of the output is 1. */
  lemma {:induction false} RmsDefaultLevelIsUnit(s: seq<real>, a: real, level: real)
    requires IsDbFactor(level, 0.0, 10.0)
    requires |s| > 0 && SumSquares(s) > 0.0 && IsRmsScale(a, s, level)
    ensures MeanSquare(Normalize(s, "rms", level, a).value) == 1.0
  {
    assert (0.0 / 10.0).Floor == 0;
    assert level == 1.0;
    RmsReachesLevel(s, a, level);
  }

  /** A 16-bit PCM sample, as `scipy.io.wavfile.read` returns it. */
  predicate IsInt16(v: int) {
    -32768 <= v < 32768
  }

  /** numpy's store of an integer into an int16 array: the value modulo
      2**16, read back as a signed 16-bit number. */
  function Int16Wrap(v: int): (r: int)
    ensures IsInt16(r)
    ensures r % 65536 == v % 65536
    ensures IsInt16(v) ==> r == v
  {
    var m := v % 65536;
    if m >= 32768 then m - 65536 else m
  }

  /** numpy's `v**2` on an int16 array: the square, wrapped to 16 bits. */
  function Int16Square(v: int): (r: int)
    ensures IsInt16(r)
    ensures r % 65536 == (v * v) % 65536
  {
    var m := (v * v) % 65536;
    if m >= 32768 then m - 65536 else m
  }

  /** `np.sum(sig**2)` as written, on int16 samples: the wrapped squares,
      summed in the platform integer. */
  function Int16SumSquares(s: seq<int>): int
  {
    if s == [] then 0 else Int16Square(s[0]) + Int16SumSquares(s[1..])
  }

  /** On 16-bit samples the energy the RMS branch divides by is wrong: a
      single sample of 256 gives an energy of 0 (a division by zero on a
      recording that is not silent), and a single sample of 200 gives a
      negative energy (the square root of a negative number). The real
      energies are 65536 and 40000. */
  lemma Int16EnergyWraps()
    ensures IsInt16(256) && Int16SumSquares([256]) == 0 && SumSquares([256.0]) == 65536.0
    ensures IsInt16(200) && Int16SumSquares([200]) < 0 && SumSquares([200.0]) == 40000.0
  {
    assert Int16SumSquares([256]) == Int16Square(256) + Int16SumSquares([]);
    assert Int16SumSquares([200]) == Int16Square(200) + Int16SumSquares([]);
    assert SumSquares([256.0]) == 256.0 * 256.0 + SumSquares([]);
    assert SumSquares([200.0]) == 200.0 * 200.0 + SumSquares([]);
  }
}
