/** The frequency transforms: convolution with an impulse response blended
    with the dry signal, the Butterworth filter front end, and the tone
    change handed to ffmpeg. */
module FreqAug {
  import opened Wave
  import opened PyText
  import opened Signal
  import opened WavIO
  import opened Filters
  import opened AmpAug

  /** The term `x[k] * ir[m - k]` of the full convolution, zero where
      either index falls outside its buffer. */
  function ConvTerm(x: seq<real>, ir: seq<real>, m: int, k: int): real
  {
    if 0 <= k < |x| && 0 <= m - k < |ir| then x[k] * ir[m - k] else 0.0
  }

  /** The sum of the terms `ConvTerm(x, ir, m, k)` for `0 <= k < j`. */
  function PartialConv(x: seq<real>, ir: seq<real>, m: int, j: nat): real
  {
    if j == 0 then 0.0 else PartialConv(x, ir, m, j - 1) + ConvTerm(x, ir, m, j - 1)
  }

  /** Element `m` of `np.convolve(x, ir, 'full')`: the sum over every `k`
      of `x[k] * ir[m - k]`. */
  function ConvAt(x: seq<real>, ir: seq<real>, m: nat): real
  {
    PartialConv(x, ir, m, m + 1)
  }

  /** `np.convolve(x, ir, 'full')` of two non-empty buffers. */
  function FullConvolution(x: seq<real>, ir: seq<real>): (c: seq<real>)
    requires |x| > 0 && |ir| > 0
    ensures |c| == |x| + |ir| - 1
  {
    seq(|x| + |ir| - 1, m requires 0 <= m < |x| + |ir| - 1 => ConvAt(x, ir, m))
  }

  /** `wet * level + x * (1 - level)`, sample by sample. */
  function Blend(wet: seq<real>, x: seq<real>, level: real): (y: seq<real>)
    requires |wet| == |x|
    ensures |y| == |x|
  {
    seq(|x|, i requires 0 <= i < |x| => wet[i] * level + x[i] * (1.0 - level))
  }

  /** The buffer `convolve` builds before normalising it: the full
      convolution cut to the input's length, blended with the input.
      `np.convolve` raises on an empty buffer. */
  function Convolved(x: seq<real>, ir: seq<real>, level: real): (r: Result<seq<real>>)
    ensures r.Err? <==> |x| == 0 || |ir| == 0
    ensures r.Err? ==> r.error == EmptyArray
    ensures r.Ok? ==> |r.value| == |x|
  {
    if |x| == 0 || |ir| == 0 then Err(EmptyArray)
    else Ok(Blend(FullConvolution(x, ir)[..|x|], x, level))
  }

  /** What `convolve` writes: the blend divided by its mean magnitude. */
  function ConvolveOutput(x: seq<real>, ir: seq<real>, level: real): (r: Result<seq<real>>)
    ensures r.Ok? ==> |r.value| == |x|
  {
    var y := Convolved(x, ir, level);
    if y.Err? then Err(y.error) else NormalizeMeanAbs(y.value)
  }

  /** The label of the impulse response in the output name:
      `os.path.basename(ir_fname.split(".")[0])`. */
  function IrLabel(irFname: string): (name: string)
    ensures forall k :: 0 <= k < |name| ==> name[k] != '/' && name[k] != '.'
    ensures var head := SplitFirst(irFname, ".");
            |name| <= |head| && head == head[..|head| - |name|] + name
            && (|name| < |head| ==> head[|head| - |name| - 1] == '/')
  {
    var head := SplitFirst(irFname, ".");
    NotAnElement(head, '.');
    SuffixHasNoElement(head, Basename(head), '.');
    Basename(head)
  }

  /** An impulse response stored as `<dir>/<name>.wav`, with no '.' in
      the directory and none in the name, is labelled by its name. */
  lemma IrLabelOfWavPath(dir: string, name: string)
    requires forall k :: 0 <= k < |dir| ==> dir[k] != '.'
    requires forall k :: 0 <= k < |name| ==> name[k] != '.' && name[k] != '/'
    ensures IrLabel(dir + "/" + name + ".wav") == name
  {
    var p := dir + "/" + name;
    var s := p + ".wav";
    assert dir + "/" + name + ".wav" == s;
    var i := |p|;
    assert s[i..i + 1] == ".";
    forall j | 0 <= j < i ensures !OccursAt(s, ".", j) {
      assert s[j..j + 1][0] == s[j] == p[j];
      if j < |dir| {
        assert p[j] == dir[j];
      } else if j > |dir| {
        assert p[j] == name[j - |dir| - 1];
      }
    }
    FindIsFirstOccurrence(s, ".", i);
    assert s[..i] == p;
    var b := Basename(p);
    assert p[|dir|] == '/';
    assert forall k :: |dir| < k < |p| ==> p[k] == name[k - |dir| - 1];
    assert |b| == |name|;
    assert b == p[|p| - |b|..] == name;
  }

  /** A relative impulse-response path such as "./ir.wav" is cut at its
      leading dot: the label is empty. */
  lemma RelativeIrPathHasEmptyLabel(irFname: string)
    requires |irFname| > 0 && irFname[0] == '.'
    ensures IrLabel(irFname) == ""
  {
    assert OccursAt(irFname, ".", 0);
    assert SplitFirst(irFname, ".") == [];
  }

  /* ---------------- the convolution of 16-bit recordings ---------------- */

  /** Integer samples, such as 16-bit PCM, as the reals numpy promotes
      them to once they meet a float. */
  function AsReals(s: seq<int>): (r: seq<real>)
    ensures |r| == |s|
  {
    seq(|s|, i requires 0 <= i < |s| => s[i] as real)
  }

  /** The exact integer sum of the terms `x[k] * ir[m - k]` for `0 <= k < j`. */
  function IntPartialConv(x: seq<int>, ir: seq<int>, m: int, j: nat): int
  {
    if j == 0 then 0
    else
      var k := j - 1;
      IntPartialConv(x, ir, m, k) + (if k < |x| && 0 <= m - k < |ir| then x[k] * ir[m - k] else 0)
  }

  /** `np.convolve(x, ir, 'full')` as written on the int16 buffers that
      `read_file` returns for 16-bit recordings: numpy sums each output
      sample in the platform integer and stores it in an int16 array, so
      every sample wraps to 16 bits. */
  function Int16Convolution(x: seq<int>, ir: seq<int>): (c: seq<int>)
    requires |x| > 0 && |ir| > 0
    ensures |c| == |x| + |ir| - 1
    ensures forall m :: 0 <= m < |c| ==> IsInt16(c[m])
  {
    seq(|x| + |ir| - 1, m requires 0 <= m < |x| + |ir| - 1 => Int16Wrap(IntPartialConv(x, ir, m, m + 1)))
  }

  /** What `convolve` writes, as written, for a 16-bit input and a 16-bit
      impulse response: the wrapped convolution, cut and blended in floating
      point, divided by its mean magnitude. */
  function Int16ConvolveOutput(x: seq<int>, ir: seq<int>, level: real): (r: Result<seq<real>>)
    ensures r.Err? <==> |x| == 0 || |ir| == 0 || IsSilent(Blend(AsReals(Int16Convolution(x, ir)[..|x|]), AsReals(x), level))
    ensures r.Ok? ==> |r.value| == |x|
  {
    if |x| == 0 || |ir| == 0 then Err(EmptyArray)
    else
      var y := Blend(AsReals(Int16Convolution(x, ir)[..|x|]), AsReals(x), level);
      NormalizeFailsIffSilent(y);
      NormalizeMeanAbs(y)
  }

  /** As written, the convolution of 16-bit recordings wraps: a single
      sample of 200 convolved with an impulse response of 200 gives -25536
      instead of 40000, so the fully wet output is -1 where the exact
      convolution gives 1. */
  lemma Int16ConvolutionWraps()
    ensures Int16Convolution([200], [200]) == [-25536]
    ensures FullConvolution([200.0], [200.0]) == [40000.0]
    ensures Int16ConvolveOutput([200], [200], 1.0) == Ok([-1.0])
    ensures ConvolveOutput([200.0], [200.0], 1.0) == Ok([1.0])
  {
    assert IntPartialConv([200], [200], 0, 1) == 40000;
    assert Int16Wrap(40000) == -25536;
    assert PartialConv([200.0], [200.0], 0, 1) == 40000.0;
    assert FullConvolution([200.0], [200.0])[0] == 40000.0;
    var wet := Blend(AsReals([-25536]), AsReals([200]), 1.0);
    assert wet == [-25536.0];
    assert Int16Convolution([200], [200])[..1] == [-25536];
    NormalizesToSign(-25536.0);
    var dry := Blend([40000.0], [200.0], 1.0);
    assert dry == [40000.0];
    assert FullConvolution([200.0], [200.0])[..1] == [40000.0];
    NormalizesToSign(40000.0);
  }

  /** A single non-zero sample normalises to its sign. */
  lemma NormalizesToSign(v: real)
    requires v != 0.0
    ensures NormalizeMeanAbs([v]) == Ok([if v > 0.0 then 1.0 else -1.0])
  {
    assert SumAbs([v]) == Abs(v) + SumAbs([]);
    assert MeanAbs([v]) == Abs(v) / 1.0 == Abs(v);
    assert Divided([v], Abs(v)) == [v / Abs(v)] + Divided([], Abs(v));
    if v > 0.0 {
      Cancel(1.0, v);
    } else {
      Cancel(-1.0, -v);
    }
    assert Divided([], Abs(v)) == [];
    assert Divided([v], MeanAbs([v])) == [if v > 0.0 then 1.0 else -1.0];
  }

  /** The partial sums of the real convolution of integer samples are the
      exact integer partial sums. */
  lemma {:induction false} PartialConvOfIntegers(x: seq<int>, ir: seq<int>, m: int, j: nat)
    ensures PartialConv(AsReals(x), AsReals(ir), m, j) == IntPartialConv(x, ir, m, j) as real
  {
    if j > 0 {
      PartialConvOfIntegers(x, ir, m, j - 1);
      var k := j - 1;
      if k < |x| && 0 <= m - k < |ir| {
        assert ConvTerm(AsReals(x), AsReals(ir), m, k) == (x[k] * ir[m - k]) as real;
      }
    }
  }

  /** On 16-bit samples the convolution the model computes is the exact
      integer one, and numpy's int16 result agrees with it at a sample
      exactly when that sample's exact sum fits in 16 bits. */
  lemma ConvolutionOfPcmIsExact(x: seq<int>, ir: seq<int>, m: nat)
    requires |x| > 0 && |ir| > 0 && m < |x| + |ir| - 1
    ensures FullConvolution(AsReals(x), AsReals(ir))[m] == IntPartialConv(x, ir, m, m + 1) as real
    ensures Int16Convolution(x, ir)[m] as real == FullConvolution(AsReals(x), AsReals(ir))[m]
            <==> IsInt16(IntPartialConv(x, ir, m, m + 1))
  {
    PartialConvOfIntegers(x, ir, m, m + 1);
  }

  /** `"_augmented_{0}_convolved_with_level_{1}.wav"`. */
  function ConvolveSuffix(irName: string, level: Number): string
  {
    "_augmented_" + irName + "_convolved_with_level_" + level.text + ".wav"
  }

  /** `convolve(infile, ir_fname, level)` on the decoded input `w` and the
      decoded impulse response `ir`: the blend is built fresh and divided
      in place, and the output is written at the input's rate. */
  method Convolve(infile: string, w: Waveform, irFname: string, ir: Waveform, level: Number)
    returns (r: Result<WriteRequest>)
    ensures r == WriteResult(infile, ConvolveSuffix(IrLabel(irFname), level), w.rate,
                             ConvolveOutput(w.samples, ir.samples, level.value))
  {
    var y := Convolved(w.samples, ir.samples, level.value);
    var out: Result<seq<real>>;
    if y.Err? {
      out := Err(y.error);
    } else {
      out := NormalizedCopy(y.value);
    }
    r := WriteResult(infile, ConvolveSuffix(IrLabel(irFname), level), w.rate, out);
  }

  /** At level 0 the blend is the dry input. */
  lemma BlendDry(wet: seq<real>, x: seq<real>)
    requires |wet| == |x|
    ensures Blend(wet, x, 0.0) == x
  {
  }

  /** At level 1 the blend is the wet convolution. */
  lemma BlendWet(wet: seq<real>, x: seq<real>)
    requires |wet| == |x|
    ensures Blend(wet, x, 1.0) == wet
  {
  }

  /** Blending a buffer with itself gives the buffer, at any level. */
  lemma BlendSame(x: seq<real>, level: real)
    ensures Blend(x, x, level) == x
  {
    forall i | 0 <= i < |x| ensures Blend(x, x, level)[i] == x[i] {
      assert x[i] * level + x[i] * (1.0 - level) == x[i] * (level + (1.0 - level));
    }
  }

  /** Only the term `k == m` of the impulse `[1]` survives. */
  lemma {:induction false} PartialConvOfImpulse(x: seq<real>, m: nat, j: nat)
    requires m < |x|
    ensures PartialConv(x, [1.0], m, j) == if j > m then x[m] else 0.0
  {
    if j > 0 {
      PartialConvOfImpulse(x, m, j - 1);
    }
  }

  /** Convolving with the unit impulse changes nothing. */
  lemma UnitImpulseIsIdentity(x: seq<real>)
    requires |x| > 0
    ensures FullConvolution(x, [1.0]) == x
  {
    forall m | 0 <= m < |x| ensures FullConvolution(x, [1.0])[m] == x[m] {
      PartialConvOfImpulse(x, m, m + 1);
    }
  }

  /** With the unit impulse as response the output is the input divided by
      its mean magnitude, whatever the level. */
  lemma ConvolveWithUnitImpulse(x: seq<real>, level: real)
    requires |x| > 0
    ensures ConvolveOutput(x, [1.0], level) == NormalizeMeanAbs(x)
  {
    UnitImpulseIsIdentity(x);
    assert FullConvolution(x, [1.0])[..|x|] == x;
    BlendSame(x, level);
  }

  /** The partial sums up to `j` depend on the input only up to index `j`. */
  lemma {:induction false} PartialConvCausal(x: seq<real>, x': seq<real>, ir: seq<real>, m: nat, j: nat)
    requires j <= |x| && j <= |x'| && x[..j] == x'[..j]
    ensures PartialConv(x, ir, m, j) == PartialConv(x', ir, m, j)
  {
    if j > 0 {
      assert x[..j - 1] == x[..j][..j - 1];
      assert x'[..j - 1] == x'[..j][..j - 1];
      PartialConvCausal(x, x', ir, m, j - 1);
      assert x[j - 1] == x[..j][j - 1];
      assert x'[j - 1] == x'[..j][j - 1];
    }
  }

  /** The convolution is causal: output sample `m` depends on the input
      only up to sample `m`. */
  lemma ConvolutionIsCausal(x: seq<real>, x': seq<real>, ir: seq<real>, m: nat)
    requires m < |x| && m < |x'| && x[..m + 1] == x'[..m + 1]
    ensures ConvAt(x, ir, m) == ConvAt(x', ir, m)
  {
    PartialConvCausal(x, x', ir, m, m + 1);
  }

  /** A successful convolution has mean magnitude 1. */
  lemma ConvolveMeanAbsIsOne(x: seq<real>, ir: seq<real>, level: real)
    requires ConvolveOutput(x, ir, level).Ok? && |x| > 0
    ensures MeanAbs(ConvolveOutput(x, ir, level).value) == 1.0
  {
    NormalizedMeanAbsIsOne(Convolved(x, ir, level).value);
  }

  /** `"_augmented_{0}_pass_filtered.wav".format(filter_type)`. */
  function FilterSuffix(filterType: string): string
  {
    "_augmented_" + filterType + "_pass_filtered.wav"
  }

  /** `apply_filter(infile, filter_type, low_cutoff_freq, high_cutoff_freq,
      order)`: every parameter goes to `butter_filter` unchanged, with the
      input's rate, and the result is written at that rate. */
  function ApplyFilter(infile: string, w: Waveform, filterType: string, lowCut: Option<real>,
                       highCut: Option<real>, order: int, impl: FilterImpl): (r: Result<WriteRequest>)
    ensures var y := ButterFilter(w.samples, w.rate, filterType, lowCut, highCut, order, impl);
            && (r.Ok? <==> y.Ok?)
            && (r.Ok? ==> r.value.data == y.value && r.value.rate == w.rate)
            && (r.Err? ==> r.error == y.error)
    ensures r.Ok? ==> r.value == WriteFile(Dirname(infile), infile, FilterSuffix(filterType),
                                           r.value.data, w.rate)
  {
    WriteResult(infile, FilterSuffix(filterType), w.rate,
                ButterFilter(w.samples, w.rate, filterType, lowCut, highCut, order, impl))
  }

  /** `apply_filter` with its default `high_cutoff_freq=None`: a high-pass
      request always fails, and so does a band-pass one once the low
      cutoff has been normalised. */
  lemma DefaultHighCutoffFails(infile: string, w: Waveform, lowCut: Option<real>, impl: FilterImpl)
    ensures ApplyFilter(infile, w, "high", lowCut, None, 5, impl) == Err(MissingCutoff)
    ensures lowCut.Some? && w.rate > 0 ==>
              ApplyFilter(infile, w, "band", lowCut, None, 5, impl) == Err(MissingCutoff)
  {
  }

  /** `"_augmented_%s_toned.wav" % str(tone)`. */
  function ToneSuffix(tone: Number): string
  {
    "_augmented_" + tone.text + "_toned.wav"
  }

  /** The ffmpeg audio filter of `change_tone`:
      `"asetrate=" + str(fs) + "*" + str(tone) + ",aresample=" + str(fs)`. */
  function ToneFilter(fs: nat, tone: Number): string
  {
    "asetrate=" + NatToDecimal(fs) + "*" + tone.text + ",aresample=" + NatToDecimal(fs)
  }

  /** `change_tone(infile, tone)`: the ffmpeg argument list, given the rate
      `fs` that `read_file` returned. */
  function ChangeToneCommand(infile: string, fs: nat, tone: Number): (args: seq<string>)
    ensures |args| == 6 && args[0] == "ffmpeg" && args[1] == "-i" && args[2] == infile
            && args[3] == "-af" && args[4] == ToneFilter(fs, tone)
  {
    var outfile := Join(Dirname(infile), WavStem(Basename(infile)) + ToneSuffix(tone));
    ["ffmpeg", "-i", infile, "-af", ToneFilter(fs, tone), outfile]
  }

  /** `change_tone` names its output by the same rule as `write_file`. */
  lemma ToneOutputFollowsWriteRule(infile: string, fs: nat, tone: Number, sig: seq<real>)
    ensures ChangeToneCommand(infile, fs, tone)[5]
            == WriteFile(Dirname(infile), infile, ToneSuffix(tone), sig, fs).path
  {
  }

  /** Both rates in the filter read back as the input's rate. */
  lemma ToneFilterRates(fs: nat, tone: Number)
    ensures var d := NatToDecimal(fs);
            ToneFilter(fs, tone) == "asetrate=" + d + "*" + tone.text + ",aresample=" + d
            && AllDigits(d) && DecimalValue(d) == fs
  {
    NatDecimalRoundTrip(fs);
  }
}
