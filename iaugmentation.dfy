/** The legacy copy of the augmentations: gain in amplitude decibels, the
    RMS-preserving noise mix, the legacy names of shifted and convolved
    outputs, the shell command strings, and the fade applied to the
    silence-trimmed recording that ffmpeg hands back as raw bytes. */
module LegacyAug {
  import opened Wave
  import opened PyText
  import opened Signal
  import opened WavIO
  import opened TimeAug
  import opened AmpAug
  import opened FreqAug

  /** `apply_gain(infile, gain)` of the legacy module, with `factor`
      standing for `10**(gain / 20.0)`: the same clip and normalisation as
      the newer `apply_gain`. */
  method LegacyApplyGain(infile: string, w: Waveform, gain: Number, factor: real)
    returns (r: Result<WriteRequest>)
    requires IsDbFactor(factor, gain.value, 20.0)
    ensures r == WriteResult(infile, GainSuffix(gain), w.rate, GainOutput(w.samples, factor))
  {
    var x := GainedAndClipped(w.samples, factor);
    var y := NormalizedCopy(x);
    r := WriteResult(infile, GainSuffix(gain), w.rate, y);
  }

  /** The two gains differ by their divisor: a legacy gain of `20 * k` dB
      applies the factor that the newer gain applies for `10 * k` dB. */
  lemma LegacyGainIsHalfInDb(k: int, legacyFactor: real, factor: real)
    requires IsDbFactor(legacyFactor, 20.0 * k as real, 20.0)
    requires IsDbFactor(factor, 10.0 * k as real, 10.0)
    ensures legacyFactor == factor == Pow10(k)
  {
    assert (20.0 * k as real) / 20.0 == k as real;
    assert (10.0 * k as real) / 10.0 == k as real;
  }

  /** `sig + noise * factor`, sample by sample. */
  function Mix(sig: seq<real>, noise: seq<real>, factor: real): (y: seq<real>)
    requires |noise| == |sig|
    ensures |y| == |sig|
  {
    seq(|sig|, i requires 0 <= i < |sig| => sig[i] + noise[i] * factor)
  }

  /** `root` stands for `np.sqrt(v)`. */
  predicate IsSqrt(root: real, v: real) {
    root >= 0.0 && root * root == v
  }

  /** `noise_factor = (rms_sig / rms_noise) * snr_linear`. */
  function NoiseFactor(rmsSig: real, rmsNoise: real, snrLinear: real): real
    requires rmsNoise != 0.0
  {
    (rmsSig / rmsNoise) * snrLinear
  }

  /** The three square roots `add_noise` takes, of the mean squares of the
      signal, of the noise, and of the mix. */
  predicate NoiseRoots(sig: seq<real>, noise: seq<real>, snrLinear: real,
                       rmsSig: real, rmsNoise: real, rmsY: real)
    requires |noise| == |sig|
  {
    |sig| > 0 ==>
      && IsSqrt(rmsSig, MeanSquare(sig))
      && IsSqrt(rmsNoise, MeanSquare(noise))
      && (rmsNoise != 0.0 ==>
            IsSqrt(rmsY, MeanSquare(Mix(sig, noise, NoiseFactor(rmsSig, rmsNoise, snrLinear)))))
  }

  /** `y = sig + noise * noise_factor; y = y * rms_sig / rms_y`: the mix,
      brought back to the signal's RMS. An empty recording stays empty; a
      zero RMS of the noise or of the mix makes numpy divide by zero. */
  function PowerMatched(sig: seq<real>, noise: seq<real>, snrLinear: real,
                        rmsSig: real, rmsNoise: real, rmsY: real): (r: Result<seq<real>>)
    requires |noise| == |sig|
    ensures |sig| == 0 ==> r == Ok([])
    ensures |sig| > 0 ==> (r.Ok? <==> rmsNoise != 0.0 && rmsY != 0.0)
    ensures r.Err? ==> r.error == NonFinite
    ensures r.Ok? ==> |r.value| == |sig|
  {
    if |sig| == 0 then Ok([])
    else if rmsNoise == 0.0 || rmsY == 0.0 then Err(NonFinite)
    else Ok(Divided(Scale(Mix(sig, noise, NoiseFactor(rmsSig, rmsNoise, snrLinear)), rmsSig), rmsY))
  }

  /** What `add_noise` writes: the power-matched mix divided by its mean
      magnitude. */
  function NoiseOutput(sig: seq<real>, noise: seq<real>, snrLinear: real,
                       rmsSig: real, rmsNoise: real, rmsY: real): (r: Result<seq<real>>)
    requires |noise| == |sig|
    ensures r.Ok? ==> |r.value| == |sig|
  {
    var y := PowerMatched(sig, noise, snrLinear, rmsSig, rmsNoise, rmsY);
    if y.Err? then Err(y.error) else NormalizeMeanAbs(y.value)
  }

  /** `"_augmented_%s_noisy.wav" % snr`. */
  function NoiseSuffix(snr: Number): string
  {
    "_augmented_" + snr.text + "_noisy.wav"
  }

  /** `add_noise(infile, snr)` of the legacy module, with `noise` the draw
      of `np.random.randn(len(sig))`, `snrLinear` standing for
      `10**(snr / 20.0)` and the roots for the three `np.sqrt` calls. */
  method AddNoise(infile: string, w: Waveform, snr: Number, noise: seq<real>, snrLinear: real,
                  rmsSig: real, rmsNoise: real, rmsY: real) returns (r: Result<WriteRequest>)
    requires |noise| == |w.samples| && IsDbFactor(snrLinear, snr.value, 20.0)
    requires NoiseRoots(w.samples, noise, snrLinear, rmsSig, rmsNoise, rmsY)
    ensures r == WriteResult(infile, NoiseSuffix(snr), w.rate,
                             NoiseOutput(w.samples, noise, snrLinear, rmsSig, rmsNoise, rmsY))
  {
    var y := PowerMatched(w.samples, noise, snrLinear, rmsSig, rmsNoise, rmsY);
    var out: Result<seq<real>>;
    if y.Err? {
      out := Err(y.error);
    } else {
      out := NormalizedCopy(y.value);
    }
    r := WriteResult(infile, NoiseSuffix(snr), w.rate, out);
  }

  lemma QuotientThenProduct(x: real, c: real, d: real, q: real)
    requires d != 0.0 && q == c / d
    ensures (x * c) / d == x * q
  {
    assert q * d == c;
    assert x * c == (x * q) * d;
  }

  lemma {:induction false} DividedScaleAsScaleAt(y: seq<real>, c: real, d: real, i: int)
    requires d != 0.0 && 0 <= i < |y|
    ensures Divided(Scale(y, c), d)[i] == Scale(y, c / d)[i]
  {
    DividedAt(Scale(y, c), d, i);
    ScaleAt(y, c, i);
    ScaleAt(y, c / d, i);
    QuotientThenProduct(y[i], c, d, c / d);
  }

  lemma {:induction false} DividedScaleAsScale(y: seq<real>, c: real, d: real)
    requires d != 0.0
    ensures Divided(Scale(y, c), d) == Scale(y, c / d)
  {
    forall i | 0 <= i < |y| ensures Divided(Scale(y, c), d)[i] == Scale(y, c / d)[i] {
      DividedScaleAsScaleAt(y, c, d, i);
    }
  }

  lemma RatioSquared(c: real, d: real, q: real, m: real)
    requires d != 0.0 && q == c / d && m == d * d
    ensures q * q * m == c * c
  {
    assert q * d == c;
    assert q * q * m == (q * d) * (q * d);
  }

  /** The power matching works: the output has exactly the signal's mean
      square, whatever noise was drawn. */
  lemma {:induction false} PowerMatchedKeepsRms(sig: seq<real>, noise: seq<real>, snrLinear: real,
                                                rmsSig: real, rmsNoise: real, rmsY: real)
    requires |noise| == |sig| && |sig| > 0
    requires NoiseRoots(sig, noise, snrLinear, rmsSig, rmsNoise, rmsY)
    requires PowerMatched(sig, noise, snrLinear, rmsSig, rmsNoise, rmsY).Ok?
    ensures MeanSquare(PowerMatched(sig, noise, snrLinear, rmsSig, rmsNoise, rmsY).value)
            == MeanSquare(sig)
  {
    var y := Mix(sig, noise, NoiseFactor(rmsSig, rmsNoise, snrLinear));
    var q := rmsSig / rmsY;
    DividedScaleAsScale(y, rmsSig, rmsY);
    MeanSquareScale(y, q);
    RatioSquared(rmsSig, rmsY, q, MeanSquare(y));
    assert PowerMatched(sig, noise, snrLinear, rmsSig, rmsNoise, rmsY).value == Scale(y, q);
  }

  lemma {:induction false} MixWithZeroFactor(sig: seq<real>, noise: seq<real>)
    requires |noise| == |sig|
    ensures Mix(sig, noise, 0.0) == sig
  {
  }

  /** A silent recording cannot be mixed: its RMS is zero, so the noise
      is scaled away, the mix is silent too, and numpy divides by zero. */
  lemma {:induction false} NoiseOnSilenceFails(sig: seq<real>, noise: seq<real>, snrLinear: real,
                                               rmsSig: real, rmsNoise: real, rmsY: real)
    requires |noise| == |sig| && |sig| > 0 && IsSilent(sig)
    requires NoiseRoots(sig, noise, snrLinear, rmsSig, rmsNoise, rmsY)
    ensures NoiseOutput(sig, noise, snrLinear, rmsSig, rmsNoise, rmsY) == Err(NonFinite)
  {
    SumSquaresZeroIffSilent(sig);
    ZeroQuotient(|sig| as real);
    SquareFacts(rmsSig);
    if rmsNoise != 0.0 {
      ZeroQuotient(rmsNoise);
      assert NoiseFactor(rmsSig, rmsNoise, snrLinear) == 0.0;
      MixWithZeroFactor(sig, noise);
      SquareFacts(rmsY);
    }
  }

  /** On a recording that is not silent, a successful power matching is
      followed by a successful normalisation to mean magnitude 1. */
  lemma {:induction false} NoiseOutputIsNormalized(sig: seq<real>, noise: seq<real>, snrLinear: real,
                                                   rmsSig: real, rmsNoise: real, rmsY: real)
    requires |noise| == |sig| && |sig| > 0 && !IsSilent(sig)
    requires NoiseRoots(sig, noise, snrLinear, rmsSig, rmsNoise, rmsY)
    requires PowerMatched(sig, noise, snrLinear, rmsSig, rmsNoise, rmsY).Ok?
    ensures NoiseOutput(sig, noise, snrLinear, rmsSig, rmsNoise, rmsY).Ok?
    ensures MeanAbs(NoiseOutput(sig, noise, snrLinear, rmsSig, rmsNoise, rmsY).value) == 1.0
  {
    var v := PowerMatched(sig, noise, snrLinear, rmsSig, rmsNoise, rmsY).value;
    PowerMatchedKeepsRms(sig, noise, snrLinear, rmsSig, rmsNoise, rmsY);
    SumSquaresZeroIffSilent(sig);
    PositiveQuotient(SumSquares(sig), |sig| as real);
    LoudIsNotSilent(v);
    NormalizeFailsIffSilent(v);
    NormalizedMeanAbsIsOne(v);
  }

  /** The three roots as `add_noise` takes them from a 16-bit recording:
      `np.power(sig, 2)` squares the int16 samples in int16, so the
      signal's mean square is that of the wrapped squares. */
  predicate Int16NoiseRoots(sig: seq<int>, noise: seq<real>, snrLinear: real,
                            rmsSig: real, rmsNoise: real, rmsY: real)
    requires |noise| == |sig|
  {
    |sig| > 0 ==>
      && IsSqrt(rmsSig, Int16SumSquares(sig) as real / |sig| as real)
      && IsSqrt(rmsNoise, MeanSquare(noise))
      && (rmsNoise != 0.0 ==>
            IsSqrt(rmsY, MeanSquare(Mix(AsReals(sig), noise, NoiseFactor(rmsSig, rmsNoise, snrLinear)))))
  }

  /** As written, a 16-bit recording holding the single sample 256 gets
      the signal RMS 0 (its square wraps to 0), so the noise is scaled
      away, the mix is scaled to silence and the normalisation divides by
      zero, although the recording is not silent and its real RMS is 256. */
  lemma {:induction false} WrappedRmsSilencesMix(noise: seq<real>, snrLinear: real,
                                                 rmsSig: real, rmsNoise: real, rmsY: real)
    requires |noise| == 1
    requires Int16NoiseRoots([256], noise, snrLinear, rmsSig, rmsNoise, rmsY)
    ensures rmsSig == 0.0
    ensures AsReals([256]) == [256.0] && !IsSilent([256.0]) && IsSqrt(256.0, MeanSquare([256.0]))
    ensures NoiseOutput([256.0], noise, snrLinear, rmsSig, rmsNoise, rmsY) == Err(NonFinite)
  {
    Int16EnergyWraps();
    SquareFacts(rmsSig);
    assert AsReals([256]) == [256.0];
    assert SumSquares([256.0]) == 256.0 * 256.0 + SumSquares([]);
    if rmsNoise != 0.0 {
      ZeroQuotient(rmsNoise);
      assert NoiseFactor(rmsSig, rmsNoise, snrLinear) == 0.0;
      MixWithZeroFactor([256.0], noise);
      SquareFacts(rmsY);
      var v := Divided(Scale([256.0], rmsSig), rmsY);
      ScaleAt([256.0], rmsSig, 0);
      DividedAt(Scale([256.0], rmsSig), rmsY, 0);
      ZeroQuotient(rmsY);
      assert IsSilent(v);
      NormalizeFailsIffSilent(v);
    }
  }

  lemma NoisePowerAlgebra(f: real, rs: real, rn: real, snr: real, m: real, ms: real)
    requires rn != 0.0 && f == (rs / rn) * snr && m == rn * rn && ms == rs * rs
    ensures f * f * m == ms * (snr * snr)
  {
    var q := rs / rn;
    assert q * rn == rs;
    assert f * f * m == (q * rn) * (q * rn) * (snr * snr);
  }

  /** As written, the noise is scaled by the linear SNR instead of divided
      by it: the added noise carries `snr_linear**2` times the signal's
      power, so a larger `snr` makes the result noisier. */
  lemma {:induction false} AddedNoisePower(sig: seq<real>, noise: seq<real>, snrLinear: real,
                                           rmsSig: real, rmsNoise: real, rmsY: real)
    requires |noise| == |sig| && |sig| > 0 && rmsNoise != 0.0
    requires NoiseRoots(sig, noise, snrLinear, rmsSig, rmsNoise, rmsY)
    ensures MeanSquare(Scale(noise, NoiseFactor(rmsSig, rmsNoise, snrLinear)))
            == MeanSquare(sig) * (snrLinear * snrLinear)
  {
    var f := NoiseFactor(rmsSig, rmsNoise, snrLinear);
    MeanSquareScale(noise, f);
    NoisePowerAlgebra(f, rmsSig, rmsNoise, snrLinear, MeanSquare(noise), MeanSquare(sig));
  }

  /** The noise factor that gives the signal-to-noise ratio `snr` dB:
      `(rms_sig / rms_noise) / snr_linear`. */
  function IntendedNoiseFactor(rmsSig: real, rmsNoise: real, snrLinear: real): real
    requires rmsNoise != 0.0 && snrLinear > 0.0
  {
    (rmsSig / rmsNoise) / snrLinear
  }

  lemma IntendedPowerAlgebra(f: real, rs: real, rn: real, snr: real, m: real, ms: real)
    requires rn != 0.0 && snr > 0.0 && f == (rs / rn) / snr && m == rn * rn && ms == rs * rs
    ensures f * f * m * (snr * snr) == ms
  {
    var q := rs / rn;
    assert q * rn == rs;
    assert f * snr == q;
    assert f * f * m * (snr * snr) == (f * snr * rn) * (f * snr * rn);
  }

  /** With the intended factor, the signal carries `snr_linear**2` times
      the power of the added noise: the ratio the caller asked for. */
  lemma {:induction false} IntendedNoisePower(sig: seq<real>, noise: seq<real>, snrLinear: real,
                                              rmsSig: real, rmsNoise: real, rmsY: real)
    requires |noise| == |sig| && |sig| > 0 && rmsNoise != 0.0 && snrLinear > 0.0
    requires NoiseRoots(sig, noise, snrLinear, rmsSig, rmsNoise, rmsY)
    ensures MeanSquare(Scale(noise, IntendedNoiseFactor(rmsSig, rmsNoise, snrLinear)))
            * (snrLinear * snrLinear) == MeanSquare(sig)
  {
    var f := IntendedNoiseFactor(rmsSig, rmsNoise, snrLinear);
    MeanSquareScale(noise, f);
    IntendedPowerAlgebra(f, rmsSig, rmsNoise, snrLinear, MeanSquare(noise), MeanSquare(sig));
  }

  /* ---------------- time shift, reverse and cropping ---------------- */

  /** `"_augmented_%s_%s_shifted.wav" % (direction, shift)`: the legacy name
      records the shift in samples, not in seconds. */
  function LegacyShiftSuffix(direction: string, shift: int): string
  {
    "_augmented_" + direction + "_" + IntToDecimal(shift) + "_shifted.wav"
  }

  /** `shift_time(infile, tshift, direction)` of the legacy module. */
  function LegacyShiftTime(infile: string, w: Waveform, tshift: real, direction: string)
    : (req: WriteRequest)
    ensures req.rate == w.rate
    ensures req.data == Roll(w.samples, ShiftAmount(tshift, w.rate, direction))
    ensures multiset(req.data) == multiset(w.samples)
    ensures req == WriteFile(Dirname(infile), infile,
                             LegacyShiftSuffix(direction, ShiftAmount(tshift, w.rate, direction)),
                             req.data, w.rate)
  {
    var shift := ShiftAmount(tshift, w.rate, direction);
    RollPermutes(w.samples, shift);
    WriteFile(Dirname(infile), infile, LegacyShiftSuffix(direction, shift),
              Roll(w.samples, shift), w.rate)
  }

  /** The legacy shift moves the samples exactly as the newer one does and
      writes beside the same input; only the name attribute differs. */
  lemma LegacyShiftMatchesModern(infile: string, w: Waveform, tshift: Number, direction: string)
    ensures var shift := ShiftAmount(tshift.value, w.rate, direction);
            LegacyShiftTime(infile, w, tshift.value, direction)
            == WriteFile(Dirname(infile), infile, LegacyShiftSuffix(direction, shift),
                         ShiftTime(infile, w, tshift, direction).data, w.rate)
  {
  }

  /** The number in a legacy shift name reads back as the shift in samples. */
  lemma {:induction false} LegacyShiftNameRecordsSamples(direction: string, shift: int)
    ensures var attr := LegacyShiftSuffix(direction, shift);
            var numeral := attr[12 + |direction|..|attr| - 12];
            && numeral == IntToDecimal(shift)
            && (AllDigits(numeral) || (numeral[0] == '-' && AllDigits(numeral[1..])))
            && ParseInt(numeral) == shift
  {
    var attr := LegacyShiftSuffix(direction, shift);
    assert attr == ("_augmented_" + direction + "_") + IntToDecimal(shift) + "_shifted.wav";
    assert attr[12 + |direction|..|attr| - 12] == IntToDecimal(shift);
    IntDecimalRoundTrip(shift);
  }

  /** `reverse(infile)` of the legacy module: `sig[::-1]` written beside the
      input, the same request the newer `reverse` makes. */
  function LegacyReverse(infile: string, w: Waveform): (req: WriteRequest)
    ensures req == ReverseFile(infile, w)
  {
    var n := |w.samples|;
    WriteFile(Dirname(infile), infile, "_augmented_reversed.wav",
              seq(n, i requires 0 <= i < n => w.samples[n - 1 - i]), w.rate)
  }

  /** `random_cropping(infile, min_len)` of the legacy module, with the draws
      `u1`, `u2` behind its two `random.uniform` calls: the same bounds, the
      same slice and the same name as the newer version. */
  function LegacyRandomCropping(infile: string, w: Waveform, minLen: Number, u1: real, u2: real)
    : (r: Result<WriteRequest>)
    requires 0.0 <= u1 <= 1.0 && 0.0 <= u2 <= 1.0
    ensures r == RandomCropping(infile, w, minLen, u1, u2)
  {
    if w.rate == 0 then Err(ZeroDivision)
    else
      var fs := w.rate as real;
      var tEnd := Duration(|w.samples|, w.rate);
      if tEnd > minLen.value then
        var start := Uniform(0.0, tEnd - minLen.value, u1);
        var end := Uniform(start + minLen.value, tEnd, u2);
        var lo := (start * fs).Floor;
        var hi := Ceil(end * fs);
        assert CropWindow(|w.samples|, w.rate, minLen.value, u1, u2).0 == lo;
        assert CropWindow(|w.samples|, w.rate, minLen.value, u1, u2).1 == hi;
        Ok(WriteFile(Dirname(infile), infile,
                     "_augmented_randomly_cropped_" + minLen.text + ".wav",
                     PySlice(w.samples, lo, hi), w.rate))
      else Err(TooShort)
  }

  /* ---------------- convolution ---------------- */

  /** `'./sounds/{0}.wav'.format(ir_name)`: where the legacy `convolve`
      reads its impulse response. */
  function IrPath(irName: string): (path: string)
  {
    "./sounds/" + irName + ".wav"
  }

  /** `"_augmented_{0}_convolved{1}.wav".format(ir_name, level)`: no
      separator between "convolved" and the level. */
  function LegacyConvolveSuffix(irName: string, level: Number): string
  {
    "_augmented_" + irName + "_convolved" + level.text + ".wav"
  }

  /** `convolve(infile, ir_name, level)` of the legacy module, on the
      decoded input `w` and the decoded impulse response `ir` read from
      `IrPath(irName)`: the same truncated convolution, blend and
      normalisation as the newer `convolve`, written at the input's rate. */
  method LegacyConvolve(infile: string, w: Waveform, irName: string, ir: Waveform, level: Number)
    returns (r: Result<WriteRequest>)
    ensures r == WriteResult(infile, LegacyConvolveSuffix(irName, level), w.rate,
                             ConvolveOutput(w.samples, ir.samples, level.value))
  {
    var y := Convolved(w.samples, ir.samples, level.value);
    var out: Result<seq<real>>;
    if y.Err? {
      out := Err(y.error);
    } else {
      out := NormalizedCopy(y.value);
    }
    r := WriteResult(infile, LegacyConvolveSuffix(irName, level), w.rate, out);
  }

  /** The newer labelling, given the legacy impulse-response path, would
      keep nothing of the name: the path starts with '.'. */
  lemma LegacyIrPathHasEmptyLabel(irName: string)
    ensures IrLabel(IrPath(irName)) == ""
  {
    var path := IrPath(irName);
    assert path[0] == '.';
    RelativeIrPathHasEmptyLabel(path);
  }

  /** The legacy name keeps the impulse response's name whole, right after
      "_augmented_". */
  lemma {:induction false} LegacyConvolveNameKeepsIrName(irName: string, level: Number)
    ensures LegacyConvolveSuffix(irName, level)[11..11 + |irName|] == irName
  {
    var attr := LegacyConvolveSuffix(irName, level);
    assert attr == ("_augmented_" + irName) + ("_convolved" + level.text + ".wav");
    assert ("_augmented_" + irName)[11..] == irName;
  }

  /* ---------------- silence removal and the PCM byte parser ---------------- */

  type Byte = b: int | 0 <= b < 256

  /** `b'\x00data'`: the zero byte ending the chunk before the data chunk,
      and the data chunk's tag. */
  const DataMarker: seq<Byte> := [0, 100, 97, 116, 97]

  /** `data.find(b'\x00data') + 9`: past the marker and the chunk's 4-byte
      size field. */
  function PcmStart(data: seq<Byte>): (i: int)
    ensures i >= 8
  {
    Find(data, DataMarker) + 9
  }

  /** `data[data.find(b'\x00data') + 9:]`. */
  function PcmBytes(data: seq<Byte>): (pcm: seq<Byte>)
    ensures |pcm| <= |data|
  {
    PySlice(data, PcmStart(data), |data|)
  }

  /** A little-endian signed 16-bit value from its two bytes. */
  function Int16Of(lo: Byte, hi: Byte): (v: int)
    ensures IsInt16(v)
  {
    var u := lo + 256 * hi;
    if u >= 32768 then u - 65536 else u
  }

  /** The two little-endian bytes of a 16-bit value. */
  function Int16Bytes(v: int): (b: seq<Byte>)
    requires IsInt16(v)
    ensures |b| == 2
  {
    var u := if v < 0 then v + 65536 else v;
    [u % 256, u / 256]
  }

  lemma Int16BytesRoundTrip(v: int)
    requires IsInt16(v)
    ensures Int16Of(Int16Bytes(v)[0], Int16Bytes(v)[1]) == v
  {
  }

  lemma Int16OfRoundTrip(lo: Byte, hi: Byte)
    ensures Int16Bytes(Int16Of(lo, hi)) == [lo, hi]
  {
    var u := lo + 256 * hi;
    assert u % 256 == lo && u / 256 == hi by {
      DivModUnique(u, 256, hi, lo);
    }
  }

  /** The samples of an even-length buffer read as native little-endian
      int16 values, two bytes per sample. */
  function DecodeInt16(b: seq<Byte>): (s: seq<int>)
    requires |b| % 2 == 0
    ensures |s| == |b| / 2
    ensures forall k :: 0 <= k < |s| ==> IsInt16(s[k])
  {
    if b == [] then [] else [Int16Of(b[0], b[1])] + DecodeInt16(b[2..])
  }

  /** The bytes `np.int16` samples occupy, little-endian. */
  function EncodeInt16(s: seq<int>): (b: seq<Byte>)
    requires forall k :: 0 <= k < |s| ==> IsInt16(s[k])
    ensures |b| == 2 * |s|
  {
    if s == [] then [] else Int16Bytes(s[0]) + EncodeInt16(s[1..])
  }

  /** Decoding the bytes of int16 samples gives back the samples. */
  lemma {:induction false} DecodeEncode(s: seq<int>)
    requires forall k :: 0 <= k < |s| ==> IsInt16(s[k])
    ensures DecodeInt16(EncodeInt16(s)) == s
  {
    if s != [] {
      var b := EncodeInt16(s);
      assert b[2..] == EncodeInt16(s[1..]);
      Int16BytesRoundTrip(s[0]);
      DecodeEncode(s[1..]);
    }
  }

  /** Encoding the samples decoded from a buffer gives back the buffer. */
  lemma {:induction false} EncodeDecode(b: seq<Byte>)
    requires |b| % 2 == 0
    ensures EncodeInt16(DecodeInt16(b)) == b
  {
    if b != [] {
      var s := DecodeInt16(b);
      assert s[1..] == DecodeInt16(b[2..]);
      Int16OfRoundTrip(b[0], b[1]);
      EncodeDecode(b[2..]);
      assert b == [b[0], b[1]] + b[2..];
    }
  }

  /** `np.frombuffer(buf, np.int16)`: a buffer of odd length is refused. */
  function FromBufferInt16(buf: seq<Byte>): (r: Result<seq<int>>)
    ensures r.Ok? <==> |buf| % 2 == 0
    ensures r.Err? ==> r.error == OddBufferSize
    ensures r.Ok? ==> (forall k :: 0 <= k < |r.value| ==> IsInt16(r.value[k]))
                      && EncodeInt16(r.value) == buf
  {
    if |buf| % 2 != 0 then Err(OddBufferSize)
    else
      EncodeDecode(buf);
      Ok(DecodeInt16(buf))
  }

  /** The samples `eliminate_silence` returns, from the bytes ffmpeg wrote
      to its standard output. */
  function TrimmedSamples(stdout: seq<Byte>): (r: Result<seq<int>>)
    ensures r.Ok? <==> |PcmBytes(stdout)| % 2 == 0
    ensures r.Err? ==> r.error == OddBufferSize
    ensures r.Ok? ==> (forall k :: 0 <= k < |r.value| ==> IsInt16(r.value[k]))
                      && EncodeInt16(r.value) == PcmBytes(stdout)
  {
    FromBufferInt16(PcmBytes(stdout))
  }

  /** When the first marker is the one before the data chunk, the parser
      returns exactly the chunk's payload. */
  lemma {:induction false} PcmBytesAfterFirstMarker(header: seq<Byte>, size: seq<Byte>, payload: seq<Byte>)
    requires |size| == 4
    requires !OccursBefore(header + DataMarker + size + payload, DataMarker, |header|)
    ensures PcmBytes(header + DataMarker + size + payload) == payload
  {
    var data := header + DataMarker + size + payload;
    var h := |header|;
    assert data[h..h + 5] == DataMarker;
    assert OccursAt(data, DataMarker, h);
    var r := Find(data, DataMarker);
    assert OccursBefore(data, DataMarker, |data| + 1);
    assert r > h ==> OccursBefore(data, DataMarker, r);
    assert r == h;
    assert data[h + 9..] == payload;
  }

  /** Without the marker, `find` returns -1 and decoding starts at byte 8,
      in the middle of the RIFF header. */
  lemma MissingMarkerStartsAtByteEight(data: seq<Byte>)
    requires forall j :: !OccursAt(data, DataMarker, j)
    ensures PcmStart(data) == 8
    ensures |data| >= 8 ==> PcmBytes(data) == data[8..]
  {
  }

  /** `eliminate_silence(input_path, output_path)`: the ffmpeg arguments
      that trim silence into `output_path`. */
  function LegacySilenceCommand(inputPath: string, outputPath: string): (args: seq<string>)
    ensures |args| == 13 && args[2] == inputPath && args[11] == outputPath && args[12] == "-y"
  {
    ["ffmpeg", "-i", inputPath, "-af", "silenceremove=1:0:0.05:-1:1:-36dB",
     "-ac", "1", "-ss", "0", "-t", "90", outputPath, "-y"]
  }

  /** The ffmpeg arguments that write the trimmed file as WAV to standard
      output. */
  function LoadCommand(outputPath: string): (args: seq<string>)
    ensures |args| == 6 && args[2] == outputPath && args[5] == "-"
  {
    ["ffmpeg", "-i", outputPath, "-f", "wav", "-"]
  }

  /* ---------------- fade on the trimmed signal ---------------- */

  /** Where `fade_in_and_out` has the trimmed file written:
      `os.path.join(dirname, basename.split(".wav")[0] + "_no_silence.wav")`. */
  function NoSilencePath(infile: string): string
  {
    Join(Dirname(infile), WavStem(Basename(infile)) + "_no_silence.wav")
  }

  /** The trimmed file follows the naming rule of `write_file`, so for a
      plain path it lies beside the input and never overwrites it. */
  lemma {:induction false} NoSilencePathBesideInput(infile: string)
    requires NoDoubleSlash(infile)
    requires !OccursBefore(infile, ".wav", AfterLastSlash(infile))
    ensures NoSilencePath(infile) == WavStem(infile) + "_no_silence.wav"
    ensures NoSilencePath(infile) != infile
  {
    WriteBesideInput(infile, "_no_silence.wav", [], 0);
    OutputDiffersFromInput(infile, "_no_silence.wav");
  }

  /** What the legacy `fade_in_and_out` computes from ffmpeg's output: the
      trimmed samples times the Hamming window of their own length, divided
      by the mean magnitude. */
  function LegacyFadeOutput(stdout: seq<Byte>, window: seq<real>): (r: Result<seq<real>>)
    requires TrimmedSamples(stdout).Ok? ==> |window| == |TrimmedSamples(stdout).value|
  {
    var t := TrimmedSamples(stdout);
    if t.Err? then Err(t.error) else FadeOutput(AsReals(t.value), window)
  }

  /** `fade_in_and_out(infile)` of the legacy module: `fs` comes from the
      input recording `w`; the samples come from `stdout`, the WAV bytes
      ffmpeg prints for the silence-trimmed copy; `window` stands for
      `np.hamming(len(non_silence_sig))`. */
  method LegacyFadeInAndOut(infile: string, w: Waveform, stdout: seq<Byte>, window: seq<real>)
    returns (r: Result<WriteRequest>)
    requires TrimmedSamples(stdout).Ok? ==> IsHammingWindow(window, |TrimmedSamples(stdout).value|)
    ensures r == WriteResult(infile, FadeSuffix, w.rate, LegacyFadeOutput(stdout, window))
  {
    var t := TrimmedSamples(stdout);
    var out: Result<seq<real>>;
    if t.Err? {
      out := Err(t.error);
    } else {
      var faded := Windowed(window, AsReals(t.value));
      out := NormalizedCopy(faded);
    }
    r := WriteResult(infile, FadeSuffix, w.rate, out);
  }

  /** The legacy fade writes as many samples as survive the trimming, at the
      input's rate, whatever the input's own length; an odd number of PCM
      bytes fails before anything is written. */
  lemma {:induction false} LegacyFadeLength(infile: string, w: Waveform, stdout: seq<Byte>, window: seq<real>)
    requires TrimmedSamples(stdout).Ok? ==> |window| == |TrimmedSamples(stdout).value|
    ensures |PcmBytes(stdout)| % 2 != 0 ==>
              WriteResult(infile, FadeSuffix, w.rate, LegacyFadeOutput(stdout, window)) == Err(OddBufferSize)
    ensures var r := WriteResult(infile, FadeSuffix, w.rate, LegacyFadeOutput(stdout, window));
            r.Ok? ==> |r.value.data| == |PcmBytes(stdout)| / 2 && r.value.rate == w.rate
  {
  }

  /* ---------------- shell commands ---------------- */

  /** `" ".join(args)`. */
  function SpaceJoin(args: seq<string>): string
  {
    if args == [] then ""
    else if |args| == 1 then args[0]
    else args[0] + " " + SpaceJoin(args[1..])
  }

  /** The `os.system` command of the legacy `slowdown` and `speed`. */
  function LegacyTempoShell(inputFile: string, coefficient: Number, nameAttribute: string): string
  {
    var outputFile := SplitFirst(inputFile, ".wav") + nameAttribute;
    "ffmpeg -i " + inputFile + " -filter:a \"atempo=" + coefficient.text + "\" "
      + outputFile + " > /dev/null"
  }

  /** `slowdown(input_file, coefficient)` of the legacy module. */
  function LegacySlowdownShell(inputFile: string, coefficient: Number): string
  {
    LegacyTempoShell(inputFile, coefficient, "_augmented_slowed.wav")
  }

  /** `speed(input_file, coefficient)` of the legacy module. */
  function LegacySpeedShell(inputFile: string, coefficient: Number): string
  {
    LegacyTempoShell(inputFile, coefficient, "_augmented_speeded.wav")
  }

  lemma SpaceJoinSix(a: seq<string>)
    requires |a| == 6
    ensures SpaceJoin(a) == a[0] + " " + a[1] + " " + a[2] + " " + a[3] + " " + a[4] + " " + a[5]
  {
    assert SpaceJoin(a[5..]) == a[5];
    assert a[4..][1..] == a[5..];
    assert SpaceJoin(a[4..]) == a[4] + " " + a[5];
    assert a[3..][1..] == a[4..];
    assert SpaceJoin(a[3..]) == a[3] + " " + (a[4] + " " + a[5]);
    assert a[2..][1..] == a[3..];
    assert SpaceJoin(a[2..]) == a[2] + " " + (a[3] + " " + (a[4] + " " + a[5]));
    assert a[1..][1..] == a[2..];
    assert SpaceJoin(a[1..]) == a[1] + " " + (a[2] + " " + (a[3] + " " + (a[4] + " " + a[5])));
    SixWords(a[0], a[1], a[2], a[3], a[4], a[5]);
  }

  lemma SixWords(a: string, b: string, c: string, d: string, e: string, f: string)
    ensures a + " " + (b + " " + (c + " " + (d + " " + (e + " " + f))))
         == a + " " + b + " " + c + " " + d + " " + e + " " + f
  {
  }

  lemma TempoPieces(inputFile: string, c: string, outputFile: string)
    ensures "ffmpeg -i " + inputFile + " -filter:a \"atempo=" + c + "\" " + outputFile + " > /dev/null"
         == "ffmpeg" + " " + "-i" + " " + inputFile + " " + "-filter:a" + " \"" + ("atempo=" + c)
            + "\" " + outputFile + " > /dev/null"
  {
  }

  lemma TonePieces(infile: string, f: string, t: string, outfile: string)
    ensures "ffmpeg -i " + infile + " -af asetrate=" + f + "*" + t + ",aresample=" + f + " " + outfile
         == "ffmpeg" + " " + "-i" + " " + infile + " " + "-af" + " "
            + ("asetrate=" + f + "*" + t + ",aresample=" + f) + " " + outfile
  {
  }

  /** The legacy tempo command is the newer argument list joined by
      spaces, with the filter quoted for the shell and the output
      discarded; it writes the same file. */
  lemma {:induction false} LegacyTempoMatchesModern(inputFile: string, coefficient: Number)
    ensures var args := SlowDownCommand(inputFile, coefficient);
            LegacySlowdownShell(inputFile, coefficient)
            == args[0] + " " + args[1] + " " + args[2] + " " + args[3] + " \"" + args[4] + "\" "
               + args[5] + " > /dev/null"
    ensures var args := SpeedCommand(inputFile, coefficient);
            LegacySpeedShell(inputFile, coefficient)
            == args[0] + " " + args[1] + " " + args[2] + " " + args[3] + " \"" + args[4] + "\" "
               + args[5] + " > /dev/null"
  {
    TempoPieces(inputFile, coefficient.text, WavStem(inputFile) + "_augmented_slowed.wav");
    TempoPieces(inputFile, coefficient.text, WavStem(inputFile) + "_augmented_speeded.wav");
  }

  /** `change_tone(infile, tone)` of the legacy module: the `os.system`
      command, given the rate `fs` that `read_file` returned. */
  function LegacyToneShell(infile: string, fs: nat, tone: Number): string
  {
    var outfile := Join(Dirname(infile), WavStem(Basename(infile)) + ToneSuffix(tone));
    "ffmpeg -i " + infile + " -af asetrate=" + NatToDecimal(fs) + "*" + tone.text
      + ",aresample=" + NatToDecimal(fs) + " " + outfile
  }

  /** The legacy tone command is exactly the newer argument list joined by
      spaces. */
  lemma {:induction false} LegacyToneMatchesModern(infile: string, fs: nat, tone: Number)
    ensures LegacyToneShell(infile, fs, tone) == SpaceJoin(ChangeToneCommand(infile, fs, tone))
  {
    var outfile := Join(Dirname(infile), WavStem(Basename(infile)) + ToneSuffix(tone));
    var args := ChangeToneCommand(infile, fs, tone);
    assert args == ["ffmpeg", "-i", infile, "-af", ToneFilter(fs, tone), outfile];
    SpaceJoinSix(args);
    TonePieces(infile, NatToDecimal(fs), tone.text, outfile);
  }
}
