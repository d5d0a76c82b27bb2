# pydiogment in Dafny

pydiogment augments audio recordings. Each transform reads a WAV file, changes
its samples or hands the file to ffmpeg, and writes the result beside the
input under a name derived from it. This project models the in-process part of
the library and proves properties of that model:

- `Wave` holds the data model: a decoded recording (`Waveform`), the arguments
  handed to the WAV writer (`WriteRequest`), numbers as the caller wrote them
  (`Number`, a value and its `str()` text), and the ways a transform fails.
- `PyText` holds the Python semantics that names and buffers depend on:
  `find`, `split(sep)[0]`, slicing, POSIX `basename`/`dirname`/`join`, and
  `str(int)` with its inverse `int()`.
- `Signal` holds sums, means, scaling and the mean-magnitude normalisation
  (`x /= np.mean(np.abs(x))`) shared by most transforms. It comes both as a
  function and as an in-place loop over an array.
- `WavIO` models `utils/io.py`: channel-0 selection on read, and the
  output-name rule on write.
- `Filters` models `utils/filters.py`: Nyquist normalisation of cutoffs and
  the dispatch on filter type. The Butterworth design and `lfilter` are a
  function parameter.
- `TimeAug` models `augt.py`: the time shift as a circular roll, reversal,
  random cropping, and the ffmpeg argument lists.
- `AmpAug` models `auga.py`: gain with clipping, the Hamming fade, and peak
  and RMS normalisation.
- `FreqAug` models `augf.py`: the truncated convolution with its dry/wet
  blend, the filter front end, and the tone-change arguments.
- `LegacyAug` models `iaugmentation.py`, the older copy of the transforms:
  - gain in amplitude decibels;
  - the RMS-preserving noise mix;
  - the legacy names;
  - the PCM parser that reads ffmpeg's raw output;
  - the fade on the silence-trimmed signal;
  - the shell command strings.

How the model represents the source:

- Samples are exact `real` numbers.
- Transcendental values are parameters with the algebraic facts the code
  relies on: `10**(g/10)`, `10**(g/20)`, `np.sqrt` and the Hamming window.
- Random draws are parameters inside their documented ranges.
- When numpy would divide by zero, the model ends the transform with
  `Err(NonFinite)`.

Where the docstrings and the code disagree, the model follows the code:

- `shift_time` with `"left"` rolls the samples towards later indices and
  fills nothing with zeros.
- The shift in samples is truncated with `int()`, not rounded.
- `auga.apply_gain` and `auga.normalize` use `/10.0` in the exponent.
- `random_cropping` only warns when the recording is too short.
- Peak normalisation divides by the maximum, not the maximum magnitude.
- `convolve` never compares the impulse response's rate with the input's.
- pydiogment does not check normalised cutoffs against the Nyquist frequency. `scipy.signal.butter` rejects a critical frequency outside (0, 1), and the model leaves that rejection to the filter implementation `FilterImpl`.
- Applying a 0 dB gain twice does not give the same file as applying it
  once. `AmpAug.ZeroDbGainTwiceDiffers` exhibits a buffer where it differs.

## Model

| member | source | states |
|---|---|---|
| WavIO.ReadFile | pydiogment/utils/io.py:18-23 | A mono array is returned unchanged with its rate. A multi-channel array yields channel 0 of every frame, so the length is the frame count. An array without channels fails with NoChannel. |
| WavIO.ReadFileKeepsFirstChannel | pydiogment/utils/io.py:21-22 | Reading interleaved channels gives back exactly the first channel, at the decoded rate. |
| WavIO.WavStem | pydiogment/utils/io.py:42 | `split(".wav")[0]` is a prefix of the name with no ".wav" in it. It is the whole name exactly when ".wav" does not occur; otherwise the first ".wav" follows it. |
| WavIO.OutputName | pydiogment/utils/io.py:42 | The output name ends with the name attribute. What precedes it is the input's basename up to its first ".wav", or the whole basename when it holds no ".wav"; it contains no '/'. |
| WavIO.WriteFile | pydiogment/utils/io.py:42-44 | The writer gets `sig` and `fs` unchanged, and the path ends with the output name. |
| WavIO.WriteResult | pydiogment/utils/io.py:42-44 | A transform's buffer is written exactly when it was computed, with its data and rate unchanged; an error passes through unchanged. |
| WavIO.WriteBesideInput | pydiogment/utils/io.py:42-43 | For a normal path with no ".wav" in its directory part, `join(dirname(infile), name)` equals the input up to its first ".wav", followed by the attribute. |
| WavIO.StemOfPath | pydiogment/utils/io.py:42 | The stem of a path is its directory part followed by the stem of its basename. |
| WavIO.OutputDiffersFromInput | pydiogment/utils/io.py:42 | An attribute that is non-empty and does not start with '.' never reproduces the input name. |
| WavIO.OutputStem | pydiogment/utils/io.py:42 | Re-augmenting an output keeps accumulating attributes: the stem of `stem + attr` is the stem followed by the attribute's own stem. |
| PyText.Find | pydiogment/iaugmentation.py:77 | `find` gives -1 exactly when the pattern does not occur. Otherwise it gives an index where the pattern occurs, with no occurrence before it. |
| PyText.SplitFirst | pydiogment/utils/io.py:42 | `s.split(sep)[0]` is a prefix with no occurrence of `sep`, and `sep` starts nowhere before its end. It is all of `s` exactly when `sep` does not occur; otherwise `sep` follows it, so the cut is at the first occurrence. |
| PyText.PySlice | pydiogment/augt.py:63 | A Python slice never fails and never exceeds the sequence. With bounds inside the sequence it is the ordinary subsequence. |
| PyText.Join | pydiogment/utils/io.py:43 | `os.path.join` ends with its second argument. An absolute second argument replaces the first, and an empty first argument is dropped. |
| PyText.JoinDirname | pydiogment/utils/io.py:43 | Joining a path's dirname with a name that does not start with '/' gives the path's directory part followed by the name. |
| PyText.Basename | pydiogment/utils/io.py:42 | `os.path.basename` is a suffix of the path with no '/' in it, and whatever precedes it ends in '/'. |
| PyText.Dirname | pydiogment/utils/io.py:43 | `os.path.dirname` is a prefix of the path, and it is empty when the path holds no '/'. |
| PyText.IntToDecimal | pydiogment/iaugmentation.py:273 | `str(i)` of an integer is never empty; its round trip is IntDecimalRoundTrip. |
| PyText.IntDecimalRoundTrip | pydiogment/augt.py:209 | `int(str(i)) == i` for every integer. |
| Signal.NormalizeMeanAbs | pydiogment/auga.py:25 | Dividing by the mean magnitude keeps the length. An empty buffer stays empty. |
| Signal.NormalizeFailsIffSilent | pydiogment/auga.py:25 | The normalisation divides by zero exactly when the buffer is non-empty and all zero. |
| Signal.NormalizedMeanAbsIsOne | pydiogment/auga.py:25 | After a successful normalisation the mean magnitude is exactly 1. |
| Signal.NormalizeScaleInvariant | pydiogment/auga.py:23-25 | Normalising a buffer scaled by any positive factor gives the same result as normalising the buffer. |
| Signal.NormalizeIdempotent | pydiogment/auga.py:25 | Normalising a normalised buffer changes nothing. |
| Signal.DivideInPlace | pydiogment/auga.py:25 | The in-place `/=` loop leaves the array holding every old element divided by the divisor. |
| Signal.NormalizedCopy | pydiogment/auga.py:22-25 | Copying and then dividing in place computes the normalisation, including its failure on a silent buffer. |
| Signal.SumAbsZeroIffSilent | pydiogment/auga.py:25 | The sum of magnitudes is zero exactly when every sample is zero. |
| Signal.SumSquaresZeroIffSilent | pydiogment/auga.py:127 | The sum of squares is zero exactly when every sample is zero. |
| Signal.MeanSquareScale | pydiogment/auga.py:130 | Scaling by `a` multiplies the mean square by `a*a`. |
| Signal.MeanAbsScale | pydiogment/auga.py:23-25 | Scaling by a positive factor multiplies the mean magnitude by it. |
| Filters.Nyquist | pydiogment/utils/filters.py:20 | Twice the Nyquist frequency is the sampling rate. |
| Filters.Normalized | pydiogment/utils/filters.py:20-23 | A cutoff of None fails with a TypeError and a zero rate with ZeroDivisionError. Otherwise the normalised cutoff times `fs` equals twice the cutoff. |
| Filters.ButterLowpass | pydiogment/utils/filters.py:10-27 | A low-pass design of the given order, with one normalised frequency `2*cutoff/fs`; its errors are those of the normalisation. |
| Filters.ButterHighpass | pydiogment/utils/filters.py:30-47 | The same normalisation as the low-pass, with a high-pass design. |
| Filters.ButterBandpass | pydiogment/utils/filters.py:50-69 | Both cutoffs are normalised by the same Nyquist value and kept in the order `[low, high]`. The low cutoff's error is raised first. |
| Filters.FilterDesign | pydiogment/utils/filters.py:84-86 | "band" gives a band-pass design, "high" a high-pass design, and any other string a low-pass design, all of the requested order. "band" normalises `[low_cut, high_cut]`, "high" normalises `high_cut`, and the low-pass normalises `low_cut`. |
| Filters.ButterFilter | pydiogment/utils/filters.py:72-90 | A design error passes through; otherwise the result is the filter applied to the signal with the dispatched design. |
| Filters.ButterFilterDefaults | pydiogment/utils/filters.py:72 | Defines `butter_filter(sig, fs)` as `ButterFilter(sig, fs, "low", 50, 2000, 5)`; what it means is in DefaultsAreLowpassAt50. |
| Filters.DefaultsAreLowpassAt50 | pydiogment/utils/filters.py:72-86 | With the defaults, the filter is the order-5 low-pass at `100/fs`. A zero rate fails. |
| Filters.HighpassIgnoresLowCut | pydiogment/utils/filters.py:85 | A high-pass result does not depend on `low_cut`. |
| Filters.UnknownTypeIsLowpass | pydiogment/utils/filters.py:86 | Any filter type other than "band" and "high" behaves as "low", whatever `high_cut` is. |
| Filters.BandpassKeepsOrder | pydiogment/utils/filters.py:61-66 | Ordered cutoffs give ordered normalised frequencies. |
| Filters.NoRangeCheck | pydiogment/utils/filters.py:20-24 | pydiogment does not check the cutoff itself. A cutoff above Nyquist becomes a design request with a critical frequency above 1. That request goes to `butter`, here the filter implementation, which alone decides whether to reject it. |
| TimeAug.Trunc | pydiogment/augt.py:151 | `int()` truncates toward zero: the result lies between 0 and `x`, less than 1 away from `x`. |
| TimeAug.ShiftAmount | pydiogment/augt.py:151-152 | Defines `int(tshift*fs)*int(direction == "left") - int(tshift*fs)*int(direction == "right")`; its properties are in ShiftDirections and ShiftTruncates. |
| TimeAug.ShiftDirections | pydiogment/augt.py:151-152 | "right" shifts by the negation of "left", and any other direction does not shift. |
| TimeAug.ShiftTruncates | pydiogment/augt.py:151-152 | The left shift is `tshift*fs` truncated toward zero. |
| TimeAug.Roll | pydiogment/augt.py:155 | `np.roll` keeps the length; it defines `out[i] = sig[(i - k) mod n]`, whose meaning is in RollMoves, RollIsRotation, RollPermutes and RollInverse. |
| TimeAug.RollMoves | pydiogment/augt.py:155 | `np.roll` moves sample `i` to index `(i + shift) mod n`. |
| TimeAug.RollIsRotation | pydiogment/augt.py:155 | The roll is a rotation: a suffix of the buffer followed by the matching prefix, with no zero fill. |
| TimeAug.RollPermutes | pydiogment/augt.py:155 | The roll keeps the multiset of samples. |
| TimeAug.RollInverse | pydiogment/augt.py:155 | Rolling by `-k` undoes rolling by `k`. |
| TimeAug.ShiftTime | pydiogment/augt.py:150-167 | `shift_time` writes `np.roll` of the samples by the shift in samples, so it keeps the rate and the multiset of samples. It writes by the `write_file` rule under a suffix naming the direction and the shift in seconds. |
| TimeAug.ShiftSuffix | pydiogment/augt.py:160 | Defines `"_augmented_" + direction + "_" + str(tshift) + "_shifted.wav"`. |
| TimeAug.LeftThenRightRestores | pydiogment/augt.py:151-155 | Shifting left and then right by the same `tshift` restores the input samples. |
| TimeAug.ReverseFile | pydiogment/augt.py:178-191 | `reverse` keeps the rate and the length, and puts sample `n-1-i` at index `i`. It writes by the `write_file` rule under `_augmented_reversed.wav`. |
| TimeAug.Reverse | pydiogment/augt.py:179 | `sig[::-1]` keeps the length; it defines `out[i] = sig[n-1-i]`, whose meaning is in ReverseInvolution and ReversePermutes. |
| TimeAug.ReverseInvolution | pydiogment/augt.py:179 | Reversing twice gives back the samples. |
| TimeAug.ReversePermutes | pydiogment/augt.py:179 | Reversing keeps the multiset of samples. |
| TimeAug.Uniform | pydiogment/augt.py:59-60 | `random.uniform(a, b)` lies in `[a, b]`. |
| TimeAug.Duration | pydiogment/augt.py:56 | `t_end * fs` is the number of samples. |
| TimeAug.CropWindow | pydiogment/augt.py:56-63 | For a non-negative `min_len`, the bounds `floor(start*fs)` and `ceil(end*fs)` lie inside the buffer and at least `min_len*fs` samples apart. |
| TimeAug.RandomCropping | pydiogment/augt.py:47-81 | A zero rate fails. Otherwise a file is written exactly when the duration exceeds `min_len`, else it only warns. The output keeps the rate and is no longer than the input. It is written by the `write_file` rule under `_augmented_randomly_cropped_<min_len>.wav`. |
| TimeAug.CropSuffix | pydiogment/augt.py:68 | Defines `"_augmented_randomly_cropped_" + str(min_len) + ".wav"`. |
| TimeAug.CropIsContiguousSlice | pydiogment/augt.py:59-63 | A written crop is the contiguous slice between the crop window's bounds, and that window is at least `min_len*fs` samples long. |
| TimeAug.EliminateSilenceCommand | pydiogment/augt.py:24-32 | The ffmpeg arguments read the input and write `split(".wav")[0] + "_augmented_without_silence.wav"`, which is never the input. |
| TimeAug.TempoCommand | pydiogment/augt.py:93-99 | The tempo arguments pass `atempo=<coefficient>` and write the input's stem plus the attribute, never the input itself. |
| TimeAug.SlowDownCommand | pydiogment/augt.py:84-99 | `slow_down` writes `<stem>_augmented_slowed.wav` with `atempo=<coefficient>`. |
| TimeAug.SpeedCommand | pydiogment/augt.py:112-127 | `speed` writes `<stem>_augmented_speeded.wav` with `atempo=<coefficient>`. |
| TimeAug.TempoOutputsDiffer | pydiogment/augt.py:94 | Slowing down and speeding up the same file never write the same output. |
| TimeAug.ResampleCommand | pydiogment/augt.py:205-209 | The resampling arguments pass `-ar <sr>` and write `<stem>_augmented_resampled_to_<sr>.wav`, never the input. |
| TimeAug.ResampleRateRoundTrip | pydiogment/augt.py:209 | The rate argument reads back as `sr`. |
| AmpAug.Clamp | pydiogment/auga.py:24 | `min(max(-1, v), 1)` lies in [-1, 1], keeps values inside it, and maps larger values to 1 and smaller values to -1. |
| AmpAug.ClampAll | pydiogment/auga.py:24 | The element-wise clamp keeps the length and puts every sample in [-1, 1]. |
| AmpAug.ClampIdempotent | pydiogment/auga.py:24 | Clamping twice equals clamping once. |
| AmpAug.ClampInRangeIsIdentity | pydiogment/auga.py:24 | A buffer already in [-1, 1] is unchanged by the clamp. |
| AmpAug.ClampSilentIff | pydiogment/auga.py:24 | The clamped buffer is silent exactly when the buffer is. |
| AmpAug.GainedAndClipped | pydiogment/auga.py:23-24 | After the gain and the clamp, the length is kept and every sample lies in [-1, 1]. |
| AmpAug.GainOutput | pydiogment/auga.py:23-25 | A successful gain output keeps the length; it is the gained and clipped buffer divided by its mean magnitude, whose meaning is in GainFailsIffSilent, GainMeanAbsIsOne and UnclippedGainCancels. |
| AmpAug.GainSuffix | pydiogment/auga.py:30 | Defines `"_augmented_with_" + str(gain) + "_gain.wav"`. |
| AmpAug.ApplyGain | pydiogment/auga.py:10-35 | `apply_gain` writes the gained, clamped and normalised buffer at the input's rate, under `_augmented_with_<gain>_gain.wav`. |
| AmpAug.GainFailsIffSilent | pydiogment/auga.py:23-25 | The gain fails exactly on a non-empty silent recording. |
| AmpAug.GainMeanAbsIsOne | pydiogment/auga.py:25 | A successful gain output has mean magnitude 1. |
| AmpAug.UnclippedGainCancels | pydiogment/auga.py:23-25 | When nothing is clipped, the output is `x / mean(abs(x))`, whatever the gain. |
| AmpAug.ZeroDbGainTwiceDiffers | pydiogment/auga.py:23-25 | A 0 dB gain applied to `[0.5, 0.25]` gives `[4/3, 2/3]`; applied again it gives `[6/5, 4/5]`. |
| AmpAug.FadeInAndOut | pydiogment/auga.py:87-105 | `fade_in_and_out` writes the windowed buffer divided by its mean magnitude, at the input's rate. |
| AmpAug.Windowed | pydiogment/auga.py:97 | `window * sig` on a window of the signal's length keeps the length. |
| AmpAug.FadeSuffix | pydiogment/auga.py:93 | Defines the constant `"_augmented_fade_in_out.wav"`. |
| AmpAug.FadeOutput | pydiogment/auga.py:96-98 | The fade keeps the length. |
| AmpAug.FadeFailsIffSilent | pydiogment/auga.py:96-98 | The fade fails exactly on a non-empty silent recording, since no Hamming coefficient is zero. |
| AmpAug.FadeCommutesWithReverse | pydiogment/auga.py:97 | The symmetric window commutes with reversal. |
| AmpAug.FadeOfOneSample | pydiogment/auga.py:96-98 | A one-sample recording fades to its sign. |
| AmpAug.PeakNormalize | pydiogment/auga.py:121-122 | An empty recording fails in `np.max`. A maximum of 0 divides by zero. Otherwise the length is kept. |
| AmpAug.PeakIsOne | pydiogment/auga.py:122 | With a positive maximum, the output's maximum is exactly 1. |
| AmpAug.PeakOfNegativeSignal | pydiogment/auga.py:122 | With a negative maximum, every output sample is at least 1: the division is by the maximum, not the maximum magnitude. |
| AmpAug.RmsNormalize | pydiogment/auga.py:124-130 | An empty recording stays empty. A zero sum of squares divides by zero. Otherwise the length is kept. |
| AmpAug.RmsReachesLevel | pydiogment/auga.py:126-130 | With `a = sqrt(n*r*r/sum(sig**2))`, the output's mean square is exactly `r*r`. |
| AmpAug.RmsFailsIffSilent | pydiogment/auga.py:127 | RMS normalisation fails exactly on a non-empty silent recording. |
| AmpAug.Normalize | pydiogment/auga.py:121-133 | A technique other than "peak" and "rms" fails with `y` unbound; otherwise the length is kept. |
| AmpAug.NormalizeFile | pydiogment/auga.py:108-145 | `normalize` writes only for "peak" or "rms", at the input's rate, with the input's length. It writes exactly the values of `Normalize` or fails as it does, by the `write_file` rule under `_augmented_<technique>_normalized.wav`. |
| AmpAug.NormalizeSuffix | pydiogment/auga.py:138 | Defines `"_augmented_" + normalization_technique + "_normalized.wav"`. |
| AmpAug.RmsDefaultLevelIsUnit | pydiogment/auga.py:108 | At the default `rms_level=0`, the output's mean square is 1. |
| AmpAug.Int16Square | pydiogment/auga.py:127 | `sig**2` on int16 samples is the square reduced to a 16-bit signed value. |
| AmpAug.Int16EnergyWraps | pydiogment/auga.py:127 | In 16-bit arithmetic the sum of squares of `[256]` is 0 and that of `[200]` is negative; the true values are 65536 and 40000. |
| AmpAug.Int16Wrap | pydiogment/auga.py:127 | Storing an integer in an int16 array keeps it modulo 2**16 as a signed 16-bit value, and leaves a 16-bit value unchanged. |
| FreqAug.FullConvolution | pydiogment/augf.py:28 | `np.convolve(x, ir, 'full')` has length `len(x) + len(ir) - 1`. |
| FreqAug.Blend | pydiogment/augf.py:28 | The dry/wet blend keeps the input's length. |
| FreqAug.Convolved | pydiogment/augf.py:28 | An empty input or impulse response fails. Otherwise the blend has the input's length, for any length of impulse response. |
| FreqAug.ConvolveOutput | pydiogment/augf.py:28-31 | A successful convolution output keeps the input's length; its failure and mean magnitude are in Convolved and ConvolveMeanAbsIsOne. |
| FreqAug.Convolve | pydiogment/augf.py:11-42 | `convolve` writes the normalised blend at the input's rate `fs1`, whatever the impulse response's rate, under a name carrying the impulse response's label. |
| FreqAug.ConvolveSuffix | pydiogment/augf.py:36 | Defines `"_augmented_" + label + "_convolved_with_level_" + str(level) + ".wav"`. |
| FreqAug.IrLabel | pydiogment/augf.py:36 | The label contains neither '/' nor '.'. It is the end of the path's part before its first '.', and either that whole part or the part after a '/'. |
| FreqAug.RelativeIrPathHasEmptyLabel | pydiogment/augf.py:36 | An impulse-response path starting with '.' (such as "./ir.wav") gives an empty label. |
| FreqAug.IrLabelOfWavPath | pydiogment/augf.py:36 | An impulse response stored as `<dir>/<name>.wav`, with no '.' in the directory or the name, is labelled `<name>`. |
| FreqAug.BlendDry | pydiogment/augf.py:28 | `level = 0` gives the dry input. |
| FreqAug.BlendWet | pydiogment/augf.py:28 | `level = 1` gives the truncated convolution. |
| FreqAug.BlendSame | pydiogment/augf.py:28 | Blending a buffer with itself gives the buffer, at any level. |
| FreqAug.UnitImpulseIsIdentity | pydiogment/augf.py:28 | Convolving with `[1]` gives back the input. |
| FreqAug.ConvolveWithUnitImpulse | pydiogment/augf.py:28-31 | Convolving with `[1]` at any level is plain mean-magnitude normalisation. |
| FreqAug.ConvolutionIsCausal | pydiogment/augf.py:28 | Output sample `m` depends only on input samples `0..m`. |
| FreqAug.ConvolveMeanAbsIsOne | pydiogment/augf.py:31 | A successful convolution output has mean magnitude 1. |
| FreqAug.Int16Convolution | pydiogment/augf.py:28 | As written on 16-bit buffers, `np.convolve` gives `len(x) + len(ir) - 1` samples, each an int16 value. |
| FreqAug.Int16ConvolveOutput | pydiogment/augf.py:28-31 | As written on 16-bit buffers, `convolve` fails exactly on an empty buffer or a silent blend, and otherwise keeps the input's length. |
| FreqAug.Int16ConvolutionWraps | pydiogment/augf.py:28-31 | As written, `[200]` convolved with `[200]` gives `[-25536]` instead of `[40000]`, so the fully wet output is `[-1.0]` where the exact convolution gives `[1.0]`. |
| FreqAug.NormalizesToSign | pydiogment/augf.py:31 | A single non-zero sample divided by its mean magnitude becomes its sign. |
| FreqAug.PartialConvOfIntegers | pydiogment/augf.py:28 | On integer samples every partial sum of the real convolution is the exact integer partial sum. |
| FreqAug.ConvolutionOfPcmIsExact | pydiogment/augf.py:28 | On 16-bit samples the model's convolution is the exact integer sum. numpy's int16 result agrees with it at a sample exactly when that sum fits in 16 bits. |
| FreqAug.ApplyFilter | pydiogment/augf.py:88-101 | `apply_filter` forwards type, cutoffs and order unchanged. It writes the filtered signal at the input's rate, or fails as the filter does. It writes by the `write_file` rule under `_augmented_<filter_type>_pass_filtered.wav`. |
| FreqAug.FilterSuffix | pydiogment/augf.py:96 | Defines `"_augmented_" + filter_type + "_pass_filtered.wav"`. |
| FreqAug.DefaultHighCutoffFails | pydiogment/augf.py:73 | With the default `high_cutoff_freq=None`, a "high" filter always fails, and so does a "band" filter at a positive rate. |
| FreqAug.ChangeToneCommand | pydiogment/augf.py:63-65 | The six tone arguments are `ffmpeg -i <infile> -af <filter>`, with the filter `asetrate=<fs>*<tone>,aresample=<fs>`, and the sixth, the output path, is stated by ToneOutputFollowsWriteRule. |
| FreqAug.ToneFilter | pydiogment/augf.py:64 | Defines `"asetrate=" + str(fs) + "*" + str(tone) + ",aresample=" + str(fs)`; ToneFilterRates reads both rates back. |
| FreqAug.ToneSuffix | pydiogment/augf.py:59 | Defines `"_augmented_" + str(tone) + "_toned.wav"`. |
| FreqAug.ToneOutputFollowsWriteRule | pydiogment/augf.py:57-60 | The tone output path is the one `write_file` would build for the attribute `_augmented_<tone>_toned.wav`. |
| FreqAug.ToneFilterRates | pydiogment/augf.py:64 | Both rates in the tone filter read back as `fs`. |
| LegacyAug.LegacyApplyGain | pydiogment/iaugmentation.py:151-175 | The legacy gain applies the same clamp and normalisation, with the factor `10**(gain/20)`. |
| LegacyAug.LegacyGainIsHalfInDb | pydiogment/iaugmentation.py:163 | A legacy gain of `20k` dB and a newer gain of `10k` dB apply the same factor `10**k`. |
| LegacyAug.Mix | pydiogment/iaugmentation.py:226 | The mix `sig + noise*factor` has the signal's length. |
| LegacyAug.NoiseFactor | pydiogment/iaugmentation.py:224 | Defines `(rms_sig / rms_noise) * snr_linear` for a non-zero noise RMS; AddedNoisePower states the power it gives. |
| LegacyAug.NoiseOutput | pydiogment/iaugmentation.py:217-231 | A successful `add_noise` output keeps the signal's length; its failure cases are in PowerMatched and NoiseOnSilenceFails. |
| LegacyAug.Int16NoiseRoots | pydiogment/iaugmentation.py:220-227 | Defines the three RMS values as `add_noise` takes them from 16-bit samples: the signal's mean square is that of the squares wrapped to int16. |
| LegacyAug.NoiseSuffix | pydiogment/iaugmentation.py:236 | Defines `"_augmented_" + str(snr) + "_noisy.wav"`. |
| LegacyAug.PowerMatched | pydiogment/iaugmentation.py:217-228 | An empty signal stays empty. The mix fails exactly when the noise's or the mix's RMS is zero. Otherwise the length is kept. |
| LegacyAug.AddNoise | pydiogment/iaugmentation.py:203-242 | `add_noise` writes the power-matched mix divided by its mean magnitude, at the input's rate, under `_augmented_<snr>_noisy.wav`. |
| LegacyAug.PowerMatchedKeepsRms | pydiogment/iaugmentation.py:227-228 | After `y*rms_sig/rms_y` the mean square equals the signal's real mean square, whatever noise was drawn. |
| LegacyAug.NoiseOnSilenceFails | pydiogment/iaugmentation.py:221-228 | A silent recording gets a zero noise factor and a silent mix, so the division by `rms_y` fails. |
| LegacyAug.NoiseOutputIsNormalized | pydiogment/iaugmentation.py:227-231 | On a non-silent recording, a successful power matching is followed by a successful normalisation to mean magnitude 1. |
| LegacyAug.WrappedRmsSilencesMix | pydiogment/iaugmentation.py:221-231 | As written, the 16-bit recording `[256]` gets a signal RMS of 0, so the output fails on a division by zero, although the recording is not silent and its real RMS is 256. |
| LegacyAug.AddedNoisePower | pydiogment/iaugmentation.py:223-226 | As written, the added noise carries `snr_linear**2` times the signal's power. |
| LegacyAug.IntendedNoisePower | pydiogment/iaugmentation.py:223-226 | With the factor divided by `snr_linear`, the signal carries `snr_linear**2` times the noise's power. |
| LegacyAug.LegacyShiftTime | pydiogment/iaugmentation.py:262-279 | The legacy shift writes `np.roll` of the samples by the shift in samples, so it keeps the rate and the multiset of samples. It writes by the `write_file` rule under a suffix naming the shift in samples. |
| LegacyAug.LegacyShiftSuffix | pydiogment/iaugmentation.py:273 | Defines `"_augmented_" + direction + "_" + str(shift) + "_shifted.wav"`, with the shift in samples. |
| LegacyAug.LegacyShiftMatchesModern | pydiogment/iaugmentation.py:263-268 | The legacy shift writes the same samples as the newer one beside the same input; only the attribute differs. |
| LegacyAug.LegacyShiftNameRecordsSamples | pydiogment/iaugmentation.py:273 | The legacy name embeds the shift in samples, and that number reads back as the shift. |
| LegacyAug.LegacyReverse | pydiogment/iaugmentation.py:282-295 | The legacy `reverse` makes exactly the newer `reverse`'s request. |
| LegacyAug.LegacyRandomCropping | pydiogment/iaugmentation.py:84-115 | The legacy `random_cropping` gives exactly the newer version's result: same bounds, same slice, same name. |
| LegacyAug.LegacyConvolve | pydiogment/iaugmentation.py:118-148 | The legacy `convolve` writes the same normalised blend, under `_augmented_<ir_name>_convolved<level>.wav`. |
| LegacyAug.IrPath | pydiogment/iaugmentation.py:131 | Defines `"./sounds/" + ir_name + ".wav"`. |
| LegacyAug.LegacyConvolveSuffix | pydiogment/iaugmentation.py:143 | Defines `"_augmented_" + ir_name + "_convolved" + str(level) + ".wav"`. |
| LegacyAug.LegacyIrPathHasEmptyLabel | pydiogment/iaugmentation.py:131 | Given the legacy path `./sounds/<name>.wav`, the newer labelling keeps nothing of the name. |
| LegacyAug.LegacyConvolveNameKeepsIrName | pydiogment/iaugmentation.py:143 | The legacy name keeps the impulse response's name whole. |
| LegacyAug.PcmStart | pydiogment/iaugmentation.py:77 | Decoding starts at byte 8 or later. |
| LegacyAug.PcmBytes | pydiogment/iaugmentation.py:77 | The slice after the marker is never longer than ffmpeg's output. |
| LegacyAug.TrimmedSamples | pydiogment/iaugmentation.py:77 | Decoding fails with an odd-size buffer error exactly when the PCM slice has an odd length; otherwise every sample is an int16 value and the samples encode back to that slice. |
| LegacyAug.PcmBytesAfterFirstMarker | pydiogment/iaugmentation.py:77 | When the first `\x00data` is the one before the data chunk, the parser returns exactly the chunk's payload. |
| LegacyAug.MissingMarkerStartsAtByteEight | pydiogment/iaugmentation.py:77 | Without the marker, `find` returns -1 and decoding starts at byte 8. |
| LegacyAug.FromBufferInt16 | pydiogment/iaugmentation.py:77 | `np.frombuffer(.., np.int16)` fails on an odd number of bytes. Otherwise it gives int16 samples whose little-endian bytes are the buffer. |
| LegacyAug.DecodeEncode | pydiogment/iaugmentation.py:77 | Decoding the bytes of int16 samples gives back the samples. |
| LegacyAug.EncodeDecode | pydiogment/iaugmentation.py:77 | Encoding decoded samples gives back the bytes. |
| LegacyAug.LegacySilenceCommand | pydiogment/iaugmentation.py:44-47 | The 13 ffmpeg arguments read the input, write the given output and end with "-y". |
| LegacyAug.LoadCommand | pydiogment/iaugmentation.py:71 | ffmpeg reads the trimmed file and writes WAV to standard output. |
| LegacyAug.NoSilencePath | pydiogment/iaugmentation.py:313-314 | Defines `os.path.join(dirname, basename.split(".wav")[0] + "_no_silence.wav")`; NoSilencePathBesideInput states where it lies. |
| LegacyAug.NoSilencePathBesideInput | pydiogment/iaugmentation.py:306-314 | The trimmed copy lies beside the input, named `<stem>_no_silence.wav`, and never overwrites the input. |
| LegacyAug.LegacyFadeInAndOut | pydiogment/iaugmentation.py:298-325 | The legacy fade windows and normalises the trimmed samples, and writes them at the input's rate. |
| LegacyAug.LegacyFadeOutput | pydiogment/iaugmentation.py:317-319 | Defines the fade of the trimmed samples: a decoding error passes through, otherwise the windowed samples divided by their mean magnitude; LegacyFadeLength states its length. |
| LegacyAug.LegacyFadeLength | pydiogment/iaugmentation.py:311-319 | The output has as many samples as the trimmed PCM holds, not the input's count. An odd PCM size fails. |
| LegacyAug.LegacyTempoMatchesModern | pydiogment/iaugmentation.py:183-187 | The legacy `slowdown`/`speed` command is the newer argument list joined by spaces, with the filter quoted and the output discarded. |
| LegacyAug.LegacyTempoShell | pydiogment/iaugmentation.py:183-187 | Defines `ffmpeg -i <in> -filter:a "atempo=<c>" <in.split(".wav")[0] + attribute> > /dev/null`. |
| LegacyAug.LegacySlowdownShell | pydiogment/iaugmentation.py:178-187 | Defines the tempo command with the attribute `"_augmented_slowed.wav"`. |
| LegacyAug.LegacySpeedShell | pydiogment/iaugmentation.py:190-200 | Defines the tempo command with the attribute `"_augmented_speeded.wav"`. |
| LegacyAug.LegacyToneMatchesModern | pydiogment/iaugmentation.py:331-335 | The legacy tone command is exactly the newer argument list joined by spaces. |
| LegacyAug.LegacyToneShell | pydiogment/iaugmentation.py:328-336 | Defines `ffmpeg -i <in> -af asetrate=<fs>*<tone>,aresample=<fs> <outfile>`, with the output beside the input under the tone attribute. |

## Left out

- Running ffmpeg, ffprobe and shell commands. The model builds their argument lists and command strings only; the durations ffprobe prints are not modelled.
- WAV encoding and decoding by `scipy.io.wavfile`. A recording enters the model already decoded, as `(fs, samples)`. A decoded multi-channel array is a list of frames.
- The Butterworth coefficient design (`scipy.signal.butter`) and `lfilter`. Both are the function parameter `FilterImpl` over the design record.
- Floating-point rounding, NaN and infinity.
  - Samples are exact reals.
  - Where numpy would fill the buffer with NaN or infinity and still write it, the model reports `Err(NonFinite)` and writes nothing.
  - `int()` of a float and `math.floor`/`math.ceil` are exact.
- Transcendental functions: `10**x`, `np.sqrt` and `np.hamming`. They are parameters with the facts the code relies on, such as `IsDbFactor`, `IsRmsScale` and `IsHammingWindow`.
- Randomness. `random.uniform` is `a + (b-a)*u` for a draw `u` in [0, 1], and `np.random.randn` is an arbitrary sequence passed in.
- Python's `str()` of a float. A `Number` carries the text a caller's value prints as. `str()` of an int is modelled exactly.
- `auga.add_noise`. It takes `np.sqrt` of Gaussian draws, which is NaN for the negative ones, so its output has no meaningful specification.
- `iaugmentation.py:27` imports `read_file` from the standard `io` module, so the legacy module cannot be imported as it stands. Its functions are modelled as if the import named `utils/io.py`.
- The printed messages and warnings. The `shift` printed by the legacy `shift_time` is not modelled.
- The unused `kernel` and first `window` in the legacy `fade_in_and_out`.
- The int16 decoding assumes a little-endian host.
- LegacyAug.AddNoise: follows the code as written (the noise factor is multiplied by the linear SNR); the intended factor appears only in `IntendedNoisePower`. Its roots are those of the real mean squares, which is what numpy computes for float samples. For 16-bit samples `np.power(sig, 2)` at iaugmentation.py:221 wraps; `Int16NoiseRoots` and `WrappedRmsSilencesMix` model that case, and the Findings record it.
- PowerMatchedKeepsRms: holds for the real RMS of the signal, i.e. for float samples. For 16-bit samples the code's `rms_sig` comes from wrapped squares (iaugmentation.py:221), and the output's mean square is not the signal's. See the Findings.
- NoiseOutputIsNormalized: holds for float samples. For the 16-bit recording `[256]` the code's `rms_sig` is 0 and the output is NaN (`WrappedRmsSilencesMix`). See the Findings.
- FreqAug.Convolve: computes the convolution exactly, which is what numpy computes for float samples. For 16-bit input and impulse response, `np.convolve` at augf.py:28 wraps every output sample to 16 bits. `Int16Convolution` and `Int16ConvolveOutput` model that case, and the Findings record it.
- LegacyAug.LegacyConvolve: the same exact convolution as `FreqAug.Convolve`; `np.convolve` at iaugmentation.py:135 wraps on 16-bit buffers in the same way, as `Int16ConvolutionWraps` shows.
- AmpAug.RmsNormalize: its failure condition and `IsRmsScale` use the real sum of squares, i.e. float samples. For 16-bit samples the code squares in int16 and the sum can wrap to 0; that is `Int16EnergyWraps` and the auga.py:127 row under Findings.
- FreqAug.ChangeToneCommand: its own contract leaves out the output path; `ToneOutputFollowsWriteRule` states it.

## Findings

| source | as written | input that shows it | evidently intended | confidence | as-written member | corrected member |
|---|---|---|---|---|---|---|
| pydiogment/auga.py:127 | `np.sum(sig**2)` squares the int16 samples `read_file` returns in 16-bit arithmetic, so the squares wrap | A recording holding the single sample 256 gets a sum of squares of 0, so `a` is infinite. With the sample 200 the sum is negative, so `np.sqrt` gives NaN. | Square in floating point, so that the output's mean square is `r*r` | not executed; high | AmpAug.Int16EnergyWraps | AmpAug.RmsReachesLevel |
| pydiogment/iaugmentation.py:224 | `noise_factor = (rms_sig / rms_noise) * snr_linear` | Any recording that is not silent, with `snr = 20`: the added noise has 100 times the signal's power, so a higher SNR gives a noisier result | `(rms_sig / rms_noise) / snr_linear`, as `auga.add_noise` divides by `snr_linear`: the signal carries `snr_linear**2` times the noise's power | not executed; high | LegacyAug.AddedNoisePower | LegacyAug.IntendedNoisePower |
| pydiogment/augf.py:28 | `np.convolve(x, ir, 'full')` on the int16 buffers `read_file` returns for 16-bit recordings sums each output sample and stores it in int16, so it wraps. The legacy copy at iaugmentation.py:135 does the same. | Input `[200]`, impulse response `[200]`, level 1.0: the convolution is `[-25536]` and the file holds `[-1.0]`, where the exact convolution `[40000]` gives `[1.0]` | Convolve in floating point, so that each output sample is the exact sum of `x[k] * ir[m-k]` | not executed; high | FreqAug.Int16ConvolutionWraps | FreqAug.ConvolutionOfPcmIsExact |
| pydiogment/iaugmentation.py:221 | `np.power(sig, 2)` squares the int16 samples in 16-bit arithmetic, as auga.py:127 does | The recording `[256]`: `rms_sig` is 0, so the noise factor is 0 and `y * rms_sig / rms_y` is silent. `y /= np.mean(np.abs(y))` then writes NaN. | Square in floating point, so that the output keeps the signal's power and is normalised | not executed; high | LegacyAug.WrappedRmsSilencesMix | LegacyAug.NoiseOutputIsNormalized |
