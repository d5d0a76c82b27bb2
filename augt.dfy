/** The time-domain transforms: circular shift, reversal, random cropping,
    and the file names and ffmpeg argument lists of the transforms that
    hand their work to ffmpeg (silence removal, tempo change, resampling).
    Each in-process transform starts from what `read_file` returned and
    ends with the request it hands to `write_file`. */
module TimeAug {
  import opened Wave
  import opened PyText
  import opened WavIO

  /** Python's `int(x)` on a float: truncation toward zero. */
  function Trunc(x: real): (r: int)
    ensures x >= 0.0 ==> 0.0 <= r as real <= x < r as real + 1.0
    ensures x < 0.0 ==> r as real - 1.0 < x <= r as real <= 0.0
  {
    if x >= 0.0 then x.Floor else -((-x).Floor)
  }

  /** `math.ceil(x)`. */
  function Ceil(x: real): (r: int)
    ensures x <= r as real < x + 1.0
  {
    -((-x).Floor)
  }

  /** The shift in samples: `int(tshift * fs)` counted positive for "left",
      negative for "right", and zero for any other direction string. */
  function ShiftAmount(tshift: real, fs: nat, direction: string): (k: int)
  {
    Trunc(tshift * fs as real) * (if direction == "left" then 1 else 0)
    - Trunc(tshift * fs as real) * (if direction == "right" then 1 else 0)
  }

  /** The two directions shift by opposite amounts; any other direction
      does not shift at all. */
  lemma {:induction false} ShiftDirections(tshift: real, fs: nat, direction: string)
    ensures ShiftAmount(tshift, fs, "right") == -ShiftAmount(tshift, fs, "left")
    ensures direction != "left" && direction != "right" ==> ShiftAmount(tshift, fs, direction) == 0
  {
    assert "left" != "right";
  }

  /** The shift is `tshift * fs` truncated toward zero: never more samples
      than `tshift` seconds hold, and less than one sample short of them. */
  lemma ShiftTruncates(tshift: real, fs: nat)
    ensures var k := ShiftAmount(tshift, fs, "left") as real;
            var t := tshift * fs as real;
            (t >= 0.0 ==> 0.0 <= k <= t < k + 1.0) && (t < 0.0 ==> k - 1.0 < t <= k <= 0.0)
  {
  }

  /** `np.roll(s, k)`: sample `i` moves to index `(i + k) mod n`; nothing is
      dropped and nothing is filled with zeros. */
  function Roll(s: seq<real>, k: int): (r: seq<real>)
    ensures |r| == |s|
  {
    if |s| == 0 then []
    else seq(|s|, i requires 0 <= i < |s| => s[(i - k) % |s|])
  }

  /** Where `np.roll` puts sample `i`. */
  lemma {:induction false} RollMoves(s: seq<real>, k: int, i: int)
    requires 0 <= i < |s|
    ensures Roll(s, k)[(i + k) % |s|] == s[i]
  {
    var j := (i + k) % |s|;
    ModOfShift(i, k, |s|);
    RollAt(s, k, j, i);
  }

  /** A multiple of a positive `n` by a non-zero integer is at least `n`
      away from zero. */
  lemma MulAwayFromZero(n: int, x: int)
    requires n > 0
    ensures x >= 1 ==> n * x >= n
    ensures x <= -1 ==> n * x <= -n
    decreases if x >= 0 then x else -x
  {
    if x > 1 {
      MulAwayFromZero(n, x - 1);
    } else if x < -1 {
      MulAwayFromZero(n, x + 1);
    }
  }

  /** Euclidean division has one quotient and one remainder. */
  lemma DivModUnique(m: int, n: int, d: int, r: int)
    requires n > 0 && 0 <= r < n && m == n * d + r
    ensures m % n == r && m / n == d
  {
    var d' := m / n;
    var r' := m % n;
    assert m == n * d' + r';
    assert n * (d' - d) == r - r';
    MulAwayFromZero(n, d' - d);
  }

  /** `((i + k) mod n - k) mod n == i` for `0 <= i < n`. */
  lemma ModOfShift(i: int, k: int, n: int)
    requires 0 <= i < n
    ensures ((i + k) % n - k) % n == i
  {
    var d := (i + k) / n;
    var r := (i + k) % n;
    DivModUnique(i + k, n, d, r);
    assert r - k == n * (-d) + i;
    DivModUnique(r - k, n, -d, i);
  }

  /** Element `i` of the rotation that puts the last `k mod n` samples
      first. */
  lemma RotationAt(n: int, k: int, i: int)
    requires 0 <= i < n
    ensures var m := n - k % n;
            (i < n - m ==> (i - k) % n == i + m) && (i >= n - m ==> (i - k) % n == i - (n - m))
  {
    var q := k / n;
    var r := k % n;
    DivModUnique(k, n, q, r);
    var m := n - r;
    if i < n - m {
      assert i - k == n * (-q - 1) + (i + m);
      DivModUnique(i - k, n, -q - 1, i + m);
    } else {
      assert i - k == n * (-q) + (i - (n - m));
      DivModUnique(i - k, n, -q, i - (n - m));
    }
  }

  /** The roll as a rotation: the last `k mod n` samples come first. */
  lemma {:induction false} RollIsRotation(s: seq<real>, k: int)
    requires |s| > 0
    ensures var m := |s| - k % |s|;
            Roll(s, k) == s[m..] + s[..m]
  {
    var n := |s|;
    var m := n - k % n;
    forall i | 0 <= i < n ensures Roll(s, k)[i] == (s[m..] + s[..m])[i] {
      RotationAt(n, k, i);
    }
  }

  /** Rolling keeps every sample: the multiset of samples is unchanged. */
  lemma {:induction false} RollPermutes(s: seq<real>, k: int)
    ensures multiset(Roll(s, k)) == multiset(s)
  {
    if |s| > 0 {
      var m := |s| - k % |s|;
      RollIsRotation(s, k);
      assert s == s[..m] + s[m..];
    }
  }

  lemma {:induction false} RollAt(s: seq<real>, k: int, i: int, j: int)
    requires 0 <= i < |s| && j == (i - k) % |s|
    ensures 0 <= j < |s| && Roll(s, k)[i] == s[j]
  {
  }

  lemma {:induction false} RollInverseAt(s: seq<real>, k: int, i: int)
    requires 0 <= i < |s|
    ensures Roll(Roll(s, k), -k)[i] == s[i]
  {
    var n := |s|;
    var j := (i + k) % n;
    RollAt(Roll(s, k), -k, i, j);
    ModOfShift(i, k, n);
    RollAt(s, k, j, i);
  }

  /** Rolling back by the same amount restores the buffer. */
  lemma {:induction false} RollInverse(s: seq<real>, k: int)
    ensures Roll(Roll(s, k), -k) == s
  {
    var n := |s|;
    if n > 0 {
      forall i | 0 <= i < n ensures Roll(Roll(s, k), -k)[i] == s[i] {
        RollInverseAt(s, k, i);
      }
    }
  }

  lemma {:induction false} RollBack(s: seq<real>, t: seq<real>, k: int, back: int)
    requires t == Roll(s, k) && back == -k
    ensures Roll(t, back) == s
  {
    RollInverse(s, k);
    assert Roll(t, back) == Roll(Roll(s, k), -k);
  }

  /** `"_augmented_%s_%s_shifted.wav" % (direction, tshift)`: the shift is
      named in seconds, as the caller wrote it. */
  function ShiftSuffix(direction: string, tshift: Number): (attr: string)
  {
    "_augmented_" + direction + "_" + tshift.text + "_shifted.wav"
  }

  /** `shift_time(infile, tshift, direction)`. */
  function ShiftTime(infile: string, w: Waveform, tshift: Number, direction: string): (req: WriteRequest)
    ensures req.rate == w.rate
    ensures req.data == Roll(w.samples, ShiftAmount(tshift.value, w.rate, direction))
    ensures multiset(req.data) == multiset(w.samples)
    ensures req == WriteFile(Dirname(infile), infile, ShiftSuffix(direction, tshift),
                             req.data, w.rate)
  {
    var k := ShiftAmount(tshift.value, w.rate, direction);
    RollPermutes(w.samples, k);
    WriteFile(Dirname(infile), infile, ShiftSuffix(direction, tshift),
              Roll(w.samples, k), w.rate)
  }

  /** Shifting left and then right by the same time restores the samples. */
  lemma {:induction false} LeftThenRightRestores(infile: string, w: Waveform, tshift: Number)
    ensures var left := ShiftTime(infile, w, tshift, "left");
            ShiftTime(infile, Waveform(w.rate, left.data), tshift, "right").data == w.samples
  {
    var k := ShiftAmount(tshift.value, w.rate, "left");
    ShiftDirections(tshift.value, w.rate, "left");
    var left := ShiftTime(infile, w, tshift, "left");
    assert left.data == Roll(w.samples, k);
    var kr := ShiftAmount(tshift.value, w.rate, "right");
    var right := ShiftTime(infile, Waveform(w.rate, left.data), tshift, "right");
    assert right.data == Roll(left.data, kr);
    assert kr == -k;
    RollBack(w.samples, left.data, k, kr);
  }

  /** `sig[::-1]`. */
  function Reverse(s: seq<real>): (r: seq<real>)
    ensures |r| == |s|
  {
    seq(|s|, i requires 0 <= i < |s| => s[|s| - 1 - i])
  }

  /** Reversing twice gives back the buffer. */
  lemma {:induction false} ReverseInvolution(s: seq<real>)
    ensures Reverse(Reverse(s)) == s
  {
  }

  /** Reversing keeps every sample. */
  lemma {:induction false} ReversePermutes(s: seq<real>)
    ensures multiset(Reverse(s)) == multiset(s)
    decreases |s|
  {
    if |s| > 0 {
      var n := |s|;
      var t := s[1..];
      assert Reverse(s) == Reverse(t) + [s[0]];
      ReversePermutes(t);
      assert s == [s[0]] + t;
    }
  }

  /** `reverse(infile)`. */
  function ReverseFile(infile: string, w: Waveform): (req: WriteRequest)
    ensures req.rate == w.rate
    ensures |req.data| == |w.samples|
    ensures forall i :: 0 <= i < |w.samples| ==> req.data[i] == w.samples[|w.samples| - 1 - i]
    ensures req == WriteFile(Dirname(infile), infile, "_augmented_reversed.wav", req.data, w.rate)
  {
    var data := Reverse(w.samples);
    assert forall i :: 0 <= i < |w.samples| ==> data[i] == w.samples[|w.samples| - 1 - i];
    WriteFile(Dirname(infile), infile, "_augmented_reversed.wav", data, w.rate)
  }

  /** `random.uniform(a, b)` for the draw `u` of `random.random()`. */
  function Uniform(a: real, b: real, u: real): (x: real)
    requires a <= b && 0.0 <= u <= 1.0
    ensures a <= x <= b
  {
    NonNegativeProduct(b - a, u);
    NonNegativeProduct(b - a, 1.0 - u);
    a + (b - a) * u
  }

  lemma NonNegativeProduct(x: real, y: real)
    requires x >= 0.0 && y >= 0.0
    ensures x * y >= 0.0
  {
  }

  /** The sample bounds of the crop `random_cropping` takes from `n`
      samples at rate `fs` when it runs at all (`n / fs > min_len`): the
      start `random.uniform(0, t_end - min_len)` and the end
      `random.uniform(start + min_len, t_end)` seconds, turned into
      `int(math.floor(start * fs))` and `int(math.ceil(end * fs))`. For a
      non-negative `min_len` they lie inside the buffer, at least
      `min_len * fs` samples apart. */
  function CropWindow(n: nat, fs: nat, minLen: real, u1: real, u2: real): (b: (int, int))
    requires fs > 0 && Duration(n, fs) > minLen
    requires 0.0 <= u1 <= 1.0 && 0.0 <= u2 <= 1.0
    ensures minLen >= 0.0 ==>
              0 <= b.0 <= b.1 <= n && (b.1 - b.0) as real >= SampleCount(minLen, fs)
  {
    var tEnd := Duration(n, fs);
    var start := Uniform(0.0, tEnd - minLen, u1);
    var end := Uniform(start + minLen, tEnd, u2);
    var lo := (start * fs as real).Floor;
    var hi := Ceil(end * fs as real);
    if minLen >= 0.0 then
      CropBounds(start, end, tEnd, minLen, fs, n);
      (lo, hi)
    else (lo, hi)
  }

  /** Start and end times inside the recording, `min_len` apart or more,
      become sample bounds inside the buffer, `min_len * fs` apart or more. */
  lemma CropBounds(start: real, end: real, tEnd: real, minLen: real, fs: nat, n: nat)
    requires fs > 0 && minLen >= 0.0 && tEnd * fs as real == n as real
    requires 0.0 <= start && start + minLen <= end <= tEnd
    ensures 0 <= (start * fs as real).Floor <= Ceil(end * fs as real) <= n
    ensures (Ceil(end * fs as real) - (start * fs as real).Floor) as real >= SampleCount(minLen, fs)
  {
    CropTimesInSamples(start, end, tEnd, minLen, fs as real, n as real);
    NonNegativeProduct(minLen, fs as real);
    CropIndices(start * fs as real, end * fs as real, SampleCount(minLen, fs), n);
  }

  /** `x.size / fs`: the length of a recording in seconds. */
  function Duration(n: nat, fs: nat): (t: real)
    requires fs > 0
    ensures t * fs as real == n as real
  {
    n as real / fs as real
  }

  /** How many samples `seconds` seconds hold at rate `fs`. */
  function SampleCount(seconds: real, fs: nat): real
  {
    seconds * fs as real
  }

  /** `"_augmented_randomly_cropped_%s.wav" % str(min_len)`. */
  function CropSuffix(minLen: Number): string
  {
    "_augmented_randomly_cropped_" + minLen.text + ".wav"
  }

  /** `random_cropping(infile, min_len)` with the draws `u1`, `u2` of
      `random.random()` behind its two `random.uniform` calls. A zero rate
      fails on `x.size / fs`; a recording no longer than `min_len` seconds
      only raises a warning and nothing is written. */
  function RandomCropping(infile: string, w: Waveform, minLen: Number, u1: real, u2: real)
    : (r: Result<WriteRequest>)
    requires 0.0 <= u1 <= 1.0 && 0.0 <= u2 <= 1.0
    ensures w.rate == 0 ==> r == Err(ZeroDivision)
    ensures w.rate > 0 ==> (r.Ok? <==> Duration(|w.samples|, w.rate) > minLen.value)
    ensures r.Err? && w.rate > 0 ==> r.error == TooShort
    ensures r.Ok? ==> r.value.rate == w.rate && |r.value.data| <= |w.samples|
    ensures r.Ok? ==> r.value == WriteFile(Dirname(infile), infile, CropSuffix(minLen),
                                           r.value.data, w.rate)
  {
    if w.rate == 0 then Err(ZeroDivision)
    else
      if Duration(|w.samples|, w.rate) > minLen.value then
        var (lo, hi) := CropWindow(|w.samples|, w.rate, minLen.value, u1, u2);
        Ok(WriteFile(Dirname(infile), infile, CropSuffix(minLen), PySlice(w.samples, lo, hi), w.rate))
      else Err(TooShort)
  }

  lemma MulMonotone(x: real, y: real, f: real)
    requires x <= y && f >= 0.0
    ensures x * f <= y * f
  {
    NonNegativeProduct(y - x, f);
  }

  /** The times drawn for a crop, in samples: the start is not before the
      first sample, the end not after the last, and they are `min_len * fs`
      apart or more. */
  lemma CropTimesInSamples(start: real, end: real, tEnd: real, minLen: real, fs: real, n: real)
    requires fs > 0.0 && minLen >= 0.0 && tEnd * fs == n
    requires 0.0 <= start && start + minLen <= end <= tEnd
    ensures 0.0 <= start * fs && end * fs <= n
    ensures end * fs - start * fs >= minLen * fs
  {
    NonNegativeProduct(start, fs);
    MulMonotone(end, tEnd, fs);
    MulMonotone(start + minLen, end, fs);
    assert (start + minLen) * fs == start * fs + minLen * fs;
  }

  /** Rounding the start down and the end up keeps the crop inside the
      buffer and at least as long. */
  lemma CropIndices(a: real, b: real, len: real, n: nat)
    requires 0.0 <= a && b <= n as real && b - a >= len >= 0.0
    ensures var (lo, hi) := (a.Floor, Ceil(b));
            0 <= lo <= hi <= n && (hi - lo) as real >= len
  {
  }

  /** For a non-negative `min_len`, the crop is one contiguous run of the
      input, inside it, at least `min_len * fs` samples long. */
  lemma {:induction false} CropIsContiguousSlice(infile: string, w: Waveform, minLen: Number, u1: real, u2: real)
    requires 0.0 <= u1 <= 1.0 && 0.0 <= u2 <= 1.0
    requires minLen.value >= 0.0
    requires RandomCropping(infile, w, minLen, u1, u2).Ok?
    ensures w.rate > 0 && Duration(|w.samples|, w.rate) > minLen.value
    ensures var b := CropWindow(|w.samples|, w.rate, minLen.value, u1, u2);
            && 0 <= b.0 <= b.1 <= |w.samples|
            && (b.1 - b.0) as real >= SampleCount(minLen.value, w.rate)
            && RandomCropping(infile, w, minLen, u1, u2).value.data == w.samples[b.0..b.1]
  {
    var b := CropWindow(|w.samples|, w.rate, minLen.value, u1, u2);
    assert 0 <= b.0 <= b.1 <= |w.samples|;
    assert RandomCropping(infile, w, minLen, u1, u2).value.data == PySlice(w.samples, b.0, b.1);
  }

  /** The silence-removal filter handed to ffmpeg. */
  const SilenceFilter := "silenceremove=stop_periods=-1:stop_duration=0.25:stop_threshold=-36dB"

  /** `eliminate_silence(infile)`: the ffmpeg argument list; its last
      argument is the output file, `infile` cut at its first ".wav". */
  function EliminateSilenceCommand(infile: string): (args: seq<string>)
    ensures |args| == 10 && args[0] == "ffmpeg" && args[1] == "-i" && args[2] == infile
    ensures args[9] == WavStem(infile) + "_augmented_without_silence.wav"
    ensures args[9] != infile
  {
    OutputDiffersFromInput(infile, "_augmented_without_silence.wav");
    ["ffmpeg", "-i", infile, "-af", SilenceFilter, "-acodec", "pcm_s16le", "-ac", "1",
     WavStem(infile) + "_augmented_without_silence.wav"]
  }

  /** The tempo-change argument list shared by `slow_down` and `speed`. */
  function TempoCommand(inputFile: string, coefficient: Number, nameAttribute: string)
    : (args: seq<string>)
    requires nameAttribute != [] && nameAttribute[0] == '_'
    ensures |args| == 6 && args[0] == "ffmpeg" && args[1] == "-i" && args[2] == inputFile
    ensures args[4] == "atempo=" + coefficient.text
    ensures args[5] == WavStem(inputFile) + nameAttribute && args[5] != inputFile
  {
    OutputDiffersFromInput(inputFile, nameAttribute);
    ["ffmpeg", "-i", inputFile, "-filter:a", "atempo=" + coefficient.text,
     WavStem(inputFile) + nameAttribute]
  }

  const SlowDownDefault := Number(0.8, "0.8")
  const SpeedDefault := Number(1.25, "1.25")

  /** `slow_down(input_file, coefficient)`. */
  function SlowDownCommand(inputFile: string, coefficient: Number): (args: seq<string>)
    ensures |args| == 6 && args[2] == inputFile && args[4] == "atempo=" + coefficient.text
    ensures args[5] == WavStem(inputFile) + "_augmented_slowed.wav"
  {
    TempoCommand(inputFile, coefficient, "_augmented_slowed.wav")
  }

  /** `speed(input_file, coefficient)`. */
  function SpeedCommand(inputFile: string, coefficient: Number): (args: seq<string>)
    ensures |args| == 6 && args[2] == inputFile && args[4] == "atempo=" + coefficient.text
    ensures args[5] == WavStem(inputFile) + "_augmented_speeded.wav"
  {
    TempoCommand(inputFile, coefficient, "_augmented_speeded.wav")
  }

  /** Slowing down and speeding up the same file never write the same
      output. */
  lemma {:induction false} TempoOutputsDiffer(inputFile: string, c1: Number, c2: Number)
    ensures SlowDownCommand(inputFile, c1)[5] != SpeedCommand(inputFile, c2)[5]
  {
    var stem := WavStem(inputFile);
    assert (stem + "_augmented_slowed.wav")[|stem| + 12] == 'l';
    assert (stem + "_augmented_speeded.wav")[|stem| + 12] == 'p';
  }

  /** `resample_audio(infile, sr)`: the output is named after the new rate,
      and ffmpeg is given the same rate as its `-ar` argument. */
  function ResampleCommand(infile: string, sr: int): (args: seq<string>)
    ensures |args| == 6 && args[0] == "ffmpeg" && args[2] == infile && args[3] == "-ar"
    ensures args[5] == WavStem(infile) + "_augmented_resampled_to_" + args[4] + ".wav"
    ensures args[5] != infile
  {
    var out := WavStem(infile) + "_augmented_resampled_to_" + IntToDecimal(sr) + ".wav";
    OutputDiffersFromInput(infile, "_augmented_resampled_to_" + IntToDecimal(sr) + ".wav");
    assert out == WavStem(infile) + ("_augmented_resampled_to_" + IntToDecimal(sr) + ".wav");
    ["ffmpeg", "-i", infile, "-ar", IntToDecimal(sr), out]
  }

  /** The rate in the argument list reads back as the requested rate. */
  lemma {:induction false} ResampleRateRoundTrip(infile: string, sr: int)
    ensures var a := ResampleCommand(infile, sr)[4];
            (AllDigits(a) || (a != [] && a[0] == '-' && AllDigits(a[1..]))) && ParseInt(a) == sr
  {
    IntDecimalRoundTrip(sr);
  }
}
