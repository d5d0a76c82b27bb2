/** `utils/io.py`: reading a WAV file as mono samples, and the file name and
    path every transform writes its result to. The WAV container is decoded
    and encoded by a library outside this model: reading starts from the
    decoded array and writing ends at a `WriteRequest`. */
module WavIO {
  import opened Wave
  import opened PyText

  /** What the WAV decoder hands back: a one-dimensional array of samples,
      or a two-dimensional array of frames of `channels` samples each. */
  datatype Decoded =
    | Mono(samples: seq<real>)
    | Frames(channels: nat, frames: seq<seq<real>>)

  /** A decoded two-dimensional array is rectangular. */
  predicate Rectangular(d: Decoded) {
    d.Frames? ==> forall i :: 0 <= i < |d.frames| ==> |d.frames[i]| == d.channels
  }

  /** `read_file`: the rate as decoded, with the samples of a mono file, or
      the first channel of every frame of a multi-channel one. Indexing
      channel 0 of an array without channels raises IndexError. */
  function ReadFile(fs: nat, d: Decoded): (r: Result<Waveform>)
    requires Rectangular(d)
    ensures d.Mono? ==> r == Ok(Waveform(fs, d.samples))
    ensures d.Frames? ==> (r.Err? <==> d.channels == 0)
    ensures r.Err? ==> r.error == NoChannel
    ensures r.Ok? ==> r.value.rate == fs
    ensures r.Ok? && d.Frames? ==>
      && |r.value.samples| == |d.frames|
      && forall i :: 0 <= i < |d.frames| ==> r.value.samples[i] == d.frames[i][0]
  {
    match d
    case Mono(s) => Ok(Waveform(fs, s))
    case Frames(ch, fr) =>
      if ch == 0 then Err(NoChannel)
      else Ok(Waveform(fs, seq(|fr|, i requires 0 <= i < |fr| => fr[i][0])))
  }

  /** The frames of a recording whose channels are given one by one: frame
      `i` holds sample `i` of every channel. */
  function Interleave(channels: seq<seq<real>>, n: nat): (frames: seq<seq<real>>)
    requires forall c :: 0 <= c < |channels| ==> |channels[c]| == n
    ensures |frames| == n
    ensures forall i :: 0 <= i < n ==> |frames[i]| == |channels|
  {
    seq(n, i requires 0 <= i < n =>
      seq(|channels|, c requires 0 <= c < |channels| => channels[c][i]))
  }

  /** Reading a multi-channel recording gives back its first channel,
      whatever the other channels hold. */
  lemma ReadFileKeepsFirstChannel(fs: nat, channels: seq<seq<real>>, n: nat)
    requires |channels| > 0
    requires forall c :: 0 <= c < |channels| ==> |channels[c]| == n
    ensures var d := Frames(|channels|, Interleave(channels, n));
            Rectangular(d) && ReadFile(fs, d) == Ok(Waveform(fs, channels[0]))
  {
    var d := Frames(|channels|, Interleave(channels, n));
    assert ReadFile(fs, d).value.samples == channels[0];
  }

  /** The part of a name before the first ".wav": `name.split(".wav")[0]`. */
  function WavStem(name: string): (stem: string)
    ensures stem <= name
    ensures forall j :: !OccursAt(stem, ".wav", j)
    ensures stem == name || OccursAt(name, ".wav", |stem|)
    ensures !OccursBefore(name, ".wav", |stem|)
  {
    SplitFirst(name, ".wav")
  }

  /** The name `write_file` gives its output: the input's base name up to its
      first ".wav", followed by the transform's name attribute. */
  function OutputName(inputFileName: string, nameAttribute: string): (name: string)
    ensures |nameAttribute| <= |name|
    ensures name[|name| - |nameAttribute|..] == nameAttribute
    ensures var stem := name[..|name| - |nameAttribute|];
            && stem <= Basename(inputFileName)
            && (forall k :: 0 <= k < |stem| ==> stem[k] != '/')
            && (forall j :: !OccursAt(stem, ".wav", j))
            && (stem == Basename(inputFileName) || OccursAt(Basename(inputFileName), ".wav", |stem|))
            && !OccursBefore(Basename(inputFileName), ".wav", |stem|)
  {
    var stem := WavStem(Basename(inputFileName));
    assert (stem + nameAttribute)[..|stem|] == stem;
    stem + nameAttribute
  }

  /** `write_file`: the samples and the rate go to the writer unchanged, at
      the output directory joined with the output name. */
  function WriteFile(outputFilePath: string, inputFileName: string, nameAttribute: string,
                     sig: seq<real>, fs: nat): (w: WriteRequest)
    ensures w.data == sig && w.rate == fs
    ensures var name := OutputName(inputFileName, nameAttribute);
            |name| <= |w.path| && w.path[|w.path| - |name|..] == name
  {
    WriteRequest(Join(outputFilePath, OutputName(inputFileName, nameAttribute)), fs, sig)
  }

  /** A transform's result, written beside its input file when it has one. */
  function WriteResult(infile: string, nameAttribute: string, fs: nat,
                       out: Result<seq<real>>): (r: Result<WriteRequest>)
    ensures r.Ok? <==> out.Ok?
    ensures r.Err? ==> r.error == out.error
    ensures r.Ok? ==> r.value.data == out.value && r.value.rate == fs
  {
    match out
    case Ok(sig) => Ok(WriteFile(Dirname(infile), infile, nameAttribute, sig, fs))
    case Err(e) => Err(e)
  }

  /** Every transform writes to `dirname(infile)`: for a path without "//",
      without ".wav" in its directory part, and an attribute that is not an
      absolute path, the output lands beside the input, named after the
      input up to its first ".wav". */
  lemma {:induction false} WriteBesideInput(infile: string, nameAttribute: string, sig: seq<real>, fs: nat)
    requires NoDoubleSlash(infile)
    requires !OccursBefore(infile, ".wav", AfterLastSlash(infile))
    requires nameAttribute == [] || nameAttribute[0] != '/'
    ensures WriteFile(Dirname(infile), infile, nameAttribute, sig, fs).path
            == WavStem(infile) + nameAttribute
  {
    var i := AfterLastSlash(infile);
    var stem := WavStem(Basename(infile));
    StemOfPath(infile);
    NameWithoutLeadingSlash(infile, nameAttribute);
    JoinDirname(infile, OutputName(infile, nameAttribute));
    assert OutputName(infile, nameAttribute) == stem + nameAttribute;
    ConcatAssociative(infile[..i], stem, nameAttribute);
  }

  /** With no ".wav" in the directory part, the stem of a path is its
      directory part followed by the stem of its base name. */
  lemma StemOfPath(infile: string)
    requires !OccursBefore(infile, ".wav", AfterLastSlash(infile))
    ensures WavStem(infile) == infile[..AfterLastSlash(infile)] + WavStem(Basename(infile))
  {
    var i := AfterLastSlash(infile);
    assert Basename(infile) == infile[i..];
    SplitFirstAfterPrefix(infile, ".wav", i);
  }

  lemma NameWithoutLeadingSlash(infile: string, nameAttribute: string)
    requires nameAttribute == [] || nameAttribute[0] != '/'
    ensures var name := OutputName(infile, nameAttribute);
            name == [] || name[0] != '/'
  {
    var stem := WavStem(Basename(infile));
    if stem != [] {
      assert OutputName(infile, nameAttribute)[0] == stem[0];
    }
  }

  /** An output never has the name of its input when the attribute is
      non-empty and does not start with '.'. */
  lemma OutputDiffersFromInput(infile: string, nameAttribute: string)
    requires nameAttribute != [] && nameAttribute[0] != '.'
    ensures WavStem(infile) + nameAttribute != infile
  {
    var stem := WavStem(infile);
    if stem == infile {
      assert |stem + nameAttribute| > |infile|;
    } else {
      assert infile[|stem|] == '.';
      assert (stem + nameAttribute)[|stem|] != '.';
    }
  }

  /** The stem of an output name is the input's stem followed by the part of
      the attribute before its ".wav": names derived from derived names keep
      accumulating attributes. */
  lemma OutputStem(stem: string, nameAttribute: string)
    requires forall j :: !OccursAt(stem, ".wav", j)
    requires nameAttribute != [] && nameAttribute[0] == '_'
    ensures WavStem(stem + nameAttribute) == stem + WavStem(nameAttribute)
  {
    NoOccurrenceBeforeJoint(stem, nameAttribute, ".wav");
    SplitFirstAfterPrefix(stem + nameAttribute, ".wav", |stem|);
    assert (stem + nameAttribute)[..|stem|] == stem;
    assert (stem + nameAttribute)[|stem|..] == nameAttribute;
  }
}
