/** The front end of the Butterworth filters: turning cutoff frequencies
    into fractions of the Nyquist frequency and choosing the filter type.
    The coefficient design (`scipy.signal.butter`) and the filtering itself
    (`scipy.signal.lfilter`) are foreign numerics: they reach the model as
    one function parameter that receives the design request. */
module Filters {
  import opened Wave

  datatype BandType = LowPass | HighPass | BandPass

  /** What `butter(order, wn, btype=...)` is asked for: the order, the
      critical frequencies as fractions of the Nyquist frequency, and the
      band type. */
  datatype ButterDesign = ButterDesign(order: int, wn: seq<real>, btype: BandType)

  /** `butter` followed by `lfilter(b, a, sig)`: may fail (scipy rejects
      some critical frequencies), otherwise returns the filtered buffer. */
  type FilterImpl = (ButterDesign, seq<real>) -> Result<seq<real>>

  /** `nyq = 0.5 * fs`. */
  function Nyquist(fs: nat): (nyq: real)
    ensures 2.0 * nyq == fs as real
  {
    0.5 * fs as real
  }

  /** `cutoff / nyq`: a cutoff of `None` cannot be divided (TypeError), a
      sample rate of zero makes the divisor zero (ZeroDivisionError).
      Otherwise the result is the cutoff as a fraction of half the rate. */
  function Normalized(cutoff: Option<real>, fs: nat): (r: Result<real>)
    ensures cutoff.None? ==> r == Err(MissingCutoff)
    ensures cutoff.Some? && fs == 0 ==> r == Err(ZeroDivision)
    ensures r.Ok? <==> cutoff.Some? && fs > 0
    ensures r.Ok? ==> r.value * fs as real == 2.0 * cutoff.value
  {
    match cutoff
    case None => Err(MissingCutoff)
    case Some(c) =>
      if fs == 0 then Err(ZeroDivision)
      else Ok(c / Nyquist(fs))
  }

  /** `butter_lowpass(cutoff, fs, order)`: the design request. */
  function ButterLowpass(cutoff: Option<real>, fs: nat, order: int): (r: Result<ButterDesign>)
    ensures r.Ok? <==> Normalized(cutoff, fs).Ok?
    ensures r.Err? ==> r.error == Normalized(cutoff, fs).error
    ensures r.Ok? ==> r.value.btype == LowPass && r.value.order == order
                      && |r.value.wn| == 1 && r.value.wn[0] * fs as real == 2.0 * cutoff.value
  {
    var low := Normalized(cutoff, fs);
    if low.Err? then Err(low.error) else Ok(ButterDesign(order, [low.value], LowPass))
  }

  /** `butter_highpass(cutoff, fs, order)`: the same normalisation as the
      low-pass design, with the high-pass band type. */
  function ButterHighpass(cutoff: Option<real>, fs: nat, order: int): (r: Result<ButterDesign>)
    ensures r.Ok? <==> Normalized(cutoff, fs).Ok?
    ensures r.Err? ==> r.error == Normalized(cutoff, fs).error
    ensures r.Ok? ==> r.value.btype == HighPass && r.value.order == order
                      && |r.value.wn| == 1 && r.value.wn[0] * fs as real == 2.0 * cutoff.value
  {
    var high := Normalized(cutoff, fs);
    if high.Err? then Err(high.error) else Ok(ButterDesign(order, [high.value], HighPass))
  }

  /** `butter_bandpass(low_cut, high_cut, fs, order)`: both cutoffs divided
      by the same Nyquist frequency and passed as `[low, high]`; the low
      cutoff is divided first, so its error is the one reported. */
  function ButterBandpass(lowCut: Option<real>, highCut: Option<real>, fs: nat, order: int)
    : (r: Result<ButterDesign>)
    ensures r.Ok? <==> Normalized(lowCut, fs).Ok? && Normalized(highCut, fs).Ok?
    ensures Normalized(lowCut, fs).Err? ==> r == Err(Normalized(lowCut, fs).error)
    ensures r.Ok? ==> r.value.btype == BandPass && r.value.order == order && |r.value.wn| == 2
                      && r.value.wn[0] * fs as real == 2.0 * lowCut.value
                      && r.value.wn[1] * fs as real == 2.0 * highCut.value
  {
    var low := Normalized(lowCut, fs);
    if low.Err? then Err(low.error)
    else
      var high := Normalized(highCut, fs);
      if high.Err? then Err(high.error)
      else Ok(ButterDesign(order, [low.value, high.value], BandPass))
  }

  /** The design `butter_filter` asks for: "band" uses both cutoffs, "high"
      only `high_cut`, and every other string, known or not, the low-pass
      design on `low_cut`. */
  function FilterDesign(fs: nat, ftype: string, lowCut: Option<real>, highCut: Option<real>,
                        order: int): (r: Result<ButterDesign>)
    ensures r.Ok? ==> r.value.order == order
    ensures r.Ok? ==> (r.value.btype == BandPass <==> ftype == "band")
    ensures r.Ok? ==> (r.value.btype == HighPass <==> ftype == "high")
    ensures ftype == "band" ==> r == ButterBandpass(lowCut, highCut, fs, order)
    ensures ftype == "high" ==> r == ButterHighpass(highCut, fs, order)
    ensures ftype != "band" && ftype != "high" ==> r == ButterLowpass(lowCut, fs, order)
  {
    if ftype == "band" then ButterBandpass(lowCut, highCut, fs, order)
    else if ftype == "high" then ButterHighpass(highCut, fs, order)
    else ButterLowpass(lowCut, fs, order)
  }

  /** `butter_filter(sig, fs, ftype, low_cut, high_cut, order)`. */
  function ButterFilter(sig: seq<real>, fs: nat, ftype: string, lowCut: Option<real>,
                        highCut: Option<real>, order: int, impl: FilterImpl): (r: Result<seq<real>>)
    ensures FilterDesign(fs, ftype, lowCut, highCut, order).Err? ==>
              r == Err(FilterDesign(fs, ftype, lowCut, highCut, order).error)
    ensures FilterDesign(fs, ftype, lowCut, highCut, order).Ok? ==>
              r == impl(FilterDesign(fs, ftype, lowCut, highCut, order).value, sig)
  {
    var design := FilterDesign(fs, ftype, lowCut, highCut, order);
    if design.Err? then Err(design.error) else impl(design.value, sig)
  }

  /** `butter_filter(sig, fs)` with its defaults: `ftype="low"`,
      `low_cut=50`, `high_cut=2000`, `order=5`. */
  function ButterFilterDefaults(sig: seq<real>, fs: nat, impl: FilterImpl): (r: Result<seq<real>>)
  {
    ButterFilter(sig, fs, "low", Some(50.0), Some(2000.0), 5, impl)
  }

  /** The defaults ask for a fifth-order low-pass design at 50 Hz, i.e. at
      `100 / fs` of the Nyquist frequency, or fail on a zero rate. */
  lemma DefaultsAreLowpassAt50(sig: seq<real>, fs: nat, impl: FilterImpl)
    ensures fs == 0 ==> ButterFilterDefaults(sig, fs, impl) == Err(ZeroDivision)
    ensures fs > 0 ==> ButterFilterDefaults(sig, fs, impl)
                       == impl(ButterDesign(5, [100.0 / fs as real], LowPass), sig)
  {
    if fs > 0 {
      assert 50.0 / Nyquist(fs) == 100.0 / fs as real;
    }
  }

  /** A high-pass request never looks at `low_cut`. */
  lemma HighpassIgnoresLowCut(sig: seq<real>, fs: nat, low1: Option<real>, low2: Option<real>,
                              highCut: Option<real>, order: int, impl: FilterImpl)
    ensures ButterFilter(sig, fs, "high", low1, highCut, order, impl)
         == ButterFilter(sig, fs, "high", low2, highCut, order, impl)
  {
  }

  /** Any type other than "band" and "high" is the low-pass filter on
      `low_cut`, whatever `high_cut` is. */
  lemma UnknownTypeIsLowpass(sig: seq<real>, fs: nat, ftype: string, lowCut: Option<real>,
                             high1: Option<real>, high2: Option<real>, order: int, impl: FilterImpl)
    requires ftype != "band" && ftype != "high"
    ensures ButterFilter(sig, fs, ftype, lowCut, high1, order, impl)
         == ButterFilter(sig, fs, "low", lowCut, high2, order, impl)
  {
  }

  /** The band-pass design passes the two cutoffs in order: when the low
      cutoff is below the high one, so are the normalised frequencies. */
  lemma BandpassKeepsOrder(lowCut: real, highCut: real, fs: nat, order: int)
    requires fs > 0 && lowCut < highCut
    ensures var r := ButterBandpass(Some(lowCut), Some(highCut), fs, order);
            r.Ok? && r.value.wn[0] < r.value.wn[1]
  {
  }

  /** pydiogment checks no cutoff against the Nyquist frequency itself: a
      cutoff above it becomes a design request with a critical frequency
      above 1, and whether that request is rejected is decided by `butter`,
      that is, by the filter implementation alone. */
  lemma NoRangeCheck(sig: seq<real>, cutoff: real, fs: nat, highCut: Option<real>, order: int,
                     impl: FilterImpl)
    requires fs > 0 && 2.0 * cutoff > fs as real
    ensures var r := ButterLowpass(Some(cutoff), fs, order);
            && r.Ok? && r.value.wn[0] > 1.0
            && ButterFilter(sig, fs, "low", Some(cutoff), highCut, order, impl) == impl(r.value, sig)
  {
    var r := ButterLowpass(Some(cutoff), fs, order);
    assert r.value.wn[0] * fs as real > fs as real;
  }
}
