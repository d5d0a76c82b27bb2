/** The shared data model of the augmentation core: waveforms, what a
    transform hands to the WAV writer, the ways a transform can fail, and
    the decibel factors that the transforms take as given. */
module Wave {

  /** A decoded recording: its sample rate (samples per second) and its
      mono samples. Samples are exact reals: floating-point rounding is not
      modelled. */
  datatype Waveform = Waveform(rate: nat, samples: seq<real>)

  /** The arguments a transform passes to the WAV writer: destination
      path, sample rate and samples. */
  datatype WriteRequest = WriteRequest(path: string, rate: nat, data: seq<real>)

  /** A numeric argument as the caller passed it: its value, and the text
      Python's `str()` renders for it, which output names embed verbatim. */
  datatype Number = Number(value: real, text: string)

  /** How a transform ends without producing a usable buffer. */
  datatype Error =
    | NonFinite        // numpy divides by zero: the buffer would hold NaN or inf samples
    | ZeroDivision     // Python raises ZeroDivisionError (a sample rate of zero)
    | EmptyArray       // numpy raises ValueError on an empty array
    | UnknownTechnique // normalisation technique neither "peak" nor "rms": `y` is unbound
    | MissingCutoff    // a cutoff of None is divided by the Nyquist frequency: TypeError
    | NoChannel        // `sig[:, 0]` on a decoded array without channels: IndexError
    | OddBufferSize    // `np.frombuffer(..., np.int16)` on an odd number of bytes: ValueError
    | TooShort         // random cropping only warns and writes nothing

  datatype Result<T> = Ok(value: T) | Err(error: Error)

  /** A Python argument that may be `None`. */
  datatype Option<T> = None | Some(value: T)

  /** 10 raised to an integer power. */
  function Pow10(k: int): (r: real)
    ensures r > 0.0
    ensures k >= 0 ==> r >= 1.0
    decreases if k >= 0 then k else -k
  {
    if k == 0 then 1.0
    else if k > 0 then 10.0 * Pow10(k - 1)
    else Pow10(k + 1) / 10.0
  }

  /** `factor` stands for the transcendental `10**(db / divisor)`, given by
      the facts the transforms rely on: it is positive, it is above, at or
      below 1 exactly when `db` is above, at or below 0, and it is the exact
      power of ten when `db` is a whole multiple of `divisor`. */
  predicate IsDbFactor(factor: real, db: real, divisor: real)
    requires divisor > 0.0
  {
    && factor > 0.0
    && (db > 0.0 <==> factor > 1.0)
    && (db < 0.0 <==> factor < 1.0)
    && var k := (db / divisor).Floor;
       db == divisor * k as real ==> factor == Pow10(k)
  }
}
