/** Sample-buffer arithmetic shared by the transforms: sums of absolute
    values and of squares, the largest sample, element-wise scaling, and
    the mean-absolute-value normalisation `x /= np.mean(np.abs(x))` that
    ends most transforms, done in place on a fresh buffer. */
module Signal {
  import opened Wave

  function Abs(v: real): (r: real)
    ensures r >= 0.0 && (r == v || r == -v)
  {
    if v < 0.0 then -v else v
  }

  /** The plain sum of a buffer, `np.sum(s)`. */
  function Sum(s: seq<real>): real
  {
    if s == [] then 0.0 else s[0] + Sum(s[1..])
  }

  /** `np.sum(np.abs(s))`. */
  function SumAbs(s: seq<real>): (r: real)
    ensures r >= 0.0
  {
    if s == [] then 0.0 else Abs(s[0]) + SumAbs(s[1..])
  }

  /** `np.sum(s**2)`. */
  function SumSquares(s: seq<real>): (r: real)
    ensures r >= 0.0
  {
    if s == [] then 0.0 else s[0] * s[0] + SumSquares(s[1..])
  }

  /** `np.mean(np.abs(s))` of a non-empty buffer. */
  function MeanAbs(s: seq<real>): (r: real)
    requires |s| > 0
    ensures r >= 0.0
  {
    SumAbs(s) / |s| as real
  }

  /** `np.mean(s**2)` of a non-empty buffer: the squared RMS. */
  function MeanSquare(s: seq<real>): (r: real)
    requires |s| > 0
    ensures r >= 0.0
  {
    SumSquares(s) / |s| as real
  }

  /** Every sample is zero. */
  predicate IsSilent(s: seq<real>) {
    forall i :: 0 <= i < |s| ==> s[i] == 0.0
  }

  /** `np.max(s)` of a non-empty buffer: the largest sample. */
  function SeqMax(s: seq<real>): (m: real)
    requires |s| > 0
    ensures forall i :: 0 <= i < |s| ==> s[i] <= m
    ensures exists i :: 0 <= i < |s| && s[i] == m
  {
    if |s| == 1 then s[0]
    else
      var t := SeqMax(s[1..]);
      assert forall i :: 1 <= i < |s| ==> s[i] == s[1..][i - 1];
      if s[0] >= t then s[0] else t
  }

  /** `np.abs(s)`. */
  function Magnitudes(s: seq<real>): (r: seq<real>)
    ensures |r| == |s|
  {
    if s == [] then [] else [Abs(s[0])] + Magnitudes(s[1..])
  }

  /** `s * c`: every sample multiplied by `c`. */
  function Scale(s: seq<real>, c: real): (r: seq<real>)
    ensures |r| == |s|
  {
    if s == [] then [] else [s[0] * c] + Scale(s[1..], c)
  }

  /** `s / d`: every sample divided by `d`. */
  function Divided(s: seq<real>, d: real): (r: seq<real>)
    requires d != 0.0
    ensures |r| == |s|
  {
    if s == [] then [] else [s[0] / d] + Divided(s[1..], d)
  }

  lemma {:induction false} MagnitudesAt(s: seq<real>, i: int)
    requires 0 <= i < |s|
    ensures Magnitudes(s)[i] == Abs(s[i])
  {
    if i > 0 { MagnitudesAt(s[1..], i - 1); }
  }

  lemma {:induction false} ScaleAt(s: seq<real>, c: real, i: int)
    requires 0 <= i < |s|
    ensures Scale(s, c)[i] == s[i] * c
  {
    if i > 0 { ScaleAt(s[1..], c, i - 1); }
  }

  lemma {:induction false} DividedAt(s: seq<real>, d: real, i: int)
    requires d != 0.0
    requires 0 <= i < |s|
    ensures Divided(s, d)[i] == s[i] / d
  {
    if i > 0 { DividedAt(s[1..], d, i - 1); }
  }

  lemma Cancel(a: real, x: real)
    requires x != 0.0
    ensures (a * x) / x == a
  {
  }

  lemma ZeroQuotient(x: real)
    requires x != 0.0
    ensures 0.0 / x == 0.0
  {
  }

  /** A square is never negative, and it is zero only at zero. */
  lemma SquareFacts(x: real)
    ensures x * x >= 0.0
    ensures x * x == 0.0 <==> x == 0.0
  {
    if x * x == 0.0 && x != 0.0 {
      Cancel(x, x);
      ZeroQuotient(x);
    }
  }

  lemma AbsMul(x: real, c: real)
    requires c >= 0.0
    ensures Abs(x * c) == Abs(x) * c
  {
    if x < 0.0 {
      assert x * c == -((-x) * c);
      assert (-x) * c >= 0.0;
    } else {
      assert x * c >= 0.0;
    }
  }

  lemma AbsDiv(x: real, d: real)
    requires d > 0.0
    ensures Abs(x / d) == Abs(x) / d
  {
    if x < 0.0 {
      assert x / d == -((-x) / d);
      assert (-x) / d > 0.0;
    } else {
      assert x / d >= 0.0;
    }
  }

  lemma MulCongruence(c: real, x: real, y: real)
    requires x == y
    ensures c * x == c * y
  {
  }

  /** A buffer sums to zero in absolute value exactly when it is silent. */
  lemma {:induction false} SumAbsZeroIffSilent(s: seq<real>)
    ensures SumAbs(s) == 0.0 <==> IsSilent(s)
  {
    if s != [] {
      SumAbsZeroIffSilent(s[1..]);
      assert IsSilent(s) <==> s[0] == 0.0 && IsSilent(s[1..]) by {
        assert forall i :: 1 <= i < |s| ==> s[i] == s[1..][i - 1];
      }
    }
  }

  /** The energy of a buffer is zero exactly when it is silent. */
  lemma {:induction false} SumSquaresZeroIffSilent(s: seq<real>)
    ensures SumSquares(s) == 0.0 <==> IsSilent(s)
  {
    if s != [] {
      SumSquaresZeroIffSilent(s[1..]);
      assert IsSilent(s) <==> s[0] == 0.0 && IsSilent(s[1..]) by {
        assert forall i :: 1 <= i < |s| ==> s[i] == s[1..][i - 1];
      }
      SquareFacts(s[0]);
    }
  }

  /** Summing a scaled buffer scales the sum. */
  lemma {:induction false} SumScale(s: seq<real>, c: real)
    ensures Sum(Scale(s, c)) == c * Sum(s)
  {
    if s != [] {
      var t := Scale(s, c);
      assert t[1..] == Scale(s[1..], c);
      SumScale(s[1..], c);
      calc {
        Sum(t);
        t[0] + Sum(t[1..]);
        s[0] * c + c * Sum(s[1..]);
        c * Sum(s);
      }
    }
  }

  /** Summing a divided buffer divides the sum. */
  lemma {:induction false} SumDivided(s: seq<real>, d: real)
    requires d != 0.0
    ensures Sum(Divided(s, d)) == Sum(s) / d
  {
    if s != [] {
      var t := Divided(s, d);
      assert t[1..] == Divided(s[1..], d);
      SumDivided(s[1..], d);
      calc {
        Sum(t);
        t[0] + Sum(t[1..]);
        s[0] / d + Sum(s[1..]) / d;
        Sum(s) / d;
      }
    }
  }

  lemma {:induction false} SumAbsIsSumOfMagnitudes(s: seq<real>)
    ensures SumAbs(s) == Sum(Magnitudes(s))
  {
    if s != [] {
      assert Magnitudes(s)[1..] == Magnitudes(s[1..]);
      SumAbsIsSumOfMagnitudes(s[1..]);
    }
  }

  lemma {:induction false} MagnitudesScale(s: seq<real>, c: real)
    requires c >= 0.0
    ensures Magnitudes(Scale(s, c)) == Scale(Magnitudes(s), c)
  {
    forall i | 0 <= i < |s|
      ensures Magnitudes(Scale(s, c))[i] == Scale(Magnitudes(s), c)[i]
    {
      MagnitudeOfScaledAt(s, c, i);
    }
  }

  lemma MagnitudeOfScaledAt(s: seq<real>, c: real, i: int)
    requires c >= 0.0
    requires 0 <= i < |s|
    ensures Magnitudes(Scale(s, c))[i] == Scale(Magnitudes(s), c)[i]
  {
    ScaleAt(s, c, i);
    ScaleAt(Magnitudes(s), c, i);
    MagnitudesAt(s, i);
    MagnitudesAt(Scale(s, c), i);
    AbsMul(s[i], c);
  }

  lemma {:induction false} MagnitudesDivided(s: seq<real>, d: real)
    requires d > 0.0
    ensures Magnitudes(Divided(s, d)) == Divided(Magnitudes(s), d)
  {
    forall i | 0 <= i < |s|
      ensures Magnitudes(Divided(s, d))[i] == Divided(Magnitudes(s), d)[i]
    {
      MagnitudeOfDividedAt(s, d, i);
    }
  }

  lemma MagnitudeOfDividedAt(s: seq<real>, d: real, i: int)
    requires d > 0.0
    requires 0 <= i < |s|
    ensures Magnitudes(Divided(s, d))[i] == Divided(Magnitudes(s), d)[i]
  {
    DividedAt(s, d, i);
    DividedAt(Magnitudes(s), d, i);
    MagnitudesAt(s, i);
    MagnitudesAt(Divided(s, d), i);
    AbsDiv(s[i], d);
  }

  lemma {:induction false} SumAbsOfScale(s: seq<real>, c: real)
    requires c >= 0.0
    ensures SumAbs(Scale(s, c)) == Sum(Scale(Magnitudes(s), c))
  {
    SumAbsIsSumOfMagnitudes(Scale(s, c));
    MagnitudesScale(s, c);
  }

  /** Scaling by a non-negative factor scales the sum of magnitudes. */
  lemma {:induction false} SumAbsScale(s: seq<real>, c: real)
    requires c >= 0.0
    ensures SumAbs(Scale(s, c)) == c * SumAbs(s)
  {
    SumAbsOfScale(s, c);
    SumScale(Magnitudes(s), c);
    SumAbsIsSumOfMagnitudes(s);
    MulCongruence(c, Sum(Magnitudes(s)), SumAbs(s));
  }

  /** Dividing by a positive divisor divides the sum of magnitudes. */
  lemma {:induction false} SumAbsDivided(s: seq<real>, d: real)
    requires d > 0.0
    ensures SumAbs(Divided(s, d)) == SumAbs(s) / d
  {
    SumAbsIsSumOfMagnitudes(s);
    SumAbsIsSumOfMagnitudes(Divided(s, d));
    MagnitudesDivided(s, d);
    SumDivided(Magnitudes(s), d);
  }

  /** Scaling by `c` scales the energy by `c * c`. */
  lemma {:induction false} SumSquaresScale(s: seq<real>, c: real)
    ensures SumSquares(Scale(s, c)) == c * c * SumSquares(s)
  {
    if s != [] {
      var t := Scale(s, c);
      assert t[1..] == Scale(s[1..], c);
      SumSquaresScale(s[1..], c);
      assert (s[0] * c) * (s[0] * c) == c * c * (s[0] * s[0]);
      calc {
        SumSquares(t);
        t[0] * t[0] + SumSquares(t[1..]);
        c * c * (s[0] * s[0]) + c * c * SumSquares(s[1..]);
        c * c * SumSquares(s);
      }
    }
  }

  /** Scaling by `c` scales the mean square by `c * c`. */
  lemma {:induction false} MeanSquareScale(s: seq<real>, c: real)
    requires |s| > 0
    ensures MeanSquare(Scale(s, c)) == c * c * MeanSquare(s)
  {
    SumSquaresScale(s, c);
    ScaledMean(SumSquares(Scale(s, c)), SumSquares(s), c * c, |s| as real);
  }

  /** A buffer with a positive mean square is not silent. */
  lemma {:induction false} LoudIsNotSilent(s: seq<real>)
    requires |s| > 0 && MeanSquare(s) > 0.0
    ensures !IsSilent(s)
  {
    SumSquaresZeroIffSilent(s);
    ZeroQuotient(|s| as real);
  }

  lemma PositiveQuotient(x: real, n: real)
    requires x > 0.0 && n > 0.0
    ensures x / n > 0.0
  {
  }

  /** `x /= np.mean(np.abs(x))` on a fresh buffer `x`. An empty buffer stays
      empty. A silent non-empty buffer is divided by zero, which numpy
      turns into NaN samples: reported as `NonFinite`. */
  function NormalizeMeanAbs(s: seq<real>): (r: Result<seq<real>>)
    ensures r.Ok? ==> |r.value| == |s|
  {
    if |s| == 0 then Ok([])
    else if SumAbs(s) == 0.0 then Err(NonFinite)
    else
      PositiveQuotient(SumAbs(s), |s| as real);
      Ok(Divided(s, MeanAbs(s)))
  }

  /** Normalisation fails exactly on a silent non-empty buffer. */
  lemma NormalizeFailsIffSilent(s: seq<real>)
    ensures NormalizeMeanAbs(s).Err? <==> |s| > 0 && IsSilent(s)
    ensures NormalizeMeanAbs(s).Err? ==> NormalizeMeanAbs(s).error == NonFinite
  {
    SumAbsZeroIffSilent(s);
  }

  lemma MeanOfQuotient(total: real, n: real)
    requires total > 0.0 && n > 0.0
    ensures (total / (total / n)) / n == 1.0
  {
    assert total / (total / n) == n;
  }

  /** A normalised non-empty buffer has mean absolute value 1. */
  lemma {:induction false} NormalizedMeanAbsIsOne(s: seq<real>)
    requires NormalizeMeanAbs(s).Ok? && |s| > 0
    ensures MeanAbs(NormalizeMeanAbs(s).value) == 1.0
  {
    var m := MeanAbs(s);
    PositiveQuotient(SumAbs(s), |s| as real);
    SumAbsDivided(s, m);
    MeanOfQuotient(SumAbs(s), |s| as real);
  }

  lemma CancelFactor(x: real, c: real, m: real)
    requires c > 0.0 && m > 0.0
    ensures (x * c) / (c * m) == x / m
  {
    assert c * m > 0.0;
    assert (x / m) * (c * m) == x * c;
  }

  lemma PositiveProduct(x: real, y: real)
    requires x > 0.0 && y > 0.0
    ensures x * y > 0.0
  {
  }

  lemma ScaledMean(scaled: real, total: real, c: real, n: real)
    requires n > 0.0 && scaled == c * total
    ensures scaled / n == c * (total / n)
  {
  }

  /** Scaling by a positive factor scales the mean magnitude. */
  lemma {:induction false} MeanAbsScale(s: seq<real>, c: real)
    requires c > 0.0 && |s| > 0
    ensures MeanAbs(Scale(s, c)) == c * MeanAbs(s)
  {
    SumAbsScale(s, c);
    ScaledMean(SumAbs(Scale(s, c)), SumAbs(s), c, |s| as real);
  }

  lemma {:induction false} DividedScaleAt(s: seq<real>, c: real, m: real, i: int)
    requires c > 0.0 && m > 0.0
    requires 0 <= i < |s|
    ensures Divided(Scale(s, c), c * m)[i] == Divided(s, m)[i]
  {
    DividedAt(Scale(s, c), c * m, i);
    DividedAt(s, m, i);
    ScaleAt(s, c, i);
    CancelFactor(s[i], c, m);
  }

  lemma {:induction false} DividedScale(s: seq<real>, c: real, m: real, d: real)
    requires c > 0.0 && m > 0.0 && d == c * m
    ensures Divided(Scale(s, c), d) == Divided(s, m)
  {
    forall i | 0 <= i < |s|
      ensures Divided(Scale(s, c), d)[i] == Divided(s, m)[i]
    {
      DividedScaleAt(s, c, m, i);
    }
  }

  /** Normalising a buffer scaled by a positive factor gives the same
      result as normalising the buffer itself: the factor cancels. */
  lemma {:induction false} NormalizeScaleInvariant(s: seq<real>, c: real)
    requires c > 0.0
    ensures NormalizeMeanAbs(Scale(s, c)) == NormalizeMeanAbs(s)
  {
    if |s| > 0 {
      SumAbsScale(s, c);
      if SumAbs(s) != 0.0 {
        PositiveQuotient(SumAbs(s), |s| as real);
        PositiveProduct(c, SumAbs(s));
        MeanAbsScale(s, c);
        DividedScale(s, c, MeanAbs(s), MeanAbs(Scale(s, c)));
      } else {
        assert c * SumAbs(s) == 0.0;
      }
    }
  }

  lemma {:induction false} DividedByOne(v: seq<real>)
    ensures Divided(v, 1.0) == v
  {
    forall i | 0 <= i < |v| ensures Divided(v, 1.0)[i] == v[i] {
      DividedAt(v, 1.0, i);
    }
  }

  /** Normalising an already normalised buffer changes nothing. */
  lemma {:induction false} NormalizeIdempotent(s: seq<real>)
    requires NormalizeMeanAbs(s).Ok?
    ensures NormalizeMeanAbs(NormalizeMeanAbs(s).value) == NormalizeMeanAbs(s)
  {
    var v := NormalizeMeanAbs(s).value;
    if |s| > 0 {
      NormalizedMeanAbsIsOne(s);
      DividedByOne(v);
    }
  }

  /** Divides every element of `a` by `d` in place (`a /= d`), leaving the
      length unchanged. */
  method DivideInPlace(a: array<real>, d: real)
    requires d != 0.0
    modifies a
    ensures a[..] == Divided(old(a[..]), d)
  {
    var i := 0;
    while i < a.Length
      invariant 0 <= i <= a.Length
      invariant forall k :: 0 <= k < i ==> a[k] == old(a[k]) / d
      invariant forall k :: i <= k < a.Length ==> a[k] == old(a[k])
    {
      a[i] := a[i] / d;
      i := i + 1;
    }
    forall k | 0 <= k < a.Length ensures a[k] == Divided(old(a[..]), d)[k] {
      DividedAt(old(a[..]), d, k);
    }
  }

  /** Puts `s` into a fresh buffer and normalises it there by its mean
      absolute value, as the transforms do with `y /= np.mean(np.abs(y))`. */
  method NormalizedCopy(s: seq<real>) returns (r: Result<seq<real>>)
    ensures r == NormalizeMeanAbs(s)
  {
    if |s| == 0 {
      return Ok([]);
    }
    if SumAbs(s) == 0.0 {
      return Err(NonFinite);
    }
    var a := new real[|s|](i requires 0 <= i < |s| => s[i]);
    assert a[..] == s;
    PositiveQuotient(SumAbs(s), |s| as real);
    DivideInPlace(a, MeanAbs(s));
    r := Ok(a[..]);
  }
}
