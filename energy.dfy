/** The energy signal `y = np.abs(x) ** 2` and its mean `avg = np.mean(y)`; floating-point
    rounding is not modelled. */
module EnergySignal {
  import opened Samples
  import opened Arith

  function Abs(x: real): (r: real)
    ensures r >= 0.0 && (r == x || r == -x)
  {
    if x < 0.0 then -x else x
  }

  /** Squared magnitude, sample by sample. */
  function Energy(x: seq<real>): (y: seq<real>)
    ensures |y| == |x|
    ensures NonNegative(y)
    ensures forall i :: 0 <= i < |x| ==> y[i] == x[i] * x[i]
  {
    seq(|x|, i requires 0 <= i < |x| => Abs(x[i]) * Abs(x[i]))
  }

  /** A sample has zero energy exactly when it is zero. */
  lemma EnergyZeroIff(x: seq<real>)
    ensures forall i :: 0 <= i < |x| ==> (Energy(x)[i] == 0.0 <==> x[i] == 0.0)
  {
    var y := Energy(x);
    forall i | 0 <= i < |x| ensures y[i] == 0.0 <==> x[i] == 0.0 {
      if x[i] != 0.0 {
        SquarePositive(x[i]);
        calc { y[i]; == x[i] * x[i]; > 0.0; }
      }
    }
  }

  function Sum(s: seq<real>): real {
    if s == [] then 0.0 else s[0] + Sum(s[1..])
  }

  /** `np.mean`; an empty array (whose numpy mean is NaN) is given mean 0. */
  function Mean(s: seq<real>): (m: real)
    ensures |s| > 0 ==> m * (|s| as real) == Sum(s)
    ensures |s| == 0 ==> m == 0.0
  {
    if |s| == 0 then 0.0 else Sum(s) / (|s| as real)
  }

  lemma {:induction false} SumNonNegative(s: seq<real>)
    requires NonNegative(s)
    ensures Sum(s) >= 0.0
  {
    if s != [] {
      SumNonNegative(s[1..]);
    }
  }

  /** A sum of non-negative samples vanishes exactly when every sample does. */
  lemma {:induction false} SumZeroIff(s: seq<real>)
    requires NonNegative(s)
    ensures Sum(s) == 0.0 <==> AllZero(s)
  {
    if s != [] {
      SumNonNegative(s[1..]);
      SumZeroIff(s[1..]);
      if AllZero(s[1..]) && s[0] == 0.0 {
        forall i | 0 <= i < |s| ensures s[i] == 0.0 {
          if i > 0 { assert s[i] == s[1..][i - 1]; }
        }
      }
    }
  }

  /** `avg` is non-negative. */
  lemma MeanNonNegative(s: seq<real>)
    requires NonNegative(s)
    ensures Mean(s) >= 0.0
  {
    SumNonNegative(s);
  }

  /** The mean energy of a non-empty signal is zero exactly when the signal is all zeros
      (so the peak height threshold `8 * avg` is then zero). */
  lemma MeanEnergyZeroIff(x: seq<real>)
    requires |x| > 0
    ensures Mean(Energy(x)) == 0.0 <==> AllZero(x)
  {
    var y := Energy(x);
    SumZeroIff(y);
    EnergyZeroIff(x);
    assert AllZero(y) <==> AllZero(x);
  }
}
