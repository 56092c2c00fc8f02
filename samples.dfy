/** Sample sequences shared by every stage of the ECG pipeline. */
module Samples {
  /** One band of wavelet coefficients, or any same-rate signal. */
  type Band = seq<real>

  /** The (approximation, detail) pairs of a stationary wavelet decomposition, in the order
      the decomposition returns them; position 0 is the first pair of the list. */
  type Coeffs = seq<(Band, Band)>

  predicate AllZero(s: Band) {
    forall i :: 0 <= i < |s| ==> s[i] == 0.0
  }

  predicate NonNegative(s: Band) {
    forall i :: 0 <= i < |s| ==> s[i] >= 0.0
  }

  /** `np.zeros_like` of a band of length `n`. */
  function Zeros(n: nat): (z: Band)
    ensures |z| == n && AllZero(z)
  {
    seq(n, _ => 0.0)
  }
}
