/** Coefficient masking between `pywt.swt` and `pywt.iswt`: every approximation band is
    replaced by zeros and only the detail bands at the chosen list positions are kept. */
module Wavelet {
  import opened Samples

  /** The list positions whose detail band survives, in every script. */
  const KeepPositions: set<int> := {2, 3}

  /** One enumerated pair after masking. */
  function MaskPair(p: (Band, Band), keepDetail: bool): (Band, Band) {
    (Zeros(|p.0|), if keepDetail then p.1 else Zeros(|p.1|))
  }

  /** The comprehension over `enumerate(coeffs)`: one output pair per input pair, in order;
      the approximation always zeroed, the detail kept exactly when its position is in `keep`. */
  function Mask(c: Coeffs, keep: set<int>): (r: Coeffs)
    ensures |r| == |c|
    ensures forall j :: 0 <= j < |c| ==> |r[j].0| == |c[j].0| && AllZero(r[j].0)
    ensures forall j :: 0 <= j < |c| && j in keep ==> r[j].1 == c[j].1
    ensures forall j :: 0 <= j < |c| && j !in keep ==> |r[j].1| == |c[j].1| && AllZero(r[j].1)
  {
    seq(|c|, j requires 0 <= j < |c| => MaskPair(c[j], j in keep))
  }

  /** The loop of `append`s: builds the masked list one pair at a time. */
  method MaskByLoop(coeffs: Coeffs, keep: set<int>) returns (r: Coeffs)
    ensures r == Mask(coeffs, keep)
  {
    r := [];
    var i := 0;
    while i < |coeffs|
      invariant 0 <= i <= |coeffs|
      invariant |r| == i
      invariant forall j :: 0 <= j < i ==> r[j] == MaskPair(coeffs[j], j in keep)
    {
      if i in keep {
        r := r + [(Zeros(|coeffs[i].0|), coeffs[i].1)];
      } else {
        r := r + [(Zeros(|coeffs[i].0|), Zeros(|coeffs[i].1|))];
      }
      i := i + 1;
    }
  }

  /** Only the positions that exist matter: two keep-sets that agree on `0 .. |c|-1`
      mask alike. */
  lemma MaskRestrict(c: Coeffs, keep: set<int>, keep': set<int>)
    requires forall j :: 0 <= j < |c| ==> (j in keep <==> j in keep')
    ensures Mask(c, keep) == Mask(c, keep')
  {
  }

  /** Masking twice is masking once. */
  lemma MaskIdempotent(c: Coeffs, keep: set<int>)
    ensures Mask(Mask(c, keep), keep) == Mask(c, keep)
  {
  }

  /** A three-level decomposition (`level=3`): position 3 does not exist, so the mask
      over {2, 3} is the mask over {2}; only the detail at position 2 survives. */
  lemma MaskLevel3(c: Coeffs)
    requires |c| == 3
    ensures Mask(c, KeepPositions) == Mask(c, {2})
    ensures AllZero(Mask(c, KeepPositions)[0].1) && AllZero(Mask(c, KeepPositions)[1].1)
    ensures Mask(c, KeepPositions)[2].1 == c[2].1
  {
    MaskRestrict(c, KeepPositions, {2});
  }

  /** A four-level decomposition (`level=4`): the details at positions 2 and 3 are kept
      unchanged, those at positions 0 and 1 are zeroed, and so is every approximation. */
  lemma MaskLevel4(c: Coeffs)
    requires |c| == 4
    ensures AllZero(Mask(c, KeepPositions)[0].1) && AllZero(Mask(c, KeepPositions)[1].1)
    ensures Mask(c, KeepPositions)[2].1 == c[2].1 && Mask(c, KeepPositions)[3].1 == c[3].1
    ensures forall j :: 0 <= j < 4 ==> AllZero(Mask(c, KeepPositions)[j].0)
  {
  }

  /** Every band of a stationary decomposition of an `n`-sample signal has `n` samples. */
  predicate Uniform(c: Coeffs, n: nat) {
    forall j :: 0 <= j < |c| ==> |c[j].0| == n && |c[j].1| == n
  }

  /** Masking keeps the decomposition's shape. */
  lemma MaskUniform(c: Coeffs, keep: set<int>, n: nat)
    requires Uniform(c, n)
    ensures Uniform(Mask(c, keep), n)
  {
  }
}
