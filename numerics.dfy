/** The numeric library calls whose code is not part of this model (SciPy and PyWavelets).
    They are given to the pipeline as a value, so every result below holds for any
    implementation of them. */
module Numerics {
  import opened Wrappers
  import opened Samples

  /** The (b, a) coefficient pair of an IIR filter design. */
  datatype FilterCoeffs = FilterCoeffs(b: seq<real>, a: seq<real>)

  datatype Library = Library(
    /** `scipy.signal.butter(order, normal_cutoff, btype='low')` */
    butter: (nat, real) -> FilterCoeffs,
    /** `scipy.signal.lfilter(b, a, data)` */
    lfilter: (FilterCoeffs, seq<real>) -> seq<real>,
    /** `scipy.signal.savgol_filter(data, window_length, polyorder)` */
    savgol: (seq<real>, nat, nat) -> seq<real>,
    /** `pywt.swt(data, wavelet, level)`; `None` when it raises */
    swt: (seq<real>, string, nat) -> Option<Coeffs>,
    /** `pywt.iswt(coeffs, wavelet)` */
    iswt: (Coeffs, string) -> seq<real>,
    /** the index array of `scipy.signal.find_peaks(x, height, distance)` */
    findPeaks: (seq<real>, real, int) -> seq<int>
  ) {
    /** Both filters return an array of the same length as their input. */
    ghost predicate FiltersPreserveLength() {
      && (forall ba, s :: |lfilter(ba, s)| == |s|)
      && (forall s, w, p :: |savgol(s, w, p)| == |s|)
    }
  }
}
