/** The Butterworth low-pass stage: `butter_lowpass` and `butter_lowpass_filter`. */
module LowPass {
  import opened Numerics
  import opened Arith

  const SamplingRate: real := 100.0
  const CutoffFrequency: real := 20.0
  const FilterOrder: nat := 5

  /** `cutoff / (0.5 * fs)`: the cutoff as a fraction of the Nyquist frequency. */
  function NormalCutoff(cutoff: real, fs: real): (w: real)
    requires fs > 0.0
    ensures w * (fs / 2.0) == cutoff
  {
    cutoff / (0.5 * fs)
  }

  /** The normalised cutoff lies strictly between 0 and 1 exactly when the cutoff lies
      strictly between 0 and the Nyquist frequency. */
  lemma NormalCutoffInUnitIff(cutoff: real, fs: real)
    requires fs > 0.0
    ensures 0.0 < NormalCutoff(cutoff, fs) < 1.0 <==> 0.0 < cutoff < fs / 2.0
  {
    var w := NormalCutoff(cutoff, fs);
    var nyq := fs / 2.0;
    assert w * nyq == cutoff;
    ProductSign(w, nyq);
    ProductSign(w - 1.0, nyq);
    assert (w - 1.0) * nyq == cutoff - nyq;
  }

  /** The configured 20 Hz cutoff at 100 Hz normalises to 0.4, below the Nyquist limit. */
  lemma ConfiguredCutoff()
    ensures NormalCutoff(CutoffFrequency, SamplingRate) == 0.4
    ensures 0.0 < NormalCutoff(CutoffFrequency, SamplingRate) < 1.0
  {
  }

  /** `butter_lowpass`: the design is the one at the frequency which, scaled by the
      Nyquist frequency, is the cutoff. */
  function ButterLowpass(lib: Library, cutoff: real, fs: real, order: nat): (ba: FilterCoeffs)
    requires fs > 0.0
    ensures forall w :: w * (fs / 2.0) == cutoff ==> ba == lib.butter(order, w)
  {
    var w0 := NormalCutoff(cutoff, fs);
    assert forall w :: w * (fs / 2.0) == cutoff ==> lib.butter(order, w0) == lib.butter(order, w) by {
      forall w | w * (fs / 2.0) == cutoff
        ensures lib.butter(order, w0) == lib.butter(order, w)
      {
        assert (w - w0) * (fs / 2.0) == 0.0;
        ProductSign(w - w0, fs / 2.0);
        assert w == w0;
      }
    }
    lib.butter(order, w0)
  }

  /** `butter_lowpass_filter`: designs the filter, then runs it over the whole window. */
  function ButterLowpassFilter(lib: Library, data: seq<real>, cutoff: real, fs: real, order: nat): (r: seq<real>)
    requires fs > 0.0
    ensures lib.FiltersPreserveLength() ==> |r| == |data|
  {
    lib.lfilter(ButterLowpass(lib, cutoff, fs, order), data)
  }
}
