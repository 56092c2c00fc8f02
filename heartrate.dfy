/** `compute_heart_rate`: mask the wavelet coefficients, reconstruct, take the energy,
    find the R-peaks above eight times the mean energy and turn their count into beats
    per minute. Floating-point rounding is not modelled: samples are exact reals. */
module HeartRate {
  import opened Wrappers
  import opened Samples
  import opened Numerics
  import opened Arith
  import opened Wavelet
  import opened EnergySignal

  const WaveletName: string := "sym4"
  /** The decomposition depth of the two live-monitor scripts. */
  const MonitorLevel: nat := 3
  /** `find_peaks(y, height=8 * avg, ...)` */
  const HeightFactor: real := 8.0

  /** What one run hands on: the rate, the energy signal and the R-peak indices. */
  datatype Estimate = Estimate(bpm: real, signal: seq<real>, peaks: seq<int>)

  /** `(peaks * 60) / (length / fs)`: beats per minute over a window of `length` samples. */
  function Rate(peakCount: nat, length: nat, fs: real): (bpm: real)
    requires fs > 0.0 && length > 0
    ensures bpm >= 0.0
    ensures bpm == 0.0 <==> peakCount == 0
    ensures bpm * (length as real / fs) == (peakCount * 60) as real
  {
    var seconds := length as real / fs;
    ProductSign(length as real, 1.0 / fs);
    assert seconds > 0.0;
    var bpm := (peakCount * 60) as real / seconds;
    assert bpm * seconds == (peakCount * 60) as real;
    ProductSign(bpm, seconds);
    bpm
  }

  /** `int(fs / 2)`: the minimum peak separation handed to `find_peaks`. */
  function PeakDistance(fs: real): (d: int)
    requires fs > 0.0
    ensures d >= 0
    ensures d as real <= fs / 2.0 < d as real + 1.0
  {
    (fs / 2.0).Floor
  }

  lemma ConfiguredPeakDistance()
    ensures PeakDistance(100.0) == 50
  {
  }

  /** What `find_peaks` can at most be assumed to return: indices into the signal, strictly
      increasing. */
  predicate IncreasingIndices(p: seq<int>, n: int) {
    && (forall i :: 0 <= i < |p| ==> 0 <= p[i] < n)
    && (forall i, j :: 0 <= i < j < |p| ==> p[i] < p[j])
  }

  /** There are no more strictly increasing indices than samples. */
  lemma {:induction false} PeakCountBound(p: seq<int>, n: nat)
    requires IncreasingIndices(p, n)
    ensures |p| <= n
    decreases |p|
  {
    if |p| > 0 {
      var last := p[|p| - 1];
      var prefix := p[..|p| - 1];
      assert IncreasingIndices(prefix, last);
      PeakCountBound(prefix, last);
    }
  }

  /** A rate computed from at most one peak per sample never exceeds 60 beats per minute per
      hertz of sampling rate. */
  lemma RateBound(p: seq<int>, length: nat, fs: real)
    requires fs > 0.0 && length > 0
    requires IncreasingIndices(p, length)
    ensures Rate(|p|, length, fs) <= 60.0 * fs
  {
    PeakCountBound(p, length);
    var bpm := Rate(|p|, length, fs);
    var seconds := length as real / fs;
    ProductSign(length as real, 1.0 / fs);
    assert 60.0 * fs * seconds == 60.0 * (length as real);
    assert (bpm - 60.0 * fs) * seconds == (|p| * 60) as real - 60.0 * (length as real);
    ProductSign(bpm - 60.0 * fs, seconds);
  }

  /** `compute_heart_rate(ecg_signal, fs)` with the decomposition depth, the kept positions
      and the peak distance as parameters; `None` is the `(None, None, None)` return taken
      when the decomposition raises. */
  function ComputeHeartRate(lib: Library, ecg: seq<real>, fs: real, level: nat, keep: set<int>,
                            distance: int): (r: Option<Estimate>)
    requires fs > 0.0 && |ecg| > 0
    ensures r.None? <==> lib.swt(ecg, WaveletName, level).None?
    ensures r.Some? ==>
      var reconstructed := lib.iswt(Mask(lib.swt(ecg, WaveletName, level).value, keep), WaveletName);
      && r.value.signal == Energy(reconstructed)
      && NonNegative(r.value.signal)
      && r.value.peaks == lib.findPeaks(r.value.signal, HeightFactor * Mean(r.value.signal), distance)
      && r.value.bpm >= 0.0
      && (r.value.bpm == 0.0 <==> |r.value.peaks| == 0)
      && r.value.bpm * (|ecg| as real / fs) == (|r.value.peaks| * 60) as real
  {
    match lib.swt(ecg, WaveletName, level)
    case None => None
    case Some(coeffs) =>
      var y := Energy(lib.iswt(Mask(coeffs, keep), WaveletName));
      var peaks := lib.findPeaks(y, HeightFactor * Mean(y), distance);
      Some(Estimate(Rate(|peaks|, |ecg|, fs), y, peaks))
  }

  /** The step-by-step version with the loop of `append`s and the `(None, None, None)`
      return, as the hardware monitor runs it, at depth 3 and distance `int(fs / 2)`. */
  method ComputeHeartRateStepwise(lib: Library, ecg: seq<real>, fs: real) returns (r: Option<Estimate>)
    requires fs > 0.0 && |ecg| > 0
    ensures r == ComputeHeartRate(lib, ecg, fs, MonitorLevel, KeepPositions, PeakDistance(fs))
  {
    var coeffs := lib.swt(ecg, WaveletName, MonitorLevel);
    if coeffs.None? {
      return None;
    }
    var forReconstruction := MaskByLoop(coeffs.value, KeepPositions);
    var reconstructed := lib.iswt(forReconstruction, WaveletName);
    var y := Energy(reconstructed);
    var avg := Mean(y);
    var peaks := lib.findPeaks(y, HeightFactor * avg, PeakDistance(fs));
    var heartRate := Rate(|peaks|, |ecg|, fs);
    return Some(Estimate(heartRate, y, peaks));
  }

  /** When no frequency content survives the mask, the energy is zero everywhere and so is
      the peak height threshold. */
  lemma SilentReconstruction(lib: Library, ecg: seq<real>, fs: real, level: nat, keep: set<int>, distance: int)
    requires fs > 0.0 && |ecg| > 0
    requires ComputeHeartRate(lib, ecg, fs, level, keep, distance).Some?
    requires AllZero(lib.iswt(Mask(lib.swt(ecg, WaveletName, level).value, keep), WaveletName))
    ensures var est := ComputeHeartRate(lib, ecg, fs, level, keep, distance).value;
      AllZero(est.signal) && est.peaks == lib.findPeaks(est.signal, 0.0, distance)
  {
    var rec := lib.iswt(Mask(lib.swt(ecg, WaveletName, level).value, keep), WaveletName);
    EnergyZeroIff(rec);
    if |rec| > 0 {
      MeanEnergyZeroIff(rec);
    }
  }
}
