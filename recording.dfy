/** The offline analysis script: one recorded ECG, a four-level decomposition, and the
    heart rate `hbpermin` of the whole recording. Loading the recording, the sampling-rate
    prompt and the plots are not modelled: the recording and the rate are parameters. */
module Recording {
  import opened Wrappers
  import opened Numerics
  import opened Wavelet
  import opened EnergySignal
  import opened HeartRate

  const RecordingLevel: nat := 4
  /** `find_peaks(y, height=8 * avg, distance=50)` */
  const RecordingDistance: int := 50

  /** `data['val'].flatten() / 200` */
  function Normalise(raw: seq<real>): (s: seq<real>)
    ensures |s| == |raw|
    ensures forall i :: 0 <= i < |raw| ==> s[i] * 200.0 == raw[i]
  {
    seq(|raw|, i requires 0 <= i < |raw| => raw[i] / 200.0)
  }

  /** The script's sequence of assignments from `swt` to `hbpermin`; `None` when `swt`
      raises (the script then stops there). */
  method AnalyseRecording(lib: Library, raw: seq<real>, fs: int) returns (r: Option<Estimate>)
    requires fs > 0 && |raw| > 0
    ensures r == ComputeHeartRate(lib, Normalise(raw), fs as real, RecordingLevel, KeepPositions, RecordingDistance)
  {
    var ecgsig := Normalise(raw);
    var coeffs := lib.swt(ecgsig, WaveletName, RecordingLevel);
    if coeffs.None? {
      return None;
    }
    var forReconstruction := MaskByLoop(coeffs.value, KeepPositions);
    var reconstructed := lib.iswt(forReconstruction, WaveletName);
    var y := Energy(reconstructed);
    var avg := Mean(y);
    var peaks := lib.findPeaks(y, HeightFactor * avg, RecordingDistance);
    var nohb := |peaks|;
    var timelimit := |ecgsig| as real / fs as real;
    var hbpermin := Rate(nohb, |ecgsig|, fs as real);
    assert hbpermin == (nohb * 60) as real / timelimit;
    return Some(Estimate(hbpermin, y, peaks));
  }
}
