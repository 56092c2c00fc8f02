/** The live monitor's state: the raw sample window and the processed-signal buffer that
    each serial-port callback updates, and the processing gate between them. */
module Monitor {
  import opened Wrappers
  import opened Numerics
  import opened Wavelet
  import opened LowPass
  import opened HeartRate
  import opened Window

  /** `savgol_filter(..., window_length=15, polyorder=3)` */
  const SmootherSpan: nat := 15
  const SmootherDegree: nat := 3

  /** The window as it reaches `compute_heart_rate`: low-pass filtered at 20 Hz, then
      smoothed. */
  function Filtered(lib: Library, window: seq<real>): (r: seq<real>)
    ensures lib.FiltersPreserveLength() ==> |r| == |window|
  {
    var lowPassed := ButterLowpassFilter(lib, window, CutoffFrequency, SamplingRate, FilterOrder);
    lib.savgol(lowPassed, SmootherSpan, SmootherDegree)
  }

  class EcgMonitor {
    const lib: Library
    /** `ecg_buffer`, a `deque(maxlen=1000)` */
    var ecgBuffer: seq<real>
    /** `processed_signal_buffer`, a `deque(maxlen=1000)` */
    var processedSignal: seq<real>
    /** every reading that parsed, oldest first */
    ghost var accepted: seq<real>

    ghost predicate Valid()
      reads this
    {
      && lib.FiltersPreserveLength()
      && ecgBuffer == LastN(accepted, WindowSize)
      && |processedSignal| <= WindowSize
    }

    constructor (lib: Library)
      requires lib.FiltersPreserveLength()
      ensures Valid()
      ensures this.lib == lib && ecgBuffer == [] && processedSignal == [] && accepted == []
    {
      this.lib := lib;
      ecgBuffer := [];
      processedSignal := [];
      accepted := [];
    }

    /** One serial reading. `None` is a line that `float()` rejects: it is dropped before
        the append, so nothing changes and nothing runs. A parsed reading is appended;
        once the window holds 1000 samples the pipeline runs over it, and a run that
        produced a signal replaces the processed buffer wholesale. */
    method Push(sample: Option<real>) returns (ran: bool, est: Option<Estimate>)
      requires Valid()
      modifies this
      ensures Valid()
      ensures sample.None? ==> accepted == old(accepted) && ecgBuffer == old(ecgBuffer)
      ensures sample.Some? ==> accepted == old(accepted) + [sample.value]
      ensures sample.Some? ==> ecgBuffer == LastN(old(ecgBuffer) + [sample.value], WindowSize)
      ensures ran <==> sample.Some? && |ecgBuffer| >= WindowSize
      ensures ran <==> sample.Some? && |accepted| >= WindowSize
      ensures ran ==> est == ComputeHeartRate(lib, Filtered(lib, ecgBuffer), SamplingRate,
                                              MonitorLevel, KeepPositions, PeakDistance(SamplingRate))
      ensures !ran ==> est.None?
      ensures est.Some? ==> processedSignal == LastN(est.value.signal, WindowSize)
      ensures est.None? ==> processedSignal == old(processedSignal)
    {
      ran, est := false, None;
      if sample.None? {
        return;
      }
      var rawValue := sample.value;
      LastNAppend(accepted, rawValue, WindowSize);
      ecgBuffer := LastN(ecgBuffer + [rawValue], WindowSize);
      accepted := accepted + [rawValue];
      if |ecgBuffer| >= WindowSize {
        ran := true;
        var filteredSignal := Filtered(lib, ecgBuffer);
        est := ComputeHeartRateStepwise(lib, filteredSignal, SamplingRate);
        if est.Some? {
          processedSignal := LastN(est.value.signal, WindowSize);
        }
      }
    }
  }
}
