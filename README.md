# RhythmSync ECG heart-rate core, modelled in Dafny

RhythmSync reads ECG samples from a serial port, estimates the heart rate and picks a music
track that matches it. Three scripts share one numeric core:

- `app.py`: the desktop monitor with a music player.
- `hardware_code/main.py`: the plotting-only live monitor.
- `main.py`: an offline analysis of one recorded ECG.

This project holds one copy of that core:

- **Sliding window and processing gate** (`Window`, `Monitor`). Parsed readings go into a
  1000-sample `deque`, and the oldest sample is evicted once it is full. A reading that
  `float()` rejects is dropped before the append. Once the window holds 1000 samples, every
  new reading runs the pipeline over it. A run that yields a signal replaces the
  processed-signal buffer wholesale.
- **Low-pass design** (`LowPass`): the cutoff is normalised by the Nyquist frequency before
  `butter` designs the filter.
- **Wavelet coefficient masking** (`Wavelet`). Every approximation band becomes zeros of the
  same length. A detail band is kept only when its list position is in {2, 3}. It is written
  both as the comprehension of `app.py` and as the loop of `append`s of the other two scripts,
  and the two are proved equal.
- **Energy, mean and rate** (`EnergySignal`, `HeartRate`, `Recording`): `y = |x|^2`,
  `avg = mean(y)`, and `bpm = peaks * 60 / (length / fs)`.
- **Track selection and the play guard** (`Music`, `App`): a three-way heart-rate bucket, and
  a player whose `current_song_index` changes only when a different, valid index is asked for.

The SciPy and PyWavelets calls (`butter`, `lfilter`, `savgol_filter`, `pywt.swt`, `pywt.iswt`,
`find_peaks`) are not modelled. They are the fields of the datatype `Numerics.Library`, which
every operation that calls them takes as a parameter, so each result holds for any
implementation of them. The only assumption made about them is that the two filters return
as many samples as they are given (`Library.FiltersPreserveLength`). `swt` returns `None`
where the Python call raises.

Behaviours of the code that the model keeps:

- The mask is built over the positions that exist. With `level=3`, the list has positions
  0, 1 and 2 only, so the `3` in `i in [2, 3]` never matches (`Wavelet.MaskRestrict`).
- Processing is gated on `len(ecg_buffer) >= 1000` and re-runs on every accepted reading once
  the window is full.
- In `hardware_code/main.py`, an exception from `swt` makes `compute_heart_rate` return
  `(None, None, None)`, and `update` then leaves the processed buffer alone. In `app.py`,
  `compute_heart_rate` has no `try`, and a `ValueError` from `swt` is caught by
  `update_data`'s `except ValueError` after the append. In both cases the window has the new
  sample, the processed buffer is unchanged and no track is selected; the model gives both by
  `swt` returning `None`.

## Model

| member | source | states |
|---|---|---|
| `Wavelet.Mask` | app.py:80-83 | one output pair per input pair; each approximation is all zeros of its own length; a detail is unchanged when its position is in the keep-set and all zeros of its own length otherwise |
| `Wavelet.MaskByLoop` | hardware_code/main.py:63-69 | the loop of `append`s builds exactly the masked list, so order and band lengths are preserved |
| `Wavelet.MaskRestrict` | app.py:79-83 | only the positions that exist matter: keep-sets that agree on `0 .. len-1` give the same mask |
| `Wavelet.MaskIdempotent` | app.py:80-83 | masking an already-masked list changes nothing |
| `Wavelet.MaskLevel3` | hardware_code/main.py:58-69 | with three pairs, masking over {2, 3} equals masking over {2}; details 0 and 1 are zeroed and detail 2 is kept |
| `Wavelet.MaskLevel4` | main.py:49-57 | with four pairs, details 2 and 3 are kept unchanged, details 0 and 1 are zeroed, and all four approximations are zeroed |
| `Wavelet.MaskUniform` | main.py:52-57 | if every band has the signal's length before masking, it has that length after |
| `Samples.Zeros` | app.py:81 | `np.zeros_like` of a band: the given length, every sample zero |
| `EnergySignal.Mean` | app.py:86 | `np.mean`: the mean times the length is the sum of the samples; 0 for an empty array |
| `EnergySignal.Energy` | app.py:85 | same length as the reconstruction; every sample is non-negative and equals the square of the input sample |
| `EnergySignal.EnergyZeroIff` | main.py:62 | a sample's energy is zero exactly when the sample is zero |
| `EnergySignal.SumNonNegative` | app.py:86 | a sum of non-negative samples is non-negative |
| `EnergySignal.SumZeroIff` | app.py:86 | a sum of non-negative samples is zero exactly when every sample is zero |
| `EnergySignal.MeanNonNegative` | app.py:86 | `avg` of a non-negative signal is non-negative |
| `EnergySignal.MeanEnergyZeroIff` | app.py:85-86 | the mean energy of a non-empty signal is zero exactly when the signal is all zeros |
| `LowPass.NormalCutoff` | hardware_code/main.py:14-16 | the normalised cutoff times the Nyquist frequency is the cutoff |
| `LowPass.NormalCutoffInUnitIff` | hardware_code/main.py:14-17 | the normalised cutoff lies in (0, 1) exactly when the cutoff lies in (0, fs/2) |
| `LowPass.ConfiguredCutoff` | hardware_code/main.py:14-26 | 20 Hz at 100 Hz normalises to 0.4, inside (0, 1) |
| `LowPass.ButterLowpass` | hardware_code/main.py:14-18 | the filter is designed at the frequency which, multiplied by the Nyquist frequency `0.5 * fs`, gives the cutoff |
| `LowPass.ButterLowpassFilter` | hardware_code/main.py:20-22 | the filtered window has the window's length when `lfilter` preserves length |
| `HeartRate.Rate` | app.py:88 | the rate is non-negative; it is zero exactly when there are no peaks; rate times window duration in seconds is 60 times the peak count |
| `HeartRate.PeakDistance` | app.py:87 | `int(fs / 2)` is the floor of half the sampling rate |
| `HeartRate.ConfiguredPeakDistance` | hardware_code/main.py:74 | at 100 Hz the peak distance is 50 samples |
| `HeartRate.PeakCountBound` | app.py:87 | strictly increasing indices into an `n`-sample signal number at most `n` |
| `HeartRate.RateBound` | app.py:87-88 | with such peak indices the rate never exceeds `60 * fs` |
| `HeartRate.ComputeHeartRate` | app.py:78-89 | `None` exactly when `swt` raises; otherwise the signal is the energy of the reconstruction from the masked coefficients and is non-negative everywhere, the peaks are found above 8 times its mean, and the rate is non-negative, zero exactly when no peak was found, and tied to the peak count |
| `HeartRate.ComputeHeartRateStepwise` | hardware_code/main.py:54-77 | the step-by-step version with the `(None, None, None)` return computes exactly `ComputeHeartRate` at depth 3 with distance `int(fs / 2)` |
| `HeartRate.SilentReconstruction` | app.py:84-87 | if the reconstruction is all zeros, so is the energy, and the peak height threshold is 0 |
| `Recording.Normalise` | main.py:34 | the recorded samples scaled by 1/200, same length |
| `Recording.AnalyseRecording` | main.py:49-67 | the script's assignments from `swt` to `hbpermin` compute exactly `ComputeHeartRate` at depth 4 with distance 50, on the normalised recording at the entered rate |
| `Window.LastN` | app.py:33 | a `deque(maxlen=n)` filled from empty holds the last `min(len, n)` items appended |
| `Window.AppendEvictsOldest` | app.py:127 | one `append` adds at the end below capacity, and at capacity first evicts the oldest item |
| `Window.LastNAppend` | hardware_code/main.py:85 | appending to the window of a history gives the window of the extended history |
| `Monitor.Filtered` | app.py:130-131 | the low-passed and smoothed window has the window's length |
| `Monitor.EcgMonitor.constructor` | hardware_code/main.py:50-51 | both buffers start empty |
| `Monitor.EcgMonitor.Push` | hardware_code/main.py:80-113 | a rejected reading changes nothing and runs nothing; an accepted one is appended with eviction, so the window stays the last 1000 accepted readings; the run happens exactly when 1000 readings have been accepted; a run that yields a signal replaces the processed buffer with that signal's last 1000 samples, otherwise the processed buffer is unchanged |
| `Music.SelectSongByHr` | app.py:46-52 | 0 exactly when hr < 60, 1 exactly when 60 ≤ hr ≤ 100, 2 exactly when hr > 100, always a playlist index |
| `Music.SelectSongMonotone` | app.py:46-52 | a higher heart rate never selects a lower bucket |
| `Music.PlaylistEntry` | app.py:58 | Python list indexing on the 3-entry playlist: defined exactly for -3 ≤ index < 3, negative indices counting from the end |
| `Music.NextSong` | app.py:57-61 | the current index changes exactly when a different, valid index is requested, and then becomes that index |
| `Music.PlayIdempotent` | app.py:57-61 | after a valid request the index is the requested one, and repeating the request changes nothing |
| `Music.Player.constructor` | app.py:43 | `current_song_index` starts at -1 |
| `Music.Player.PlaySong` | app.py:54-64 | the new index is `NextSong` of the old one; the outcome is a no-op for the same index, the started track for a different valid index, and `IndexError` with the index unchanged otherwise |
| `App.UpdateData` | app.py:121-153 | the estimate is exactly the pipeline's result on the filtered window when the reading parsed and the window holds 1000 samples, and none otherwise; a track is selected exactly when there is an estimate; the selected index is the heart-rate bucket, reported as already playing when it is the current index and as started with that playlist entry otherwise; `IndexError` never occurs; without an estimate the player and the processed buffer are unchanged |

## Left out

- Serial-port reading, `readline`/`decode`, and the `float()` parse itself: a reading arrives
  already parsed, with `None` for a line that `float()` rejects.
- ThingSpeak fetching, `loadmat`, and the `input()` prompt of `main.py`: they become the
  recording and sampling-rate parameters of `Recording.AnalyseRecording`.
- Tkinter widgets, matplotlib plots and animation, the status bar, `root.after` scheduling,
  window closing: these are UI and timers.
- pygame loading and playback, and `pause_song`, `resume_song`, `stop_song`: these are audio.
  `play_song` is modelled only as its index update and outcome.
- The internals of `butter`, `lfilter`, `savgol_filter`, `pywt.swt`, `pywt.iswt` and
  `find_peaks`. They are foreign numerics, so nothing is claimed about filter response,
  reconstruction accuracy or the peak separation `find_peaks` enforces.
- Exceptions raised inside those calls other than by `swt`, such as `butter` rejecting a
  cutoff outside (0, 1). `LowPass.NormalCutoffInUnitIff` states when such a cutoff occurs.
- IEEE floating-point rounding: samples and rates are exact reals.
- `EnergySignal.Mean`: numpy gives NaN for an empty array, and this model uses 0 there. The
  value reaches only the `find_peaks` height threshold. It never arises at the monitors'
  1000-sample window once the reconstruction keeps the input length.
- Fixed-size deque storage: both deques are `seq` fields that are reassigned, with the
  `maxlen` eviction written out by `Window.LastN`.
- The commented-out code after `hardware_code/main.py:122` (an old filter demo and a
  music-player GUI): it is dead code.
- `HeartRate.Rate`, `HeartRate.ComputeHeartRate`: require `fs > 0` and a non-empty signal. Both
  monitors call them only with 100 Hz and a full 1000-sample window. For an empty signal the
  code would reach `swt` and `find_peaks` (with `distance=int(fs / 2)`) before the division by
  `len / fs`; that path is not modelled.
- `Recording.AnalyseRecording`: requires `Fs > 0` and a non-empty recording. `int(input(...))`
  at main.py:36 also accepts a zero or negative rate: zero raises `ZeroDivisionError` at
  main.py:66, and a negative rate gives a negative `hbpermin` at main.py:67. Neither case is
  modelled, so the sign results above do not cover a negative entered rate.
- In `app.py`, an exception other than `ValueError` raised by `swt` (or by any other library
  call) is not caught by `update_data`. It escapes the callback and skips the
  `root.after(10, update_data)` at app.py:154, which stops the polling. The model's `None` from
  `swt` covers only the caught case; `hardware_code/main.py` catches any `Exception` there.
- Concurrency between the serial callback and plotting: the callbacks run one at a time.
