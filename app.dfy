/** The desktop monitor's `update_data` callback: one reading through the monitor, then
    the track for the new heart rate. Plotting and scheduling the next callback are not
    modelled. */
module App {
  import opened Wrappers
  import opened HeartRate
  import opened Monitor
  import opened Music
  import opened LowPass
  import opened Wavelet

  /** After a run, `play_song(select_song_by_hr(heart_rate))`; the selector only returns
      playlist indices, so the `IndexError` branch of `play_song` is never taken. */
  method UpdateData(monitor: EcgMonitor, player: Player, sample: Option<real>)
    returns (est: Option<Estimate>, outcome: Option<PlayOutcome>)
    requires monitor.Valid()
    modifies monitor, player
    ensures monitor.Valid()
    ensures sample.None? ==> monitor.accepted == old(monitor.accepted)
    ensures sample.Some? ==> monitor.accepted == old(monitor.accepted) + [sample.value]
    ensures est == if sample.Some? && |monitor.ecgBuffer| >= Window.WindowSize
                   then ComputeHeartRate(monitor.lib, Filtered(monitor.lib, monitor.ecgBuffer), SamplingRate,
                                         MonitorLevel, KeepPositions, PeakDistance(SamplingRate))
                   else None
    ensures est.Some? <==> outcome.Some?
    ensures est.Some? && SelectSongByHr(est.value.bpm) == old(player.currentSongIndex) ==>
              outcome == Some(AlreadyPlaying)
    ensures est.Some? && SelectSongByHr(est.value.bpm) != old(player.currentSongIndex) ==>
              outcome == Some(Started(Playlist[SelectSongByHr(est.value.bpm)]))
    ensures est.Some? ==> sample.Some? && |monitor.accepted| >= Window.WindowSize
    ensures outcome != Some(IndexError)
    ensures est.Some? ==>
              player.currentSongIndex == SelectSongByHr(est.value.bpm) &&
              monitor.processedSignal == Window.LastN(est.value.signal, Window.WindowSize)
    ensures est.None? ==>
              player.currentSongIndex == old(player.currentSongIndex) &&
              monitor.processedSignal == old(monitor.processedSignal)
  {
    var ran;
    ran, est := monitor.Push(sample);
    outcome := None;
    if est.Some? {
      var played := player.PlaySong(SelectSongByHr(est.value.bpm));
      outcome := Some(played);
    }
  }
}
