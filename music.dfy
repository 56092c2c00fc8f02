/** Track selection from the heart rate, and the player's one piece of state: the index of
    the track playing, -1 before the first one. Loading and playing audio, and the status
    bar, are not modelled. */
module Music {
  import opened Wrappers

  /** The three playlist entries in order: `<60`, `60-100` and `>100`. */
  const Playlist: seq<string> := ["medium.mp3", "low.mp3", "high.mp3"]

  /** `select_song_by_hr`: the three-way bucket of a heart rate. */
  function SelectSongByHr(hr: real): (i: int)
    ensures 0 <= i < |Playlist|
    ensures i == 0 <==> hr < 60.0
    ensures i == 1 <==> 60.0 <= hr <= 100.0
    ensures i == 2 <==> hr > 100.0
  {
    if hr < 60.0 then 0
    else if 60.0 <= hr <= 100.0 then 1
    else 2
  }

  /** The buckets are ordered like the rates. */
  lemma SelectSongMonotone(hr1: real, hr2: real)
    requires hr1 <= hr2
    ensures SelectSongByHr(hr1) <= SelectSongByHr(hr2)
  {
  }

  /** `playlist[index]` with Python's list indexing: a negative index counts from the end,
      anything outside `-3 .. 2` raises `IndexError` (`None`). */
  function PlaylistEntry(index: int): (r: Option<string>)
    ensures r.Some? <==> -|Playlist| <= index < |Playlist|
    ensures 0 <= index < |Playlist| ==> r == Some(Playlist[index])
    ensures -|Playlist| <= index < 0 ==> r == Some(Playlist[index + |Playlist|])
  {
    if 0 <= index < |Playlist| then Some(Playlist[index])
    else if -|Playlist| <= index < 0 then Some(Playlist[index + |Playlist|])
    else None
  }

  /** The index playing after `play_song(index)` with `current` playing. */
  function NextSong(current: int, index: int): (next: int)
    ensures next == current || next == index
    ensures next != current <==> index != current && PlaylistEntry(index).Some?
  {
    if index != current && PlaylistEntry(index).Some? then index else current
  }

  /** Asking again for what was just asked for changes nothing. */
  lemma PlayIdempotent(current: int, index: int)
    requires PlaylistEntry(index).Some?
    ensures NextSong(current, index) == index
    ensures NextSong(NextSong(current, index), index) == NextSong(current, index)
  {
  }

  /** What one `play_song` call does. */
  datatype PlayOutcome =
    | AlreadyPlaying
    | Started(path: string)
    | IndexError

  class Player {
    /** `current_song_index` */
    var currentSongIndex: int

    constructor ()
      ensures currentSongIndex == -1
    {
      currentSongIndex := -1;
    }

    /** `play_song(index)`: a different, valid index starts that track and becomes current;
        the same index is a no-op; an invalid one reports `IndexError` and keeps the old
        index. */
    method PlaySong(index: int) returns (outcome: PlayOutcome)
      modifies this
      ensures currentSongIndex == NextSong(old(currentSongIndex), index)
      ensures index == old(currentSongIndex) ==> outcome == AlreadyPlaying
      ensures index != old(currentSongIndex) && PlaylistEntry(index).Some? ==>
                outcome == Started(PlaylistEntry(index).value)
      ensures index != old(currentSongIndex) && PlaylistEntry(index).None? ==> outcome == IndexError
    {
      outcome := AlreadyPlaying;
      if index != currentSongIndex {
        var entry := PlaylistEntry(index);
        if entry.None? {
          return IndexError;
        }
        outcome := Started(entry.value);
        currentSongIndex := index;
      }
    }
  }
}
