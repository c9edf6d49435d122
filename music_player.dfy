/**
 * The music player: a fixed playlist, a cyclic track index that starts at
 * -1 (nothing selected), a play flag, a volume in [0,1] and a mute flag.
 */
module MusicPlayer {
  import opened Options
  import opened Records

  /** The index after `i` in a playlist of `len` tracks: one on, back to 0 past the end. */
  function NextIndex(i: int, len: nat): (j: int)
    requires len > 0
    ensures -1 <= i < len ==> 0 <= j < len
    ensures i + 1 < len ==> j == i + 1
    ensures i + 1 >= len ==> j == 0
  {
    if i + 1 >= len then 0 else i + 1
  }

  /** The index before `i`: one back, to the last track below 0. */
  function PrevIndex(i: int, len: nat): (j: int)
    requires len > 0
    ensures i < len ==> 0 <= j < len
    ensures i - 1 >= 0 ==> j == i - 1
    ensures i - 1 < 0 ==> j == len - 1
  {
    if i - 1 < 0 then len - 1 else i - 1
  }

  /** From any index in [-1, len), the next index is (i+1) mod len. */
  lemma NextIsModular(i: int, len: nat)
    requires len > 0 && -1 <= i < len
    ensures NextIndex(i, len) == (i + 1) % len
  {
    if i + 1 == len {
      assert (i + 1) % len == 0;
    } else {
      assert (i + 1) % len == i + 1;
    }
  }

  /** Going back from a valid index and then forward returns to it, and the other way round. */
  lemma NextPrevInverse(i: int, len: nat)
    requires len > 0 && 0 <= i < len
    ensures PrevIndex(NextIndex(i, len), len) == i
    ensures NextIndex(PrevIndex(i, len), len) == i
  {
  }

  /** The volume given to the audio element: silent when muted, the set volume otherwise. */
  function EffectiveVolume(volume: real, muted: bool): (v: real)
    ensures muted ==> v == 0.0
    ensures !muted ==> v == volume
    ensures 0.0 <= volume <= 1.0 ==> 0.0 <= v <= 1.0
  {
    if muted then 0.0 else volume
  }

  class Player {
    const playlist: seq<Song>
    var index: int
    var isPlaying: bool
    var volume: real
    var isMuted: bool

    /** The index is -1 or a track of the playlist, and the volume lies in [0,1]. */
    ghost predicate Valid()
      reads this
    {
      -1 <= index < |playlist| && 0.0 <= volume <= 1.0
    }

    constructor (songs: seq<Song>)
      ensures playlist == songs
      ensures index == -1 && !isPlaying && volume == 0.5 && !isMuted
      ensures Valid()
    {
      playlist := songs;
      index := -1;
      isPlaying := false;
      volume := 0.5;
      isMuted := false;
    }

    /** The selected song, when the index names a track. */
    function CurrentSong(): (song: Option<Song>)
      reads this
      ensures song.Some? <==> 0 <= index < |playlist|
      ensures song.Some? ==> song.value == playlist[index]
      ensures Valid() && index >= 0 ==> song.Some?
      ensures Valid() && song.None? ==> index == -1
    {
      if 0 <= index < |playlist| then Some(playlist[index]) else None
    }

    /** An audio element exists exactly when the current song has a non-empty url. */
    predicate HasAudio()
      reads this
    {
      CurrentSong().Some? && CurrentSong().value.url != ""
    }

    /** The selection effect: a non-empty playlist with nothing selected selects track 0. */
    method SelectInitial()
      requires Valid()
      modifies this
      ensures Valid()
      ensures |playlist| > 0 && old(index) == -1 ==> index == 0
      ensures !(|playlist| > 0 && old(index) == -1) ==> index == old(index)
      ensures isPlaying == old(isPlaying) && volume == old(volume) && isMuted == old(isMuted)
      ensures |playlist| > 0 ==> CurrentSong().Some?
    {
      if |playlist| > 0 && index == -1 {
        index := 0;
      }
    }

    /** Play or pause: nothing happens without a current song that owns an audio element. */
    method TogglePlay()
      modifies this
      ensures !old(HasAudio()) ==> isPlaying == old(isPlaying)
      ensures old(HasAudio()) ==> isPlaying == !old(isPlaying)
      ensures index == old(index) && volume == old(volume) && isMuted == old(isMuted)
    {
      if !HasAudio() || CurrentSong().None? {
        return;
      }
      if isPlaying {
        isPlaying := false;
      } else {
        isPlaying := true;
      }
    }

    /** Skip forward, wrapping to the first track, and start playing; no-op on an empty playlist. */
    method NextSong()
      requires Valid()
      modifies this
      ensures Valid()
      ensures |playlist| == 0 ==> index == old(index) && isPlaying == old(isPlaying)
      ensures |playlist| > 0 ==> index == (old(index) + 1) % |playlist| && isPlaying
      ensures volume == old(volume) && isMuted == old(isMuted)
      ensures |playlist| > 0 ==> CurrentSong().Some?
    {
      if |playlist| == 0 {
        return;
      }
      var next := index + 1;
      if next >= |playlist| {
        next := 0;
      }
      NextIsModular(index, |playlist|);
      index := next;
      isPlaying := true;
    }

    /** Skip back, wrapping to the last track, and start playing; no-op on an empty playlist. */
    method PrevSong()
      requires Valid()
      modifies this
      ensures Valid()
      ensures |playlist| == 0 ==> index == old(index) && isPlaying == old(isPlaying)
      ensures |playlist| > 0 ==> index == PrevIndex(old(index), |playlist|) && isPlaying
      ensures |playlist| > 0 && old(index) <= 0 ==> index == |playlist| - 1
      ensures volume == old(volume) && isMuted == old(isMuted)
      ensures |playlist| > 0 ==> CurrentSong().Some?
    {
      if |playlist| == 0 {
        return;
      }
      var prev := index - 1;
      if prev < 0 {
        prev := |playlist| - 1;
      }
      index := prev;
      isPlaying := true;
    }

    /** A click on a track of the listing selects it and starts playing. */
    method SelectTrack(idx: int)
      requires Valid() && 0 <= idx < |playlist|
      modifies this
      ensures Valid()
      ensures index == idx && isPlaying
      ensures CurrentSong() == Some(playlist[idx])
      ensures volume == old(volume) && isMuted == old(isMuted)
    {
      index := idx;
      isPlaying := true;
    }

    /** The mute button flips the mute flag and nothing else. */
    method ToggleMute()
      modifies this
      ensures isMuted == !old(isMuted)
      ensures index == old(index) && isPlaying == old(isPlaying) && volume == old(volume)
    {
      isMuted := !isMuted;
    }

    /** The volume slider (range 0 to 1) sets the volume. */
    method SetVolume(v: real)
      requires Valid() && 0.0 <= v <= 1.0
      modifies this
      ensures Valid()
      ensures volume == v
      ensures index == old(index) && isPlaying == old(isPlaying) && isMuted == old(isMuted)
    {
      volume := v;
    }

    /** A load error of the audio element stops playback. */
    method AudioError()
      modifies this
      ensures !isPlaying
      ensures index == old(index) && volume == old(volume) && isMuted == old(isMuted)
    {
      isPlaying := false;
    }

    /** The end of a track moves on to the next one. */
    method Ended()
      requires Valid()
      modifies this
      ensures Valid()
      ensures |playlist| == 0 ==> index == old(index) && isPlaying == old(isPlaying)
      ensures |playlist| > 0 ==> index == (old(index) + 1) % |playlist| && isPlaying
      ensures volume == old(volume) && isMuted == old(isMuted)
      ensures |playlist| > 0 ==> CurrentSong().Some?
    {
      NextSong();
    }

    /** The volume the audio element is given. */
    function AudioVolume(): (v: real)
      reads this
      ensures Valid() ==> 0.0 <= v <= 1.0
      ensures isMuted ==> v == 0.0
      ensures !isMuted ==> v == volume
    {
      EffectiveVolume(volume, isMuted)
    }
  }
}
