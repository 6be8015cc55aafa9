/**
 * The music player window: the track library, the current track and
 * position, play/pause, shuffle and repeat, volume and mute, and the
 * favourites view. The random pick of shuffle is a nondeterministic choice;
 * the one-second playback timer is the `Tick` step.
 */
module MusicPlayer {
  import opened Options
  import opened Strings
  import opened Lists

  datatype Track = Track(id: string, name: string, artist: string, duration: nat, isFavorite: bool)

  datatype PlaylistView = AllTracks | Favorites

  const DefaultTracks: seq<Track> := [
    Track("1", "Chill Vibes", "Ambient Artist", 180, false),
    Track("2", "Electronic Dreams", "Synth Wave", 210, true),
    Track("3", "Acoustic Morning", "Folk Band", 195, false),
    Track("4", "Jazz Nights", "Smooth Jazz Trio", 240, true),
    Track("5", "Rock Anthem", "Power Chords", 225, false)
  ]

  /** Within the first three seconds, Previous goes to the previous track instead of restarting. */
  const RestartAfter: nat := 3

  function TrackId(t: Track): string { t.id }

  /** No two tracks share an id. */
  ghost predicate DistinctIds(tracks: seq<Track>) {
    UniqueKeys(tracks, TrackId)
  }

  /** `findIndex` by id: the first position with the id, or -1. */
  function IndexOf(tracks: seq<Track>, id: string): (r: int)
    ensures -1 <= r < |tracks|
    ensures r >= 0 ==> tracks[r].id == id && forall k :: 0 <= k < r ==> tracks[k].id != id
    ensures r == -1 <==> forall k :: 0 <= k < |tracks| ==> tracks[k].id != id
  {
    FindIndex(tracks, TrackId, id)
  }

  /** The step Next takes without shuffle or repeat: one on, from the last back to the first. */
  function NextIndex(index: int, count: nat): (r: int)
    ensures 0 <= index < count ==> r == (index + 1) % count
  {
    if index == count - 1 then 0 else index + 1
  }

  /** The step Previous takes: one back, from the first round to the last. */
  function PreviousIndex(index: int, count: nat): (r: int)
    ensures 0 <= index < count ==> r == (index - 1 + count) % count
  {
    if index == 0 then count - 1 else index - 1
  }

  /** Stepping back undoes stepping on. */
  lemma PreviousUndoesNext(index: int, count: nat)
    requires 0 <= index < count
    ensures PreviousIndex(NextIndex(index, count), count) == index
    ensures NextIndex(PreviousIndex(index, count), count) == index
  {
  }

  /** `m:ss`: the whole minutes, a colon, and the remaining seconds padded to two digits. */
  function FormatTime(seconds: nat): (r: string)
    ensures var parts := Split(r, ':');
      && |parts| == 2 && |parts[1]| == 2
      && ParseNat(parts[0]) == Some(seconds / 60)
      && ParseNat(parts[1]) == Some(seconds % 60)
  {
    var mins := NatToString(seconds / 60);
    var secs := PadStart(NatToString(seconds % 60), 2, '0');
    PaddedTwoDigits(seconds % 60);
    TwoDigitsValue(seconds % 60);
    ParsePrinted(seconds / 60);
    assert ':' !in mins by {
      forall k | 0 <= k < |mins| ensures mins[k] != ':' {
        assert IsDigit(mins[k]);
      }
    }
    SplitNoSeparator(secs, ':');
    SplitAtSeparator(mins, ':', secs);
    assert mins + ":" + secs == mins + [':'] + secs;
    mins + ":" + secs
  }

  /**
   * The track Next may move to from `from` among `n`: with shuffle, any other
   * track when there are several and the first otherwise; with repeat, the
   * same one; otherwise the following one, wrapping.
   */
  predicate IsNextChoice(from: int, to: int, n: nat, shuffle: bool, repeat: bool) {
    if shuffle then (if n > 1 then 0 <= to < n && to != from else to == 0)
    else if repeat then to == from
    else to == NextIndex(from, n)
  }

  class Player {
    var tracks: seq<Track>
    var currentTrackIndex: int
    var isPlaying: bool
    var currentTime: nat
    var volume: nat
    var isMuted: bool
    var isRepeat: bool
    var isShuffle: bool
    var view: PlaylistView

    /** Track ids are distinct, and while there are tracks the current index names one of them. */
    ghost predicate Valid()
      reads this`tracks, this`currentTrackIndex
    {
      DistinctIds(tracks) && (|tracks| > 0 ==> 0 <= currentTrackIndex < |tracks|)
    }

    constructor ()
      ensures Valid()
      ensures tracks == DefaultTracks && currentTrackIndex == 0 && !isPlaying && currentTime == 0
      ensures volume == 70 && !isMuted && !isRepeat && !isShuffle && view == AllTracks
    {
      tracks := DefaultTracks;
      currentTrackIndex := 0;
      isPlaying := false;
      currentTime := 0;
      volume := 70;
      isMuted := false;
      isRepeat := false;
      isShuffle := false;
      view := AllTracks;
    }

    /** The list the playlist shows: every track, or the favourites. */
    function DisplayTracks(): (r: seq<Track>)
      reads this`tracks, this`view
      ensures view == AllTracks ==> r == tracks
      ensures view == Favorites ==> forall t :: t in r <==> t in tracks && t.isFavorite
    {
      if view == Favorites then Filter(tracks, (t: Track) => t.isFavorite) else tracks
    }

    /**
     * Next: with shuffle, some other track when there are several (the first
     * when there is one or none); otherwise with repeat, the same track;
     * otherwise the following track, wrapping. The position goes back to 0.
     */
    method Next()
      requires Valid()
      modifies this`currentTrackIndex, this`currentTime
      ensures Valid() && currentTime == 0
      ensures isShuffle && |tracks| > 1 ==> 0 <= currentTrackIndex < |tracks| && currentTrackIndex != old(currentTrackIndex)
      ensures isShuffle && |tracks| <= 1 ==> currentTrackIndex == 0
      ensures !isShuffle && isRepeat ==> currentTrackIndex == old(currentTrackIndex)
      ensures !isShuffle && !isRepeat ==> currentTrackIndex == NextIndex(old(currentTrackIndex), |tracks|)
      ensures IsNextChoice(old(currentTrackIndex), currentTrackIndex, |tracks|, isShuffle, isRepeat)
    {
      if isShuffle {
        var n := |tracks|;
        if n > 1 {
          assert (if currentTrackIndex == 0 then 1 else 0) != currentTrackIndex;
          var pick :| 0 <= pick < n && pick != currentTrackIndex;
          currentTrackIndex := pick;
        } else {
          currentTrackIndex := 0;
        }
      } else if isRepeat {
        currentTime := 0;
      } else {
        currentTrackIndex := NextIndex(currentTrackIndex, |tracks|);
      }
      currentTime := 0;
    }

    /** Previous: after three seconds, restart the track; otherwise the track before it, wrapping, from 0. */
    method Previous()
      requires Valid()
      modifies this`currentTrackIndex, this`currentTime
      ensures Valid() && currentTime == 0
      ensures old(currentTime) > RestartAfter ==> currentTrackIndex == old(currentTrackIndex)
      ensures old(currentTime) <= RestartAfter ==> currentTrackIndex == PreviousIndex(old(currentTrackIndex), |tracks|)
    {
      if currentTime > RestartAfter {
        currentTime := 0;
      } else {
        currentTrackIndex := PreviousIndex(currentTrackIndex, |tracks|);
        currentTime := 0;
      }
    }

    /** One second of playback: at the end of the track, Next and back to 0; otherwise one second on. */
    method Tick()
      requires Valid()
      modifies this`currentTrackIndex, this`currentTime
      ensures Valid()
      ensures !isPlaying || |tracks| == 0 ==> currentTrackIndex == old(currentTrackIndex) && currentTime == old(currentTime)
      ensures isPlaying && |tracks| > 0 && old(currentTime) < tracks[old(currentTrackIndex)].duration ==>
        currentTrackIndex == old(currentTrackIndex) && currentTime == old(currentTime) + 1
      ensures isPlaying && |tracks| > 0 && old(currentTime) >= tracks[old(currentTrackIndex)].duration ==>
        currentTime == 0 && IsNextChoice(old(currentTrackIndex), currentTrackIndex, |tracks|, isShuffle, isRepeat)
    {
      if isPlaying && |tracks| > 0 {
        if currentTime >= tracks[currentTrackIndex].duration {
          Next();
        } else {
          currentTime := currentTime + 1;
        }
      }
    }

    method PlayPause()
      modifies this`isPlaying
      ensures isPlaying == !old(isPlaying)
    {
      isPlaying := !isPlaying;
    }

    method Seek(t: nat)
      modifies this`currentTime
      ensures currentTime == t
    {
      currentTime := t;
    }

    /** Moving the volume slider above 0 ends muting; moving it to 0 leaves muting as it was. */
    method SetVolume(v: nat)
      modifies this`volume, this`isMuted
      ensures volume == v
      ensures v > 0 ==> !isMuted
      ensures v == 0 ==> isMuted == old(isMuted)
    {
      volume := v;
      if v > 0 && isMuted {
        isMuted := false;
      }
    }

    method ToggleMute()
      modifies this`isMuted
      ensures isMuted == !old(isMuted)
    {
      isMuted := !isMuted;
    }

    method ToggleShuffle()
      modifies this`isShuffle
      ensures isShuffle == !old(isShuffle)
    {
      isShuffle := !isShuffle;
    }

    method ToggleRepeat()
      modifies this`isRepeat
      ensures isRepeat == !old(isRepeat)
    {
      isRepeat := !isRepeat;
    }

    method SetView(v: PlaylistView)
      modifies this`view
      ensures view == v
    {
      view := v;
    }

    /** Favouriting flips only the matching track's flag. */
    method ToggleFavorite(id: string)
      requires Valid()
      modifies this`tracks
      ensures Valid()
      ensures tracks == MapWhere(old(tracks), (t: Track) => t.id == id, (t: Track) => t.(isFavorite := !t.isFavorite))
      ensures forall k :: 0 <= k < |tracks| ==> tracks[k].id == old(tracks)[k].id
    {
      tracks := MapWhere(tracks, (t: Track) => t.id == id, (t: Track) => t.(isFavorite := !t.isFavorite));
    }

    /** Playing the track at a position of the shown list: that track becomes current and plays from 0. */
    method PlayTrack(index: nat)
      requires Valid() && index < |DisplayTracks()|
      modifies this`currentTrackIndex, this`currentTime, this`isPlaying
      ensures Valid()
      ensures 0 <= currentTrackIndex < |tracks| && tracks[currentTrackIndex] == old(DisplayTracks())[index]
      ensures currentTime == 0 && isPlaying
    {
      var shown := DisplayTracks();
      assert shown[index] in tracks;
      currentTrackIndex := IndexOf(tracks, shown[index].id);
      currentTime := 0;
      isPlaying := true;
    }

    /**
     * Delete: deleting the current track stops playback at 0 and steps the
     * index back (unless it is 0 or this was the only track); deleting an
     * earlier track shifts the index down so the same track stays current.
     * The position is that of the first track with the id, -1 when none has it.
     */
    method DeleteTrack(id: string)
      requires Valid()
      modifies this`tracks, this`currentTrackIndex, this`isPlaying, this`currentTime
      ensures tracks == WithoutTrack(old(tracks), id)
      ensures currentTrackIndex == IndexAfterDelete(IndexOf(old(tracks), id), old(currentTrackIndex), |old(tracks)|)
      ensures IndexOf(old(tracks), id) == old(currentTrackIndex) ==> !isPlaying && currentTime == 0
      ensures IndexOf(old(tracks), id) != old(currentTrackIndex) ==> isPlaying == old(isPlaying) && currentTime == old(currentTime)
      ensures IndexOf(old(tracks), id) >= 0 ==> Valid()
    {
      var at := IndexOf(tracks, id);
      if at == currentTrackIndex {
        isPlaying := false;
        currentTime := 0;
      }
      if at >= 0 {
        DeleteKeepsValid(tracks, currentTrackIndex, id);
      }
      currentTrackIndex := IndexAfterDelete(at, currentTrackIndex, |tracks|);
      tracks := WithoutTrack(tracks, id);
    }
  }

  /** The tracks without those with the id, in order. */
  function WithoutTrack(tracks: seq<Track>, id: string): (r: seq<Track>)
    ensures forall t :: t in r <==> t in tracks && t.id != id
  {
    Filter(tracks, (t: Track) => t.id != id)
  }

  /** The current index after deleting position `at` of `count` tracks. */
  function IndexAfterDelete(at: int, current: int, count: nat): int
  {
    if at == current then (if count > 1 && current > 0 then current - 1 else current)
    else if at < current then current - 1
    else current
  }

  /** Deleting a present track keeps the ids distinct and the index inside the shorter list. */
  lemma DeleteKeepsValid(tracks: seq<Track>, current: int, id: string)
    requires DistinctIds(tracks) && (|tracks| > 0 ==> 0 <= current < |tracks|) && IndexOf(tracks, id) >= 0
    ensures var rest := WithoutTrack(tracks, id);
      && DistinctIds(rest)
      && (|rest| > 0 ==> 0 <= IndexAfterDelete(IndexOf(tracks, id), current, |tracks|) < |rest|)
  {
    RemovePresent(tracks, IndexOf(tracks, id), id);
  }

  /** With distinct ids, removing the id at position `at` is removing that position, and keeps the ids distinct. */
  lemma RemovePresent(tracks: seq<Track>, at: nat, id: string)
    requires DistinctIds(tracks) && at < |tracks| && tracks[at].id == id
    ensures WithoutTrack(tracks, id) == tracks[..at] + tracks[at + 1..]
    ensures |WithoutTrack(tracks, id)| == |tracks| - 1 && DistinctIds(WithoutTrack(tracks, id))
  {
    forall k | 0 <= k < |tracks| && k != at
      ensures tracks[k].id != id
    {
      if k < at {
        assert TrackId(tracks[k]) != TrackId(tracks[at]);
      } else {
        assert TrackId(tracks[at]) != TrackId(tracks[k]);
      }
    }
    FilterDropsOne(tracks, at, (t: Track) => t.id != id);
    RemoveKeepsDistinct(tracks, at);
  }

  lemma RemoveKeepsDistinct(tracks: seq<Track>, at: nat)
    requires DistinctIds(tracks) && at < |tracks|
    ensures DistinctIds(tracks[..at] + tracks[at + 1..])
  {
    var r := tracks[..at] + tracks[at + 1..];
    forall i, j | 0 <= i < j < |r|
      ensures r[i].id != r[j].id
    {
      var i' := if i < at then i else i + 1;
      var j' := if j < at then j else j + 1;
      assert r[i] == tracks[i'] && r[j] == tracks[j'];
    }
  }

  /**
   * Deleting another track from the list keeps the current track current:
   * the new index names the same track. (The list only offers ids it shows.)
   */
  lemma DeleteOtherKeepsCurrent(tracks: seq<Track>, current: int, id: string)
    requires DistinctIds(tracks) && 0 <= current < |tracks| && tracks[current].id != id
    requires exists k :: 0 <= k < |tracks| && tracks[k].id == id
    ensures var rest := WithoutTrack(tracks, id);
      var next := IndexAfterDelete(IndexOf(tracks, id), current, |tracks|);
      0 <= next < |rest| && rest[next] == tracks[current]
  {
    var at := IndexOf(tracks, id);
    RemovePresent(tracks, at, id);
    ShiftAround(tracks, at, current);
  }

  /** Removing another position moves a track down by one when it came after it, and not at all otherwise. */
  lemma ShiftAround(tracks: seq<Track>, at: nat, current: nat)
    requires at < |tracks| && current < |tracks| && at != current
    ensures var rest := tracks[..at] + tracks[at + 1..];
      && (at < current ==> rest[current - 1] == tracks[current])
      && (at > current ==> rest[current] == tracks[current])
  {
  }
}
