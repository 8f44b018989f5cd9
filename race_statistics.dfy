/** The track-record rule (part2 models/RaceStatistics.java, updateTrackRecords): find the
    first track with the given name and replace its record when there is none yet or the
    new time is strictly faster. Loading and saving the track list are not part of this
    model: the loaded tracks are a parameter and the result says whether a save happened.
    The other members of the class only forward to the file layer. */
module RaceStatisticsModel {
  import opened Common
  import opened TrackModel

  /** A race of `raceDuration` sets a new record over `bestTime`: there is no record yet
      (best time 0) or the new time is strictly faster. */
  predicate Beats(bestTime: real, raceDuration: int) {
    bestTime == 0.0 || (raceDuration as real) < bestTime
  }

  /** The record (best time, holder) after a race: the race's time and horse when it beats
      the record, otherwise the record as it was. */
  function RecordAfter(bestTime: real, bestHorse: string, raceDuration: int, horseName: string): (r: (real, string))
    ensures Beats(bestTime, raceDuration) ==> r == (raceDuration as real, horseName)
    ensures !Beats(bestTime, raceDuration) ==> r == (bestTime, bestHorse)
    ensures bestTime != 0.0 ==> r.0 <= bestTime
  {
    if Beats(bestTime, raceDuration) then (raceDuration as real, horseName) else (bestTime, bestHorse)
  }

  /** Once a record is set, a race as fast as it keeps the old holder: the comparison is
      strict. */
  lemma TieKeepsHolder(bestTime: real, bestHorse: string, raceDuration: int, horseName: string)
    requires bestTime != 0.0 && raceDuration as real == bestTime
    ensures RecordAfter(bestTime, bestHorse, raceDuration, horseName) == (bestTime, bestHorse)
  {
  }

  /** Running the same race twice changes the record no more than running it once. */
  lemma {:induction false} RecordAfterIdempotent(bestTime: real, bestHorse: string, raceDuration: int, horseName: string)
    ensures var r := RecordAfter(bestTime, bestHorse, raceDuration, horseName);
      RecordAfter(r.0, r.1, raceDuration, horseName) == r
  {
    var r := RecordAfter(bestTime, bestHorse, raceDuration, horseName);
    if Beats(bestTime, raceDuration) {
      if raceDuration == 0 {
        assert r == (0.0, horseName);
      }
    }
  }

  /** A best time of 0 reads as "no record", so a race that took 0 time holds the record
      only until the next race, whatever its time. */
  lemma ZeroTimeRecordIsReplaced(bestHorse: string, raceDuration: int, horseName: string)
    ensures RecordAfter(0.0, bestHorse, raceDuration, horseName) == (raceDuration as real, horseName)
  {
  }

  /** The search loop: the index of the first track with that name, or none. */
  method FindTrack(tracks: seq<Track>, trackName: string) returns (index: Option<nat>)
    ensures index.None? <==> forall k :: 0 <= k < |tracks| ==> tracks[k].name != trackName
    ensures index.Some? ==>
      index.value < |tracks| && tracks[index.value].name == trackName
      && forall k :: 0 <= k < index.value ==> tracks[k].name != trackName
  {
    var i := 0;
    while i < |tracks|
      invariant 0 <= i <= |tracks|
      invariant forall k :: 0 <= k < i ==> tracks[k].name != trackName
    {
      if tracks[i].name == trackName {
        return Some(i);
      }
      i := i + 1;
    }
    return None;
  }

  /** updateTrackRecords on the loaded tracks. With no track of that name nothing changes
      and nothing is saved. Otherwise the first such track's record becomes RecordAfter of
      its old record, the track list is saved exactly when that replaced the record, and
      no other track changes. */
  method UpdateTrackRecords(tracks: seq<Track>, trackName: string, raceDuration: int, horseName: string)
    returns (saved: bool)
    modifies set t | t in tracks
    ensures (forall k :: 0 <= k < |tracks| ==> tracks[k].name != trackName) ==>
      !saved && forall t :: t in tracks ==> t.bestTime == old(t.bestTime) && t.bestHorse == old(t.bestHorse)
    ensures forall i ::
      (0 <= i < |tracks| && tracks[i].name == trackName
       && forall k :: 0 <= k < i ==> tracks[k].name != trackName) ==>
        var target := tracks[i];
        && saved == Beats(old(target.bestTime), raceDuration)
        && (target.bestTime, target.bestHorse)
           == RecordAfter(old(target.bestTime), old(target.bestHorse), raceDuration, horseName)
        && forall t :: t in tracks && t != target ==>
             t.bestTime == old(t.bestTime) && t.bestHorse == old(t.bestHorse)
    ensures forall t :: t in tracks ==>
      t.name == old(t.name) && t.length == old(t.length) && t.condition == old(t.condition)
  {
    var found := FindTrack(tracks, trackName);
    saved := false;
    if found.Some? {
      var target := tracks[found.value];
      if target.bestTime == 0.0 || (raceDuration as real) < target.bestTime {
        target.SetBestTime(raceDuration as real);
        target.SetBestHorse(horseName);
        saved := true;
      }
    }
  }
}
