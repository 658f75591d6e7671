/** MidiTrackBuilder (CommandLine): one track per channel (the low nibble of
    the status byte of each short message), in ascending channel order, each
    closed by an End of Track meta event one tick after its last event, with
    the delta-time of every event written in place as in a Standard MIDI
    File track chunk. */
module CommandLineMidiTrackBuilder {
  import opened Wrappers
  import opened CannedBytesMidi
  import opened TrackGrouping
  import TimedStreams
  import opened BitMask

  /** The exception the cast to MidiShortMessage raises for any other
      message; GroupBy evaluates every key before the first group is
      produced, so it is raised before any delta-time is written. */
  datatype TrackError = InvalidCast

  predicate AllShort(events: seq<MidiFileEvent>)
  {
    forall i :: 0 <= i < |events| ==> events[i].message.MidiShortMessage?
  }

  /** Status & 0x0F: the channel of a channel message (0 for MIDI channel 1).
      It is only used once every message is known to be short. */
  function StatusChannel(e: MidiFileEvent): int
  {
    if e.message.MidiShortMessage? then e.message.status % 16 else 0
  }

  /** Delta-times from absolute times: 0 for the first event of a track,
      the distance from the previous event for every other. */
  function Deltas(times: seq<int>): (r: seq<int>)
    ensures |r| == |times|
  {
    seq(|times|, j requires 0 <= j < |times| => if j == 0 then 0 else times[j] - times[j - 1])
  }

  function Sum(s: seq<int>): int
  {
    if s == [] then 0 else Sum(s[..|s| - 1]) + s[|s| - 1]
  }

  /** Round trip: the first absolute time plus the running sum of the
      delta-times recovers every absolute time. */
  lemma {:induction false} DeltasRoundTrip(times: seq<int>, j: nat)
    requires j < |times|
    ensures times[0] + Sum(Deltas(times)[..j + 1]) == times[j]
  {
    var d := Deltas(times);
    if j == 0 {
      assert d[..1] == [0];
      assert d[..1][..0] == [];
    } else {
      DeltasRoundTrip(times, j - 1);
      assert d[..j + 1][..j] == d[..j];
    }
  }

  function AbsoluteTimes(track: seq<MidiFileEvent>): (r: seq<int>)
    reads track
    ensures |r| == |track|
  {
    seq(|track|, j reads track requires 0 <= j < |track| => track[j].absoluteTime)
  }

  function DeltaTimes(track: seq<MidiFileEvent>): (r: seq<int>)
    reads track
    ensures |r| == |track|
  {
    seq(|track|, j reads track requires 0 <= j < |track| => track[j].deltaTime)
  }

  /** The inner foreach loop: with lastEvent the previous event of the
      track, DeltaTime := AbsoluteTime - lastEvent.AbsoluteTime, or 0 for
      the first event.  Only DeltaTime is written. */
  method FixDeltaTimes(track: seq<MidiFileEvent>)
    modifies set e | e in track
    ensures forall e :: e in track ==> e.absoluteTime == old(e.absoluteTime)
    ensures NoDuplicates(track) ==> DeltaTimes(track) == Deltas(AbsoluteTimes(track))
  {
    var lastEvent: MidiFileEvent? := null;
    for j := 0 to |track|
      invariant lastEvent == (if j == 0 then null else track[j - 1])
      invariant forall e :: e in track ==> e.absoluteTime == old(e.absoluteTime)
      invariant NoDuplicates(track) ==>
        forall i {:trigger track[i].deltaTime} :: 0 <= i < j ==> track[i].deltaTime == (if i == 0 then 0 else track[i].absoluteTime - track[i - 1].absoluteTime)
    {
      var fileEvent := track[j];
      label BeforeWrite:
      if lastEvent != null {
        assert j > 0 && lastEvent == track[j - 1];
        fileEvent.deltaTime := fileEvent.absoluteTime - lastEvent.absoluteTime;
      } else {
        assert j == 0;
        fileEvent.deltaTime := 0;
      }
      assert fileEvent.deltaTime == (if j == 0 then 0 else track[j].absoluteTime - track[j - 1].absoluteTime);
      if NoDuplicates(track) {
        forall i | 0 <= i < j
          ensures track[i].deltaTime == (if i == 0 then 0 else track[i].absoluteTime - track[i - 1].absoluteTime)
        {
          assert track[i] != fileEvent;
        }
      }
      lastEvent := fileEvent;
    }
  }

  /** The marker of line 45-53: an End of Track meta message without data,
      one tick after the last event, with DeltaTime 1. */
  predicate IsEndOfTrackMarker(marker: MidiFileEvent, track: seq<MidiFileEvent>)
    reads marker, track
    requires track != []
  {
    && marker.message == MidiMetaMessage(EndOfTrack, [])
    && marker.absoluteTime == track[|track| - 1].absoluteTime + 1
    && marker.deltaTime == 1
  }

  /** Appending a marker one tick after a track whose delta-times are
      fixed, with DeltaTime 1, keeps them fixed. */
  lemma MarkerKeepsDeltas(group: seq<MidiFileEvent>, marker: MidiFileEvent)
    requires group != [] && IsEndOfTrackMarker(marker, group)
    requires DeltaTimes(group) == Deltas(AbsoluteTimes(group))
    ensures DeltaTimes(group + [marker]) == Deltas(AbsoluteTimes(group + [marker]))
  {
    var track := group + [marker];
    forall j | 0 <= j < |track|
      ensures DeltaTimes(track)[j] == Deltas(AbsoluteTimes(track))[j]
    {
      if j < |group| {
        assert DeltaTimes(track)[j] == DeltaTimes(group)[j];
        assert j > 0 ==> AbsoluteTimes(track)[j - 1] == AbsoluteTimes(group)[j - 1];
        assert AbsoluteTimes(track)[j] == AbsoluteTimes(group)[j];
      }
    }
  }

  /** Events of different groups are different objects. */
  lemma GroupsDisjoint(events: seq<MidiFileEvent>, u: nat, t: nat)
    requires u < |Groups(events, StatusChannel, IntLess)| && t < |Groups(events, StatusChannel, IntLess)| && u != t
    ensures forall e :: e in Groups(events, StatusChannel, IntLess)[u] ==> e !in Groups(events, StatusChannel, IntLess)[t]
  {
    GroupsPartition(events, StatusChannel, IntLess);
    var keys := GroupKeys(events, StatusChannel, IntLess);
    assert keys[u] != keys[t];
  }

  /** What the delta-time loop needs of the groups: none is empty, each
      holds input events only, no event is in two groups, and a group of
      distinct events has no event twice. */
  lemma GroupsSeparate(events: seq<MidiFileEvent>)
    ensures var g := Groups(events, StatusChannel, IntLess);
      && (forall t :: 0 <= t < |g| ==> g[t] != [])
      && (forall t, e :: 0 <= t < |g| && e in g[t] ==> e in events)
      && (forall u, t :: 0 <= u < |g| && 0 <= t < |g| && u != t ==> forall e :: e in g[u] ==> e !in g[t])
      && (NoDuplicates(events) ==> forall t :: 0 <= t < |g| ==> NoDuplicates(g[t]))
  {
    var g := Groups(events, StatusChannel, IntLess);
    var keys := GroupKeys(events, StatusChannel, IntLess);
    GroupsPartition(events, StatusChannel, IntLess);
    forall u, t | 0 <= u < |g| && 0 <= t < |g| && u != t
      ensures forall e :: e in g[u] ==> e !in g[t]
    {
      GroupsDisjoint(events, u, t);
    }
    if NoDuplicates(events) {
      forall t | 0 <= t < |g|
        ensures NoDuplicates(g[t])
      {
        KeyGroupDistinct(events, StatusChannel, keys[t]);
      }
    }
  }

  /** No event object is in two groups. */
  ghost predicate Disjoint(groups: seq<seq<MidiFileEvent>>)
  {
    forall u, t :: 0 <= u < |groups| && 0 <= t < |groups| && u != t ==> forall e :: e in groups[u] ==> e !in groups[t]
  }

  /** The outer foreach loop: fix each group's delta-times in turn and make
      its marker.  Groups share no events, so fixing one group leaves the
      groups before it as they were. */
  method FixTracks(events: seq<MidiFileEvent>, groups: seq<seq<MidiFileEvent>>, ghost distinct: bool)
      returns (markers: seq<MidiFileEvent>)
    requires forall t :: 0 <= t < |groups| ==> groups[t] != []
    requires forall t, e :: 0 <= t < |groups| && e in groups[t] ==> e in events
    requires Disjoint(groups)
    requires distinct ==> forall t :: 0 <= t < |groups| ==> NoDuplicates(groups[t])
    modifies events
    ensures |markers| == |groups|
    ensures forall e :: e in events ==> e.absoluteTime == old(e.absoluteTime)
    ensures forall u :: 0 <= u < |groups| ==> fresh(markers[u]) && IsEndOfTrackMarker(markers[u], groups[u])
    ensures distinct ==> forall u :: 0 <= u < |groups| ==> DeltaTimes(groups[u]) == Deltas(AbsoluteTimes(groups[u]))
  {
    markers := [];
    for t := 0 to |groups|
      invariant |markers| == t
      invariant forall e :: e in events ==> e.absoluteTime == old(e.absoluteTime)
      invariant forall u :: 0 <= u < t ==> fresh(markers[u])
      invariant forall u :: 0 <= u < t ==> IsEndOfTrackMarker(markers[u], groups[u])
      invariant distinct ==> forall u :: 0 <= u < t ==> DeltaTimes(groups[u]) == Deltas(AbsoluteTimes(groups[u]))
    {
      label BeforeFix:
      assert forall e :: e in groups[t] ==> e in events;
      FixDeltaTimes(groups[t]);
      forall u | 0 <= u < t
        ensures IsEndOfTrackMarker(markers[u], groups[u])
        ensures distinct ==> DeltaTimes(groups[u]) == Deltas(AbsoluteTimes(groups[u]))
      {
        assert markers[u] !in groups[t];
        assert forall e :: e in groups[u] ==> e !in groups[t];
        assert old@BeforeFix(IsEndOfTrackMarker(markers[u], groups[u]));
        forall j | 0 <= j < |groups[u]|
          ensures groups[u][j].deltaTime == old@BeforeFix(groups[u][j].deltaTime)
        {
          assert groups[u][j] !in groups[t];
        }
        assert DeltaTimes(groups[u]) == old@BeforeFix(DeltaTimes(groups[u]));
        assert AbsoluteTimes(groups[u]) == old@BeforeFix(AbsoluteTimes(groups[u]));
      }
      var last := groups[t][|groups[t]| - 1];
      var marker := new MidiFileEvent(MidiMetaMessage(EndOfTrack, []), last.absoluteTime + 1, 1);
      markers := markers + [marker];
    }
  }

  /** BuildTracks: a non-short message fails the cast before anything is
      written; otherwise one track per channel in ascending order, each its
      channel's events followed by a fresh marker, every delta-time written
      (when no event object is listed twice) and no absolute time changed.
      The loop over the query also writes DeltaTime 1 on the markers it
      enumerates; those are discarded, and the query enumerated again by
      the caller makes the fresh ones returned here. */
  method BuildTracks(events: seq<MidiFileEvent>) returns (r: Result<seq<seq<MidiFileEvent>>, TrackError>)
    modifies events
    ensures forall e :: e in events ==> e.absoluteTime == old(e.absoluteTime)
    ensures !AllShort(events) ==> r == Failure(InvalidCast) && forall e :: e in events ==> e.deltaTime == old(e.deltaTime)
    ensures AllShort(events) ==> r.Success?
    ensures r.Success? ==>
      var groups := Groups(events, StatusChannel, IntLess);
      && |r.value| == |groups|
      && forall t :: 0 <= t < |groups| ==>
           && groups[t] != []
           && |r.value[t]| == |groups[t]| + 1
           && r.value[t][..|groups[t]|] == groups[t]
           && fresh(r.value[t][|groups[t]|])
           && IsEndOfTrackMarker(r.value[t][|groups[t]|], groups[t])
    ensures r.Success? && NoDuplicates(events) ==>
      forall t :: 0 <= t < |r.value| ==> DeltaTimes(r.value[t]) == Deltas(AbsoluteTimes(r.value[t]))
  {
    if exists i :: 0 <= i < |events| && !events[i].message.MidiShortMessage? {
      return Failure(InvalidCast);
    }
    var groups := Groups(events, StatusChannel, IntLess);
    GroupsSeparate(events);
    var markers := FixTracks(events, groups, NoDuplicates(events));
    var tracks := seq(|groups|, t requires 0 <= t < |groups| => groups[t] + [markers[t]]);
    forall t | 0 <= t < |groups|
      ensures tracks[t][..|groups[t]|] == groups[t]
      ensures NoDuplicates(events) ==> DeltaTimes(tracks[t]) == Deltas(AbsoluteTimes(tracks[t]))
    {
      assert tracks[t] == groups[t] + [markers[t]];
      if NoDuplicates(events) {
        MarkerKeepsDeltas(groups[t], markers[t]);
      }
    }
    r := Success(tracks);
  }
  /** The events of group t are input events, all with the key of group t. */
  lemma GroupMembers(events: seq<MidiFileEvent>, t: nat)
    requires t < |Groups(events, StatusChannel, IntLess)|
    ensures var g := Groups(events, StatusChannel, IntLess)[t];
      forall e :: e in g ==> e in events && StatusChannel(e) == GroupKeys(events, StatusChannel, IntLess)[t]
  {
  }

  /** Status & 0x0F is the remainder of the status byte by 16. */
  lemma LowNibble(status: byte)
    ensures BitAnd(status, 0x0F) == status % 16
  {
    assert Pow2(4) == 16 by { assert Pow2(2) == 4; }
    MaskIsRemainder(status, 4);
  }

  /** With only short messages: track t holds exactly the events whose
      status low nibble is its channel, in input order, every event is in
      exactly one track, and the channels ascend. */
  lemma GroupsByStatusChannel(events: seq<MidiFileEvent>)
    requires AllShort(events)
    ensures var groups := Groups(events, StatusChannel, IntLess); var channels := GroupKeys(events, StatusChannel, IntLess);
      && |groups| == |channels| == |DistinctKeys(events, StatusChannel)|
      && (forall t, i :: 0 <= t < |groups| && 0 <= i < |events| ==>
            (events[i] in groups[t] <==> events[i].message.status % 16 == channels[t]))
      && (forall t, u :: 0 <= t < u < |groups| ==> channels[t] < channels[u])
      && multiset(TimedStreams.Flatten(groups)) == multiset(events)
  {
    GroupsPartition(events, StatusChannel, IntLess);
    IntLessIsStrictTotalOrder();
    GroupsAscending(events, StatusChannel, IntLess);
  }

  /** A track on channel 1 with events at 10 and 25 and its marker at 26
      gets delta-times 0, 15 and 1, and the running sum gives the times
      back. */
  lemma DeltasExample()
    ensures Deltas([10, 25, 26]) == [0, 15, 1]
    ensures 10 + Sum([0, 15, 1]) == 26
  {
    DeltasRoundTrip([10, 25, 26], 2);
    assert Deltas([10, 25, 26])[..3] == Deltas([10, 25, 26]);
  }
}
