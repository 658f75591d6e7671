/** NAudioMidiTrackBuilder: rebases every event's time on the first event's
    time, in place, then builds one track per (port, channel) in ascending
    order, each closed by an End of Track meta event on port 0 one tick
    after its last event. */
module NAudioMidiTrackBuilder {
  import opened Wrappers
  import opened NAudioEvents
  import opened TrackGrouping
  import TimedStreams

  /** The exception events[0] raises on an empty array. */
  datatype TrackError = IndexOutOfRange

  function TimeOf(e: MidiEventWithPort): int
  {
    e.midiEvent.absoluteTime
  }

  /** The event moved earlier by firstTime; nothing else about it changes. */
  function Shifted(e: MidiEventWithPort, firstTime: int): (r: MidiEventWithPort)
    ensures TimeOf(r) == TimeOf(e) - firstTime
    ensures r.port == e.port && r.midiEvent.channel == e.midiEvent.channel
    ensures r.midiEvent.(absoluteTime := TimeOf(e)) == e.midiEvent
  {
    e.(midiEvent := e.midiEvent.(absoluteTime := e.midiEvent.absoluteTime - firstTime))
  }

  /** Every event moved earlier by firstTime. */
  function Rebased(s: seq<MidiEventWithPort>, firstTime: int): (r: seq<MidiEventWithPort>)
    ensures |r| == |s|
  {
    seq(|s|, i requires 0 <= i < |s| => Shifted(s[i], firstTime))
  }

  /** The foreach loop: AbsoluteTime -= firstTime on every event. */
  method RebaseInPlace(events: array<MidiEventWithPort>, firstTime: int)
    modifies events
    ensures events[..] == Rebased(old(events[..]), firstTime)
  {
    for i := 0 to events.Length
      invariant forall j :: 0 <= j < i ==> events[j] == Shifted(old(events[j]), firstTime)
      invariant forall j :: i <= j < events.Length ==> events[j] == old(events[j])
    {
      var e := events[i];
      events[i] := e.(midiEvent := e.midiEvent.(absoluteTime := e.midiEvent.absoluteTime - firstTime));
    }
  }

  /** Rebasing on the first time puts the first event at 0 and keeps every
      pairwise time difference, port, channel and everything but the time. */
  lemma RebasedOnFirst(s: seq<MidiEventWithPort>)
    requires s != []
    ensures var r := Rebased(s, TimeOf(s[0]));
      && TimeOf(r[0]) == 0
      && (forall i, j :: 0 <= i < |s| && 0 <= j < |s| ==> TimeOf(r[i]) - TimeOf(r[j]) == TimeOf(s[i]) - TimeOf(s[j]))
      && (forall i :: 0 <= i < |s| ==> r[i].port == s[i].port && r[i].midiEvent.channel == s[i].midiEvent.channel)
      && (forall i :: 0 <= i < |s| ==> r[i].midiEvent.(absoluteTime := TimeOf(s[i])) == s[i].midiEvent)
  {
  }

  /** Rebasing twice is rebasing once: the second pass subtracts 0. */
  lemma RebaseIdempotent(s: seq<MidiEventWithPort>)
    requires s != []
    ensures var r := Rebased(s, TimeOf(s[0])); Rebased(r, TimeOf(r[0])) == r
  {
    var r := Rebased(s, TimeOf(s[0]));
    assert TimeOf(r[0]) == 0;
    forall i | 0 <= i < |r|
      ensures Shifted(r[i], 0) == r[i]
    {
    }
  }

  /** Events in time order rebase to non-negative times. */
  lemma RebasedNonNegative(s: seq<MidiEventWithPort>)
    requires s != []
    requires forall i, j :: 0 <= i <= j < |s| ==> TimeOf(s[i]) <= TimeOf(s[j])
    ensures forall i :: 0 <= i < |s| ==> TimeOf(Rebased(s, TimeOf(s[0]))[i]) >= 0
  {
  }

  /** The grouping key (Port, MidiEvent.Channel). */
  function PortChannel(e: MidiEventWithPort): (int, int)
  {
    (e.port, e.midiEvent.channel)
  }

  /** The default order of a value tuple: by port, then by channel. */
  function PairLess(a: (int, int), b: (int, int)): bool
  {
    a.0 < b.0 || (a.0 == b.0 && a.1 < b.1)
  }

  lemma PairLessIsStrictTotalOrder()
    ensures StrictTotalOrder(PairLess)
  {
  }

  /** new MetaEvent(EndTrack, 0, last + 1) on port 0 (the event itself is on
      channel 1). */
  function EndOfTrackMarker(track: seq<MidiEventWithPort>): MidiEventWithPort
    requires track != []
  {
    MidiEventWithPort(MetaEvent(TimeOf(track[|track| - 1]) + 1, 1, EndTrack), 0)
  }

  /** The query of lines 16-21 on already rebased events. */
  function Tracks(events: seq<MidiEventWithPort>): (r: seq<seq<MidiEventWithPort>>)
    ensures |r| == |Groups(events, PortChannel, PairLess)|
  {
    var groups := Groups(events, PortChannel, PairLess);
    GroupsPartition(events, PortChannel, PairLess);
    seq(|groups|, t requires 0 <= t < |groups| => groups[t] + [EndOfTrackMarker(groups[t])])
  }

  /** BuildTracks as written: events[0] throws on no events; otherwise the
      tracks of the rebased events. */
  function BuildTracksAsWritten(events: seq<MidiEventWithPort>): Result<seq<seq<MidiEventWithPort>>, TrackError>
  {
    if events == [] then Failure(IndexOutOfRange)
    else Success(Tracks(Rebased(events, TimeOf(events[0]))))
  }

  /** BuildTracks as the regression test for empty input expects it: no
      events, no tracks. */
  function CorrectedBuildTracks(events: seq<MidiEventWithPort>): seq<seq<MidiEventWithPort>>
  {
    if events == [] then [] else Tracks(Rebased(events, TimeOf(events[0])))
  }

  /** The method as written: the rebasing loop runs on the caller's events,
      then the query runs on them. */
  method BuildTracks(midiEvents: array<MidiEventWithPort>) returns (r: Result<seq<seq<MidiEventWithPort>>, TrackError>)
    modifies midiEvents
    ensures r == BuildTracksAsWritten(old(midiEvents[..]))
    ensures midiEvents.Length > 0 ==> midiEvents[..] == Rebased(old(midiEvents[..]), TimeOf(old(midiEvents[0])))
    ensures midiEvents.Length == 0 ==> r == Failure(IndexOutOfRange)
  {
    if midiEvents.Length == 0 {
      return Failure(IndexOutOfRange);
    }
    var firstTime := TimeOf(midiEvents[0]);
    RebaseInPlace(midiEvents, firstTime);
    r := Success(Tracks(midiEvents[..]));
  }

  /** The corrected method: the same on events, no tracks for none. */
  method BuildTracksCorrected(midiEvents: array<MidiEventWithPort>) returns (r: seq<seq<MidiEventWithPort>>)
    modifies midiEvents
    ensures r == CorrectedBuildTracks(old(midiEvents[..]))
    ensures midiEvents.Length > 0 ==> midiEvents[..] == Rebased(old(midiEvents[..]), TimeOf(old(midiEvents[0])))
    ensures midiEvents.Length == 0 ==> r == []
  {
    if midiEvents.Length == 0 {
      return [];
    }
    var firstTime := TimeOf(midiEvents[0]);
    RebaseInPlace(midiEvents, firstTime);
    r := Tracks(midiEvents[..]);
  }

  /** The discrepancy: on no events the code throws where the regression
      test expects no tracks; on any events the two agree. */
  lemma EmptyInputThrows(events: seq<MidiEventWithPort>)
    ensures BuildTracksAsWritten([]) == Failure(IndexOutOfRange)
    ensures CorrectedBuildTracks([]) == []
    ensures events != [] ==> BuildTracksAsWritten(events) == Success(CorrectedBuildTracks(events))
  {
  }

  lemma BodiesAreGroups(events: seq<MidiEventWithPort>)
    ensures Bodies(Tracks(events)) == Groups(events, PortChannel, PairLess)
  {
    var tracks := Tracks(events);
    var groups := Groups(events, PortChannel, PairLess);
    GroupsPartition(events, PortChannel, PairLess);
    forall t | 0 <= t < |tracks|
      ensures Body(tracks[t]) == groups[t]
    {
      assert tracks[t] == groups[t] + [EndOfTrackMarker(groups[t])];
      assert tracks[t][..|tracks[t]| - 1] == groups[t];
    }
  }

  /** Every (rebased) event lands in exactly one track; there is one track
      per distinct (port, channel), and no events give no tracks. */
  lemma CorrectedTracksPartition(events: seq<MidiEventWithPort>)
    ensures var tracks := CorrectedBuildTracks(events);
      && (tracks == [] <==> events == [])
      && (events != [] ==>
            var rebased := Rebased(events, TimeOf(events[0]));
            && multiset(TimedStreams.Flatten(Bodies(tracks))) == multiset(rebased)
            && |tracks| == |DistinctKeys(rebased, PortChannel)|)
  {
    if events != [] {
      var rebased := Rebased(events, TimeOf(events[0]));
      BodiesAreGroups(rebased);
      GroupsPartition(rebased, PortChannel, PairLess);
      NoEventsNoGroups(rebased, PortChannel, PairLess);
    }
  }

  /** Track t holds exactly the events of its (port, channel) in input
      order, and the keys ascend by port, then channel. */
  lemma TracksByPortAndChannel(events: seq<MidiEventWithPort>)
    ensures var tracks := Tracks(events); var keys := GroupKeys(events, PortChannel, PairLess);
      && |tracks| == |keys|
      && (forall t :: 0 <= t < |tracks| ==> Body(tracks[t]) == KeyGroup(events, PortChannel, keys[t]) != [])
      && (forall t, i :: 0 <= t < |tracks| && 0 <= i < |events| ==>
            (events[i] in Body(tracks[t]) <==> (events[i].port, events[i].midiEvent.channel) == keys[t]))
      && (forall t, u :: 0 <= t < u < |tracks| ==> PairLess(keys[t], keys[u]))
  {
    BodiesAreGroups(events);
    var tracks := Tracks(events);
    GroupsPartition(events, PortChannel, PairLess);
    assert forall t :: 0 <= t < |tracks| ==> Body(tracks[t]) == Bodies(tracks)[t];
    PairLessIsStrictTotalOrder();
    GroupsAscending(events, PortChannel, PairLess);
  }

  /** Each track ends with an End of Track meta event on port 0, one tick
      after the last event of its group. */
  lemma EndOfTrackMarkers(events: seq<MidiEventWithPort>)
    ensures var tracks := Tracks(events);
      forall t :: 0 <= t < |tracks| ==>
        && |tracks[t]| >= 2
        && var marker := tracks[t][|tracks[t]| - 1];
           marker.port == 0 && marker.midiEvent.MetaEvent? && marker.midiEvent.metaEventType == EndTrack
           && TimeOf(marker) == TimeOf(tracks[t][|tracks[t]| - 2]) + 1
  {
    GroupsPartition(events, PortChannel, PairLess);
  }
}
