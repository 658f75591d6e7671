/** MidiTrackBuilder (Implementation): one track per MIDI channel, in
    ascending channel order, each closed by an End of Track meta event one
    tick after its last event.  The delta-time loop of this version is
    commented out, so it is a pure query and leaves its input as it is. */
module ImplementationMidiTrackBuilder {
  import opened NAudioEvents
  import opened TrackGrouping
  import TimedStreams

  function ChannelOf(e: MidiEvent): int
  {
    e.channel
  }

  /** new MetaEvent(EndTrack, 0, last + 1): the 0 is the length of the
      meta data; the event itself is on channel 1. */
  function EndOfTrackMarker(track: seq<MidiEvent>): MidiEvent
    requires track != []
  {
    MetaEvent(track[|track| - 1].absoluteTime + 1, 1, EndTrack)
  }

  /** The query: group by channel, order by channel, append the marker. */
  function BuildTracks(events: seq<MidiEvent>): (r: seq<seq<MidiEvent>>)
    ensures |r| == |Groups(events, ChannelOf, IntLess)|
  {
    var groups := Groups(events, ChannelOf, IntLess);
    GroupsPartition(events, ChannelOf, IntLess);
    seq(|groups|, t requires 0 <= t < |groups| => groups[t] + [EndOfTrackMarker(groups[t])])
  }

  /** The bodies of the tracks are the channel groups. */
  lemma BodiesAreGroups(events: seq<MidiEvent>)
    ensures Bodies(BuildTracks(events)) == Groups(events, ChannelOf, IntLess)
  {
    var tracks := BuildTracks(events);
    var groups := Groups(events, ChannelOf, IntLess);
    GroupsPartition(events, ChannelOf, IntLess);
    forall t | 0 <= t < |tracks|
      ensures Body(tracks[t]) == groups[t]
    {
      assert tracks[t] == groups[t] + [EndOfTrackMarker(groups[t])];
      assert tracks[t][..|tracks[t]| - 1] == groups[t];
    }
  }

  /** Every event lands in exactly one track: the track bodies hold the
      input events, each as often as in the input; there is one track per
      distinct channel, and none for no events. */
  lemma BuildTracksPartition(events: seq<MidiEvent>)
    ensures var tracks := BuildTracks(events);
      && multiset(TimedStreams.Flatten(Bodies(tracks))) == multiset(events)
      && |tracks| == |DistinctKeys(events, ChannelOf)|
      && (tracks == [] <==> events == [])
  {
    BodiesAreGroups(events);
    GroupsPartition(events, ChannelOf, IntLess);
    NoEventsNoGroups(events, ChannelOf, IntLess);
  }

  /** Track t holds exactly the events of its channel, in input order, and
      the channels of the tracks ascend. */
  lemma BuildTracksByChannel(events: seq<MidiEvent>)
    ensures var tracks := BuildTracks(events); var channels := GroupKeys(events, ChannelOf, IntLess);
      && |tracks| == |channels|
      && (forall t :: 0 <= t < |tracks| ==> Body(tracks[t]) == KeyGroup(events, ChannelOf, channels[t]) != [])
      && (forall t, i :: 0 <= t < |tracks| && 0 <= i < |events| ==>
            (events[i] in Body(tracks[t]) <==> events[i].channel == channels[t]))
      && (forall t, u :: 0 <= t < u < |tracks| ==> channels[t] < channels[u])
  {
    BodiesAreGroups(events);
    var tracks := BuildTracks(events);
    GroupsPartition(events, ChannelOf, IntLess);
    assert forall t :: 0 <= t < |tracks| ==> Body(tracks[t]) == Bodies(tracks)[t];
    IntLessIsStrictTotalOrder();
    GroupsAscending(events, ChannelOf, IntLess);
  }

  /** Each track ends with an End of Track meta event on channel 1, one tick
      after the last event of its channel. */
  lemma EndOfTrackMarkers(events: seq<MidiEvent>)
    ensures var tracks := BuildTracks(events);
      forall t :: 0 <= t < |tracks| ==>
        && |tracks[t]| >= 2
        && var marker := tracks[t][|tracks[t]| - 1];
           marker.MetaEvent? && marker.metaEventType == EndTrack && marker.channel == 1
           && marker.absoluteTime == tracks[t][|tracks[t]| - 2].absoluteTime + 1
  {
    GroupsPartition(events, ChannelOf, IntLess);
  }

  lemma TwoChannelKeys(a: MidiEvent, b: MidiEvent, c: MidiEvent)
    requires a.channel == 2 && b.channel == 1 && c.channel == 2
    ensures GroupKeys([a, b, c], ChannelOf, IntLess) == [1, 2]
  {
    var s := [a, b, c];
    assert s[..2] == [a, b] && [a, b][..1] == [a] && [a][..0] == [];
    assert DistinctKeys([a], ChannelOf) == [2];
    assert DistinctKeys([a, b], ChannelOf) == [2, 1];
    assert DistinctKeys(s, ChannelOf) == [2, 1];
    assert [2, 1][1..] == [1] && [1][1..] == [];
    assert SortKeys([1], IntLess) == [1];
  }

  lemma TwoChannelGroups(a: MidiEvent, b: MidiEvent, c: MidiEvent)
    requires a.channel == 2 && b.channel == 1 && c.channel == 2
    ensures KeyGroup([a, b, c], ChannelOf, 1) == [b]
    ensures KeyGroup([a, b, c], ChannelOf, 2) == [a, c]
  {
    assert [a, b, c][1..] == [b, c] && [b, c][1..] == [c] && [c][1..] == [];
    assert ChannelOf(a) == 2 && ChannelOf(b) == 1 && ChannelOf(c) == 2;
    assert KeyGroup([], ChannelOf, 1) == [] && KeyGroup([], ChannelOf, 2) == [];
    assert KeyGroup([c], ChannelOf, 1) == [];
    assert KeyGroup([b, c], ChannelOf, 1) == [b];
    assert KeyGroup([c], ChannelOf, 2) == [c];
    assert KeyGroup([b, c], ChannelOf, 2) == [c];
  }

  /** The two-channel case: events on channels 2, 1, 2 give the channel-1
      track first, then the channel-2 track with its events in input order. */
  lemma TwoChannels(a: MidiEvent, b: MidiEvent, c: MidiEvent)
    requires a.channel == 2 && b.channel == 1 && c.channel == 2
    ensures BuildTracks([a, b, c]) ==
      [[b, MetaEvent(b.absoluteTime + 1, 1, EndTrack)], [a, c, MetaEvent(c.absoluteTime + 1, 1, EndTrack)]]
  {
    TwoChannelKeys(a, b, c);
    TwoChannelGroups(a, b, c);
    assert [1, 2][1..] == [2] && [2][1..] == [];
    assert GroupsFor([a, b, c], ChannelOf, [2]) == [[a, c]];
    assert GroupsFor([a, b, c], ChannelOf, [1, 2]) == [[b], [a, c]];
    assert Groups([a, b, c], ChannelOf, IntLess) == [[b], [a, c]];
    var tracks := BuildTracks([a, b, c]);
    assert |tracks| == 2;
    assert tracks[0] == [b] + [EndOfTrackMarker([b])];
    assert tracks[1] == [a, c] + [EndOfTrackMarker([a, c])];
    assert EndOfTrackMarker([b]) == MetaEvent(b.absoluteTime + 1, 1, EndTrack);
    assert EndOfTrackMarker([a, c]) == MetaEvent(c.absoluteTime + 1, 1, EndTrack);
    assert tracks == [tracks[0], tracks[1]];
    assert tracks[0] == [b, MetaEvent(b.absoluteTime + 1, 1, EndTrack)];
    assert tracks[1] == [a, c, MetaEvent(c.absoluteTime + 1, 1, EndTrack)];
  }
}
