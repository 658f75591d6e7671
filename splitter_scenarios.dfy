/** The splitter's string-based scenarios, evaluated on the model with a timeout
    of 20 ticks and a release delay of 30 ticks.  Each event is labelled with its
    held-delta (+1 note on, -1 note off, 0 any other event).  Every stage is
    evaluated by its own lemma; the scenario lemma then states the whole split. */
module SplitterScenarios {
  import opened Wrappers
  import opened TimedStreams
  import opened MidiSplitter

  datatype TestEvent = TestEvent(delta: int, name: string)

  /** The classifier the scenarios use: the leading number of the event text. */
  function Delta(e: TestEvent): int { e.delta }

  const TimeoutToSave: nat := 20
  const DelayToSave: nat := 30

  function On(t: int, name: string): Timed<TestEvent> { Timed(t, TestEvent(1, name)) }
  function Off(t: int, name: string): Timed<TestEvent> { Timed(t, TestEvent(-1, name)) }
  function Other(t: int): Timed<TestEvent> { Timed(t, TestEvent(0, "event")) }

  const NoEvents: seq<Timed<TestEvent>> := []
  const NoCounts: seq<Timed<int>> := []
  const NoMarkers: seq<Timed<char>> := []

  function SingleGroupEvents(): seq<Timed<TestEvent>> {
    [On(100, "C5"), Off(105, "C5"), On(116, "C7"), Off(120, "C7")]
  }

  lemma SingleGroupClassified()
    ensures Select([On(100, "C5"), Off(105, "C5"), On(116, "C7"), Off(120, "C7")], Delta) == [Timed(100, 1), Timed(105, -1), Timed(116, 1), Timed(120, -1)]
  {
  }

  lemma SingleGroupNonZero()
    ensures Where([Timed(100, 1), Timed(105, -1), Timed(116, 1), Timed(120, -1)], IsNonZero) == [Timed(100, 1), Timed(105, -1), Timed(116, 1), Timed(120, -1)]
  {
    var s := [Timed(100, 1), Timed(105, -1), Timed(116, 1), Timed(120, -1)];
    assert s[1..] == [Timed(105, -1), Timed(116, 1), Timed(120, -1)];
    assert s[1..][1..] == [Timed(116, 1), Timed(120, -1)];
    assert s[1..][1..][1..] == [Timed(120, -1)];
    assert Where(s[1..][1..][1..], IsNonZero) == [Timed(120, -1)];
    assert Where(s[1..][1..], IsNonZero) == [Timed(116, 1), Timed(120, -1)];
    assert Where(s[1..], IsNonZero) == [Timed(105, -1), Timed(116, 1), Timed(120, -1)];
  }

  lemma SingleGroupCounted()
    ensures ClampedRunningCount([Timed(100, 1), Timed(105, -1), Timed(116, 1), Timed(120, -1)], 0) == [Timed(100, 1), Timed(105, 0), Timed(116, 1), Timed(120, 0)]
  {
    var s := [Timed(100, 1), Timed(105, -1), Timed(116, 1), Timed(120, -1)];
    assert s[1..] == [Timed(105, -1), Timed(116, 1), Timed(120, -1)];
    assert s[1..][1..] == [Timed(116, 1), Timed(120, -1)];
    assert s[1..][1..][1..] == [Timed(120, -1)];
    assert ClampedRunningCount(s[1..][1..][1..], 1) == [Timed(120, 0)];
    assert ClampedRunningCount(s[1..][1..], 0) == [Timed(116, 1), Timed(120, 0)];
    assert ClampedRunningCount(s[1..], 1) == [Timed(105, 0), Timed(116, 1), Timed(120, 0)];
  }

  lemma SingleGroupHeld()
    ensures HeldNotesAndPedals(SingleGroupEvents(), Delta) == [Timed(100, 1), Timed(105, 0), Timed(116, 1), Timed(120, 0)]
  {
    SingleGroupClassified();
    SingleGroupNonZero();
    SingleGroupCounted();
  }

  lemma SingleGroupHeldThrottled()
    ensures Throttle([Timed(100, 1), Timed(105, 0), Timed(116, 1), Timed(120, 0)], TimeoutToSave) == [Timed(140, 0)]
  {
    var s := [Timed(100, 1), Timed(105, 0), Timed(116, 1), Timed(120, 0)];
    assert s[1..] == [Timed(105, 0), Timed(116, 1), Timed(120, 0)];
    assert s[1..][1..] == [Timed(116, 1), Timed(120, 0)];
    assert s[1..][1..][1..] == [Timed(120, 0)];
    assert Throttle(s[1..][1..][1..], TimeoutToSave) == [Timed(140, 0)];
    assert Throttle(s[1..][1..], TimeoutToSave) == [Timed(140, 0)];
    assert Throttle(s[1..], TimeoutToSave) == [Timed(140, 0)];
  }

  lemma SingleGroupHeldPositive()
    ensures Where([Timed(140, 0)], IsPositive) == NoCounts
  {
    var s := [Timed(140, 0)];
  }

  lemma SingleGroupTimeoutMarked()
    ensures Select(NoCounts, ToMarker) == NoMarkers
  {
  }

  lemma SingleGroupTimeouts()
    ensures TimeoutMarkers([Timed(100, 1), Timed(105, 0), Timed(116, 1), Timed(120, 0)], TimeoutToSave) == NoMarkers
  {
    SingleGroupHeldThrottled();
    SingleGroupHeldPositive();
    SingleGroupTimeoutMarked();
  }

  lemma SingleGroupZeros()
    ensures Select(NoMarkers, ToZero) == NoCounts
  {
  }

  lemma SingleGroupMerged()
    ensures Merge([Timed(100, 1), Timed(105, 0), Timed(116, 1), Timed(120, 0)], NoCounts) == [Timed(100, 1), Timed(105, 0), Timed(116, 1), Timed(120, 0)]
  {
    var a := [Timed(100, 1), Timed(105, 0), Timed(116, 1), Timed(120, 0)];
    assert a[1..] == [Timed(105, 0), Timed(116, 1), Timed(120, 0)];
    assert a[1..][1..] == [Timed(116, 1), Timed(120, 0)];
    assert a[1..][1..][1..] == [Timed(120, 0)];
    assert Merge(a[1..][1..][1..], NoCounts) == [Timed(120, 0)];
    assert Merge(a[1..][1..], NoCounts) == [Timed(116, 1), Timed(120, 0)];
    assert Merge(a[1..], NoCounts) == [Timed(105, 0), Timed(116, 1), Timed(120, 0)];
  }

  lemma SingleGroupDistinct()
    ensures DistinctAfter([Timed(100, 1), Timed(105, 0), Timed(116, 1), Timed(120, 0)], None) == [Timed(100, 1), Timed(105, 0), Timed(116, 1), Timed(120, 0)]
  {
    var s := [Timed(100, 1), Timed(105, 0), Timed(116, 1), Timed(120, 0)];
    assert s[1..] == [Timed(105, 0), Timed(116, 1), Timed(120, 0)];
    assert s[1..][1..] == [Timed(116, 1), Timed(120, 0)];
    assert s[1..][1..][1..] == [Timed(120, 0)];
    assert DistinctAfter(s[1..][1..][1..], Some(1)) == [Timed(120, 0)];
    assert DistinctAfter(s[1..][1..], Some(0)) == [Timed(116, 1), Timed(120, 0)];
    assert DistinctAfter(s[1..], Some(1)) == [Timed(105, 0), Timed(116, 1), Timed(120, 0)];
  }

  lemma SingleGroupAdjusted()
    ensures AdjustedHeldNotesAndPedals([Timed(100, 1), Timed(105, 0), Timed(116, 1), Timed(120, 0)], NoMarkers) == [Timed(100, 1), Timed(105, 0), Timed(116, 1), Timed(120, 0)]
  {
    SingleGroupZeros();
    SingleGroupMerged();
    SingleGroupDistinct();
  }

  lemma SingleGroupAdjustedZeros()
    ensures Where([Timed(100, 1), Timed(105, 0), Timed(116, 1), Timed(120, 0)], IsZero) == [Timed(105, 0), Timed(120, 0)]
  {
    var s := [Timed(100, 1), Timed(105, 0), Timed(116, 1), Timed(120, 0)];
    assert s[1..] == [Timed(105, 0), Timed(116, 1), Timed(120, 0)];
    assert s[1..][1..] == [Timed(116, 1), Timed(120, 0)];
    assert s[1..][1..][1..] == [Timed(120, 0)];
    assert Where(s[1..][1..][1..], IsZero) == [Timed(120, 0)];
    assert Where(s[1..][1..], IsZero) == [Timed(120, 0)];
    assert Where(s[1..], IsZero) == [Timed(105, 0), Timed(120, 0)];
  }

  lemma SingleGroupReleaseMarked()
    ensures Select([Timed(105, 0), Timed(120, 0)], ToMarker) == [Timed(105, Marker), Timed(120, Marker)]
  {
  }

  lemma SingleGroupReleases()
    ensures AdjustedReleaseMarkers([Timed(100, 1), Timed(105, 0), Timed(116, 1), Timed(120, 0)]) == [Timed(105, Marker), Timed(120, Marker)]
  {
    SingleGroupAdjustedZeros();
    SingleGroupReleaseMarked();
  }

  lemma SingleGroupReleasesThrottled()
    ensures Throttle([Timed(105, Marker), Timed(120, Marker)], DelayToSave) == [Timed(150, Marker)]
  {
    var s := [Timed(105, Marker), Timed(120, Marker)];
    assert s[1..] == [Timed(120, Marker)];
    assert Throttle(s[1..], DelayToSave) == [Timed(150, Marker)];
  }

  lemma SingleGroupSavingPoints()
    ensures SavingPoints(NoMarkers, [Timed(150, Marker)]) == [Timed(150, Marker)]
  {
    var b := [Timed(150, Marker)];
  }

  /** The expected groups lie between the saving points. */
  lemma SingleGroupSeparated(g: seq<seq<Timed<TestEvent>>>, b: seq<Timed<char>>)
    requires g == [[On(100, "C5"), Off(105, "C5"), On(116, "C7"), Off(120, "C7")], NoEvents] && b == [Timed(150, Marker)]
    ensures SeparatedBy(g, b)
  {
  }

  /** The expected groups, concatenated, are the scenario's events. */
  lemma SingleGroupFlattened(g: seq<seq<Timed<TestEvent>>>)
    requires g == [[On(100, "C5"), Off(105, "C5"), On(116, "C7"), Off(120, "C7")], NoEvents]
    ensures Flatten(g) == SingleGroupEvents()
  {
    assert Flatten(g[2..]) == [];
    assert Flatten(g[1..]) == g[1] + Flatten(g[2..]) by { assert g[1..][1..] == g[2..]; }
    assert Flatten(g[0..]) == g[0] + Flatten(g[1..]) by { assert g[0..][1..] == g[1..]; }
    assert g[0..] == g;
  }

  lemma SingleGroupWindows(g: seq<seq<Timed<TestEvent>>>, b: seq<Timed<char>>)
    requires g == [[On(100, "C5"), Off(105, "C5"), On(116, "C7"), Off(120, "C7")], NoEvents] && b == [Timed(150, Marker)]
    ensures Window(SingleGroupEvents(), b) == g
  {
    SingleGroupSeparated(g, b);
    SingleGroupFlattened(g);
    WindowOfSeparated(g, b);
  }

  /** Releases 15 ticks apart: one group with all four events, then the open empty group. */
  lemma SingleGroup()
    ensures var r := Split(SingleGroupEvents(), Delta, TimeoutToSave, DelayToSave);
            && r.heldNotesAndPedals == [Timed(100, 1), Timed(105, 0), Timed(116, 1), Timed(120, 0)]
            && r.heldNotesAndPedalsTimeoutMarkers == NoMarkers
            && r.adjustedHeldNotesAndPedals == [Timed(100, 1), Timed(105, 0), Timed(116, 1), Timed(120, 0)]
            && r.savingPoints == [Timed(150, Marker)]
            && r.splitGroups == [[On(100, "C5"), Off(105, "C5"), On(116, "C7"), Off(120, "C7")], NoEvents]
  {
    SingleGroupHeld();
    SingleGroupTimeouts();
    SingleGroupAdjusted();
    SingleGroupReleases();
    SingleGroupReleasesThrottled();
    SingleGroupSavingPoints();
    SingleGroupWindows([[On(100, "C5"), Off(105, "C5"), On(116, "C7"), Off(120, "C7")], NoEvents], [Timed(150, Marker)]);
  }

  function SplitByReleaseEvents(): seq<Timed<TestEvent>> {
    [On(100, "C5"), Off(105, "C5"), On(200, "C7"), Off(205, "C7")]
  }

  lemma SplitByReleaseClassified()
    ensures Select([On(100, "C5"), Off(105, "C5"), On(200, "C7"), Off(205, "C7")], Delta) == [Timed(100, 1), Timed(105, -1), Timed(200, 1), Timed(205, -1)]
  {
  }

  lemma SplitByReleaseNonZero()
    ensures Where([Timed(100, 1), Timed(105, -1), Timed(200, 1), Timed(205, -1)], IsNonZero) == [Timed(100, 1), Timed(105, -1), Timed(200, 1), Timed(205, -1)]
  {
    var s := [Timed(100, 1), Timed(105, -1), Timed(200, 1), Timed(205, -1)];
    assert s[1..] == [Timed(105, -1), Timed(200, 1), Timed(205, -1)];
    assert s[1..][1..] == [Timed(200, 1), Timed(205, -1)];
    assert s[1..][1..][1..] == [Timed(205, -1)];
    assert Where(s[1..][1..][1..], IsNonZero) == [Timed(205, -1)];
    assert Where(s[1..][1..], IsNonZero) == [Timed(200, 1), Timed(205, -1)];
    assert Where(s[1..], IsNonZero) == [Timed(105, -1), Timed(200, 1), Timed(205, -1)];
  }

  lemma SplitByReleaseCounted()
    ensures ClampedRunningCount([Timed(100, 1), Timed(105, -1), Timed(200, 1), Timed(205, -1)], 0) == [Timed(100, 1), Timed(105, 0), Timed(200, 1), Timed(205, 0)]
  {
    var s := [Timed(100, 1), Timed(105, -1), Timed(200, 1), Timed(205, -1)];
    assert s[1..] == [Timed(105, -1), Timed(200, 1), Timed(205, -1)];
    assert s[1..][1..] == [Timed(200, 1), Timed(205, -1)];
    assert s[1..][1..][1..] == [Timed(205, -1)];
    assert ClampedRunningCount(s[1..][1..][1..], 1) == [Timed(205, 0)];
    assert ClampedRunningCount(s[1..][1..], 0) == [Timed(200, 1), Timed(205, 0)];
    assert ClampedRunningCount(s[1..], 1) == [Timed(105, 0), Timed(200, 1), Timed(205, 0)];
  }

  lemma SplitByReleaseHeld()
    ensures HeldNotesAndPedals(SplitByReleaseEvents(), Delta) == [Timed(100, 1), Timed(105, 0), Timed(200, 1), Timed(205, 0)]
  {
    SplitByReleaseClassified();
    SplitByReleaseNonZero();
    SplitByReleaseCounted();
  }

  lemma SplitByReleaseHeldThrottled()
    ensures Throttle([Timed(100, 1), Timed(105, 0), Timed(200, 1), Timed(205, 0)], TimeoutToSave) == [Timed(125, 0), Timed(225, 0)]
  {
    var s := [Timed(100, 1), Timed(105, 0), Timed(200, 1), Timed(205, 0)];
    assert s[1..] == [Timed(105, 0), Timed(200, 1), Timed(205, 0)];
    assert s[1..][1..] == [Timed(200, 1), Timed(205, 0)];
    assert s[1..][1..][1..] == [Timed(205, 0)];
    assert Throttle(s[1..][1..][1..], TimeoutToSave) == [Timed(225, 0)];
    assert Throttle(s[1..][1..], TimeoutToSave) == [Timed(225, 0)];
    assert Throttle(s[1..], TimeoutToSave) == [Timed(125, 0), Timed(225, 0)];
  }

  lemma SplitByReleaseHeldPositive()
    ensures Where([Timed(125, 0), Timed(225, 0)], IsPositive) == NoCounts
  {
    var s := [Timed(125, 0), Timed(225, 0)];
    assert s[1..] == [Timed(225, 0)];
    assert Where(s[1..], IsPositive) == NoCounts;
  }

  lemma SplitByReleaseTimeoutMarked()
    ensures Select(NoCounts, ToMarker) == NoMarkers
  {
  }

  lemma SplitByReleaseTimeouts()
    ensures TimeoutMarkers([Timed(100, 1), Timed(105, 0), Timed(200, 1), Timed(205, 0)], TimeoutToSave) == NoMarkers
  {
    SplitByReleaseHeldThrottled();
    SplitByReleaseHeldPositive();
    SplitByReleaseTimeoutMarked();
  }

  lemma SplitByReleaseZeros()
    ensures Select(NoMarkers, ToZero) == NoCounts
  {
  }

  lemma SplitByReleaseMerged()
    ensures Merge([Timed(100, 1), Timed(105, 0), Timed(200, 1), Timed(205, 0)], NoCounts) == [Timed(100, 1), Timed(105, 0), Timed(200, 1), Timed(205, 0)]
  {
    var a := [Timed(100, 1), Timed(105, 0), Timed(200, 1), Timed(205, 0)];
    assert a[1..] == [Timed(105, 0), Timed(200, 1), Timed(205, 0)];
    assert a[1..][1..] == [Timed(200, 1), Timed(205, 0)];
    assert a[1..][1..][1..] == [Timed(205, 0)];
    assert Merge(a[1..][1..][1..], NoCounts) == [Timed(205, 0)];
    assert Merge(a[1..][1..], NoCounts) == [Timed(200, 1), Timed(205, 0)];
    assert Merge(a[1..], NoCounts) == [Timed(105, 0), Timed(200, 1), Timed(205, 0)];
  }

  lemma SplitByReleaseDistinct()
    ensures DistinctAfter([Timed(100, 1), Timed(105, 0), Timed(200, 1), Timed(205, 0)], None) == [Timed(100, 1), Timed(105, 0), Timed(200, 1), Timed(205, 0)]
  {
    var s := [Timed(100, 1), Timed(105, 0), Timed(200, 1), Timed(205, 0)];
    assert s[1..] == [Timed(105, 0), Timed(200, 1), Timed(205, 0)];
    assert s[1..][1..] == [Timed(200, 1), Timed(205, 0)];
    assert s[1..][1..][1..] == [Timed(205, 0)];
    assert DistinctAfter(s[1..][1..][1..], Some(1)) == [Timed(205, 0)];
    assert DistinctAfter(s[1..][1..], Some(0)) == [Timed(200, 1), Timed(205, 0)];
    assert DistinctAfter(s[1..], Some(1)) == [Timed(105, 0), Timed(200, 1), Timed(205, 0)];
  }

  lemma SplitByReleaseAdjusted()
    ensures AdjustedHeldNotesAndPedals([Timed(100, 1), Timed(105, 0), Timed(200, 1), Timed(205, 0)], NoMarkers) == [Timed(100, 1), Timed(105, 0), Timed(200, 1), Timed(205, 0)]
  {
    SplitByReleaseZeros();
    SplitByReleaseMerged();
    SplitByReleaseDistinct();
  }

  lemma SplitByReleaseAdjustedZeros()
    ensures Where([Timed(100, 1), Timed(105, 0), Timed(200, 1), Timed(205, 0)], IsZero) == [Timed(105, 0), Timed(205, 0)]
  {
    var s := [Timed(100, 1), Timed(105, 0), Timed(200, 1), Timed(205, 0)];
    assert s[1..] == [Timed(105, 0), Timed(200, 1), Timed(205, 0)];
    assert s[1..][1..] == [Timed(200, 1), Timed(205, 0)];
    assert s[1..][1..][1..] == [Timed(205, 0)];
    assert Where(s[1..][1..][1..], IsZero) == [Timed(205, 0)];
    assert Where(s[1..][1..], IsZero) == [Timed(205, 0)];
    assert Where(s[1..], IsZero) == [Timed(105, 0), Timed(205, 0)];
  }

  lemma SplitByReleaseReleaseMarked()
    ensures Select([Timed(105, 0), Timed(205, 0)], ToMarker) == [Timed(105, Marker), Timed(205, Marker)]
  {
  }

  lemma SplitByReleaseReleases()
    ensures AdjustedReleaseMarkers([Timed(100, 1), Timed(105, 0), Timed(200, 1), Timed(205, 0)]) == [Timed(105, Marker), Timed(205, Marker)]
  {
    SplitByReleaseAdjustedZeros();
    SplitByReleaseReleaseMarked();
  }

  lemma SplitByReleaseReleasesThrottled()
    ensures Throttle([Timed(105, Marker), Timed(205, Marker)], DelayToSave) == [Timed(135, Marker), Timed(235, Marker)]
  {
    var s := [Timed(105, Marker), Timed(205, Marker)];
    assert s[1..] == [Timed(205, Marker)];
    assert Throttle(s[1..], DelayToSave) == [Timed(235, Marker)];
  }

  lemma SplitByReleaseSavingPoints()
    ensures SavingPoints(NoMarkers, [Timed(135, Marker), Timed(235, Marker)]) == [Timed(135, Marker), Timed(235, Marker)]
  {
    var b := [Timed(135, Marker), Timed(235, Marker)];
    assert b[1..] == [Timed(235, Marker)];
    assert Merge(NoMarkers, b[1..]) == [Timed(235, Marker)];
  }

  /** The expected groups lie between the saving points. */
  lemma SplitByReleaseSeparated(g: seq<seq<Timed<TestEvent>>>, b: seq<Timed<char>>)
    requires g == [[On(100, "C5"), Off(105, "C5")], [On(200, "C7"), Off(205, "C7")], NoEvents] && b == [Timed(135, Marker), Timed(235, Marker)]
    ensures SeparatedBy(g, b)
  {
  }

  /** The expected groups, concatenated, are the scenario's events. */
  lemma SplitByReleaseFlattened(g: seq<seq<Timed<TestEvent>>>)
    requires g == [[On(100, "C5"), Off(105, "C5")], [On(200, "C7"), Off(205, "C7")], NoEvents]
    ensures Flatten(g) == SplitByReleaseEvents()
  {
    assert Flatten(g[3..]) == [];
    assert Flatten(g[2..]) == g[2] + Flatten(g[3..]) by { assert g[2..][1..] == g[3..]; }
    assert Flatten(g[1..]) == g[1] + Flatten(g[2..]) by { assert g[1..][1..] == g[2..]; }
    assert Flatten(g[0..]) == g[0] + Flatten(g[1..]) by { assert g[0..][1..] == g[1..]; }
    assert g[0..] == g;
  }

  lemma SplitByReleaseWindows(g: seq<seq<Timed<TestEvent>>>, b: seq<Timed<char>>)
    requires g == [[On(100, "C5"), Off(105, "C5")], [On(200, "C7"), Off(205, "C7")], NoEvents] && b == [Timed(135, Marker), Timed(235, Marker)]
    ensures Window(SplitByReleaseEvents(), b) == g
  {
    SplitByReleaseSeparated(g, b);
    SplitByReleaseFlattened(g);
    WindowOfSeparated(g, b);
  }

  /** Releases 100 ticks apart: a saving point 30 ticks after each release, giving two groups and the open empty group. */
  lemma SplitByRelease()
    ensures var r := Split(SplitByReleaseEvents(), Delta, TimeoutToSave, DelayToSave);
            && r.heldNotesAndPedals == [Timed(100, 1), Timed(105, 0), Timed(200, 1), Timed(205, 0)]
            && r.heldNotesAndPedalsTimeoutMarkers == NoMarkers
            && r.adjustedHeldNotesAndPedals == [Timed(100, 1), Timed(105, 0), Timed(200, 1), Timed(205, 0)]
            && r.savingPoints == [Timed(135, Marker), Timed(235, Marker)]
            && r.splitGroups == [[On(100, "C5"), Off(105, "C5")], [On(200, "C7"), Off(205, "C7")], NoEvents]
  {
    SplitByReleaseHeld();
    SplitByReleaseTimeouts();
    SplitByReleaseAdjusted();
    SplitByReleaseReleases();
    SplitByReleaseReleasesThrottled();
    SplitByReleaseSavingPoints();
    SplitByReleaseWindows([[On(100, "C5"), Off(105, "C5")], [On(200, "C7"), Off(205, "C7")], NoEvents], [Timed(135, Marker), Timed(235, Marker)]);
  }

  function SplitByHeldNoteEvents(): seq<Timed<TestEvent>> {
    [On(100, "C5"), Off(105, "C5"), On(110, "C6 held"), Off(192, "C6 held"), On(200, "C7"), Off(205, "C7")]
  }

  lemma SplitByHeldNoteClassified()
    ensures Select([On(100, "C5"), Off(105, "C5"), On(110, "C6 held"), Off(192, "C6 held"), On(200, "C7"), Off(205, "C7")], Delta) == [Timed(100, 1), Timed(105, -1), Timed(110, 1), Timed(192, -1), Timed(200, 1), Timed(205, -1)]
  {
  }

  lemma SplitByHeldNoteNonZeroPart1()
    ensures Where([Timed(100, 1), Timed(105, -1), Timed(110, 1), Timed(192, -1)], IsNonZero) == [Timed(100, 1), Timed(105, -1), Timed(110, 1), Timed(192, -1)]
  {
    var s := [Timed(100, 1), Timed(105, -1), Timed(110, 1), Timed(192, -1)];
    assert s[1..] == [Timed(105, -1), Timed(110, 1), Timed(192, -1)];
    assert s[1..][1..] == [Timed(110, 1), Timed(192, -1)];
    assert s[1..][1..][1..] == [Timed(192, -1)];
  }

  lemma SplitByHeldNoteNonZeroPart2()
    ensures Where([Timed(200, 1), Timed(205, -1)], IsNonZero) == [Timed(200, 1), Timed(205, -1)]
  {
    var s := [Timed(200, 1), Timed(205, -1)];
    assert s[1..] == [Timed(205, -1)];
  }

  lemma SplitByHeldNoteNonZero()
    ensures Where([Timed(100, 1), Timed(105, -1), Timed(110, 1), Timed(192, -1), Timed(200, 1), Timed(205, -1)], IsNonZero) == [Timed(100, 1), Timed(105, -1), Timed(110, 1), Timed(192, -1), Timed(200, 1), Timed(205, -1)]
  {
    var s := [Timed(100, 1), Timed(105, -1), Timed(110, 1), Timed(192, -1), Timed(200, 1), Timed(205, -1)];
    var s1 := [Timed(100, 1), Timed(105, -1), Timed(110, 1), Timed(192, -1)];
    var s2 := [Timed(200, 1), Timed(205, -1)];
    assert s == s1 + s2;
    WhereAppend(s1, s2, IsNonZero);
    SplitByHeldNoteNonZeroPart1();
    SplitByHeldNoteNonZeroPart2();
  }

  lemma SplitByHeldNoteCounted()
    ensures ClampedRunningCount([Timed(100, 1), Timed(105, -1), Timed(110, 1), Timed(192, -1), Timed(200, 1), Timed(205, -1)], 0) == [Timed(100, 1), Timed(105, 0), Timed(110, 1), Timed(192, 0), Timed(200, 1), Timed(205, 0)]
  {
    var s := [Timed(100, 1), Timed(105, -1), Timed(110, 1), Timed(192, -1), Timed(200, 1), Timed(205, -1)];
    assert s[1..] == [Timed(105, -1), Timed(110, 1), Timed(192, -1), Timed(200, 1), Timed(205, -1)];
    assert s[1..][1..] == [Timed(110, 1), Timed(192, -1), Timed(200, 1), Timed(205, -1)];
    assert s[1..][1..][1..] == [Timed(192, -1), Timed(200, 1), Timed(205, -1)];
    assert s[1..][1..][1..][1..] == [Timed(200, 1), Timed(205, -1)];
    assert s[1..][1..][1..][1..][1..] == [Timed(205, -1)];
    assert ClampedRunningCount(s[1..][1..][1..][1..][1..], 1) == [Timed(205, 0)];
    assert ClampedRunningCount(s[1..][1..][1..][1..], 0) == [Timed(200, 1), Timed(205, 0)];
    assert ClampedRunningCount(s[1..][1..][1..], 1) == [Timed(192, 0), Timed(200, 1), Timed(205, 0)];
    assert ClampedRunningCount(s[1..][1..], 0) == [Timed(110, 1), Timed(192, 0), Timed(200, 1), Timed(205, 0)];
    assert ClampedRunningCount(s[1..], 1) == [Timed(105, 0), Timed(110, 1), Timed(192, 0), Timed(200, 1), Timed(205, 0)];
  }

  lemma SplitByHeldNoteHeld()
    ensures HeldNotesAndPedals(SplitByHeldNoteEvents(), Delta) == [Timed(100, 1), Timed(105, 0), Timed(110, 1), Timed(192, 0), Timed(200, 1), Timed(205, 0)]
  {
    SplitByHeldNoteClassified();
    SplitByHeldNoteNonZero();
    SplitByHeldNoteCounted();
  }

  lemma SplitByHeldNoteHeldThrottled()
    ensures Throttle([Timed(100, 1), Timed(105, 0), Timed(110, 1), Timed(192, 0), Timed(200, 1), Timed(205, 0)], TimeoutToSave) == [Timed(130, 1), Timed(225, 0)]
  {
    var s := [Timed(100, 1), Timed(105, 0), Timed(110, 1), Timed(192, 0), Timed(200, 1), Timed(205, 0)];
    assert s[1..] == [Timed(105, 0), Timed(110, 1), Timed(192, 0), Timed(200, 1), Timed(205, 0)];
    assert s[1..][1..] == [Timed(110, 1), Timed(192, 0), Timed(200, 1), Timed(205, 0)];
    assert s[1..][1..][1..] == [Timed(192, 0), Timed(200, 1), Timed(205, 0)];
    assert s[1..][1..][1..][1..] == [Timed(200, 1), Timed(205, 0)];
    assert s[1..][1..][1..][1..][1..] == [Timed(205, 0)];
    assert Throttle(s[1..][1..][1..][1..][1..], TimeoutToSave) == [Timed(225, 0)];
    assert Throttle(s[1..][1..][1..][1..], TimeoutToSave) == [Timed(225, 0)];
    assert Throttle(s[1..][1..][1..], TimeoutToSave) == [Timed(225, 0)];
    assert Throttle(s[1..][1..], TimeoutToSave) == [Timed(130, 1), Timed(225, 0)];
    assert Throttle(s[1..], TimeoutToSave) == [Timed(130, 1), Timed(225, 0)];
  }

  lemma SplitByHeldNoteHeldPositive()
    ensures Where([Timed(130, 1), Timed(225, 0)], IsPositive) == [Timed(130, 1)]
  {
    var s := [Timed(130, 1), Timed(225, 0)];
    assert s[1..] == [Timed(225, 0)];
    assert Where(s[1..], IsPositive) == NoCounts;
  }

  lemma SplitByHeldNoteTimeoutMarked()
    ensures Select([Timed(130, 1)], ToMarker) == [Timed(130, Marker)]
  {
  }

  lemma SplitByHeldNoteTimeouts()
    ensures TimeoutMarkers([Timed(100, 1), Timed(105, 0), Timed(110, 1), Timed(192, 0), Timed(200, 1), Timed(205, 0)], TimeoutToSave) == [Timed(130, Marker)]
  {
    SplitByHeldNoteHeldThrottled();
    SplitByHeldNoteHeldPositive();
    SplitByHeldNoteTimeoutMarked();
  }

  lemma SplitByHeldNoteZeros()
    ensures Select([Timed(130, Marker)], ToZero) == [Timed(130, 0)]
  {
  }

  lemma SplitByHeldNoteMerged()
    ensures Merge([Timed(100, 1), Timed(105, 0), Timed(110, 1), Timed(192, 0), Timed(200, 1), Timed(205, 0)], [Timed(130, 0)]) == [Timed(100, 1), Timed(105, 0), Timed(110, 1), Timed(130, 0), Timed(192, 0), Timed(200, 1), Timed(205, 0)]
  {
    var a1 := [Timed(100, 1), Timed(105, 0), Timed(110, 1)];
    var a2 := [Timed(192, 0), Timed(200, 1), Timed(205, 0)];
    var b := [Timed(130, 0)];
    assert [Timed(100, 1), Timed(105, 0), Timed(110, 1), Timed(192, 0), Timed(200, 1), Timed(205, 0)] == a1 + a2;
    MergePrefix(a1, a2, b);
    assert a2[1..] == [Timed(200, 1), Timed(205, 0)];
    assert a2[1..][1..] == [Timed(205, 0)];
    assert Merge(a2[1..][1..], b[1..]) == [Timed(205, 0)];
    assert Merge(a2[1..], b[1..]) == [Timed(200, 1), Timed(205, 0)];
    assert Merge(a2, b[1..]) == [Timed(192, 0), Timed(200, 1), Timed(205, 0)];
    assert Merge(a2, b) == [Timed(130, 0), Timed(192, 0), Timed(200, 1), Timed(205, 0)];
  }

  lemma SplitByHeldNoteDistinct()
    ensures DistinctAfter([Timed(100, 1), Timed(105, 0), Timed(110, 1), Timed(130, 0), Timed(192, 0), Timed(200, 1), Timed(205, 0)], None) == [Timed(100, 1), Timed(105, 0), Timed(110, 1), Timed(130, 0), Timed(200, 1), Timed(205, 0)]
  {
    var s := [Timed(100, 1), Timed(105, 0), Timed(110, 1), Timed(130, 0), Timed(192, 0), Timed(200, 1), Timed(205, 0)];
    assert s[1..] == [Timed(105, 0), Timed(110, 1), Timed(130, 0), Timed(192, 0), Timed(200, 1), Timed(205, 0)];
    assert s[1..][1..] == [Timed(110, 1), Timed(130, 0), Timed(192, 0), Timed(200, 1), Timed(205, 0)];
    assert s[1..][1..][1..] == [Timed(130, 0), Timed(192, 0), Timed(200, 1), Timed(205, 0)];
    assert s[1..][1..][1..][1..] == [Timed(192, 0), Timed(200, 1), Timed(205, 0)];
    assert s[1..][1..][1..][1..][1..] == [Timed(200, 1), Timed(205, 0)];
    assert s[1..][1..][1..][1..][1..][1..] == [Timed(205, 0)];
    assert DistinctAfter(s[1..][1..][1..][1..][1..][1..], Some(1)) == [Timed(205, 0)];
    assert DistinctAfter(s[1..][1..][1..][1..][1..], Some(0)) == [Timed(200, 1), Timed(205, 0)];
    assert DistinctAfter(s[1..][1..][1..][1..], Some(0)) == [Timed(200, 1), Timed(205, 0)];
    assert DistinctAfter(s[1..][1..][1..], Some(1)) == [Timed(130, 0), Timed(200, 1), Timed(205, 0)];
    assert DistinctAfter(s[1..][1..], Some(0)) == [Timed(110, 1), Timed(130, 0), Timed(200, 1), Timed(205, 0)];
    assert DistinctAfter(s[1..], Some(1)) == [Timed(105, 0), Timed(110, 1), Timed(130, 0), Timed(200, 1), Timed(205, 0)];
  }

  lemma SplitByHeldNoteAdjusted()
    ensures AdjustedHeldNotesAndPedals([Timed(100, 1), Timed(105, 0), Timed(110, 1), Timed(192, 0), Timed(200, 1), Timed(205, 0)], [Timed(130, Marker)]) == [Timed(100, 1), Timed(105, 0), Timed(110, 1), Timed(130, 0), Timed(200, 1), Timed(205, 0)]
  {
    SplitByHeldNoteZeros();
    SplitByHeldNoteMerged();
    SplitByHeldNoteDistinct();
  }

  lemma SplitByHeldNoteAdjustedZeros()
    ensures Where([Timed(100, 1), Timed(105, 0), Timed(110, 1), Timed(130, 0), Timed(200, 1), Timed(205, 0)], IsZero) == [Timed(105, 0), Timed(130, 0), Timed(205, 0)]
  {
    var s := [Timed(100, 1), Timed(105, 0), Timed(110, 1), Timed(130, 0), Timed(200, 1), Timed(205, 0)];
    assert s[1..] == [Timed(105, 0), Timed(110, 1), Timed(130, 0), Timed(200, 1), Timed(205, 0)];
    assert s[1..][1..] == [Timed(110, 1), Timed(130, 0), Timed(200, 1), Timed(205, 0)];
    assert s[1..][1..][1..] == [Timed(130, 0), Timed(200, 1), Timed(205, 0)];
    assert s[1..][1..][1..][1..] == [Timed(200, 1), Timed(205, 0)];
    assert s[1..][1..][1..][1..][1..] == [Timed(205, 0)];
    assert Where(s[1..][1..][1..][1..][1..], IsZero) == [Timed(205, 0)];
    assert Where(s[1..][1..][1..][1..], IsZero) == [Timed(205, 0)];
    assert Where(s[1..][1..][1..], IsZero) == [Timed(130, 0), Timed(205, 0)];
    assert Where(s[1..][1..], IsZero) == [Timed(130, 0), Timed(205, 0)];
    assert Where(s[1..], IsZero) == [Timed(105, 0), Timed(130, 0), Timed(205, 0)];
  }

  lemma SplitByHeldNoteReleaseMarked()
    ensures Select([Timed(105, 0), Timed(130, 0), Timed(205, 0)], ToMarker) == [Timed(105, Marker), Timed(130, Marker), Timed(205, Marker)]
  {
  }

  lemma SplitByHeldNoteReleases()
    ensures AdjustedReleaseMarkers([Timed(100, 1), Timed(105, 0), Timed(110, 1), Timed(130, 0), Timed(200, 1), Timed(205, 0)]) == [Timed(105, Marker), Timed(130, Marker), Timed(205, Marker)]
  {
    SplitByHeldNoteAdjustedZeros();
    SplitByHeldNoteReleaseMarked();
  }

  lemma SplitByHeldNoteReleasesThrottled()
    ensures Throttle([Timed(105, Marker), Timed(130, Marker), Timed(205, Marker)], DelayToSave) == [Timed(160, Marker), Timed(235, Marker)]
  {
    var s := [Timed(105, Marker), Timed(130, Marker), Timed(205, Marker)];
    assert s[1..] == [Timed(130, Marker), Timed(205, Marker)];
    assert s[1..][1..] == [Timed(205, Marker)];
    assert Throttle(s[1..][1..], DelayToSave) == [Timed(235, Marker)];
    assert Throttle(s[1..], DelayToSave) == [Timed(160, Marker), Timed(235, Marker)];
  }

  lemma SplitByHeldNoteSavingPoints()
    ensures SavingPoints([Timed(130, Marker)], [Timed(160, Marker), Timed(235, Marker)]) == [Timed(130, Marker), Timed(160, Marker), Timed(235, Marker)]
  {
    var a := [Timed(130, Marker)];
    var b := [Timed(160, Marker), Timed(235, Marker)];
    assert b[1..] == [Timed(235, Marker)];
    assert Merge(a[1..], b[1..]) == [Timed(235, Marker)];
    assert Merge(a[1..], b) == [Timed(160, Marker), Timed(235, Marker)];
  }

  /** The expected groups lie between the saving points. */
  lemma SplitByHeldNoteSeparated(g: seq<seq<Timed<TestEvent>>>, b: seq<Timed<char>>)
    requires g == [[On(100, "C5"), Off(105, "C5"), On(110, "C6 held")], NoEvents, [Off(192, "C6 held"), On(200, "C7"), Off(205, "C7")], NoEvents] && b == [Timed(130, Marker), Timed(160, Marker), Timed(235, Marker)]
    ensures SeparatedBy(g, b)
  {
  }

  /** The expected groups, concatenated, are the scenario's events. */
  lemma SplitByHeldNoteFlattened(g: seq<seq<Timed<TestEvent>>>)
    requires g == [[On(100, "C5"), Off(105, "C5"), On(110, "C6 held")], NoEvents, [Off(192, "C6 held"), On(200, "C7"), Off(205, "C7")], NoEvents]
    ensures Flatten(g) == SplitByHeldNoteEvents()
  {
    assert Flatten(g[4..]) == [];
    assert Flatten(g[3..]) == g[3] + Flatten(g[4..]) by { assert g[3..][1..] == g[4..]; }
    assert Flatten(g[2..]) == g[2] + Flatten(g[3..]) by { assert g[2..][1..] == g[3..]; }
    assert Flatten(g[1..]) == g[1] + Flatten(g[2..]) by { assert g[1..][1..] == g[2..]; }
    assert Flatten(g[0..]) == g[0] + Flatten(g[1..]) by { assert g[0..][1..] == g[1..]; }
    assert g[0..] == g;
  }

  lemma SplitByHeldNoteWindows(g: seq<seq<Timed<TestEvent>>>, b: seq<Timed<char>>)
    requires g == [[On(100, "C5"), Off(105, "C5"), On(110, "C6 held")], NoEvents, [Off(192, "C6 held"), On(200, "C7"), Off(205, "C7")], NoEvents] && b == [Timed(130, Marker), Timed(160, Marker), Timed(235, Marker)]
    ensures Window(SplitByHeldNoteEvents(), b) == g
  {
    SplitByHeldNoteSeparated(g, b);
    SplitByHeldNoteFlattened(g);
    WindowOfSeparated(g, b);
  }

  /** A note held for 82 ticks: the timeout closes the first group at 130, the injected 0 yields a release saving point at 160, so an empty group lies between them. */
  lemma SplitByHeldNote()
    ensures var r := Split(SplitByHeldNoteEvents(), Delta, TimeoutToSave, DelayToSave);
            && r.heldNotesAndPedals == [Timed(100, 1), Timed(105, 0), Timed(110, 1), Timed(192, 0), Timed(200, 1), Timed(205, 0)]
            && r.heldNotesAndPedalsTimeoutMarkers == [Timed(130, Marker)]
            && r.adjustedHeldNotesAndPedals == [Timed(100, 1), Timed(105, 0), Timed(110, 1), Timed(130, 0), Timed(200, 1), Timed(205, 0)]
            && r.savingPoints == [Timed(130, Marker), Timed(160, Marker), Timed(235, Marker)]
            && r.splitGroups == [[On(100, "C5"), Off(105, "C5"), On(110, "C6 held")], NoEvents, [Off(192, "C6 held"), On(200, "C7"), Off(205, "C7")], NoEvents]
  {
    SplitByHeldNoteHeld();
    SplitByHeldNoteTimeouts();
    SplitByHeldNoteAdjusted();
    SplitByHeldNoteReleases();
    SplitByHeldNoteReleasesThrottled();
    SplitByHeldNoteSavingPoints();
    SplitByHeldNoteWindows([[On(100, "C5"), Off(105, "C5"), On(110, "C6 held")], NoEvents, [Off(192, "C6 held"), On(200, "C7"), Off(205, "C7")], NoEvents], [Timed(130, Marker), Timed(160, Marker), Timed(235, Marker)]);
  }

  function OtherEventsKeptEvents(): seq<Timed<TestEvent>> {
    [On(100, "C5"), Other(103), Off(105, "C5"), Other(110), Other(120), Other(130), Other(140), Other(150), Other(160), On(200, "C7"), Other(202), Off(205, "C7")]
  }

  lemma OtherEventsKeptClassified(s: seq<Timed<TestEvent>>)
    requires s == [On(100, "C5"), Other(103), Off(105, "C5"), Other(110), Other(120), Other(130), Other(140), Other(150), Other(160), On(200, "C7"), Other(202), Off(205, "C7")]
    ensures Select(s, Delta) == [Timed(100, 1), Timed(103, 0), Timed(105, -1), Timed(110, 0), Timed(120, 0), Timed(130, 0), Timed(140, 0), Timed(150, 0), Timed(160, 0), Timed(200, 1), Timed(202, 0), Timed(205, -1)]
  {
  }

  lemma OtherEventsKeptNonZeroPart1()
    ensures Where([Timed(100, 1), Timed(103, 0), Timed(105, -1), Timed(110, 0)], IsNonZero) == [Timed(100, 1), Timed(105, -1)]
  {
    var s := [Timed(100, 1), Timed(103, 0), Timed(105, -1), Timed(110, 0)];
    assert s[1..] == [Timed(103, 0), Timed(105, -1), Timed(110, 0)];
    assert s[1..][1..] == [Timed(105, -1), Timed(110, 0)];
    assert s[1..][1..][1..] == [Timed(110, 0)];
  }

  lemma OtherEventsKeptNonZeroPart2()
    ensures Where([Timed(120, 0), Timed(130, 0), Timed(140, 0), Timed(150, 0)], IsNonZero) == NoCounts
  {
    var s := [Timed(120, 0), Timed(130, 0), Timed(140, 0), Timed(150, 0)];
    assert s[1..] == [Timed(130, 0), Timed(140, 0), Timed(150, 0)];
    assert s[1..][1..] == [Timed(140, 0), Timed(150, 0)];
    assert s[1..][1..][1..] == [Timed(150, 0)];
  }

  lemma OtherEventsKeptNonZeroPart3()
    ensures Where([Timed(160, 0), Timed(200, 1), Timed(202, 0), Timed(205, -1)], IsNonZero) == [Timed(200, 1), Timed(205, -1)]
  {
    var s := [Timed(160, 0), Timed(200, 1), Timed(202, 0), Timed(205, -1)];
    assert s[1..] == [Timed(200, 1), Timed(202, 0), Timed(205, -1)];
    assert s[1..][1..] == [Timed(202, 0), Timed(205, -1)];
    assert s[1..][1..][1..] == [Timed(205, -1)];
  }

  lemma OtherEventsKeptNonZero()
    ensures Where([Timed(100, 1), Timed(103, 0), Timed(105, -1), Timed(110, 0), Timed(120, 0), Timed(130, 0), Timed(140, 0), Timed(150, 0), Timed(160, 0), Timed(200, 1), Timed(202, 0), Timed(205, -1)], IsNonZero) == [Timed(100, 1), Timed(105, -1), Timed(200, 1), Timed(205, -1)]
  {
    var s := [Timed(100, 1), Timed(103, 0), Timed(105, -1), Timed(110, 0), Timed(120, 0), Timed(130, 0), Timed(140, 0), Timed(150, 0), Timed(160, 0), Timed(200, 1), Timed(202, 0), Timed(205, -1)];
    var s1 := [Timed(100, 1), Timed(103, 0), Timed(105, -1), Timed(110, 0)];
    var s2 := [Timed(120, 0), Timed(130, 0), Timed(140, 0), Timed(150, 0)];
    var s3 := [Timed(160, 0), Timed(200, 1), Timed(202, 0), Timed(205, -1)];
    assert s == s1 + s2 + s3;
    WhereAppend(s1 + s2, s3, IsNonZero);
    WhereAppend(s1, s2, IsNonZero);
    OtherEventsKeptNonZeroPart1();
    OtherEventsKeptNonZeroPart2();
    OtherEventsKeptNonZeroPart3();
  }

  lemma OtherEventsKeptCounted()
    ensures ClampedRunningCount([Timed(100, 1), Timed(105, -1), Timed(200, 1), Timed(205, -1)], 0) == [Timed(100, 1), Timed(105, 0), Timed(200, 1), Timed(205, 0)]
  {
    var s := [Timed(100, 1), Timed(105, -1), Timed(200, 1), Timed(205, -1)];
    assert s[1..] == [Timed(105, -1), Timed(200, 1), Timed(205, -1)];
    assert s[1..][1..] == [Timed(200, 1), Timed(205, -1)];
    assert s[1..][1..][1..] == [Timed(205, -1)];
    assert ClampedRunningCount(s[1..][1..][1..], 1) == [Timed(205, 0)];
    assert ClampedRunningCount(s[1..][1..], 0) == [Timed(200, 1), Timed(205, 0)];
    assert ClampedRunningCount(s[1..], 1) == [Timed(105, 0), Timed(200, 1), Timed(205, 0)];
  }

  lemma OtherEventsKeptHeld()
    ensures HeldNotesAndPedals(OtherEventsKeptEvents(), Delta) == [Timed(100, 1), Timed(105, 0), Timed(200, 1), Timed(205, 0)]
  {
    OtherEventsKeptClassified(OtherEventsKeptEvents());
    OtherEventsKeptNonZero();
    OtherEventsKeptCounted();
  }

  /** The expected groups lie between the saving points. */
  lemma OtherEventsKeptSeparated(g: seq<seq<Timed<TestEvent>>>, b: seq<Timed<char>>)
    requires g == [[On(100, "C5"), Other(103), Off(105, "C5"), Other(110), Other(120), Other(130)], [Other(140), Other(150), Other(160), On(200, "C7"), Other(202), Off(205, "C7")], NoEvents] && b == [Timed(135, Marker), Timed(235, Marker)]
    ensures SeparatedBy(g, b)
  {
    forall x | x in g[0] ensures x.time <= 135 {
      var i :| 0 <= i < 6 && g[0][i] == x;
    }
    forall x | x in g[1] ensures 135 < x.time <= 235 {
      var i :| 0 <= i < 6 && g[1][i] == x;
    }
  }

  /** The expected groups, concatenated, are the scenario's events. */
  lemma OtherEventsKeptFlattened(g: seq<seq<Timed<TestEvent>>>)
    requires g == [[On(100, "C5"), Other(103), Off(105, "C5"), Other(110), Other(120), Other(130)], [Other(140), Other(150), Other(160), On(200, "C7"), Other(202), Off(205, "C7")], NoEvents]
    ensures Flatten(g) == OtherEventsKeptEvents()
  {
    assert Flatten(g[3..]) == [];
    assert Flatten(g[2..]) == g[2] + Flatten(g[3..]) by { assert g[2..][1..] == g[3..]; }
    assert Flatten(g[1..]) == g[1] + Flatten(g[2..]) by { assert g[1..][1..] == g[2..]; }
    assert Flatten(g[0..]) == g[0] + Flatten(g[1..]) by { assert g[0..][1..] == g[1..]; }
    assert g[0..] == g;
  }

  lemma OtherEventsKeptWindows(g: seq<seq<Timed<TestEvent>>>, b: seq<Timed<char>>)
    requires g == [[On(100, "C5"), Other(103), Off(105, "C5"), Other(110), Other(120), Other(130)], [Other(140), Other(150), Other(160), On(200, "C7"), Other(202), Off(205, "C7")], NoEvents] && b == [Timed(135, Marker), Timed(235, Marker)]
    ensures Window(OtherEventsKeptEvents(), b) == g
  {
    OtherEventsKeptSeparated(g, b);
    OtherEventsKeptFlattened(g);
    WindowOfSeparated(g, b);
  }

  /** Events with a zero delta do not move the saving points (the held counts are those of the split-by-release scenario), yet each stays, unchanged and in order, in its group. */
  lemma OtherEventsKept()
    ensures var r := Split(OtherEventsKeptEvents(), Delta, TimeoutToSave, DelayToSave);
            && r.heldNotesAndPedals == [Timed(100, 1), Timed(105, 0), Timed(200, 1), Timed(205, 0)]
            && r.heldNotesAndPedalsTimeoutMarkers == NoMarkers
            && r.adjustedHeldNotesAndPedals == [Timed(100, 1), Timed(105, 0), Timed(200, 1), Timed(205, 0)]
            && r.savingPoints == [Timed(135, Marker), Timed(235, Marker)]
            && r.splitGroups == [[On(100, "C5"), Other(103), Off(105, "C5"), Other(110), Other(120), Other(130)], [Other(140), Other(150), Other(160), On(200, "C7"), Other(202), Off(205, "C7")], NoEvents]
  {
    OtherEventsKeptHeld();
    SplitByReleaseTimeouts();
    SplitByReleaseAdjusted();
    SplitByReleaseReleases();
    SplitByReleaseReleasesThrottled();
    SplitByReleaseSavingPoints();
    OtherEventsKeptWindows([[On(100, "C5"), Other(103), Off(105, "C5"), Other(110), Other(120), Other(130)], [Other(140), Other(150), Other(160), On(200, "C7"), Other(202), Off(205, "C7")], NoEvents], [Timed(135, Marker), Timed(235, Marker)]);
  }

  // ---------------------------------------------------------------------------
  // A timeout zero exactly delayToSave after a release

  function TimerTieEvents(): seq<Timed<TestEvent>> {
    [On(100, "C5"), Off(105, "C5"), On(115, "C6 held"), Off(300, "C6 held")]
  }

  lemma TimerTieClassified()
    ensures Select([On(100, "C5"), Off(105, "C5"), On(115, "C6 held"), Off(300, "C6 held")], Delta) == [Timed(100, 1), Timed(105, -1), Timed(115, 1), Timed(300, -1)]
  {
  }

  lemma TimerTieNonZero()
    ensures Where([Timed(100, 1), Timed(105, -1), Timed(115, 1), Timed(300, -1)], IsNonZero) == [Timed(100, 1), Timed(105, -1), Timed(115, 1), Timed(300, -1)]
  {
    var s := [Timed(100, 1), Timed(105, -1), Timed(115, 1), Timed(300, -1)];
    assert s[1..] == [Timed(105, -1), Timed(115, 1), Timed(300, -1)];
    assert s[1..][1..] == [Timed(115, 1), Timed(300, -1)];
    assert s[1..][1..][1..] == [Timed(300, -1)];
    assert Where(s[1..][1..][1..], IsNonZero) == [Timed(300, -1)];
    assert Where(s[1..][1..], IsNonZero) == [Timed(115, 1), Timed(300, -1)];
    assert Where(s[1..], IsNonZero) == [Timed(105, -1), Timed(115, 1), Timed(300, -1)];
  }

  lemma TimerTieCounted()
    ensures ClampedRunningCount([Timed(100, 1), Timed(105, -1), Timed(115, 1), Timed(300, -1)], 0) == [Timed(100, 1), Timed(105, 0), Timed(115, 1), Timed(300, 0)]
  {
    var s := [Timed(100, 1), Timed(105, -1), Timed(115, 1), Timed(300, -1)];
    assert s[1..] == [Timed(105, -1), Timed(115, 1), Timed(300, -1)];
    assert s[1..][1..] == [Timed(115, 1), Timed(300, -1)];
    assert s[1..][1..][1..] == [Timed(300, -1)];
    assert ClampedRunningCount(s[1..][1..][1..], 1) == [Timed(300, 0)];
    assert ClampedRunningCount(s[1..][1..], 0) == [Timed(115, 1), Timed(300, 0)];
    assert ClampedRunningCount(s[1..], 1) == [Timed(105, 0), Timed(115, 1), Timed(300, 0)];
  }

  lemma TimerTieHeld()
    ensures HeldNotesAndPedals(TimerTieEvents(), Delta) == [Timed(100, 1), Timed(105, 0), Timed(115, 1), Timed(300, 0)]
  {
    TimerTieClassified();
    TimerTieNonZero();
    TimerTieCounted();
  }

  lemma TimerTieHeldThrottled()
    ensures Throttle([Timed(100, 1), Timed(105, 0), Timed(115, 1), Timed(300, 0)], TimeoutToSave) == [Timed(135, 1), Timed(320, 0)]
  {
    var s := [Timed(100, 1), Timed(105, 0), Timed(115, 1), Timed(300, 0)];
    assert s[1..] == [Timed(105, 0), Timed(115, 1), Timed(300, 0)];
    assert s[1..][1..] == [Timed(115, 1), Timed(300, 0)];
    assert s[1..][1..][1..] == [Timed(300, 0)];
    assert Throttle(s[1..][1..][1..], TimeoutToSave) == [Timed(320, 0)];
    assert Throttle(s[1..][1..], TimeoutToSave) == [Timed(135, 1), Timed(320, 0)];
    assert Throttle(s[1..], TimeoutToSave) == [Timed(135, 1), Timed(320, 0)];
  }

  lemma TimerTieHeldPositive()
    ensures Where([Timed(135, 1), Timed(320, 0)], IsPositive) == [Timed(135, 1)]
  {
    var s := [Timed(135, 1), Timed(320, 0)];
    assert s[1..] == [Timed(320, 0)];
    assert Where(s[1..], IsPositive) == NoCounts;
  }

  lemma TimerTieTimeoutMarked()
    ensures Select([Timed(135, 1)], ToMarker) == [Timed(135, Marker)]
  {
  }

  lemma TimerTieTimeouts()
    ensures TimeoutMarkers([Timed(100, 1), Timed(105, 0), Timed(115, 1), Timed(300, 0)], TimeoutToSave) == [Timed(135, Marker)]
  {
    TimerTieHeldThrottled();
    TimerTieHeldPositive();
    TimerTieTimeoutMarked();
  }

  lemma TimerTieZeros()
    ensures Select([Timed(135, Marker)], ToZero) == [Timed(135, 0)]
  {
  }

  lemma TimerTieMerged()
    ensures Merge([Timed(100, 1), Timed(105, 0), Timed(115, 1), Timed(300, 0)], [Timed(135, 0)]) == [Timed(100, 1), Timed(105, 0), Timed(115, 1), Timed(135, 0), Timed(300, 0)]
  {
    var a1 := [Timed(100, 1), Timed(105, 0), Timed(115, 1)];
    var a2 := [Timed(300, 0)];
    var b := [Timed(135, 0)];
    assert [Timed(100, 1), Timed(105, 0), Timed(115, 1), Timed(300, 0)] == a1 + a2;
    MergePrefix(a1, a2, b);
    assert Merge(a2, b[1..]) == [Timed(300, 0)];
    assert Merge(a2, b) == [Timed(135, 0), Timed(300, 0)];
  }

  lemma TimerTieDistinct()
    ensures DistinctAfter([Timed(100, 1), Timed(105, 0), Timed(115, 1), Timed(135, 0), Timed(300, 0)], None) == [Timed(100, 1), Timed(105, 0), Timed(115, 1), Timed(135, 0)]
  {
    var s := [Timed(100, 1), Timed(105, 0), Timed(115, 1), Timed(135, 0), Timed(300, 0)];
    assert s[1..] == [Timed(105, 0), Timed(115, 1), Timed(135, 0), Timed(300, 0)];
    assert s[1..][1..] == [Timed(115, 1), Timed(135, 0), Timed(300, 0)];
    assert s[1..][1..][1..] == [Timed(135, 0), Timed(300, 0)];
    assert s[1..][1..][1..][1..] == [Timed(300, 0)];
    assert DistinctAfter(s[1..][1..][1..][1..], Some(0)) == [];
    assert DistinctAfter(s[1..][1..][1..], Some(1)) == [Timed(135, 0)];
    assert DistinctAfter(s[1..][1..], Some(0)) == [Timed(115, 1), Timed(135, 0)];
    assert DistinctAfter(s[1..], Some(1)) == [Timed(105, 0), Timed(115, 1), Timed(135, 0)];
  }

  lemma TimerTieAdjusted()
    ensures AdjustedHeldNotesAndPedals([Timed(100, 1), Timed(105, 0), Timed(115, 1), Timed(300, 0)], [Timed(135, Marker)]) == [Timed(100, 1), Timed(105, 0), Timed(115, 1), Timed(135, 0)]
  {
    TimerTieZeros();
    TimerTieMerged();
    TimerTieDistinct();
  }

  lemma TimerTieAdjustedZeros()
    ensures Where([Timed(100, 1), Timed(105, 0), Timed(115, 1), Timed(135, 0)], IsZero) == [Timed(105, 0), Timed(135, 0)]
  {
    var s := [Timed(100, 1), Timed(105, 0), Timed(115, 1), Timed(135, 0)];
    assert s[1..] == [Timed(105, 0), Timed(115, 1), Timed(135, 0)];
    assert s[1..][1..] == [Timed(115, 1), Timed(135, 0)];
    assert s[1..][1..][1..] == [Timed(135, 0)];
    assert Where(s[1..][1..][1..], IsZero) == [Timed(135, 0)];
    assert Where(s[1..][1..], IsZero) == [Timed(135, 0)];
    assert Where(s[1..], IsZero) == [Timed(105, 0), Timed(135, 0)];
  }

  lemma TimerTieReleaseMarked()
    ensures Select([Timed(105, 0), Timed(135, 0)], ToMarker) == [Timed(105, Marker), Timed(135, Marker)]
  {
  }

  lemma TimerTieReleases()
    ensures AdjustedReleaseMarkers([Timed(100, 1), Timed(105, 0), Timed(115, 1), Timed(135, 0)]) == [Timed(105, Marker), Timed(135, Marker)]
  {
    TimerTieAdjustedZeros();
    TimerTieReleaseMarked();
  }

  /** The release at 105 is cancelled by the timeout zero at 135, exactly
      DelayToSave later. */
  lemma TimerTieReleasesThrottled()
    ensures Throttle([Timed(105, Marker), Timed(135, Marker)], DelayToSave) == [Timed(165, Marker)]
  {
    var s := [Timed(105, Marker), Timed(135, Marker)];
    assert s[1..] == [Timed(135, Marker)];
    assert Throttle(s[1..], DelayToSave) == [Timed(165, Marker)];
    assert !Quiesces(s, 0, DelayToSave);
  }

  lemma TimerTieSavingPoints()
    ensures SavingPoints([Timed(135, Marker)], [Timed(165, Marker)]) == [Timed(135, Marker), Timed(165, Marker)]
  {
    var a := [Timed(135, Marker)];
    var b := [Timed(165, Marker)];
    assert Merge(a[1..], b) == [Timed(165, Marker)];
  }

  /** The expected groups lie between the saving points. */
  lemma TimerTieSeparated(g: seq<seq<Timed<TestEvent>>>, b: seq<Timed<char>>)
    requires g == [[On(100, "C5"), Off(105, "C5"), On(115, "C6 held")], NoEvents, [Off(300, "C6 held")]] && b == [Timed(135, Marker), Timed(165, Marker)]
    ensures SeparatedBy(g, b)
  {
  }

  /** The expected groups, concatenated, are the scenario's events. */
  lemma TimerTieFlattened(g: seq<seq<Timed<TestEvent>>>)
    requires g == [[On(100, "C5"), Off(105, "C5"), On(115, "C6 held")], NoEvents, [Off(300, "C6 held")]]
    ensures Flatten(g) == TimerTieEvents()
  {
    assert Flatten(g[3..]) == [];
    assert Flatten(g[2..]) == g[2] + Flatten(g[3..]) by { assert g[2..][1..] == g[3..]; }
    assert Flatten(g[1..]) == g[1] + Flatten(g[2..]) by { assert g[1..][1..] == g[2..]; }
    assert Flatten(g[0..]) == g[0] + Flatten(g[1..]) by { assert g[0..][1..] == g[1..]; }
    assert g[0..] == g;
  }

  lemma TimerTieWindows(g: seq<seq<Timed<TestEvent>>>, b: seq<Timed<char>>)
    requires g == [[On(100, "C5"), Off(105, "C5"), On(115, "C6 held")], NoEvents, [Off(300, "C6 held")]] && b == [Timed(135, Marker), Timed(165, Marker)]
    ensures Window(TimerTieEvents(), b) == g
  {
    TimerTieSeparated(g, b);
    TimerTieFlattened(g);
    WindowOfSeparated(g, b);
  }

  /** The timeout marker at 135 injects a 0 exactly DelayToSave after the
      release at 105.  The model lets that 0 cancel the pending release, so it
      gives two saving points and three groups; the scheduler fires the release
      throttle's timer first and adds a third saving point at 135. */
  lemma TimerTie()
    ensures var r := Split(TimerTieEvents(), Delta, TimeoutToSave, DelayToSave);
            && r.heldNotesAndPedals == [Timed(100, 1), Timed(105, 0), Timed(115, 1), Timed(300, 0)]
            && r.heldNotesAndPedalsTimeoutMarkers == [Timed(135, Marker)]
            && r.adjustedHeldNotesAndPedals == [Timed(100, 1), Timed(105, 0), Timed(115, 1), Timed(135, 0)]
            && r.globalReleaseSavingPoints == [Timed(165, Marker)]
            && r.savingPoints == [Timed(135, Marker), Timed(165, Marker)]
            && r.splitGroups == [[On(100, "C5"), Off(105, "C5"), On(115, "C6 held")], NoEvents, [Off(300, "C6 held")]]
  {
    TimerTieHeld();
    TimerTieTimeouts();
    TimerTieAdjusted();
    TimerTieReleases();
    TimerTieReleasesThrottled();
    TimerTieSavingPoints();
    TimerTieWindows([[On(100, "C5"), Off(105, "C5"), On(115, "C6 held")], NoEvents, [Off(300, "C6 held")]], [Timed(135, Marker), Timed(165, Marker)]);
  }
}
