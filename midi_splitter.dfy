/** The take splitter: decides where a live MIDI stream is cut into separate
    takes.  Every stage of MidiSplitter<TMidiEvent>.Split is a function of the
    finite, time-stamped event list, the classifier and the two durations. */
module MidiSplitter {
  import opened Wrappers
  import opened TimedStreams

  /** The payload of every marker stream. */
  const Marker: char := 'm'

  /** Every intermediate stream the splitter exposes, as the source's MidiSplit does. */
  datatype MidiSplit<E> = MidiSplit(
    heldNotesAndPedals: seq<Timed<int>>,
    heldNotesAndPedalsTimeoutMarkers: seq<Timed<char>>,
    adjustedHeldNotesAndPedals: seq<Timed<int>>,
    adjustedReleaseMarkers: seq<Timed<char>>,
    globalReleaseSavingPoints: seq<Timed<char>>,
    savingPoints: seq<Timed<char>>,
    splitGroups: seq<seq<Timed<E>>>)

  predicate IsNonZero(x: int) { x != 0 }
  predicate IsZero(x: int) { x == 0 }
  predicate IsPositive(x: int) { x > 0 }
  function ToZero(c: char): int { 0 }
  function ToMarker<T>(x: T): char { Marker }

  // ---------------------------------------------------------------------------
  // Held notes and pedals

  /** Scan(acc, (accum, n) => max(0, accum + n)) over a stream of deltas. */
  function ClampedRunningCount(deltas: seq<Timed<int>>, acc: int): (r: seq<Timed<int>>)
    ensures |r| == |deltas|
  {
    if deltas == [] then []
    else
      var next := if acc + deltas[0].value < 0 then 0 else acc + deltas[0].value;
      [Timed(deltas[0].time, next)] + ClampedRunningCount(deltas[1..], next)
  }

  /** The non-zero deltas of the events, at the events' times. */
  function HeldDeltas<E>(allEvents: seq<Timed<E>>, count: E -> int): seq<Timed<int>> {
    Where(Select(allEvents, count), IsNonZero)
  }

  /** How many notes and sustain pedals are held: a running count, starting at 0,
      updated at every event whose delta is not zero. */
  function HeldNotesAndPedals<E>(allEvents: seq<Timed<E>>, count: E -> int): seq<Timed<int>> {
    ClampedRunningCount(HeldDeltas(allEvents, count), 0)
  }

  /** Each count value is the previous one (or acc) plus the delta, clamped at 0. */
  lemma {:induction false} ClampedRunningCountStep(deltas: seq<Timed<int>>, acc: int, i: nat)
    requires i < |deltas|
    ensures var r := ClampedRunningCount(deltas, acc);
            var prev := if i == 0 then acc else r[i - 1].value;
            r[i] == Timed(deltas[i].time, if prev + deltas[i].value < 0 then 0 else prev + deltas[i].value)
  {
    if i > 0 {
      var next := if acc + deltas[0].value < 0 then 0 else acc + deltas[0].value;
      ClampedRunningCountStep(deltas[1..], next, i - 1);
    }
  }

  /** The held count has one value per event with a non-zero delta, at that event's
      time; it starts from 0, each value is max(0, previous + delta), so it is never
      negative. */
  lemma HeldCountRecurrence<E>(allEvents: seq<Timed<E>>, count: E -> int, i: nat)
    requires i < |HeldNotesAndPedals(allEvents, count)|
    ensures var held := HeldNotesAndPedals(allEvents, count);
            var deltas := HeldDeltas(allEvents, count);
            var prev := if i == 0 then 0 else held[i - 1].value;
            && |held| == |deltas|
            && deltas[i].value != 0
            && held[i].time == deltas[i].time
            && held[i].value == (if prev + deltas[i].value < 0 then 0 else prev + deltas[i].value)
            && held[i].value >= 0
  {
    var deltas := HeldDeltas(allEvents, count);
    ClampedRunningCountStep(deltas, 0, i);
    WhereMembers(Select(allEvents, count), IsNonZero, deltas[i]);
    if i > 0 {
      ClampedRunningCountStep(deltas, 0, i - 1);
    }
  }

  /** A zero-delta event never yields a held-count value: the held count has exactly
      one value per event whose delta is not zero. */
  lemma {:induction false} HeldCountSkipsZeroDeltas<E>(allEvents: seq<Timed<E>>, count: E -> int)
    ensures |HeldNotesAndPedals(allEvents, count)| == |Where(allEvents, (e: E) => count(e) != 0)|
  {
    if allEvents != [] {
      HeldCountSkipsZeroDeltas(allEvents[1..], count);
      assert Select(allEvents, count) == [Timed(allEvents[0].time, count(allEvents[0].value))] + Select(allEvents[1..], count);
    }
  }

  lemma HeldCountChronological<E>(allEvents: seq<Timed<E>>, count: E -> int)
    requires Chronological(allEvents)
    ensures Chronological(HeldNotesAndPedals(allEvents, count))
  {
    var deltas := HeldDeltas(allEvents, count);
    SelectChronological(allEvents, count);
    WhereChronological(Select(allEvents, count), IsNonZero);
    var held := HeldNotesAndPedals(allEvents, count);
    forall i, j | 0 <= i < j < |held| ensures held[i].time <= held[j].time {
      ClampedRunningCountStep(deltas, 0, i);
      ClampedRunningCountStep(deltas, 0, j);
    }
  }

  // ---------------------------------------------------------------------------
  // Timeout markers

  /** A marker wherever the held count stayed positive and unchanged for timeoutToSave. */
  function TimeoutMarkers(held: seq<Timed<int>>, timeoutToSave: nat): seq<Timed<char>> {
    Select(Where(Throttle(held, timeoutToSave), IsPositive), ToMarker)
  }

  lemma SelectMarkers<T>(s: seq<Timed<T>>, t: int)
    ensures Timed(t, Marker) in Select(s, ToMarker) <==> exists x :: x in s && x.time == t
  {
    var r := Select(s, ToMarker);
    if Timed(t, Marker) in r {
      var i :| 0 <= i < |r| && r[i] == Timed(t, Marker);
      assert s[i] in s;
    }
    if exists x :: x in s && x.time == t {
      var x :| x in s && x.time == t;
      var i :| 0 <= i < |s| && s[i] == x;
      assert r[i] == Timed(t, Marker);
    }
  }

  /** A timeout marker occurs at tick T iff some held value v > 0 arrived at
      T - timeoutToSave and no other held value arrived in the timeoutToSave ticks
      after it. */
  lemma TimeoutMarkerAt(held: seq<Timed<int>>, timeoutToSave: nat, t: int)
    ensures Timed(t, Marker) in TimeoutMarkers(held, timeoutToSave) <==>
              exists i :: 0 <= i < |held| && held[i].value > 0 && Quiesces(held, i, timeoutToSave)
                          && t == held[i].time + timeoutToSave
  {
    var throttled := Throttle(held, timeoutToSave);
    SelectMarkers(Where(throttled, IsPositive), t);
    if exists i :: 0 <= i < |held| && held[i].value > 0 && Quiesces(held, i, timeoutToSave)
                   && t == held[i].time + timeoutToSave {
      var i :| 0 <= i < |held| && held[i].value > 0 && Quiesces(held, i, timeoutToSave)
               && t == held[i].time + timeoutToSave;
      ThrottleEmits(held, timeoutToSave, Timed(t, held[i].value));
      WhereMembers(throttled, IsPositive, Timed(t, held[i].value));
    }
    if Timed(t, Marker) in TimeoutMarkers(held, timeoutToSave) {
      var x :| x in Where(throttled, IsPositive) && x.time == t;
      WhereMembers(throttled, IsPositive, x);
      ThrottleEmits(held, timeoutToSave, x);
    }
  }

  lemma TimeoutMarkersChronological(held: seq<Timed<int>>, timeoutToSave: nat)
    requires Chronological(held)
    ensures Chronological(TimeoutMarkers(held, timeoutToSave))
  {
    ThrottleChronological(held, timeoutToSave);
    WhereChronological(Throttle(held, timeoutToSave), IsPositive);
    SelectChronological(Where(Throttle(held, timeoutToSave), IsPositive), ToMarker);
  }

  // ---------------------------------------------------------------------------
  // Adjusted held count, release markers, saving points

  /** The held count with a 0 injected at every timeout marker, without
      consecutive repeats. */
  function AdjustedHeldNotesAndPedals(held: seq<Timed<int>>, timeoutMarkers: seq<Timed<char>>): seq<Timed<int>> {
    DistinctUntilChanged(Merge(held, Select(timeoutMarkers, ToZero)))
  }

  /** A marker at every adjusted value that is 0. */
  function AdjustedReleaseMarkers(adjusted: seq<Timed<int>>): seq<Timed<char>> {
    Select(Where(adjusted, IsZero), ToMarker)
  }

  /** Release markers that were not followed by another release marker within
      delayToSave, each delayed by delayToSave.  A marker arriving exactly
      delayToSave later cancels the earlier one even when it comes from a
      timeout zero whose timer was scheduled after the earlier marker arrived,
      where the scheduler would fire the throttle's timer first. */
  function GlobalReleaseSavingPoints(releaseMarkers: seq<Timed<char>>, delayToSave: nat): seq<Timed<char>> {
    Throttle(releaseMarkers, delayToSave)
  }

  function SavingPoints(timeoutMarkers: seq<Timed<char>>, releaseSavingPoints: seq<Timed<char>>): seq<Timed<char>> {
    Merge(timeoutMarkers, releaseSavingPoints)
  }

  /** The whole pipeline. */
  function Split<E>(allEvents: seq<Timed<E>>, count: E -> int, timeoutToSave: nat, delayToSave: nat): (r: MidiSplit<E>)
    ensures Flatten(r.splitGroups) == allEvents
    ensures |r.splitGroups| == |r.savingPoints| + 1
    ensures forall x :: x in r.heldNotesAndPedals ==> x.value >= 0
    ensures NoRepeats(r.adjustedHeldNotesAndPedals)
  {
    var held := HeldNotesAndPedals(allEvents, count);
    var timeouts := TimeoutMarkers(held, timeoutToSave);
    var adjusted := AdjustedHeldNotesAndPedals(held, timeouts);
    var releases := AdjustedReleaseMarkers(adjusted);
    var releaseSavingPoints := GlobalReleaseSavingPoints(releases, delayToSave);
    var savingPoints := SavingPoints(timeouts, releaseSavingPoints);
    assert forall x :: x in held ==> x.value >= 0 by {
      forall x | x in held ensures x.value >= 0 {
        var i :| 0 <= i < |held| && held[i] == x;
        HeldCountRecurrence(allEvents, count, i);
      }
    }
    MidiSplit(held, timeouts, adjusted, releases, releaseSavingPoints, savingPoints,
              Window(allEvents, savingPoints))
  }

  /** Every adjusted value is a held value or a 0 injected at a timeout marker. */
  lemma AdjustedValueOrigin(held: seq<Timed<int>>, timeoutMarkers: seq<Timed<char>>, x: Timed<int>)
    requires x in AdjustedHeldNotesAndPedals(held, timeoutMarkers)
    ensures x in held || (x.value == 0 && exists m :: m in timeoutMarkers && m.time == x.time)
  {
    var zeros := Select(timeoutMarkers, ToZero);
    MergeMembers(held, zeros, x);
    if x in zeros {
      var i :| 0 <= i < |zeros| && zeros[i] == x;
      assert timeoutMarkers[i] in timeoutMarkers;
    }
  }

  /** Release markers are exactly the adjusted values equal to 0. */
  lemma ReleaseMarkerAt(adjusted: seq<Timed<int>>, t: int)
    ensures Timed(t, Marker) in AdjustedReleaseMarkers(adjusted) <==> Timed(t, 0) in adjusted
  {
    SelectMarkers(Where(adjusted, IsZero), t);
    WhereMembers(adjusted, IsZero, Timed(t, 0));
    if exists x :: x in Where(adjusted, IsZero) && x.time == t {
      var x :| x in Where(adjusted, IsZero) && x.time == t;
      WhereMembers(adjusted, IsZero, x);
    }
  }

  /** A release saving point occurs at tick T iff a release marker arrived at
      T - delayToSave and no further release marker arrived within delayToSave. */
  lemma ReleaseSavingPointAt(releaseMarkers: seq<Timed<char>>, delayToSave: nat, t: int)
    requires forall x :: x in releaseMarkers ==> x.value == Marker
    ensures Timed(t, Marker) in GlobalReleaseSavingPoints(releaseMarkers, delayToSave) <==>
              exists i :: 0 <= i < |releaseMarkers| && Quiesces(releaseMarkers, i, delayToSave)
                          && t == releaseMarkers[i].time + delayToSave
  {
    ThrottleEmits(releaseMarkers, delayToSave, Timed(t, Marker));
    if exists i :: 0 <= i < |releaseMarkers| && Quiesces(releaseMarkers, i, delayToSave)
                   && t == releaseMarkers[i].time + delayToSave {
      var i :| 0 <= i < |releaseMarkers| && Quiesces(releaseMarkers, i, delayToSave)
               && t == releaseMarkers[i].time + delayToSave;
      assert releaseMarkers[i] in releaseMarkers;
    }
  }

  /** Saving points are the timeout markers together with the release saving points. */
  lemma SavingPointOrigin(timeoutMarkers: seq<Timed<char>>, releaseSavingPoints: seq<Timed<char>>, x: Timed<char>)
    ensures x in SavingPoints(timeoutMarkers, releaseSavingPoints) <==> x in timeoutMarkers || x in releaseSavingPoints
  {
    MergeMembers(timeoutMarkers, releaseSavingPoints, x);
  }

  /** For a chronological event list every stage is chronological, in particular
      the saving points. */
  lemma SavingPointsChronological<E>(allEvents: seq<Timed<E>>, count: E -> int, timeoutToSave: nat, delayToSave: nat)
    requires Chronological(allEvents)
    ensures Chronological(Split(allEvents, count, timeoutToSave, delayToSave).savingPoints)
  {
    var sp := Split(allEvents, count, timeoutToSave, delayToSave);
    var held := sp.heldNotesAndPedals;
    HeldCountChronological(allEvents, count);
    TimeoutMarkersChronological(held, timeoutToSave);
    var zeros := Select(sp.heldNotesAndPedalsTimeoutMarkers, ToZero);
    SelectChronological(sp.heldNotesAndPedalsTimeoutMarkers, ToZero);
    MergeChronological(held, zeros);
    DistinctAfterChronological(Merge(held, zeros), None);
    WhereChronological(sp.adjustedHeldNotesAndPedals, IsZero);
    SelectChronological(Where(sp.adjustedHeldNotesAndPedals, IsZero), ToMarker);
    ThrottleChronological(sp.adjustedReleaseMarkers, delayToSave);
    MergeChronological(sp.heldNotesAndPedalsTimeoutMarkers, sp.globalReleaseSavingPoints);
  }

  /** The split groups partition the events in order: concatenated they give the
      input back, there is one more group than saving points, and group k holds
      exactly the events after saving point k-1 up to and including saving point
      k (the last group: everything after the last saving point). */
  lemma SplitGroupsPartition<E>(allEvents: seq<Timed<E>>, count: E -> int, timeoutToSave: nat, delayToSave: nat,
                                k: nat, x: Timed<E>)
    requires Chronological(allEvents)
    requires var r := Split(allEvents, count, timeoutToSave, delayToSave);
             k < |r.splitGroups| && x in r.splitGroups[k]
    ensures var r := Split(allEvents, count, timeoutToSave, delayToSave);
            && Flatten(r.splitGroups) == allEvents
            && (k < |r.savingPoints| ==> x.time <= r.savingPoints[k].time)
            && (0 < k ==> r.savingPoints[k - 1].time < x.time)
  {
    var r := Split(allEvents, count, timeoutToSave, delayToSave);
    SavingPointsChronological(allEvents, count, timeoutToSave, delayToSave);
    if k < |r.savingPoints| {
      WindowUpperBound(allEvents, r.savingPoints, k, x);
    }
    if 0 < k {
      WindowLowerBound(allEvents, r.savingPoints, k, x);
    }
  }

  /** An empty event list never produces a saving point: the only group is the
      open, empty one. */
  lemma EmptyInputNeverSaves<E>(count: E -> int, timeoutToSave: nat, delayToSave: nat)
    ensures Split([], count, timeoutToSave, delayToSave).savingPoints == []
    ensures Split([], count, timeoutToSave, delayToSave).splitGroups == [[]]
  {
  }
}
