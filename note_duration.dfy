/** NoteDuration.CalculateDurations: pairs every event with the time elapsed
    since the previous note-on or note-off of the same note number, reported
    on note-offs only.

    Events are grouped by note number (non-note events, and notes numbered 0,
    share group 0, whose events all get duration 0); inside any other group
    TimeInterval measures the time since the group's previous element.  A
    group's subscription starts at its first element, so a first element's
    interval is 0.  Every output is emitted at its input's time, so the
    output keeps input order. */
module NoteDuration {
  import opened Wrappers
  import opened TimedStreams

  datatype WithDuration<E> = WithDuration(ev: E, duration: int)

  /** The group key of an event: its note number for note-ons and
      note-offs, 0 for everything else. */
  function GroupKey<E>(x: E, isNoteOn: E -> bool, isNoteOff: E -> bool, noteNumber: E -> int): int
  {
    if isNoteOn(x) || isNoteOff(x) then noteNumber(x) else 0
  }

  /** The durations of `events`, given the time of the last element seen so
      far in each non-zero group. */
  function DurationsFrom<E>(events: seq<Timed<E>>, last: map<int, int>,
                            isNoteOn: E -> bool, isNoteOff: E -> bool, noteNumber: E -> int): (r: seq<Timed<WithDuration<E>>>)
    ensures |r| == |events|
    ensures forall i :: 0 <= i < |r| ==> r[i].time == events[i].time && r[i].value.ev == events[i].value
    decreases |events|
  {
    if events == [] then []
    else
      var x := events[0];
      var k := GroupKey(x.value, isNoteOn, isNoteOff, noteNumber);
      var interval := if k in last then x.time - last[k] else 0;
      var d := if k == 0 || !isNoteOff(x.value) then 0 else interval;
      var last' := if k == 0 then last else last[k := x.time];
      [Timed(x.time, WithDuration(x.value, d))] + DurationsFrom(events[1..], last', isNoteOn, isNoteOff, noteNumber)
  }

  /** CalculateDurations: one output per input, at the input's time and
      carrying the input unchanged. */
  function CalculateDurations<E>(events: seq<Timed<E>>, isNoteOn: E -> bool, isNoteOff: E -> bool, noteNumber: E -> int)
    : (r: seq<Timed<WithDuration<E>>>)
    ensures |r| == |events|
    ensures forall i :: 0 <= i < |r| ==> r[i].time == events[i].time && r[i].value.ev == events[i].value
  {
    DurationsFrom(events, map[], isNoteOn, isNoteOff, noteNumber)
  }

  // ----- Reference definition -------------------------------------------

  /** The index of the last of the first `n` events whose group key is `k`. */
  function LastIndexBefore<E>(events: seq<Timed<E>>, k: int, n: nat,
                              isNoteOn: E -> bool, isNoteOff: E -> bool, noteNumber: E -> int): (r: Option<nat>)
    requires n <= |events|
    ensures r.Some? ==> r.value < n && GroupKey(events[r.value].value, isNoteOn, isNoteOff, noteNumber) == k
    ensures r.Some? ==> forall j :: r.value < j < n ==> GroupKey(events[j].value, isNoteOn, isNoteOff, noteNumber) != k
    ensures r.None? ==> forall j :: 0 <= j < n ==> GroupKey(events[j].value, isNoteOn, isNoteOff, noteNumber) != k
  {
    if n == 0 then None
    else if GroupKey(events[n - 1].value, isNoteOn, isNoteOff, noteNumber) == k then Some(n - 1)
    else LastIndexBefore(events, k, n - 1, isNoteOn, isNoteOff, noteNumber)
  }

  /** The duration the i-th event should carry: 0 unless it is a note-off in
      a non-zero group, else the time since the previous event of its group
      (0 when it is the first of its group). */
  function ExpectedDuration<E>(events: seq<Timed<E>>, i: nat,
                               isNoteOn: E -> bool, isNoteOff: E -> bool, noteNumber: E -> int): int
    requires i < |events|
  {
    var k := GroupKey(events[i].value, isNoteOn, isNoteOff, noteNumber);
    if k == 0 || !isNoteOff(events[i].value) then 0
    else match LastIndexBefore(events, k, i, isNoteOn, isNoteOff, noteNumber)
      case None => 0
      case Some(j) => events[i].time - events[j].time
  }

  /** `last` records, for every non-zero key, the time of the last of the
      first `n` events in that group. */
  ghost predicate LastTimesOf<E>(last: map<int, int>, events: seq<Timed<E>>, n: nat,
                                 isNoteOn: E -> bool, isNoteOff: E -> bool, noteNumber: E -> int)
    requires n <= |events|
  {
    forall k :: k != 0 ==>
      (k in last <==> LastIndexBefore(events, k, n, isNoteOn, isNoteOff, noteNumber).Some?) &&
      (k in last ==> last[k] == events[LastIndexBefore(events, k, n, isNoteOn, isNoteOff, noteNumber).value].time)
  }

  /** Recording the n-th event's time under its key keeps `LastTimesOf`. */
  lemma LastTimesStep<E>(last: map<int, int>, events: seq<Timed<E>>, n: nat,
                         isNoteOn: E -> bool, isNoteOff: E -> bool, noteNumber: E -> int)
    requires n < |events|
    requires LastTimesOf(last, events, n, isNoteOn, isNoteOff, noteNumber)
    ensures var k := GroupKey(events[n].value, isNoteOn, isNoteOff, noteNumber);
            LastTimesOf(if k == 0 then last else last[k := events[n].time], events, n + 1, isNoteOn, isNoteOff, noteNumber)
  {
  }

  /** The head of `DurationsFrom` carries the reference duration of event n. */
  lemma HeadDuration<E>(events: seq<Timed<E>>, n: nat, last: map<int, int>,
                        isNoteOn: E -> bool, isNoteOff: E -> bool, noteNumber: E -> int)
    requires n < |events|
    requires LastTimesOf(last, events, n, isNoteOn, isNoteOff, noteNumber)
    ensures DurationsFrom(events[n..], last, isNoteOn, isNoteOff, noteNumber)[0].value.duration
              == ExpectedDuration(events, n, isNoteOn, isNoteOff, noteNumber)
  {
    assert events[n..][0] == events[n];
  }

  lemma {:induction false} DurationsFromCorrect<E>(events: seq<Timed<E>>, n: nat, last: map<int, int>,
                                                   isNoteOn: E -> bool, isNoteOff: E -> bool, noteNumber: E -> int)
    requires n <= |events|
    requires LastTimesOf(last, events, n, isNoteOn, isNoteOff, noteNumber)
    ensures forall i :: n <= i < |events| ==>
      DurationsFrom(events[n..], last, isNoteOn, isNoteOff, noteNumber)[i - n].value.duration
        == ExpectedDuration(events, i, isNoteOn, isNoteOff, noteNumber)
    decreases |events| - n
  {
    if n < |events| {
      var k := GroupKey(events[n].value, isNoteOn, isNoteOff, noteNumber);
      var last' := if k == 0 then last else last[k := events[n].time];
      LastTimesStep(last, events, n, isNoteOn, isNoteOff, noteNumber);
      DurationsFromCorrect(events, n + 1, last', isNoteOn, isNoteOff, noteNumber);
      HeadDuration(events, n, last, isNoteOn, isNoteOff, noteNumber);
      var r := DurationsFrom(events[n..], last, isNoteOn, isNoteOff, noteNumber);
      assert events[n..][1..] == events[n + 1..];
      var rest := DurationsFrom(events[n + 1..], last', isNoteOn, isNoteOff, noteNumber);
      assert r[1..] == rest;
      forall i | n < i < |events|
        ensures r[i - n].value.duration == ExpectedDuration(events, i, isNoteOn, isNoteOff, noteNumber)
      {
        assert r[i - n] == rest[i - (n + 1)];
      }
    }
  }

  /** CalculateDurations agrees with the reference definition at every index. */
  lemma CalculateDurationsCorrect<E>(events: seq<Timed<E>>, isNoteOn: E -> bool, isNoteOff: E -> bool, noteNumber: E -> int)
    ensures forall i :: 0 <= i < |events| ==>
      CalculateDurations(events, isNoteOn, isNoteOff, noteNumber)[i].value.duration
        == ExpectedDuration(events, i, isNoteOn, isNoteOff, noteNumber)
  {
    DurationsFromCorrect(events, 0, map[], isNoteOn, isNoteOff, noteNumber);
    assert events[0..] == events;
  }

  /** Events that are not note-offs, and note events numbered 0, get
      duration 0; a note-off gets the time since the previous note-on or
      note-off with its number, or 0 if it has none. */
  lemma DurationCases<E>(events: seq<Timed<E>>, i: nat, isNoteOn: E -> bool, isNoteOff: E -> bool, noteNumber: E -> int)
    requires i < |events|
    ensures var d := CalculateDurations(events, isNoteOn, isNoteOff, noteNumber)[i].value.duration;
            var x := events[i].value;
            && (!isNoteOff(x) ==> d == 0)
            && (GroupKey(x, isNoteOn, isNoteOff, noteNumber) == 0 ==> d == 0)
            && (isNoteOff(x) && noteNumber(x) != 0 ==>
                  (forall j :: 0 <= j < i ==> GroupKey(events[j].value, isNoteOn, isNoteOff, noteNumber) != noteNumber(x)) ==> d == 0)
            && (forall j :: 0 <= j < i && isNoteOff(x) && noteNumber(x) != 0
                  && GroupKey(events[j].value, isNoteOn, isNoteOff, noteNumber) == noteNumber(x)
                  && (forall m :: j < m < i ==> GroupKey(events[m].value, isNoteOn, isNoteOff, noteNumber) != noteNumber(x))
                  ==> d == events[i].time - events[j].time)
  {
    CalculateDurationsCorrect(events, isNoteOn, isNoteOff, noteNumber);
  }

  // ----- Independence of different note numbers ---------------------------

  lemma {:induction false} LastIndexBeforeInsert<E>(events: seq<Timed<E>>, p: nat, y: Timed<E>, k: int, n: nat,
                                                    isNoteOn: E -> bool, isNoteOff: E -> bool, noteNumber: E -> int)
    requires p <= |events| && n <= |events|
    requires GroupKey(y.value, isNoteOn, isNoteOff, noteNumber) != k
    ensures var events' := events[..p] + [y] + events[p..];
            var before := LastIndexBefore(events, k, n, isNoteOn, isNoteOff, noteNumber);
            var after := LastIndexBefore(events', k, if n <= p then n else n + 1, isNoteOn, isNoteOff, noteNumber);
            after == (if before.Some? && before.value >= p then Some(before.value + 1) else before)
  {
    var events' := events[..p] + [y] + events[p..];
    if n > 0 && GroupKey(events[n - 1].value, isNoteOn, isNoteOff, noteNumber) == k {
      if n <= p {
        assert events'[n - 1] == events[n - 1];
      } else {
        assert events'[n] == events[n - 1];
      }
    } else if n > 0 {
      LastIndexBeforeInsert(events, p, y, k, n - 1, isNoteOn, isNoteOff, noteNumber);
      if n <= p {
        assert events'[n - 1] == events[n - 1];
      } else {
        assert events'[n] == events[n - 1];
        if n - 1 == p {
          assert events'[p] == y;
        }
      }
    }
  }

  /** The reference duration of an event is unchanged by inserting an event
      of another group before or after it. */
  lemma ExpectedDurationInsert<E>(events: seq<Timed<E>>, p: nat, y: Timed<E>, i: nat,
                                  isNoteOn: E -> bool, isNoteOff: E -> bool, noteNumber: E -> int)
    requires p <= |events| && i < |events|
    requires GroupKey(y.value, isNoteOn, isNoteOff, noteNumber) != GroupKey(events[i].value, isNoteOn, isNoteOff, noteNumber)
    ensures var events' := events[..p] + [y] + events[p..];
            ExpectedDuration(events', if i < p then i else i + 1, isNoteOn, isNoteOff, noteNumber)
              == ExpectedDuration(events, i, isNoteOn, isNoteOff, noteNumber)
  {
    var events' := events[..p] + [y] + events[p..];
    var i' := if i < p then i else i + 1;
    assert events'[i'] == events[i];
    var k := GroupKey(events[i].value, isNoteOn, isNoteOff, noteNumber);
    LastIndexBeforeInsert(events, p, y, k, i, isNoteOn, isNoteOff, noteNumber);
    var before := LastIndexBefore(events, k, i, isNoteOn, isNoteOff, noteNumber);
    if before.Some? && before.value >= p {
      assert events'[before.value + 1] == events[before.value];
    } else if before.Some? {
      assert events'[before.value] == events[before.value];
    }
  }

  /** Inserting an event of a different group anywhere does not change the
      duration of any existing event: notes with different numbers do not
      affect each other. */
  lemma InsertOtherNoteKeepsDuration<E>(events: seq<Timed<E>>, p: nat, y: Timed<E>, i: nat,
                                        isNoteOn: E -> bool, isNoteOff: E -> bool, noteNumber: E -> int)
    requires p <= |events| && i < |events|
    requires GroupKey(y.value, isNoteOn, isNoteOff, noteNumber) != GroupKey(events[i].value, isNoteOn, isNoteOff, noteNumber)
    ensures var events' := events[..p] + [y] + events[p..];
            CalculateDurations(events', isNoteOn, isNoteOff, noteNumber)[if i < p then i else i + 1]
              == CalculateDurations(events, isNoteOn, isNoteOff, noteNumber)[i]
  {
    var events' := events[..p] + [y] + events[p..];
    var i' := if i < p then i else i + 1;
    assert events'[i'] == events[i];
    ExpectedDurationInsert(events, p, y, i, isNoteOn, isNoteOff, noteNumber);
    CalculateDurationsCorrect(events, isNoteOn, isNoteOff, noteNumber);
    CalculateDurationsCorrect(events', isNoteOn, isNoteOff, noteNumber);
    var r, r' := CalculateDurations(events, isNoteOn, isNoteOff, noteNumber), CalculateDurations(events', isNoteOn, isNoteOff, noteNumber);
    assert r'[i'].value.duration == r[i].value.duration;
  }

  // ----- The unit-test scenario ------------------------------------------

  datatype TestNote = ControlChange(n: int) | On(n: int) | Off(n: int)

  function IsTestOn(x: TestNote): bool { x.On? }
  function IsTestOff(x: TestNote): bool { x.Off? }
  function TestNoteNumber(x: TestNote): int { x.n }

  /** Note 45 is held from 103 to 110 and note 48, overlapping it, from 105
      to 130: the note-offs carry 7 and 25, everything else 0. */
  lemma CalculateDurationsScenario()
    ensures CalculateDurations([Timed(100, ControlChange(1)), Timed(103, On(45)), Timed(105, On(48)),
                                Timed(110, Off(45)), Timed(120, ControlChange(2)), Timed(130, Off(48)),
                                Timed(140, ControlChange(3))], IsTestOn, IsTestOff, TestNoteNumber)
         == [Timed(100, WithDuration(ControlChange(1), 0)), Timed(103, WithDuration(On(45), 0)),
             Timed(105, WithDuration(On(48), 0)), Timed(110, WithDuration(Off(45), 7)),
             Timed(120, WithDuration(ControlChange(2), 0)), Timed(130, WithDuration(Off(48), 25)),
             Timed(140, WithDuration(ControlChange(3), 0))]
  {
  }
}
