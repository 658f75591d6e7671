/** MidiRecorderApplicationService (command line): StartRecording checks its
    options, resolves and de-duplicates the requested inputs, and cuts the
    merged stream of received events into files at quiet gaps of DelayToSave
    milliseconds.  Opening, starting and stopping the ports, and writing the
    files, are I/O and stay outside the model. */
module CommandLineRecorderService {
  import opened Wrappers
  import opened TimedStreams
  import opened TrackGrouping
  import opened MidiInputSelection
  import opened CommandLineOptionsValidator

  /** The exception StartRecording throws. */
  datatype StartError = ArgumentNull

  /** RecordResult: recording started on these input ids, or the message
      saying why it could not start. */
  datatype RecordResult = Recording(inputIds: seq<nat>) | NotStarted(message: string)

  /** The first half of StartRecording, before any port is opened: null
      options throw; the inputs every requested name selects are
      concatenated and de-duplicated; none at all is an error result. */
  function StartRecording(options: Option<RecordOptions>, devices: seq<string>): (r: Result<RecordResult, StartError>)
  {
    match options
    case None => Failure(ArgumentNull)
    case Some(o) =>
      var inputIds := ResolveInputs(o.midiInputs, name => SelectInput(devices, name));
      if inputIds == [] then Success(NotStarted(NoInputsMessage(o.midiInputs)))
      else Success(Recording(inputIds))
  }

  /** Null options are rejected with ArgumentNullException. */
  lemma NullOptionsThrow(devices: seq<string>)
    ensures StartRecording(None, devices) == Failure(ArgumentNull)
  {
  }

  /** Recording starts exactly when some requested name selects a device; it
      then listens on every selected device once, and on no other; otherwise
      the result names the requested inputs. */
  lemma StartRecordingInputs(o: RecordOptions, devices: seq<string>)
    ensures StartRecording(Some(o), devices).Success?
    ensures StartRecording(Some(o), devices).value.Recording? <==>
              exists i :: 0 <= i < |o.midiInputs| && SelectInput(devices, o.midiInputs[i]) != []
    ensures StartRecording(Some(o), devices).value.NotStarted? ==>
              StartRecording(Some(o), devices).value.message == NoInputsMessage(o.midiInputs)
    ensures StartRecording(Some(o), devices).value.Recording? ==>
              var ids := StartRecording(Some(o), devices).value.inputIds;
              && NoDuplicates(ids)
              && (forall id :: id in ids ==> id < |devices|)
              && (forall id :: id in ids <==> exists i :: 0 <= i < |o.midiInputs| && id in SelectInput(devices, o.midiInputs[i]))
  {
    var search := name => SelectInput(devices, name);
    var ids := ResolveInputs(o.midiInputs, search);
    if exists i :: 0 <= i < |o.midiInputs| && SelectInput(devices, o.midiInputs[i]) != [] {
      var i :| 0 <= i < |o.midiInputs| && SelectInput(devices, o.midiInputs[i]) != [];
      assert search(o.midiInputs[i])[0] in ids;
    }
    forall id | id in ids ensures id < |devices| {
      var i :| 0 <= i < |o.midiInputs| && id in search(o.midiInputs[i]);
      var k :| 0 <= k < |search(o.midiInputs[i])| && search(o.midiInputs[i])[k] == id;
    }
  }

  /** Without devices, nothing can be recorded. */
  lemma NoDevicesNeverRecords(o: RecordOptions)
    ensures StartRecording(Some(o), []) == Success(NotStarted(NoInputsMessage(o.midiInputs)))
  {
    forall i | 0 <= i < |o.midiInputs| ensures SelectInput([], o.midiInputs[i]) == [] {
      NoDevicesNoInputs(o.midiInputs[i]);
    }
    StartRecordingInputs(o, []);
  }

  // ---------------------------------------------------------------------------
  // The quiet-gap split

  /** savingPoints: Throttle(delayToSave) over the received events, each
      mapped to its absolute time; a saving point fires delay ticks after an
      event that no other event followed within delay ticks. */
  function SavingPoints<E>(events: seq<Timed<E>>, delay: nat, absoluteTime: E -> int): (r: seq<Timed<int>>)
    ensures |r| <= |events|
  {
    Select(Throttle(events, delay), absoluteTime)
  }

  /** The files: Window(savingPoints), each window aggregated into the list of
      its events in arrival order. */
  function QuietGapSplit<E>(events: seq<Timed<E>>, delay: nat, absoluteTime: E -> int): (r: seq<seq<Timed<E>>>)
    ensures |r| == |SavingPoints(events, delay, absoluteTime)| + 1
    ensures Flatten(r) == events
  {
    Window(events, SavingPoints(events, delay, absoluteTime))
  }

  /** A saving point is fired exactly for each event followed by a quiet gap
      of more than delay ticks (or by nothing), delay ticks after it, and it
      carries that event's absolute time. */
  lemma SavingPointsAtQuietGaps<E>(events: seq<Timed<E>>, delay: nat, absoluteTime: E -> int, p: Timed<int>)
    ensures p in SavingPoints(events, delay, absoluteTime) <==>
              exists i :: 0 <= i < |events| && Quiesces(events, i, delay) &&
                          p == Timed(events[i].time + delay, absoluteTime(events[i].value))
  {
    var th := Throttle(events, delay);
    var sp := SavingPoints(events, delay, absoluteTime);
    if p in sp {
      var k :| 0 <= k < |sp| && sp[k] == p;
      ThrottleEmits(events, delay, th[k]);
      var i :| 0 <= i < |events| && Quiesces(events, i, delay) && th[k] == Timed(events[i].time + delay, events[i].value);
    }
    if exists i :: 0 <= i < |events| && Quiesces(events, i, delay) &&
                   p == Timed(events[i].time + delay, absoluteTime(events[i].value)) {
      var i :| 0 <= i < |events| && Quiesces(events, i, delay) &&
               p == Timed(events[i].time + delay, absoluteTime(events[i].value));
      var x := Timed(events[i].time + delay, events[i].value);
      ThrottleEmits(events, delay, x);
      var k :| 0 <= k < |th| && th[k] == x;
      assert sp[k] == p;
    }
  }

  /** The last throttled value is the last event, delay ticks later. */
  lemma {:induction false} ThrottleEndsWithLast<T>(s: seq<Timed<T>>, d: nat)
    requires s != []
    ensures Throttle(s, d) != []
    ensures Throttle(s, d)[|Throttle(s, d)| - 1] == Timed(s[|s| - 1].time + d, s[|s| - 1].value)
  {
    if |s| > 1 {
      ThrottleEndsWithLast(s[1..], d);
      assert s[1..][|s[1..]| - 1] == s[|s| - 1];
    }
  }

  /** Every file except the last closes at its saving point and holds only
      events after the previous one; the files hold every event once, in
      order. */
  lemma QuietGapFilesPartition<E>(events: seq<Timed<E>>, delay: nat, absoluteTime: E -> int, k: nat, x: Timed<E>)
    requires Chronological(events)
    requires k < |QuietGapSplit(events, delay, absoluteTime)| && x in QuietGapSplit(events, delay, absoluteTime)[k]
    ensures var sp := SavingPoints(events, delay, absoluteTime);
            && Flatten(QuietGapSplit(events, delay, absoluteTime)) == events
            && (k < |sp| ==> x.time <= sp[k].time)
            && (0 < k ==> sp[k - 1].time < x.time)
  {
    var sp := SavingPoints(events, delay, absoluteTime);
    ThrottleChronological(events, delay);
    SelectChronological(Throttle(events, delay), absoluteTime);
    if k < |sp| {
      WindowUpperBound(events, sp, k, x);
    }
    if 0 < k {
      WindowLowerBound(events, sp, k, x);
    }
  }

  /** The stream never completes, so the last event is always followed by a
      saving point: the window still open after it is empty, and every
      received event is saved to some file. */
  lemma EveryEventIsSaved<E>(events: seq<Timed<E>>, delay: nat, absoluteTime: E -> int)
    requires Chronological(events) && events != []
    ensures var files := QuietGapSplit(events, delay, absoluteTime);
            files[|files| - 1] == []
  {
    var sp := SavingPoints(events, delay, absoluteTime);
    var last := events[|events| - 1];
    ThrottleEndsWithLast(events, delay);
    assert sp[|sp| - 1].time == last.time + delay;
    forall x | x in events ensures x.time <= sp[|sp| - 1].time {
      var j :| 0 <= j < |events| && events[j] == x;
      assert events[j].time <= last.time;
    }
    WindowLastEmpty(events, sp);
  }

  /** Without events there is no saving point and a single, empty file. */
  lemma NoEventsNoFiles<E>(delay: nat, absoluteTime: E -> int)
    ensures SavingPoints([], delay, absoluteTime) == []
    ensures QuietGapSplit([], delay, absoluteTime) == [[]]
  {
  }
}
