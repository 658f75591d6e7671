/** FormatData (CommandLine): the object a file-name template is formatted
    against in the CannedBytes-based recorder.  Now and Guid are taken as
    passed in; the note count looks at the first byte of every message and
    is kept in a memo store once computed. */
module CommandLineFormatData {
  import opened Wrappers
  import opened CannedBytesMidi
  import ApplicationFormatData

  /** The exception the count can raise: GetData()[0] on a message whose
      data is empty (a meta message with no payload, such as End of Track). */
  datatype ContextError = IndexOutOfRange

  /** Note On on MIDI channel 1. */
  const NoteOnChannel1: byte := 0x90

  const NumberOfNoteEventsKey := "NumberOfNoteEvents"

  /** The test Count applies: the first data byte is exactly 0x90. */
  predicate IsNoteOnChannel1(e: MidiFileEvent)
  {
    var data := GetData(e.message); |data| > 0 && data[0] == NoteOnChannel1
  }

  /** Count(x => x.Message.GetData()[0] == 0x90): fails as soon as an event
      with empty data is reached, otherwise the number of events whose
      first byte is 0x90. */
  function NoteCount(events: seq<MidiFileEvent>): (r: Result<int, ContextError>)
    ensures r.Failure? <==> exists i :: 0 <= i < |events| && GetData(events[i].message) == []
    ensures r.Success? ==> r.value == ApplicationFormatData.CountWhere(events, IsNoteOnChannel1)
  {
    if events == [] then Success(0)
    else if GetData(events[0].message) == [] then Failure(IndexOutOfRange)
    else
      match NoteCount(events[1..])
      case Failure(e) => Failure(e)
      case Success(n) => Success((if IsNoteOnChannel1(events[0]) then 1 else 0) + n)
  }

  /** Only a Note On for channel 1 counts among short messages: a Note On on
      any other channel, or a Note Off, is not a note here. */
  lemma {:induction false} ShortMessagesCountedByStatus(e: MidiFileEvent)
    requires e.message.MidiShortMessage?
    ensures IsNoteOnChannel1(e) <==> e.message.status == 0x90
  {
    assert GetData(e.message)[0] == e.message.status;
  }

  class FormatData {
    const now: int
    const eventList: seq<MidiFileEvent>
    const guid: int
    /** The memo store: key to computed value. */
    var memoStore: map<string, int>
    /** The keys whose expression has been evaluated successfully, in order. */
    ghost var evaluations: seq<string>

    /** Each stored key was evaluated exactly once; a stored note count is
        the true count. */
    ghost predicate Valid()
      reads this
    {
      && (forall k :: k in memoStore <==> k in evaluations)
      && ApplicationFormatData.Distinct(evaluations)
      && (NumberOfNoteEventsKey in memoStore ==> NoteCount(eventList) == Success(memoStore[NumberOfNoteEventsKey]))
    }

    constructor (now: int, eventList: seq<MidiFileEvent>, guid: int)
      ensures Valid()
      ensures this.now == now && this.eventList == eventList && this.guid == guid
      ensures memoStore == map[] && evaluations == []
    {
      this.now := now;
      this.eventList := eventList;
      this.guid := guid;
      memoStore := map[];
      evaluations := [];
    }

    function NumberOfEvents(): int
    {
      |eventList|
    }

    /** Memoize: a stored key returns its value without evaluating; a new
        key is evaluated and stored, unless the evaluation throws, in which
        case the store is left as it was and the exception propagates. */
    method Memoize(key: string, expression: () -> Result<int, ContextError>) returns (r: Result<int, ContextError>)
      requires Valid()
      requires key == NumberOfNoteEventsKey ==> expression() == NoteCount(eventList)
      modifies this
      ensures Valid()
      ensures key in old(memoStore) ==>
                r == Success(old(memoStore)[key]) && memoStore == old(memoStore) && evaluations == old(evaluations)
      ensures key !in old(memoStore) ==> r == expression()
      ensures key !in old(memoStore) && r.Success? ==>
                memoStore == old(memoStore)[key := r.value] && evaluations == old(evaluations) + [key]
      ensures r.Failure? ==> memoStore == old(memoStore) && evaluations == old(evaluations)
    {
      if key !in memoStore {
        var value := expression();
        if value.Failure? {
          return value;
        }
        memoStore := memoStore[key := value.value];
        evaluations := evaluations + [key];
      }
      r := Success(memoStore[key]);
    }

    /** NumberOfNoteEvents: the 0x90 count, computed once. */
    method NumberOfNoteEvents() returns (r: Result<int, ContextError>)
      requires Valid()
      modifies this
      ensures Valid()
      ensures r == NoteCount(eventList)
      ensures r.Success? ==> memoStore == old(memoStore)[NumberOfNoteEventsKey := r.value]
      ensures r.Failure? ==> memoStore == old(memoStore)
    {
      var events := eventList;
      r := Memoize(NumberOfNoteEventsKey, () => NoteCount(events));
    }

    /** Equals: another FormatData with the same Now, NumberOfEvents and
        Guid; null is never equal. */
    predicate Equals(other: FormatData?)
    {
      other != null && now == other.now && NumberOfEvents() == other.NumberOfEvents() && guid == other.guid
    }

    /** GetHashCode: HashCode.Combine(Now, NumberOfEvents, Guid); the
        per-process seeded combiner is a parameter. */
    function GetHashCode(combine: (int, int, int) -> int): int
    {
      combine(now, NumberOfEvents(), guid)
    }
  }

  /** Equals is an equivalence relation that ignores the events themselves. */
  lemma EqualsIsEquivalence(a: FormatData, b: FormatData, c: FormatData)
    ensures a.Equals(a)
    ensures a.Equals(b) ==> b.Equals(a)
    ensures a.Equals(b) && b.Equals(c) ==> a.Equals(c)
    ensures a.Equals(b) <==> a.now == b.now && |a.eventList| == |b.eventList| && a.guid == b.guid
  {
  }

  /** Equal objects have equal hash codes, for every combiner. */
  lemma EqualObjectsHaveEqualHashes(a: FormatData, b: FormatData, combine: (int, int, int) -> int)
    requires a.Equals(b)
    ensures a.GetHashCode(combine) == b.GetHashCode(combine)
  {
  }

  /** A Note On and a Note Off on channel 1 hold one note. */
  method NoteCountScenario() returns (notes: Result<int, ContextError>)
    ensures notes == Success(1)
  {
    var on := new MidiFileEvent(MidiShortMessage(0x90, [60, 100]), 0, 0);
    var off := new MidiFileEvent(MidiShortMessage(0x80, [60, 0]), 10, 10);
    var data := new FormatData(0, [on, off], 0);
    assert [on, off][1..] == [off];
    assert NoteCount([off]) == Success(0) by {
      assert [off][1..] == [];
    }
    notes := data.NumberOfNoteEvents();
  }

  /** An End of Track marker (no data bytes) in the list makes the count
      throw. */
  method EndOfTrackScenario() returns (notes: Result<int, ContextError>)
    ensures notes == Failure(IndexOutOfRange)
  {
    var on := new MidiFileEvent(MidiShortMessage(0x90, [60, 100]), 0, 0);
    var marker := new MidiFileEvent(MidiMetaMessage(EndOfTrack, []), 11, 1);
    var data := new FormatData(0, [on, marker], 0);
    assert data.eventList[1] == marker && GetData(marker.message) == [];
    notes := data.NumberOfNoteEvents();
  }
}
