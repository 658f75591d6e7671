/** FormatData<TMidiEvent> (Application): the object a file-name template
    is formatted against.  Now and Guid are taken as they were passed in
    (the clock and the GUID generator are the caller's), NumberOfEvents is
    the length of the event list, and NumberOfNoteEvents is computed on
    first use and kept in a memo store. */
module ApplicationFormatData {
  import opened NAudioEvents
  import NAudioMidiEventAnalyzer

  /** Enumerable.Count(predicate). */
  function CountWhere<E>(s: seq<E>, p: E -> bool): (r: nat)
    ensures r <= |s|
    ensures r == 0 <==> forall i :: 0 <= i < |s| ==> !p(s[i])
    ensures r == |s| <==> forall i :: 0 <= i < |s| ==> p(s[i])
  {
    if s == [] then 0 else (if p(s[0]) then 1 else 0) + CountWhere(s[1..], p)
  }

  /** Counting distributes over concatenation. */
  lemma {:induction false} CountWhereAppend<E>(a: seq<E>, b: seq<E>, p: E -> bool)
    ensures CountWhere(a + b, p) == CountWhere(a, p) + CountWhere(b, p)
  {
    if a == [] {
      assert a + b == b;
    } else {
      assert (a + b)[1..] == a[1..] + b;
      CountWhereAppend(a[1..], b, p);
    }
  }

  predicate Distinct(keys: seq<string>)
  {
    forall i, j :: 0 <= i < j < |keys| ==> keys[i] != keys[j]
  }

  const NumberOfNoteEventsKey := "NumberOfNoteEvents"

  class FormatData<E> {
    const now: int
    const eventList: seq<E>
    const guid: int
    const isNote: E -> bool
    /** The memo store: key to computed value. */
    var memoStore: map<string, int>
    /** The keys whose expression has been evaluated, in order. */
    ghost var evaluations: seq<string>

    /** Each key has been evaluated exactly once when it is in the store,
        and never otherwise; the stored note count is the true count. */
    ghost predicate Valid()
      reads this
    {
      && (forall k :: k in memoStore <==> k in evaluations)
      && Distinct(evaluations)
      && (NumberOfNoteEventsKey in memoStore ==> memoStore[NumberOfNoteEventsKey] == CountWhere(eventList, isNote))
    }

    constructor (now: int, eventList: seq<E>, guid: int, isNote: E -> bool)
      ensures Valid()
      ensures this.now == now && this.eventList == eventList && this.guid == guid && this.isNote == isNote
      ensures memoStore == map[] && evaluations == []
    {
      this.now := now;
      this.eventList := eventList;
      this.guid := guid;
      this.isNote := isNote;
      memoStore := map[];
      evaluations := [];
    }

    /** NumberOfEvents: the number of events in the list. */
    function NumberOfEvents(): int
    {
      |eventList|
    }

    /** Memoize: evaluates `expression` only when `key` is not yet stored,
        adds only that key, and returns the stored value. */
    method Memoize(key: string, expression: () -> int) returns (r: int)
      requires Valid()
      requires key == NumberOfNoteEventsKey ==> expression() == CountWhere(eventList, isNote)
      modifies this
      ensures Valid()
      ensures key in old(memoStore) ==>
                r == old(memoStore)[key] && memoStore == old(memoStore) && evaluations == old(evaluations)
      ensures key !in old(memoStore) ==>
                r == expression() && memoStore == old(memoStore)[key := r] && evaluations == old(evaluations) + [key]
    {
      if key !in memoStore {
        var value := expression();
        memoStore := memoStore[key := value];
        evaluations := evaluations + [key];
      }
      r := memoStore[key];
    }

    /** NumberOfNoteEvents: the number of events satisfying isNote, counted
        once and then read from the memo store. */
    method NumberOfNoteEvents() returns (r: int)
      requires Valid()
      modifies this
      ensures Valid()
      ensures r == CountWhere(eventList, isNote)
      ensures memoStore == old(memoStore)[NumberOfNoteEventsKey := r]
      ensures evaluations == old(evaluations) + (if NumberOfNoteEventsKey in old(memoStore) then [] else [NumberOfNoteEventsKey])
    {
      var events, note := eventList, isNote;
      r := Memoize(NumberOfNoteEventsKey, () => CountWhere(events, note));
    }

    /** Equals: another FormatData with the same Now, NumberOfEvents and
        Guid; null (and any other type) is never equal. */
    predicate Equals(other: FormatData?<E>)
    {
      other != null && now == other.now && NumberOfEvents() == other.NumberOfEvents() && guid == other.guid
    }

    /** GetHashCode: HashCode.Combine over the same three fields; the
        combiner is seeded per process, so it is a parameter here. */
    function GetHashCode(combine: (int, int, int) -> int): int
    {
      combine(now, NumberOfEvents(), guid)
    }
  }

  /** Equals is an equivalence relation on non-null objects. */
  lemma EqualsIsEquivalence<E>(a: FormatData<E>, b: FormatData<E>, c: FormatData<E>)
    ensures a.Equals(a)
    ensures a.Equals(b) ==> b.Equals(a)
    ensures a.Equals(b) && b.Equals(c) ==> a.Equals(c)
  {
  }

  /** The note count plays no part in equality: two objects over event
      lists of the same length, with the same Now and Guid, are equal
      whatever their events and note predicates. */
  lemma EqualsIgnoresNoteCount<E>(a: FormatData<E>, b: FormatData<E>)
    requires a.now == b.now && a.guid == b.guid && |a.eventList| == |b.eventList|
    ensures a.Equals(b)
  {
  }

  /** Equal objects have equal hash codes, for every combiner. */
  lemma EqualObjectsHaveEqualHashes<E>(a: FormatData<E>, b: FormatData<E>, combine: (int, int, int) -> int)
    requires a.Equals(b)
    ensures a.GetHashCode(combine) == b.GetHashCode(combine)
  {
  }

  /** The unit test: a note-on and a tempo event give two events, one of
      them a note; asking twice evaluates the count once. */
  method CountsScenario() returns (events: int, notes: int, notesAgain: int)
    ensures events == 2 && notes == 1 && notesAgain == 1
  {
    var list := [NoteEvent(11, 1, NoteOn, 78, 34), MetaEvent(333, 1, SetTempo)];
    var data := new FormatData(0, list, 0, NAudioMidiEventAnalyzer.IsNote);
    events := data.NumberOfEvents();
    assert list[1..][1..] == [];
    notes := data.NumberOfNoteEvents();
    notesAgain := data.NumberOfNoteEvents();
    assert data.evaluations == [NumberOfNoteEventsKey];
  }
}
