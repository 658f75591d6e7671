/** RealPriorityQueue: a min priority queue made stable by pairing every
    priority with a timestamp and comparing the pairs lexicographically.
    The underlying heap is kept as the sequence of its entries (their order
    in the heap array plays no part in what the queue promises); the
    timestamp source, Stopwatch.GetTimestamp, is an argument of the
    operations that read it. */
module RealPriorityQueues {
  import opened Wrappers

  datatype QueueError = InvalidOperation

  /** An element with its priority and the stamp it was enqueued with. */
  datatype Entry<E, P> = Entry(element: E, priority: P, stamp: int)

  function Sign(x: int): int
  {
    if x < 0 then -1 else if x > 0 then 1 else 0
  }

  /** What IComparer<T> promises: reflexive, antisymmetric in sign and
      transitive. */
  ghost predicate ValidComparer<P(!new)>(cmp: (P, P) -> int)
  {
    && (forall a :: cmp(a, a) == 0)
    && (forall a, b :: Sign(cmp(a, b)) == -Sign(cmp(b, a)))
    && (forall a, b, c :: cmp(a, b) <= 0 && cmp(b, c) <= 0 ==> cmp(a, c) <= 0)
  }

  /** long.CompareTo. */
  function CompareStamps(x: int, y: int): int
  {
    if x < y then -1 else if x > y then 1 else 0
  }

  /** TimestampComparer.Compare: the priorities first, the stamps on a tie. */
  function TimestampCompare<P>(cmp: (P, P) -> int, x: (P, int), y: (P, int)): int
  {
    var result := cmp(x.0, y.0);
    if result == 0 then CompareStamps(x.1, y.1) else result
  }

  /** PriorityComparer.Compare: both priorities paired with stamp 0. */
  function PriorityCompare<P>(cmp: (P, P) -> int, x: P, y: P): int
  {
    TimestampCompare(cmp, (x, 0), (y, 0))
  }

  /** The order is lexicographic: a smaller priority wins, and on equal
      priorities the smaller stamp. */
  lemma TimestampCompareIsLexicographic<P>(cmp: (P, P) -> int, x: (P, int), y: (P, int))
    ensures cmp(x.0, y.0) < 0 ==> TimestampCompare(cmp, x, y) < 0
    ensures cmp(x.0, y.0) > 0 ==> TimestampCompare(cmp, x, y) > 0
    ensures cmp(x.0, y.0) == 0 ==> Sign(TimestampCompare(cmp, x, y)) == Sign(x.1 - y.1)
  {
  }

  /** The pair comparer is a valid comparer whenever the priority comparer
      is. */
  lemma TimestampCompareValid<P(!new)>(cmp: (P, P) -> int)
    requires ValidComparer(cmp)
    ensures ValidComparer((x: (P, int), y: (P, int)) => TimestampCompare(cmp, x, y))
  {
    forall a: (P, int), b: (P, int), c: (P, int) | TimestampCompare(cmp, a, b) <= 0 && TimestampCompare(cmp, b, c) <= 0
      ensures TimestampCompare(cmp, a, c) <= 0
    {
      if cmp(a.0, c.0) == 0 {
        assert cmp(c.0, a.0) == 0 by {
          assert Sign(cmp(a.0, c.0)) == -Sign(cmp(c.0, a.0));
        }
      }
    }
  }

  /** PriorityComparer gives back the priority comparer it wraps. */
  lemma PriorityCompareRecoversComparer<P>(cmp: (P, P) -> int, x: P, y: P)
    ensures PriorityCompare(cmp, x, y) == cmp(x, y)
  {
  }

  function KeyOf<E, P>(e: Entry<E, P>): (P, int)
  {
    (e.priority, e.stamp)
  }

  /** Entry i compares at most equal to every entry. */
  ghost predicate IsMinimal<E, P>(cmp: (P, P) -> int, entries: seq<Entry<E, P>>, i: int)
  {
    && 0 <= i < |entries|
    && forall j :: 0 <= j < |entries| ==> TimestampCompare(cmp, KeyOf(entries[i]), KeyOf(entries[j])) <= 0
  }

  /** The entries without the one at i. */
  function Without<E, P>(entries: seq<Entry<E, P>>, i: int): (r: seq<Entry<E, P>>)
    requires 0 <= i < |entries|
    ensures |r| == |entries| - 1
    ensures multiset(r) + multiset{entries[i]} == multiset(entries)
  {
    assert entries == entries[..i] + [entries[i]] + entries[i + 1..];
    entries[..i] + entries[i + 1..]
  }

  /** A minimal entry is never beaten by an entry of equal priority with a
      smaller stamp: among equal priorities the first enqueued comes out
      first. */
  lemma MinimalIsStable<E, P(!new)>(cmp: (P, P) -> int, entries: seq<Entry<E, P>>, i: int, j: int)
    requires ValidComparer(cmp)
    requires IsMinimal(cmp, entries, i)
    requires 0 <= j < |entries| && cmp(entries[j].priority, entries[i].priority) == 0
    ensures entries[i].stamp <= entries[j].stamp
  {
    assert TimestampCompare(cmp, KeyOf(entries[i]), KeyOf(entries[j])) <= 0;
    assert Sign(cmp(entries[j].priority, entries[i].priority)) == -Sign(cmp(entries[i].priority, entries[j].priority));
  }

  /** The entries of the items constructor: the i-th item stamped with i. */
  function StampedItems<E, P>(items: seq<(E, P)>): (r: seq<Entry<E, P>>)
    ensures |r| == |items|
    ensures forall i :: 0 <= i < |r| ==> r[i] == Entry(items[i].0, items[i].1, i)
  {
    seq(|items|, i requires 0 <= i < |items| => Entry(items[i].0, items[i].1, i))
  }

  /** Initial items of equal priority come out in input order. */
  lemma StampedItemsInInputOrder<E, P(!new)>(cmp: (P, P) -> int, items: seq<(E, P)>, i: int, j: int)
    requires ValidComparer(cmp)
    requires IsMinimal(cmp, StampedItems(items), i)
    requires 0 <= j < |items| && cmp(items[j].1, items[i].1) == 0
    ensures i <= j
  {
    MinimalIsStable(cmp, StampedItems(items), i, j);
  }

  class RealPriorityQueue<E, P(!new)> {
    /** The priority comparer (Comparer<TPriority>.Default when none is given). */
    const cmp: (P, P) -> int
    /** The contents of the underlying PriorityQueue. */
    var entries: seq<Entry<E, P>>

    ghost predicate Valid()
      reads this
    {
      ValidComparer(cmp)
    }

    /** The constructors taking no items: an empty queue. */
    constructor (cmp: (P, P) -> int)
      requires ValidComparer(cmp)
      ensures Valid() && this.cmp == cmp && entries == []
    {
      this.cmp := cmp;
      entries := [];
    }

    /** The constructors taking items: the i-th item with stamp i. */
    constructor FromItems(items: seq<(E, P)>, cmp: (P, P) -> int)
      requires ValidComparer(cmp)
      ensures Valid() && this.cmp == cmp && entries == StampedItems(items)
    {
      this.cmp := cmp;
      entries := StampedItems(items);
    }

    function Count(): int
      reads this
    {
      |entries|
    }

    /** Comparer: the PriorityComparer around the pair comparer. */
    function Comparer(): (P, P) -> int
      reads this
    {
      (x: P, y: P) => PriorityCompare(cmp, x, y)
    }

    /** Enqueue: one more entry, stamped with the current timestamp. */
    method Enqueue(element: E, priority: P, timestamp: int)
      requires Valid()
      modifies this
      ensures Valid()
      ensures entries == old(entries) + [Entry(element, priority, timestamp)]
      ensures Count() == old(Count()) + 1
    {
      entries := entries + [Entry(element, priority, timestamp)];
    }

    /** The position of a minimal entry, found by a linear scan. */
    method MinIndex() returns (best: int)
      requires Valid() && entries != []
      ensures IsMinimal(cmp, entries, best)
    {
      TimestampCompareValid(cmp);
      best := 0;
      for i := 1 to |entries|
        invariant 0 <= best < i
        invariant forall j :: 0 <= j < i ==> TimestampCompare(cmp, KeyOf(entries[best]), KeyOf(entries[j])) <= 0
      {
        if TimestampCompare(cmp, KeyOf(entries[i]), KeyOf(entries[best])) < 0 {
          best := i;
        } else {
          assert Sign(TimestampCompare(cmp, KeyOf(entries[i]), KeyOf(entries[best])))
              == -Sign(TimestampCompare(cmp, KeyOf(entries[best]), KeyOf(entries[i])));
        }
      }
    }

    /** Peek: a minimal element, nothing removed; on an empty queue
        InvalidOperationException. */
    method Peek() returns (r: Result<E, QueueError>)
      requires Valid()
      ensures r.Failure? <==> entries == []
      ensures r.Success? ==> exists i :: IsMinimal(cmp, entries, i) && entries[i].element == r.value
    {
      if entries == [] {
        return Failure(InvalidOperation);
      }
      var i := MinIndex();
      r := Success(entries[i].element);
    }

    /** Dequeue: removes and returns a minimal element; on an empty queue
        InvalidOperationException and no change. */
    method Dequeue() returns (r: Result<E, QueueError>)
      requires Valid()
      modifies this
      ensures Valid()
      ensures r.Failure? <==> old(entries) == []
      ensures r.Failure? ==> entries == old(entries)
      ensures r.Success? ==> exists i :: IsMinimal(cmp, old(entries), i) && old(entries)[i].element == r.value
                                       && entries == Without(old(entries), i)
      ensures r.Success? ==> Count() == old(Count()) - 1
    {
      if entries == [] {
        return Failure(InvalidOperation);
      }
      var i := MinIndex();
      r := Success(entries[i].element);
      entries := Without(entries, i);
    }

    /** TryDequeue: false (None) on an empty queue, which is left as it
        is; otherwise the minimal element and its priority, removed. */
    method TryDequeue() returns (r: Option<(E, P)>)
      requires Valid()
      modifies this
      ensures Valid()
      ensures r.None? <==> old(entries) == []
      ensures r.None? ==> entries == old(entries)
      ensures r.Some? ==> exists i :: IsMinimal(cmp, old(entries), i) && r.value == (old(entries)[i].element, old(entries)[i].priority)
                                    && entries == Without(old(entries), i)
    {
      if entries == [] {
        return None;
      }
      var i := MinIndex();
      r := Some((entries[i].element, entries[i].priority));
      entries := Without(entries, i);
    }

    /** TryPeek: false (None) on an empty queue; otherwise the minimal
        element and its priority; nothing removed. */
    method TryPeek() returns (r: Option<(E, P)>)
      requires Valid()
      ensures r.None? <==> entries == []
      ensures r.Some? ==> exists i :: IsMinimal(cmp, entries, i) && r.value == (entries[i].element, entries[i].priority)
    {
      if entries == [] {
        return None;
      }
      var i := MinIndex();
      r := Some((entries[i].element, entries[i].priority));
    }

    /** EnqueueDequeue: when the queue is empty or the new entry compares
        at most equal to the minimum, the new element is returned and the
        queue is unchanged; otherwise the minimum is removed and returned
        and the new entry takes its place.  Either way the result is a
        minimal element of the old contents plus the new entry, and the
        count is unchanged. */
    method EnqueueDequeue(element: E, priority: P, timestamp: int) returns (r: E)
      requires Valid()
      modifies this
      ensures Valid()
      ensures Count() == old(Count())
      ensures var all := old(entries) + [Entry(element, priority, timestamp)];
        exists i :: IsMinimal(cmp, all, i) && all[i].element == r && multiset(entries) + multiset{all[i]} == multiset(all)
    {
      var added := Entry(element, priority, timestamp);
      var all := entries + [added];
      TimestampCompareValid(cmp);
      if entries == [] {
        assert IsMinimal(cmp, all, 0);
        assert multiset(entries) + multiset{all[0]} == multiset(all);
        return element;
      }
      var i := MinIndex();
      if TimestampCompare(cmp, KeyOf(added), KeyOf(entries[i])) <= 0 {
        assert IsMinimal(cmp, all, |entries|);
        r := element;
      } else {
        assert Sign(TimestampCompare(cmp, KeyOf(added), KeyOf(entries[i])))
            == -Sign(TimestampCompare(cmp, KeyOf(entries[i]), KeyOf(added)));
        assert IsMinimal(cmp, all, i);
        r := entries[i].element;
        var rest := Without(entries, i);
        entries := rest + [added];
        assert multiset(entries) + multiset{all[i]} == multiset(all);
      }
    }

    /** EnqueueRange(items): each item with the timestamp read for it. */
    method EnqueueRange(items: seq<(E, P)>, timestamps: seq<int>)
      requires Valid()
      requires |timestamps| == |items|
      modifies this
      ensures Valid()
      ensures entries == old(entries) + seq(|items|, i requires 0 <= i < |items| => Entry(items[i].0, items[i].1, timestamps[i]))
      ensures Count() == old(Count()) + |items|
    {
      entries := entries + seq(|items|, i requires 0 <= i < |items| => Entry(items[i].0, items[i].1, timestamps[i]));
    }

    /** EnqueueRange(elements, priority): every element with the same
        priority and one timestamp, so their mutual order is unspecified. */
    method EnqueueRangeWithPriority(elements: seq<E>, priority: P, timestamp: int)
      requires Valid()
      modifies this
      ensures Valid()
      ensures entries == old(entries) + seq(|elements|, i requires 0 <= i < |elements| => Entry(elements[i], priority, timestamp))
      ensures Count() == old(Count()) + |elements|
    {
      entries := entries + seq(|elements|, i requires 0 <= i < |elements| => Entry(elements[i], priority, timestamp));
    }

    /** Clear: no entries. */
    method Clear()
      requires Valid()
      modifies this
      ensures Valid()
      ensures entries == [] && Count() == 0
    {
      entries := [];
    }
  }

  /** Comparer<int>.Default. */
  function IntCompare(x: int, y: int): int
  {
    CompareStamps(x, y)
  }

  lemma IntCompareValid()
    ensures ValidComparer(IntCompare)
  {
  }

  /** Of a, b (priority 1) and c (priority 0), enqueued in that order onto an
      empty queue, only c is minimal. */
  lemma FirstOutScenario(e: seq<Entry<char, int>>, i: int)
    requires e == [] + [Entry('a', 1, 5)] + [Entry('b', 1, 6)] + [Entry('c', 0, 7)]
    requires IsMinimal(IntCompare, e, i)
    ensures i == 2 && Without(e, i) == [Entry('a', 1, 5), Entry('b', 1, 6)]
  {
    assert !IsMinimal(IntCompare, e, 0) by {
      assert TimestampCompare(IntCompare, KeyOf(e[0]), KeyOf(e[2])) > 0;
    }
    assert !IsMinimal(IntCompare, e, 1) by {
      assert TimestampCompare(IntCompare, KeyOf(e[1]), KeyOf(e[2])) > 0;
    }
  }

  /** Of a and b, both of priority 1, the earlier stamp is minimal. */
  lemma SecondOutScenario(e: seq<Entry<char, int>>, i: int)
    requires e == [Entry('a', 1, 5), Entry('b', 1, 6)]
    requires IsMinimal(IntCompare, e, i)
    ensures i == 0
  {
    assert !IsMinimal(IntCompare, e, 1) by {
      assert TimestampCompare(IntCompare, KeyOf(e[1]), KeyOf(e[0])) > 0;
    }
  }

  /** Two elements of priority 1 and then one of priority 0: the priority-0
      element comes out first, then the earlier of the two others. */
  method StableOrderScenario() returns (first: Result<char, QueueError>, second: Result<char, QueueError>)
    ensures first == Success('c') && second == Success('a')
  {
    IntCompareValid();
    var q := new RealPriorityQueue<char, int>(IntCompare);
    q.Enqueue('a', 1, 5);
    q.Enqueue('b', 1, 6);
    q.Enqueue('c', 0, 7);
    ghost var e := q.entries;
    first := q.Dequeue();
    ghost var i :| IsMinimal(IntCompare, e, i) && e[i].element == first.value && q.entries == Without(e, i);
    FirstOutScenario(e, i);
    ghost var e2 := q.entries;
    second := q.Dequeue();
    ghost var i2 :| IsMinimal(IntCompare, e2, i2) && e2[i2].element == second.value && q.entries == Without(e2, i2);
    SecondOutScenario(e2, i2);
  }
}
