/** The query all three track builders share: group the events by a key
    (GroupBy, whose groups keep input order), order the groups by ascending
    key (OrderBy), one track per group. */
module TrackGrouping {
  import TimedStreams

  predicate NoDuplicates<K(==)>(ks: seq<K>)
  {
    forall i, j :: 0 <= i < j < |ks| ==> ks[i] != ks[j]
  }

  /** The key order: irreflexive, transitive and total on distinct keys
      (Comparer<TKey>.Default on the keys used here). */
  ghost predicate StrictTotalOrder<K(!new)>(less: (K, K) -> bool)
  {
    && (forall a :: !less(a, a))
    && (forall a, b, c :: less(a, b) && less(b, c) ==> less(a, c))
    && (forall a, b :: a != b ==> less(a, b) || less(b, a))
  }

  predicate SortedBy<K(==,!new)>(ks: seq<K>, less: (K, K) -> bool)
  {
    forall i, j :: 0 <= i < j < |ks| ==> less(ks[i], ks[j])
  }

  /** The keys of s, each once, in order of first appearance. */
  function DistinctKeys<E, K(==,!new)>(s: seq<E>, key: E -> K): (r: seq<K>)
    ensures NoDuplicates(r)
    ensures forall k :: k in r <==> exists i :: 0 <= i < |s| && key(s[i]) == k
    ensures |r| <= |s|
  {
    if s == [] then []
    else
      var front := DistinctKeys(s[..|s| - 1], key);
      assert forall i :: 0 <= i < |s| - 1 ==> s[..|s| - 1][i] == s[i];
      if key(s[|s| - 1]) in front then front else front + [key(s[|s| - 1])]
  }

  /** The events of s whose key is k, in input order. */
  function KeyGroup<E, K(==,!new)>(s: seq<E>, key: E -> K, k: K): (r: seq<E>)
    ensures |r| <= |s|
    ensures forall i :: 0 <= i < |r| ==> key(r[i]) == k
    ensures forall i :: 0 <= i < |s| && key(s[i]) == k ==> s[i] in r
    ensures forall e :: e in r ==> e in s
  {
    if s == [] then []
    else (if key(s[0]) == k then [s[0]] else []) + KeyGroup(s[1..], key, k)
  }

  /** Insertion of k before the first key it is less than. */
  function Insert<K(==,!new)>(k: K, ks: seq<K>, less: (K, K) -> bool): (r: seq<K>)
    ensures |r| == |ks| + 1
    ensures forall x :: x in r <==> x == k || x in ks
  {
    if ks == [] || less(k, ks[0]) then [k] + ks else [ks[0]] + Insert(k, ks[1..], less)
  }

  /** OrderBy on distinct keys, by insertion. */
  function SortKeys<K(==,!new)>(ks: seq<K>, less: (K, K) -> bool): (r: seq<K>)
    ensures |r| == |ks|
    ensures forall x :: x in r <==> x in ks
  {
    if ks == [] then [] else Insert(ks[0], SortKeys(ks[1..], less), less)
  }

  lemma ConsKeepsDistinct<K>(k: K, ks: seq<K>)
    requires NoDuplicates(ks) && k !in ks
    ensures NoDuplicates([k] + ks)
  {
    forall i, j | 0 <= i < j < |[k] + ks|
      ensures ([k] + ks)[i] != ([k] + ks)[j]
    {
      if i == 0 {
        assert ([k] + ks)[j] == ks[j - 1];
      } else {
        assert ([k] + ks)[i] == ks[i - 1] && ([k] + ks)[j] == ks[j - 1];
      }
    }
  }

  lemma {:induction false} InsertKeepsDistinct<K(!new)>(k: K, ks: seq<K>, less: (K, K) -> bool)
    requires NoDuplicates(ks) && k !in ks
    ensures NoDuplicates(Insert(k, ks, less))
  {
    if ks == [] || less(k, ks[0]) {
      ConsKeepsDistinct(k, ks);
    } else {
      assert ks == [ks[0]] + ks[1..];
      assert NoDuplicates(ks[1..]);
      InsertKeepsDistinct(k, ks[1..], less);
      assert ks[0] !in ks[1..];
      ConsKeepsDistinct(ks[0], Insert(k, ks[1..], less));
    }
  }

  /** Sorting distinct keys keeps them distinct. */
  lemma {:induction false} SortKeysDistinct<K(!new)>(ks: seq<K>, less: (K, K) -> bool)
    requires NoDuplicates(ks)
    ensures NoDuplicates(SortKeys(ks, less))
  {
    if ks != [] {
      SortKeysDistinct(ks[1..], less);
      InsertKeepsDistinct(ks[0], SortKeys(ks[1..], less), less);
    }
  }

  lemma {:induction false} InsertSorted<K(!new)>(k: K, ks: seq<K>, less: (K, K) -> bool)
    requires StrictTotalOrder(less)
    requires SortedBy(ks, less) && k !in ks
    ensures SortedBy(Insert(k, ks, less), less)
  {
    if ks == [] || less(k, ks[0]) {
    } else {
      assert less(ks[0], k);
      InsertSorted(k, ks[1..], less);
      var tail := Insert(k, ks[1..], less);
      forall j | 0 <= j < |tail|
        ensures less(ks[0], tail[j])
      {
        assert tail[j] in tail;
        if tail[j] != k {
          var m :| 0 <= m < |ks[1..]| && ks[1..][m] == tail[j];
          assert ks[m + 1] == tail[j];
        }
      }
      var r := [ks[0]] + tail;
      forall i, j | 0 <= i < j < |r|
        ensures less(r[i], r[j])
      {
        if i == 0 {
          assert r[j] == tail[j - 1];
        } else {
          assert r[i] == tail[i - 1] && r[j] == tail[j - 1];
        }
      }
    }
  }

  /** Under a strict total order the sorted keys are in ascending order. */
  lemma {:induction false} SortKeysSorted<K(!new)>(ks: seq<K>, less: (K, K) -> bool)
    requires StrictTotalOrder(less)
    requires NoDuplicates(ks)
    ensures SortedBy(SortKeys(ks, less), less)
  {
    if ks != [] {
      SortKeysSorted(ks[1..], less);
      InsertSorted(ks[0], SortKeys(ks[1..], less), less);
    }
  }

  /** One group per key of ks, in the order of ks. */
  function GroupsFor<E, K(==,!new)>(s: seq<E>, key: E -> K, ks: seq<K>): (r: seq<seq<E>>)
    ensures |r| == |ks|
    ensures forall t :: 0 <= t < |r| ==> r[t] == KeyGroup(s, key, ks[t])
  {
    if ks == [] then [] else [KeyGroup(s, key, ks[0])] + GroupsFor(s, key, ks[1..])
  }

  /** The groups of the query: by key, in ascending key order. */
  function Groups<E, K(==,!new)>(s: seq<E>, key: E -> K, less: (K, K) -> bool): seq<seq<E>>
  {
    GroupsFor(s, key, SortKeys(DistinctKeys(s, key), less))
  }

  /** The key of each group. */
  function GroupKeys<E, K(==,!new)>(s: seq<E>, key: E -> K, less: (K, K) -> bool): seq<K>
  {
    SortKeys(DistinctKeys(s, key), less)
  }

  /** Adding an event in front adds it to the group of its key alone. */
  lemma {:induction false} FlattenGroupsCons<E, K(!new)>(e: E, rest: seq<E>, key: E -> K, ks: seq<K>)
    requires NoDuplicates(ks)
    ensures multiset(TimedStreams.Flatten(GroupsFor([e] + rest, key, ks)))
         == (if key(e) in ks then multiset{e} else multiset{}) + multiset(TimedStreams.Flatten(GroupsFor(rest, key, ks)))
  {
    if ks != [] {
      FlattenGroupsCons(e, rest, key, ks[1..]);
      FlattenGroupsConsStep(e, rest, key, ks);
    }
  }

  lemma FlattenGroupsConsStep<E, K(!new)>(e: E, rest: seq<E>, key: E -> K, ks: seq<K>)
    requires ks != [] && NoDuplicates(ks)
    requires multiset(TimedStreams.Flatten(GroupsFor([e] + rest, key, ks[1..])))
          == (if key(e) in ks[1..] then multiset{e} else multiset{}) + multiset(TimedStreams.Flatten(GroupsFor(rest, key, ks[1..])))
    ensures multiset(TimedStreams.Flatten(GroupsFor([e] + rest, key, ks)))
         == (if key(e) in ks then multiset{e} else multiset{}) + multiset(TimedStreams.Flatten(GroupsFor(rest, key, ks)))
  {
    var g0, h0 := KeyGroup([e] + rest, key, ks[0]), KeyGroup(rest, key, ks[0]);
    var g, h := GroupsFor([e] + rest, key, ks[1..]), GroupsFor(rest, key, ks[1..]);
    assert GroupsFor([e] + rest, key, ks) == [g0] + g;
    assert GroupsFor(rest, key, ks) == [h0] + h;
    FlattenConsMultiset(g0, g);
    FlattenConsMultiset(h0, h);
    assert ([e] + rest)[1..] == rest;
    assert multiset(g0) == (if key(e) == ks[0] then multiset{e} else multiset{}) + multiset(h0);
    assert key(e) == ks[0] ==> key(e) !in ks[1..];
    MultisetCons(e, key(e) == ks[0], key(e) in ks[1..], multiset(g0), multiset(h0),
      multiset(TimedStreams.Flatten(g)), multiset(TimedStreams.Flatten(h)));
  }

  lemma FlattenConsMultiset<E>(g0: seq<E>, g: seq<seq<E>>)
    ensures multiset(TimedStreams.Flatten([g0] + g)) == multiset(g0) + multiset(TimedStreams.Flatten(g))
  {
    assert ([g0] + g)[1..] == g;
  }

  lemma MultisetCons<E>(e: E, inHead: bool, inTail: bool, g0: multiset<E>, h0: multiset<E>, g: multiset<E>, h: multiset<E>)
    requires g0 == (if inHead then multiset{e} else multiset{}) + h0
    requires g == (if inTail then multiset{e} else multiset{}) + h
    requires !(inHead && inTail)
    ensures g0 + g == (if inHead || inTail then multiset{e} else multiset{}) + (h0 + h)
  {
  }

  /** The groups for a list of distinct keys covering every event hold
      each event exactly once. */
  lemma {:induction false} GroupsForPartition<E, K(!new)>(s: seq<E>, key: E -> K, ks: seq<K>)
    requires NoDuplicates(ks)
    requires forall i :: 0 <= i < |s| ==> key(s[i]) in ks
    ensures multiset(TimedStreams.Flatten(GroupsFor(s, key, ks))) == multiset(s)
  {
    if s == [] {
      GroupsForEmpty(key, ks);
    } else {
      assert s == [s[0]] + s[1..];
      GroupsForPartition(s[1..], key, ks);
      FlattenGroupsCons(s[0], s[1..], key, ks);
    }
  }

  lemma {:induction false} GroupsForEmpty<E, K(!new)>(key: E -> K, ks: seq<K>)
    ensures TimedStreams.Flatten(GroupsFor([], key, ks)) == []
  {
    if ks != [] {
      GroupsForEmpty(key, ks[1..]);
    }
  }

  /** Every event lands in exactly one track: the tracks together hold the
      input events, each as often as in the input; an event is in track t
      iff its key is the key of t; the keys of different tracks differ;
      there are as many tracks as distinct keys and none is empty. */
  lemma GroupsPartition<E, K(!new)>(s: seq<E>, key: E -> K, less: (K, K) -> bool)
    ensures multiset(TimedStreams.Flatten(Groups(s, key, less))) == multiset(s)
    ensures |Groups(s, key, less)| == |DistinctKeys(s, key)| == |GroupKeys(s, key, less)|
    ensures NoDuplicates(GroupKeys(s, key, less))
    ensures forall t, i :: 0 <= t < |Groups(s, key, less)| && 0 <= i < |s| ==>
              (s[i] in Groups(s, key, less)[t] <==> key(s[i]) == GroupKeys(s, key, less)[t])
    ensures forall t :: 0 <= t < |Groups(s, key, less)| ==> Groups(s, key, less)[t] != []
  {
    var ks := GroupKeys(s, key, less);
    SortKeysDistinct(DistinctKeys(s, key), less);
    GroupsForPartition(s, key, ks);
    GroupsForMembership(s, key, ks);
  }

  /** An event is in the group of a key iff it has that key, and the group
      of a key some event has is not empty. */
  lemma GroupsForMembership<E, K(!new)>(s: seq<E>, key: E -> K, ks: seq<K>)
    requires forall k :: k in ks ==> exists i :: 0 <= i < |s| && key(s[i]) == k
    ensures forall t, i :: 0 <= t < |ks| && 0 <= i < |s| ==>
              (s[i] in GroupsFor(s, key, ks)[t] <==> key(s[i]) == ks[t])
    ensures forall t :: 0 <= t < |ks| ==> GroupsFor(s, key, ks)[t] != []
  {
    forall t | 0 <= t < |ks|
      ensures KeyGroup(s, key, ks[t]) != []
    {
      assert ks[t] in ks;
      var i :| 0 <= i < |s| && key(s[i]) == ks[t];
      assert s[i] in KeyGroup(s, key, ks[t]);
    }
  }

  /** The tracks come in ascending key order. */
  lemma GroupsAscending<E, K(!new)>(s: seq<E>, key: E -> K, less: (K, K) -> bool)
    requires StrictTotalOrder(less)
    ensures SortedBy(GroupKeys(s, key, less), less)
  {
    SortKeysSorted(DistinctKeys(s, key), less);
  }

  /** No events, no tracks. */
  lemma NoEventsNoGroups<E, K(!new)>(s: seq<E>, key: E -> K, less: (K, K) -> bool)
    ensures Groups(s, key, less) == [] <==> s == []
  {
    if s != [] {
      assert key(s[0]) in DistinctKeys(s, key);
    }
  }

  /** Ascending integer order. */
  function IntLess(a: int, b: int): bool
  {
    a < b
  }

  lemma IntLessIsStrictTotalOrder()
    ensures StrictTotalOrder(IntLess)
  {
  }

  /** A track without its last element (its end-of-track marker). */
  function Body<E>(track: seq<E>): seq<E>
  {
    if track == [] then [] else track[..|track| - 1]
  }

  /** The bodies of all tracks. */
  function Bodies<E>(tracks: seq<seq<E>>): (r: seq<seq<E>>)
    ensures |r| == |tracks|
    ensures forall t :: 0 <= t < |r| ==> r[t] == Body(tracks[t])
  {
    if tracks == [] then [] else [Body(tracks[0])] + Bodies(tracks[1..])
  }

  /** A group of distinct events has no event twice. */
  lemma {:induction false} KeyGroupDistinct<E, K(!new)>(s: seq<E>, key: E -> K, k: K)
    requires NoDuplicates(s)
    ensures NoDuplicates(KeyGroup(s, key, k))
  {
    if s != [] {
      assert NoDuplicates(s[1..]);
      KeyGroupDistinct(s[1..], key, k);
      if key(s[0]) == k {
        assert s[0] !in s[1..];
        assert s[0] !in KeyGroup(s[1..], key, k);
        ConsKeepsDistinct(s[0], KeyGroup(s[1..], key, k));
      } else {
        assert KeyGroup(s, key, k) == KeyGroup(s[1..], key, k);
      }
    }
  }
}
