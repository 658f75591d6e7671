/** Finite, time-stamped streams over discrete integer time, and the reactive
    operators the take splitter is composed of (Where, Select, Throttle, Merge,
    DistinctUntilChanged, Window).

    A finite stream stands for the observed prefix of a stream that does not
    complete: every throttle timer that is still pending after the last value
    eventually fires.  Values that come from the source events and arrive at
    the same tick are delivered in sequence order, before any timer due at
    that tick.  Two timers due at the same tick fire in the order they were
    scheduled; that order is not modelled, so a value that a timer delivers
    is treated like an event value at its tick (see Quiesces). */
module TimedStreams {
  import opened Wrappers

  datatype Timed<+T> = Timed(time: int, value: T)

  /** Times never go backwards. */
  predicate Chronological<T>(s: seq<Timed<T>>) {
    forall i, j :: 0 <= i < j < |s| ==> s[i].time <= s[j].time
  }

  /** The concatenation of a sequence of sequences. */
  function Flatten<T>(ss: seq<seq<T>>): seq<T> {
    if ss == [] then [] else ss[0] + Flatten(ss[1..])
  }

  // ---------------------------------------------------------------------------
  // Where and Select

  /** The values satisfying p, in order, at their own times. */
  function Where<T>(s: seq<Timed<T>>, p: T -> bool): (r: seq<Timed<T>>)
    ensures |r| <= |s|
  {
    if s == [] then []
    else if p(s[0].value) then [s[0]] + Where(s[1..], p)
    else Where(s[1..], p)
  }

  /** Where keeps exactly the values satisfying p. */
  lemma {:induction false} WhereMembers<T>(s: seq<Timed<T>>, p: T -> bool, x: Timed<T>)
    ensures x in Where(s, p) <==> x in s && p(x.value)
  {
    if s != [] {
      WhereMembers(s[1..], p, x);
      assert x in s <==> x == s[0] || x in s[1..];
    }
  }

  /** Each value mapped through f, at its own time. */
  function Select<T, U>(s: seq<Timed<T>>, f: T -> U): (r: seq<Timed<U>>)
    ensures |r| == |s|
    ensures forall i :: 0 <= i < |s| ==> r[i] == Timed(s[i].time, f(s[i].value))
  {
    if s == [] then [] else [Timed(s[0].time, f(s[0].value))] + Select(s[1..], f)
  }

  /** Filtering distributes over concatenation. */
  lemma {:induction false} WhereAppend<T>(a: seq<Timed<T>>, b: seq<Timed<T>>, p: T -> bool)
    ensures Where(a + b, p) == Where(a, p) + Where(b, p)
  {
    if a != [] {
      WhereAppend(a[1..], b, p);
      assert (a + b)[1..] == a[1..] + b;
    } else {
      assert a + b == b;
    }
  }

  lemma {:induction false} WhereChronological<T>(s: seq<Timed<T>>, p: T -> bool)
    requires Chronological(s)
    ensures Chronological(Where(s, p))
  {
    if s != [] {
      WhereChronological(s[1..], p);
      var rest := Where(s[1..], p);
      forall x | x in rest ensures s[0].time <= x.time {
        WhereMembers(s[1..], p, x);
        var j :| 0 <= j < |s[1..]| && s[1..][j] == x;
        assert s[j + 1] == x;
      }
    }
  }

  lemma SelectChronological<T, U>(s: seq<Timed<T>>, f: T -> U)
    requires Chronological(s)
    ensures Chronological(Select(s, f))
  {
  }

  // ---------------------------------------------------------------------------
  // Throttle (quiescence)

  /** Value i is not superseded within d ticks: it is the last value, or the next
      value arrives strictly after s[i].time + d.  A next value arriving exactly
      at s[i].time + d cancels the pending timer; that is the scheduler's order
      when the next value comes from an event, but not when it comes from a
      timer scheduled after value i arrived, which fires after the throttle's
      own timer. */
  predicate Quiesces<T>(s: seq<Timed<T>>, i: nat, d: nat)
    requires i < |s|
  {
    i == |s| - 1 || s[i + 1].time > s[i].time + d
  }

  /** Emits a value d ticks after it arrived when no newer value arrived in between. */
  function Throttle<T>(s: seq<Timed<T>>, d: nat): (r: seq<Timed<T>>)
    ensures |r| <= |s|
  {
    if s == [] then []
    else if Quiesces(s, 0, d) then [Timed(s[0].time + d, s[0].value)] + Throttle(s[1..], d)
    else Throttle(s[1..], d)
  }

  /** Throttle emits exactly the quiescent values, each delayed by d. */
  lemma {:induction false} ThrottleEmits<T>(s: seq<Timed<T>>, d: nat, x: Timed<T>)
    ensures x in Throttle(s, d) <==>
              exists i :: 0 <= i < |s| && Quiesces(s, i, d) && x == Timed(s[i].time + d, s[i].value)
  {
    if s != [] {
      ThrottleEmits(s[1..], d, x);
      if x in Throttle(s[1..], d) {
        var i :| 0 <= i < |s[1..]| && Quiesces(s[1..], i, d) && x == Timed(s[1..][i].time + d, s[1..][i].value);
        assert Quiesces(s, i + 1, d) && x == Timed(s[i + 1].time + d, s[i + 1].value);
      }
      if exists i :: 0 <= i < |s| && Quiesces(s, i, d) && x == Timed(s[i].time + d, s[i].value) {
        var i :| 0 <= i < |s| && Quiesces(s, i, d) && x == Timed(s[i].time + d, s[i].value);
        if i > 0 {
          assert Quiesces(s[1..], i - 1, d) && x == Timed(s[1..][i - 1].time + d, s[1..][i - 1].value);
        }
      }
    }
  }

  /** Throttling a chronological stream gives a chronological stream. */
  lemma {:induction false} ThrottleChronological<T>(s: seq<Timed<T>>, d: nat)
    requires Chronological(s)
    ensures Chronological(Throttle(s, d))
  {
    if s != [] {
      ThrottleChronological(s[1..], d);
      var rest := Throttle(s[1..], d);
      forall x | x in rest ensures s[0].time + d <= x.time {
        ThrottleEmits(s[1..], d, x);
        var j :| 0 <= j < |s[1..]| && Quiesces(s[1..], j, d) && x == Timed(s[1..][j].time + d, s[1..][j].value);
        assert s[j + 1] == s[1..][j];
      }
    }
  }

  /** The last value of a non-empty stream always quiesces. */
  lemma ThrottleEmitsLast<T>(s: seq<Timed<T>>, d: nat)
    requires s != []
    ensures Timed(s[|s| - 1].time + d, s[|s| - 1].value) in Throttle(s, d)
  {
    ThrottleEmits(s, d, Timed(s[|s| - 1].time + d, s[|s| - 1].value));
  }

  // ---------------------------------------------------------------------------
  // Merge by time

  /** Interleaves two streams by time; at equal times the left stream goes first. */
  function Merge<T>(a: seq<Timed<T>>, b: seq<Timed<T>>): (r: seq<Timed<T>>)
    ensures |r| == |a| + |b|
    decreases |a| + |b|
  {
    if a == [] then b
    else if b == [] then a
    else if a[0].time <= b[0].time then [a[0]] + Merge(a[1..], b)
    else [b[0]] + Merge(a, b[1..])
  }

  /** Merge neither loses nor invents values. */
  lemma {:induction false} MergePermutes<T>(a: seq<Timed<T>>, b: seq<Timed<T>>)
    ensures multiset(Merge(a, b)) == multiset(a) + multiset(b)
    decreases |a| + |b|
  {
    if a != [] && b != [] {
      if a[0].time <= b[0].time {
        MergePermutes(a[1..], b);
        MergeLeftStep(a, b);
      } else {
        MergePermutes(a, b[1..]);
        MergeRightStep(a, b);
      }
    }
  }

  lemma MergeLeftStep<T>(a: seq<Timed<T>>, b: seq<Timed<T>>)
    requires a != [] && b != [] && a[0].time <= b[0].time
    requires multiset(Merge(a[1..], b)) == multiset(a[1..]) + multiset(b)
    ensures multiset(Merge(a, b)) == multiset(a) + multiset(b)
  {
    assert a == [a[0]] + a[1..];
  }

  lemma MergeRightStep<T>(a: seq<Timed<T>>, b: seq<Timed<T>>)
    requires a != [] && b != [] && a[0].time > b[0].time
    requires multiset(Merge(a, b[1..])) == multiset(a) + multiset(b[1..])
    ensures multiset(Merge(a, b)) == multiset(a) + multiset(b)
  {
    assert b == [b[0]] + b[1..];
  }

  /** A prefix of the left stream that arrives no later than the right stream's
      first value is passed through before anything else. */
  lemma {:induction false} MergePrefix<T>(a: seq<Timed<T>>, rest: seq<Timed<T>>, b: seq<Timed<T>>)
    requires b == [] || forall x :: x in a ==> x.time <= b[0].time
    ensures Merge(a + rest, b) == a + Merge(rest, b)
  {
    if a != [] {
      assert a[0] in a;
      assert (a + rest)[1..] == a[1..] + rest;
      MergePrefix(a[1..], rest, b);
    } else {
      assert a + rest == rest;
    }
  }

  lemma MergeMembers<T>(a: seq<Timed<T>>, b: seq<Timed<T>>, x: Timed<T>)
    ensures x in Merge(a, b) <==> x in a || x in b
  {
    MergePermutes(a, b);
    assert x in Merge(a, b) <==> x in multiset(Merge(a, b));
  }

  /** Merging two chronological streams gives a chronological stream. */
  lemma {:induction false} MergeChronological<T>(a: seq<Timed<T>>, b: seq<Timed<T>>)
    requires Chronological(a) && Chronological(b)
    ensures Chronological(Merge(a, b))
    decreases |a| + |b|
  {
    if a != [] && b != [] {
      if a[0].time <= b[0].time {
        MergeChronological(a[1..], b);
        forall x | x in Merge(a[1..], b) ensures a[0].time <= x.time {
          MergeMembers(a[1..], b, x);
        }
      } else {
        MergeChronological(a, b[1..]);
        forall x | x in Merge(a, b[1..]) ensures b[0].time <= x.time {
          MergeMembers(a, b[1..], x);
        }
      }
    }
  }

  // ---------------------------------------------------------------------------
  // DistinctUntilChanged

  /** No two consecutive values are equal. */
  predicate NoRepeats<T(==)>(s: seq<Timed<T>>) {
    forall i :: 0 < i < |s| ==> s[i - 1].value != s[i].value
  }

  /** Drops every value equal to the last value seen (initially `last`). */
  function DistinctAfter<T(==)>(s: seq<Timed<T>>, last: Option<T>): (r: seq<Timed<T>>)
    ensures |r| <= |s|
    ensures forall x :: x in r ==> x in s
    ensures r != [] ==> last != Some(r[0].value)
    ensures NoRepeats(r)
  {
    if s == [] then []
    else if last == Some(s[0].value) then DistinctAfter(s[1..], last)
    else [s[0]] + DistinctAfter(s[1..], Some(s[0].value))
  }

  function DistinctUntilChanged<T(==)>(s: seq<Timed<T>>): seq<Timed<T>> {
    DistinctAfter(s, None)
  }

  /** A stream without consecutive repeats passes through unchanged, so the
      operator is idempotent. */
  lemma {:induction false} DistinctAfterKeepsRepeatFree<T>(s: seq<Timed<T>>, last: Option<T>)
    requires NoRepeats(s)
    requires s != [] ==> last != Some(s[0].value)
    ensures DistinctAfter(s, last) == s
  {
    if s != [] {
      DistinctAfterKeepsRepeatFree(s[1..], Some(s[0].value));
    }
  }

  lemma DistinctUntilChangedIdempotent<T>(s: seq<Timed<T>>)
    ensures DistinctUntilChanged(DistinctUntilChanged(s)) == DistinctUntilChanged(s)
  {
    DistinctAfterKeepsRepeatFree(DistinctUntilChanged(s), None);
  }

  /** Every change of value survives: an element differing from its predecessor
      (or first in the stream, when it differs from `last`) is kept. */
  lemma {:induction false} DistinctAfterKeepsChanges<T>(s: seq<Timed<T>>, last: Option<T>, i: nat)
    requires i < |s|
    requires if i == 0 then last != Some(s[0].value) else s[i - 1].value != s[i].value
    ensures s[i] in DistinctAfter(s, last)
  {
    if i > 0 {
      var next := if last == Some(s[0].value) then last else Some(s[0].value);
      assert next == Some(s[0].value);
      DistinctAfterKeepsChanges(s[1..], next, i - 1);
    }
  }

  lemma {:induction false} DistinctAfterChronological<T>(s: seq<Timed<T>>, last: Option<T>)
    requires Chronological(s)
    ensures Chronological(DistinctAfter(s, last))
  {
    if s != [] {
      DistinctAfterChronological(s[1..], last);
      DistinctAfterChronological(s[1..], Some(s[0].value));
      forall x | x in DistinctAfter(s[1..], Some(s[0].value)) ensures s[0].time <= x.time {
        var j :| 0 <= j < |s[1..]| && s[1..][j] == x;
        assert s[j + 1] == x;
      }
    }
  }

  // ---------------------------------------------------------------------------
  // Window

  /** The number of leading values that arrive at or before tick t. */
  function CountThrough<T>(s: seq<Timed<T>>, t: int): (n: nat)
    ensures n <= |s|
    ensures forall i :: 0 <= i < n ==> s[i].time <= t
    ensures n < |s| ==> s[n].time > t
  {
    if s == [] || s[0].time > t then 0 else 1 + CountThrough(s[1..], t)
  }

  /** In a chronological stream, everything after the first CountThrough(s, t)
      values arrives after tick t. */
  lemma AfterCountThrough<T>(s: seq<Timed<T>>, t: int, x: Timed<T>)
    requires Chronological(s) && x in s[CountThrough(s, t)..]
    ensures t < x.time
  {
    var n := CountThrough(s, t);
    var j :| n <= j < |s| && s[j] == x;
    assert s[n].time <= s[j].time;
  }

  /** The first CountThrough(s, t) values all arrive by tick t. */
  lemma BeforeCountThrough<T>(s: seq<Timed<T>>, t: int, x: Timed<T>)
    requires x in s[..CountThrough(s, t)]
    ensures x.time <= t
  {
    var n := CountThrough(s, t);
    var j :| 0 <= j < n && s[..n][j] == x;
    assert s[j] == x;
  }

  /** Cuts s at every boundary: window k closes at boundary k and holds the values
      that arrived after boundary k-1 and at or before boundary k; the last
      window holds what came after the last boundary and is still open. */
  function Window<T, M>(s: seq<Timed<T>>, boundaries: seq<Timed<M>>): (r: seq<seq<Timed<T>>>)
    ensures |r| == |boundaries| + 1
    ensures Flatten(r) == s
    ensures forall k, x :: 0 <= k < |r| && x in r[k] ==> x in s
  {
    if boundaries == [] then
      assert Flatten([s]) == s + Flatten([]);
      [s]
    else
      var n := CountThrough(s, boundaries[0].time);
      var rest := Window(s[n..], boundaries[1..]);
      assert Flatten([s[..n]] + rest) == s[..n] + Flatten(rest) by {
        assert ([s[..n]] + rest)[1..] == rest;
      }
      assert s == s[..n] + s[n..];
      [s[..n]] + rest
  }

  /** When every value of a arrives by the first boundary and b starts after
      it, the first window of a + b is exactly a and the rest windows b. */
  lemma WindowFirst<T, M>(a: seq<Timed<T>>, b: seq<Timed<T>>, boundaries: seq<Timed<M>>)
    requires boundaries != []
    requires forall i :: 0 <= i < |a| ==> a[i].time <= boundaries[0].time
    requires b != [] ==> b[0].time > boundaries[0].time
    ensures Window(a + b, boundaries) == [a] + Window(b, boundaries[1..])
  {
    var s := a + b;
    assert s[..|a|] == a && s[|a|..] == b;
  }

  /** groups lies between the boundaries as windows do: group k arrives by
      boundary k and, for k > 0, after boundary k-1. */
  ghost predicate SeparatedBy<T, M>(groups: seq<seq<Timed<T>>>, boundaries: seq<Timed<M>>) {
    && |groups| == |boundaries| + 1
    && (forall k, x :: 0 <= k < |boundaries| && x in groups[k] ==> x.time <= boundaries[k].time)
    && (forall k, x :: 0 < k < |groups| && x in groups[k] ==> boundaries[k - 1].time < x.time)
  }

  /** A value of the concatenation lies in one of the parts, so a bound every
      part keeps holds for it. */
  lemma {:induction false} FlattenAfter<T>(groups: seq<seq<Timed<T>>>, t: int)
    requires forall k, x :: 0 <= k < |groups| && x in groups[k] ==> t < x.time
    ensures forall x :: x in Flatten(groups) ==> t < x.time
  {
    if groups != [] {
      FlattenAfter(groups[1..], t);
      forall x | x in Flatten(groups) ensures t < x.time {
        if x !in groups[0] {
          assert x in Flatten(groups[1..]);
        }
      }
    }
  }

  /** Dropping the first group and the first boundary keeps the rest separated,
      and everything after the first group arrives after the first boundary. */
  lemma SeparatedRest<T, M>(groups: seq<seq<Timed<T>>>, boundaries: seq<Timed<M>>)
    requires Chronological(boundaries) && SeparatedBy(groups, boundaries) && boundaries != []
    ensures SeparatedBy(groups[1..], boundaries[1..])
    ensures forall x :: x in Flatten(groups[1..]) ==> boundaries[0].time < x.time
  {
    var rest := groups[1..];
    forall k, x: Timed<T> | 0 <= k < |rest| && x in rest[k] ensures boundaries[0].time < x.time {
      assert x in groups[k + 1];
    }
    FlattenAfter(rest, boundaries[0].time);
    forall k, x: Timed<T> | 0 <= k < |boundaries[1..]| && x in rest[k] ensures x.time <= boundaries[1..][k].time {
      assert x in groups[k + 1];
    }
    forall k, x: Timed<T> | 0 < k < |rest| && x in rest[k] ensures boundaries[1..][k - 1].time < x.time {
      assert x in groups[k + 1];
    }
  }

  /** Windowing undoes concatenation: groups separated by chronological
      boundaries are exactly the windows of their concatenation. */
  lemma {:induction false} WindowOfSeparated<T, M>(groups: seq<seq<Timed<T>>>, boundaries: seq<Timed<M>>)
    requires Chronological(boundaries) && SeparatedBy(groups, boundaries)
    ensures Window(Flatten(groups), boundaries) == groups
  {
    if boundaries == [] {
      assert groups == [groups[0]] && groups[1..] == [];
      assert Flatten(groups) == groups[0] + Flatten(groups[1..]) == groups[0] + [];
      assert groups[0] + [] == groups[0];
    } else {
      SeparatedRest(groups, boundaries);
      ChronologicalSuffix(boundaries, 1);
      WindowOfSeparated(groups[1..], boundaries[1..]);
      WindowOfSeparatedStep(groups, boundaries);
    }
  }

  /** The step of WindowOfSeparated: the first group is the first window
      when the later groups are the later windows. */
  lemma WindowOfSeparatedStep<T, M>(groups: seq<seq<Timed<T>>>, boundaries: seq<Timed<M>>)
    requires SeparatedBy(groups, boundaries) && boundaries != []
    requires forall x :: x in Flatten(groups[1..]) ==> boundaries[0].time < x.time
    requires Window(Flatten(groups[1..]), boundaries[1..]) == groups[1..]
    ensures Window(Flatten(groups), boundaries) == groups
  {
    var first, rest := groups[0], groups[1..];
    assert Flatten(groups) == first + Flatten(rest);
    forall i | 0 <= i < |first| ensures first[i].time <= boundaries[0].time {
      assert first[i] in groups[0];
    }
    if Flatten(rest) != [] {
      assert Flatten(rest)[0] in Flatten(rest);
    }
    WindowFirst(first, Flatten(rest), boundaries);
    assert groups == [first] + rest;
  }

  lemma ChronologicalSuffix<T>(s: seq<Timed<T>>, n: nat)
    requires Chronological(s) && n <= |s|
    ensures Chronological(s[n..])
  {
    forall i, j | 0 <= i < j < |s[n..]| ensures s[n..][i].time <= s[n..][j].time {
      assert s[n..][i] == s[n + i] && s[n..][j] == s[n + j];
    }
  }

  /** Window k holds no value later than boundary k. */
  lemma {:induction false} WindowUpperBound<T, M>(s: seq<Timed<T>>, boundaries: seq<Timed<M>>, k: nat, x: Timed<T>)
    requires k < |boundaries| && x in Window(s, boundaries)[k]
    ensures x.time <= boundaries[k].time
  {
    var n := CountThrough(s, boundaries[0].time);
    WindowUnfold(s, boundaries, k);
    if k == 0 {
      BeforeCountThrough(s, boundaries[0].time, x);
    } else {
      WindowUpperBound(s[n..], boundaries[1..], k - 1, x);
      assert boundaries[1..][k - 1] == boundaries[k];
    }
  }

  /** For a chronological stream, window k (k > 0) holds only values later than
      boundary k-1. */
  lemma {:induction false} WindowLowerBound<T, M>(s: seq<Timed<T>>, boundaries: seq<Timed<M>>, k: nat, x: Timed<T>)
    requires 0 < k <= |boundaries| && x in Window(s, boundaries)[k]
    requires Chronological(s)
    ensures boundaries[k - 1].time < x.time
  {
    var n := CountThrough(s, boundaries[0].time);
    WindowUnfold(s, boundaries, k);
    if k == 1 {
      assert x in s[n..];
      AfterCountThrough(s, boundaries[0].time, x);
    } else {
      ChronologicalSuffix(s, n);
      WindowLowerBound(s[n..], boundaries[1..], k - 1, x);
      assert boundaries[1..][k - 2] == boundaries[k - 1];
    }
  }

  /** When every value of s arrives by tick t, all of s is counted. */
  lemma {:induction false} CountThroughAll<T>(s: seq<Timed<T>>, t: int)
    requires forall i :: 0 <= i < |s| ==> s[i].time <= t
    ensures CountThrough(s, t) == |s|
  {
    if s != [] {
      assert forall i :: 0 <= i < |s[1..]| ==> s[1..][i] == s[i + 1];
      CountThroughAll(s[1..], t);
    }
  }

  /** When every value arrives by the last boundary, the window still open
      after it is empty. */
  lemma {:induction false} WindowLastEmpty<T, M>(s: seq<Timed<T>>, boundaries: seq<Timed<M>>)
    requires boundaries != []
    requires forall x :: x in s ==> x.time <= boundaries[|boundaries| - 1].time
    ensures Window(s, boundaries)[|boundaries|] == []
  {
    if |boundaries| == 1 {
      forall i | 0 <= i < |s| ensures s[i].time <= boundaries[0].time {
        assert s[i] in s;
      }
      CountThroughAll(s, boundaries[0].time);
      WindowUnfold(s, boundaries, 1);
    } else {
      var n := CountThrough(s, boundaries[0].time);
      var rest := boundaries[1..];
      forall x | x in s[n..] ensures x.time <= rest[|rest| - 1].time {
        assert x in s;
      }
      WindowLastEmpty(s[n..], rest);
      WindowUnfold(s, boundaries, |boundaries|);
    }
  }

  /** Window k of s is the first CountThrough values for k = 0, and window k - 1
      of what follows them otherwise. */
  lemma WindowUnfold<T, M>(s: seq<Timed<T>>, boundaries: seq<Timed<M>>, k: nat)
    requires k <= |boundaries| && boundaries != []
    ensures var n := CountThrough(s, boundaries[0].time);
            Window(s, boundaries)[k] == if k == 0 then s[..n] else Window(s[n..], boundaries[1..])[k - 1]
  {
  }
}
