/**
 * `sortEntries`: reorder one directory listing by name, size or modification time.
 * The ordering is specified by a stable insertion sort over the comparator that `sort.Slice`
 * is given; the in-place method on an array is proved to compute exactly that sequence.
 */
module Sorting {
  import opened Strings
  import opened FileSystem

  /** The sort keys `sortEntries` recognises; any other key leaves the listing as it is. */
  predicate KnownKey(sortBy: string) {
    sortBy == "name" || sortBy == "size" || sortBy == "time"
  }

  /** The `less` function handed to `sort.Slice`: ascending when order is "asc", descending
      for every other order string, and never true for an unknown key. */
  predicate Less(a: Entry, b: Entry, sortBy: string, order: string) {
    if sortBy == "name" then
      (if order == "asc" then LexLess(a.name, b.name) else LexLess(b.name, a.name))
    else if sortBy == "size" then
      (if order == "asc" then a.size < b.size else a.size > b.size)
    else if sortBy == "time" then
      (if order == "asc" then a.modTime < b.modTime else a.modTime > b.modTime)
    else false
  }

  /** Every order string other than "asc" is the ascending comparator with its arguments
      swapped, and an unknown key never reorders. */
  lemma LessReversed(a: Entry, b: Entry, sortBy: string, order: string)
    ensures order != "asc" ==> (Less(a, b, sortBy, order) <==> Less(b, a, sortBy, "asc"))
    ensures !KnownKey(sortBy) ==> !Less(a, b, sortBy, order)
  {
  }

  lemma LessAsymmetric(a: Entry, b: Entry, sortBy: string, order: string)
    ensures Less(a, b, sortBy, order) ==> !Less(b, a, sortBy, order)
  {
    LexLessTrichotomy(a.name, b.name);
  }

  /** "Not less" is transitive: the comparator is a strict weak order. */
  lemma NotLessTransitive(a: Entry, b: Entry, c: Entry, sortBy: string, order: string)
    requires !Less(a, b, sortBy, order) && !Less(b, c, sortBy, order)
    ensures !Less(a, c, sortBy, order)
  {
    if sortBy == "name" {
      LexLessTrichotomy(a.name, b.name);
      LexLessTrichotomy(b.name, c.name);
      LexLessTrichotomy(a.name, c.name);
      if order == "asc" {
        if LexLess(a.name, c.name) {
          if LexLess(b.name, a.name) { LexLessTransitive(b.name, a.name, c.name); }
        }
      } else {
        if LexLess(c.name, a.name) {
          if LexLess(a.name, b.name) { LexLessTransitive(c.name, a.name, b.name); }
        }
      }
    }
  }

  /** No later element is less than an earlier one. */
  predicate Ordered(s: seq<Entry>, sortBy: string, order: string) {
    forall i, j :: 0 <= i < j < |s| ==> !Less(s[j], s[i], sortBy, order)
  }

  /** Insert `x` into `t` after the last element it is not less than. */
  function Insert(t: seq<Entry>, x: Entry, sortBy: string, order: string): seq<Entry>
    decreases |t|
  {
    if |t| == 0 then [x]
    else if Less(x, t[|t| - 1], sortBy, order) then Insert(t[..|t| - 1], x, sortBy, order) + [t[|t| - 1]]
    else t + [x]
  }

  /** The insertion sort that adds the listing's elements one at a time, left to right. */
  function InsertionSort(s: seq<Entry>, sortBy: string, order: string): seq<Entry>
    decreases |s|
  {
    if |s| == 0 then [] else Insert(InsertionSort(s[..|s| - 1], sortBy, order), s[|s| - 1], sortBy, order)
  }

  lemma {:induction false} InsertPermutes(t: seq<Entry>, x: Entry, sortBy: string, order: string)
    ensures multiset(Insert(t, x, sortBy, order)) == multiset(t) + multiset{x}
    decreases |t|
  {
    if |t| > 0 {
      var front := t[..|t| - 1];
      assert t == front + [t[|t| - 1]];
      if Less(x, t[|t| - 1], sortBy, order) {
        InsertPermutes(front, x, sortBy, order);
      }
    }
  }

  lemma {:induction false} InsertKeepsOrder(t: seq<Entry>, x: Entry, sortBy: string, order: string)
    requires Ordered(t, sortBy, order)
    ensures Ordered(Insert(t, x, sortBy, order), sortBy, order)
    decreases |t|
  {
    if |t| > 0 {
      var front := t[..|t| - 1];
      if Less(x, t[|t| - 1], sortBy, order) {
        assert Ordered(front, sortBy, order);
        InsertKeepsOrder(front, x, sortBy, order);
        InsertBeforeLast(t, x, sortBy, order);
      } else {
        InsertAfterLast(t, x, sortBy, order);
      }
    }
  }

  /** x less than the last element goes into the front, and the last element stays last. */
  lemma InsertBeforeLast(t: seq<Entry>, x: Entry, sortBy: string, order: string)
    requires |t| > 0 && Ordered(t, sortBy, order) && Less(x, t[|t| - 1], sortBy, order)
    requires Ordered(Insert(t[..|t| - 1], x, sortBy, order), sortBy, order)
    ensures Ordered(Insert(t, x, sortBy, order), sortBy, order)
  {
    var front := t[..|t| - 1];
    var last := t[|t| - 1];
    InsertPermutes(front, x, sortBy, order);
    var f := Insert(front, x, sortBy, order);
    forall i | 0 <= i < |f| ensures !Less(last, f[i], sortBy, order) {
      assert f[i] in multiset(f);
      if f[i] == x {
        LessAsymmetric(x, last, sortBy, order);
      } else {
        assert f[i] in multiset(front);
        var k :| 0 <= k < |front| && front[k] == f[i];
        assert t[k] == f[i];
      }
    }
    assert Insert(t, x, sortBy, order) == f + [last];
  }

  /** x not less than the last element goes at the end. */
  lemma InsertAfterLast(t: seq<Entry>, x: Entry, sortBy: string, order: string)
    requires |t| > 0 && Ordered(t, sortBy, order) && !Less(x, t[|t| - 1], sortBy, order)
    ensures Ordered(Insert(t, x, sortBy, order), sortBy, order)
  {
    var r := t + [x];
    forall i, j | 0 <= i < j < |r| ensures !Less(r[j], r[i], sortBy, order) {
      if j == |t| && i < |t| - 1 {
        NotLessTransitive(x, t[|t| - 1], t[i], sortBy, order);
      }
    }
  }

  /** The insertion sort yields a permutation of the listing ... */
  lemma {:induction false} InsertionSortPermutes(s: seq<Entry>, sortBy: string, order: string)
    ensures multiset(InsertionSort(s, sortBy, order)) == multiset(s)
    decreases |s|
  {
    if |s| > 0 {
      var front, last := s[..|s| - 1], s[|s| - 1];
      InsertionSortPermutes(front, sortBy, order);
      InsertPermutes(InsertionSort(front, sortBy, order), last, sortBy, order);
      MultisetSnoc(s);
    }
  }

  lemma MultisetSnoc(s: seq<Entry>)
    requires |s| > 0
    ensures multiset(s) == multiset(s[..|s| - 1]) + multiset{s[|s| - 1]}
  {
    assert s == s[..|s| - 1] + [s[|s| - 1]];
  }

  /** ... in which no element is less than one before it. */
  lemma {:induction false} InsertionSortOrders(s: seq<Entry>, sortBy: string, order: string)
    ensures Ordered(InsertionSort(s, sortBy, order), sortBy, order)
    decreases |s|
  {
    if |s| > 0 {
      InsertionSortOrders(s[..|s| - 1], sortBy, order);
      InsertKeepsOrder(InsertionSort(s[..|s| - 1], sortBy, order), s[|s| - 1], sortBy, order);
    }
  }

  /** `sortEntries` as a value: the order both renderers see a listing in. */
  function SortEntries(s: seq<Entry>, sortBy: string, order: string): seq<Entry> {
    if KnownKey(sortBy) then InsertionSort(s, sortBy, order) else s
  }

  /** What `sortEntries` promises, key by key: a permutation, non-decreasing for "asc" and
      non-increasing for any other order string; an unknown key changes nothing. */
  lemma SortEntriesSpec(s: seq<Entry>, sortBy: string, order: string)
    ensures var r := SortEntries(s, sortBy, order);
      && multiset(r) == multiset(s)
      && (!KnownKey(sortBy) ==> r == s)
      && (sortBy == "name" && order == "asc" ==>
            forall i, j :: 0 <= i < j < |r| ==> LexLessEq(r[i].name, r[j].name))
      && (sortBy == "name" && order != "asc" ==>
            forall i, j :: 0 <= i < j < |r| ==> LexLessEq(r[j].name, r[i].name))
      && (sortBy == "size" && order == "asc" ==> forall i, j :: 0 <= i < j < |r| ==> r[i].size <= r[j].size)
      && (sortBy == "size" && order != "asc" ==> forall i, j :: 0 <= i < j < |r| ==> r[i].size >= r[j].size)
      && (sortBy == "time" && order == "asc" ==> forall i, j :: 0 <= i < j < |r| ==> r[i].modTime <= r[j].modTime)
      && (sortBy == "time" && order != "asc" ==> forall i, j :: 0 <= i < j < |r| ==> r[i].modTime >= r[j].modTime)
  {
    var r := SortEntries(s, sortBy, order);
    if KnownKey(sortBy) {
      InsertionSortPermutes(s, sortBy, order);
      InsertionSortOrders(s, sortBy, order);
    }
    if sortBy == "name" {
      forall i, j | 0 <= i < j < |r|
        ensures order == "asc" ==> LexLessEq(r[i].name, r[j].name)
        ensures order != "asc" ==> LexLessEq(r[j].name, r[i].name)
      {
        assert !Less(r[j], r[i], sortBy, order);
        LexLessTrichotomy(r[i].name, r[j].name);
      }
    }
  }

  /** Membership survives sorting. */
  lemma SortEntriesMembers(s: seq<Entry>, sortBy: string, order: string, x: Entry)
    ensures x in SortEntries(s, sortBy, order) <==> x in s
  {
    var r := SortEntries(s, sortBy, order);
    SortEntriesSpec(s, sortBy, order);
    assert x in r <==> x in multiset(r);
    assert x in s <==> x in multiset(s);
  }

  /** Where `Insert` puts x: after the prefix it is not less than the last element of, and
      before the elements it is less than. */
  lemma {:induction false} InsertPlacesAt(t: seq<Entry>, x: Entry, j: nat, sortBy: string, order: string)
    requires j <= |t|
    requires j == 0 || !Less(x, t[j - 1], sortBy, order)
    requires forall k :: j <= k < |t| ==> Less(x, t[k], sortBy, order)
    ensures Insert(t, x, sortBy, order) == t[..j] + [x] + t[j..]
    decreases |t|
  {
    if j < |t| {
      var front := t[..|t| - 1];
      assert Less(x, t[|t| - 1], sortBy, order);
      assert forall k :: j <= k < |front| ==> front[k] == t[k];
      assert j == 0 || front[j - 1] == t[j - 1];
      InsertPlacesAt(front, x, j, sortBy, order);
      SnocAround(t, x, j);
    } else {
      assert t[..j] == t && t[j..] == [];
    }
  }

  lemma SnocAround(t: seq<Entry>, x: Entry, j: nat)
    requires j < |t|
    ensures var front := t[..|t| - 1]; front[..j] + [x] + front[j..] + [t[|t| - 1]] == t[..j] + [x] + t[j..]
  {
    var front := t[..|t| - 1];
    assert front[..j] == t[..j];
    assert t[j..] == front[j..] + [t[|t| - 1]];
  }

  /** One pass of the insertion sort: slide a[i] down into the sorted prefix a[..i]. */
  method InsertLast(a: array<Entry>, i: nat, sortBy: string, order: string)
    requires i < a.Length
    modifies a
    ensures a[..i + 1] == Insert(old(a[..i]), old(a[i]), sortBy, order)
    ensures a[i + 1..] == old(a[i + 1..])
  {
    var x := a[i];
    ghost var t := a[..i];
    ghost var rest := a[i + 1..];
    var j := i;
    assert a[i + 1..i + 1] == t[i..];
    while j > 0 && Less(x, a[j - 1], sortBy, order)
      invariant Sliding(a[..], t, rest, j)
      invariant forall k :: j <= k < |t| ==> Less(x, t[k], sortBy, order)
    {
      SlideStep(a[..], t, rest, j);
      a[j] := a[j - 1];
      j := j - 1;
    }
    SlideEnd(a[..], t, rest, j, x, sortBy, order);
    a[j] := x;
  }

  /** The state of that pass: cells before j hold t's, the gap is at j, cells j+1..|t| hold
      t[j..] shifted up by one, and the cells after |t| are untouched. */
  ghost predicate Sliding(s: seq<Entry>, t: seq<Entry>, rest: seq<Entry>, j: nat) {
    && |t| < |s| && j <= |t|
    && s[..j] == t[..j] && s[j + 1..|t| + 1] == t[j..] && s[|t| + 1..] == rest
  }

  /** Copying the cell below the gap into it moves the gap down by one. */
  lemma SlideStep(s: seq<Entry>, t: seq<Entry>, rest: seq<Entry>, j: nat)
    requires Sliding(s, t, rest, j) && j > 0
    ensures s[j - 1] == t[j - 1] && Sliding(s[j := s[j - 1]], t, rest, j - 1)
  {
    assert s[j - 1] == s[..j][j - 1];
    var s2 := s[j := s[j - 1]];
    assert s2[..j - 1] == t[..j - 1] by { assert s2[..j - 1] == s[..j][..j - 1]; }
    assert s2[j..|t| + 1] == [t[j - 1]] + t[j..] by {
      assert s2[j + 1..|t| + 1] == s[j + 1..|t| + 1];
    }
    assert t[j - 1..] == [t[j - 1]] + t[j..];
    assert s2[|t| + 1..] == s[|t| + 1..];
  }

  /** Filling the gap with x gives the insertion of x into t. */
  lemma SlideEnd(s: seq<Entry>, t: seq<Entry>, rest: seq<Entry>, j: nat, x: Entry, sortBy: string, order: string)
    requires Sliding(s, t, rest, j)
    requires j == 0 || !Less(x, s[j - 1], sortBy, order)
    requires forall k :: j <= k < |t| ==> Less(x, t[k], sortBy, order)
    ensures s[j := x][..|t| + 1] == Insert(t, x, sortBy, order) && s[j := x][|t| + 1..] == rest
  {
    var s2 := s[j := x];
    if j > 0 {
      assert s[j - 1] == s[..j][j - 1];
    }
    InsertPlacesAt(t, x, j, sortBy, order);
    SplitAround(s2, j, |t| + 1);
    UpdateOutside(s, j, x, |t| + 1);
  }

  lemma SplitAround(u: seq<Entry>, j: nat, n: nat)
    requires j < n <= |u|
    ensures u[..n] == u[..j] + [u[j]] + u[j + 1..n]
  {
  }

  /** Writing cell j leaves the slices around it as they were. */
  lemma UpdateOutside(s: seq<Entry>, j: nat, x: Entry, n: nat)
    requires j < n <= |s|
    ensures s[j := x][..j] == s[..j] && s[j := x][j + 1..n] == s[j + 1..n] && s[j := x][n..] == s[n..]
  {
  }

  /** The same, for every element at once. */
  lemma SortEntriesSameMembers(s: seq<Entry>, sortBy: string, order: string)
    ensures forall x :: x in SortEntries(s, sortBy, order) <==> x in s
  {
    forall x ensures x in SortEntries(s, sortBy, order) <==> x in s {
      SortEntriesMembers(s, sortBy, order, x);
    }
  }

  /** `sortEntries` on the slice itself: insertion sort in place. */
  method SortInPlace(a: array<Entry>, sortBy: string, order: string)
    modifies a
    ensures a[..] == SortEntries(old(a[..]), sortBy, order)
  {
    if !KnownKey(sortBy) {
      return;
    }
    ghost var s := a[..];
    var i := 0;
    assert s[..0] == [];
    while i < a.Length
      invariant 0 <= i <= a.Length && SortedUpTo(a[..], s, i, sortBy, order)
    {
      ghost var before := a[..];
      InsertLast(a, i, sortBy, order);
      SortStep(before, a[..], s, i, sortBy, order);
      i := i + 1;
    }
    assert a[..] == a[..a.Length] && s == s[..a.Length];
  }

  /** The state of that sort after i passes: the first i cells hold the insertion sort of the
      first i elements of s, and the others are untouched. */
  ghost predicate SortedUpTo(cur: seq<Entry>, s: seq<Entry>, i: nat, sortBy: string, order: string) {
    |cur| == |s| && i <= |s| && cur[..i] == InsertionSort(s[..i], sortBy, order) && cur[i..] == s[i..]
  }

  /** One pass of InsertLast moves the sorted boundary up by one. */
  lemma SortStep(before: seq<Entry>, after: seq<Entry>, s: seq<Entry>, i: nat, sortBy: string, order: string)
    requires SortedUpTo(before, s, i, sortBy, order) && i < |s| && |after| == |before|
    requires after[..i + 1] == Insert(before[..i], before[i], sortBy, order) && after[i + 1..] == before[i + 1..]
    ensures SortedUpTo(after, s, i + 1, sortBy, order)
  {
    assert before[i] == before[i..][0] == s[i..][0] == s[i];
    assert s[..i + 1][..i] == s[..i];
    assert before[i + 1..] == before[i..][1..] && s[i + 1..] == s[i..][1..];
  }
}
