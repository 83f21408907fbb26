/** The filter bars of the faculty, events and gallery pages: an "All" button
    followed by one button per distinct value in first-seen order
    (`["All", ...Array.from(new Set(values))]`), and the list shown for the
    selected button. */
module Filters {
  import opened Sequences

  /** The label of the button, and the initial selection, that shows everything. */
  const All: string := "All"

  /** The index of the first occurrence of `x`. */
  function FirstIndex<T(==,!new)>(xs: seq<T>, x: T): (i: nat)
    requires x in xs
    ensures i < |xs| && xs[i] == x
    ensures forall j :: 0 <= j < i ==> xs[j] != x
  {
    if xs[0] == x then 0 else FirstIndex(xs[1..], x) + 1
  }

  /** `d` lists values of `xs` in the order in which each first occurs there. */
  predicate InFirstSeenOrder<T(==,!new)>(d: seq<T>, xs: seq<T>) {
    forall i, j :: 0 <= i < j < |d| ==> d[i] in xs && d[j] in xs && FirstIndex(xs, d[i]) < FirstIndex(xs, d[j])
  }

  /** `Array.from(new Set(xs))`: a `Set` is built by adding the values one by
      one, and a value already present keeps its place. */
  function Distinct<T(==,!new)>(xs: seq<T>): (d: seq<T>)
    ensures NoDuplicates(d)
    ensures forall x :: x in d <==> x in xs
    ensures |d| <= |xs|
  {
    if xs == [] then []
    else
      var prefix := xs[..|xs| - 1];
      var x := xs[|xs| - 1];
      assert xs == prefix + [x];
      var d := Distinct(prefix);
      if x in d then d
      else
        AppendFreshDistinct(d, x);
        d + [x]
  }

  /** A value's first occurrence in `xs` is its first occurrence in any
      longer sequence that starts with `xs`. */
  lemma FirstIndexInPrefix<T(!new)>(xs: seq<T>, ys: seq<T>, x: T)
    requires x in xs
    ensures x in xs + ys && FirstIndex(xs + ys, x) == FirstIndex(xs, x)
  {
    assert (xs + ys)[FirstIndex(xs, x)] == x;
  }

  /** The distinct values come in first-seen order. */
  lemma {:induction false} DistinctFirstSeen<T(!new)>(xs: seq<T>)
    ensures InFirstSeenOrder(Distinct(xs), xs)
  {
    if xs != [] {
      var prefix := xs[..|xs| - 1];
      var x := xs[|xs| - 1];
      assert xs == prefix + [x];
      var d := Distinct(prefix);
      DistinctFirstSeen(prefix);
      var r := Distinct(xs);
      forall i, j | 0 <= i < j < |r|
        ensures r[i] in xs && r[j] in xs && FirstIndex(xs, r[i]) < FirstIndex(xs, r[j])
      {
        FirstIndexInPrefix(prefix, [x], r[i]);
        if j < |d| {
          FirstIndexInPrefix(prefix, [x], r[j]);
        } else {
          assert r[j] == x && x !in prefix;
          assert forall k :: 0 <= k < |prefix| ==> xs[k] == prefix[k];
        }
      }
    }
  }

  /** The buttons of a filter bar over `values`. */
  function FilterBar(values: seq<string>): (bar: seq<string>)
    ensures |bar| >= 1 && bar[0] == All
    ensures NoDuplicates(bar[1..])
    ensures forall v :: v in bar[1..] <==> v in values
    ensures InFirstSeenOrder(bar[1..], values)
  {
    DistinctFirstSeen(values);
    var bar := [All] + Distinct(values);
    assert bar[1..] == Distinct(values);
    bar
  }

  /** `a` is `b` with some elements dropped, order kept. */
  ghost predicate IsSubsequence<T>(a: seq<T>, b: seq<T>)
    decreases |b|
  {
    if a == [] then true
    else if b == [] then false
    else (a[0] == b[0] && IsSubsequence(a[1..], b[1..])) || IsSubsequence(a, b[1..])
  }

  /** `items.filter((x) => key(x) === selection)`: the items whose key is the
      selection, each as often as it occurs, in their order. */
  function Matching<T(==,!new)>(items: seq<T>, key: T -> string, selection: string): (r: seq<T>)
    ensures IsSubsequence(r, items)
    ensures forall i :: 0 <= i < |r| ==> key(r[i]) == selection
    ensures |r| <= |items|
  {
    if items == [] then []
    else
      var rest := Matching(items[1..], key, selection);
      if key(items[0]) == selection then
        var r := [items[0]] + rest;
        assert r[1..] == rest;
        r
      else rest
  }

  /** Filtering distributes over concatenation. */
  lemma {:induction false} MatchingAppend<T(!new)>(a: seq<T>, b: seq<T>, key: T -> string, selection: string)
    ensures Matching(a + b, key, selection) == Matching(a, key, selection) + Matching(b, key, selection)
  {
    if a != [] {
      var ab := a + b;
      assert ab[0] == a[0] && ab[1..] == a[1..] + b;
      MatchingAppend(a[1..], b, key, selection);
    } else {
      assert a + b == b;
    }
  }

  /** Every item with the selected key is kept, as often as it occurs, and
      no other item is. */
  lemma {:induction false} MatchingCounts<T(!new)>(items: seq<T>, key: T -> string, selection: string, x: T)
    ensures multiset(Matching(items, key, selection))[x] == if key(x) == selection then multiset(items)[x] else 0
  {
    if items != [] {
      assert items == [items[0]] + items[1..];
      MatchingCounts(items[1..], key, selection, x);
    }
  }

  /** A selection no item has keeps nothing. */
  lemma NothingMatches<T(!new)>(items: seq<T>, key: T -> string, selection: string)
    requires forall i :: 0 <= i < |items| ==> key(items[i]) != selection
    ensures Matching(items, key, selection) == []
  {
    var r := Matching(items, key, selection);
    if r != [] {
      MatchingCounts(items, key, selection, r[0]);
    }
  }

  /** The list shown for a selection: everything for "All", otherwise the
      matching items. */
  function Selected<T(==,!new)>(items: seq<T>, key: T -> string, selection: string): (r: seq<T>)
    ensures selection == All ==> r == items
    ensures selection != All ==> r == Matching(items, key, selection)
    ensures |r| <= |items|
  {
    if selection == All then items else Matching(items, key, selection)
  }
}
