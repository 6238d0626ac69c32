// Array.prototype.filter and `[...new Set(xs)]`, the two list idioms the
// admin and super-admin screens use to derive their option lists.

module Collections {

  /** `xs.filter(keep)`, built from the end so that each step adds the last
      element. */
  function Filter<T>(xs: seq<T>, keep: T -> bool): (r: seq<T>)
    ensures |r| <= |xs|
  {
    if xs == [] then []
    else Filter(xs[..|xs| - 1], keep) + (if keep(xs[|xs| - 1]) then [xs[|xs| - 1]] else [])
  }

  /** An element survives the filter exactly when it is in the list and kept. */
  lemma {:induction false} FilterMembers<T>(xs: seq<T>, keep: T -> bool, x: T)
    ensures x in Filter(xs, keep) <==> x in xs && keep(x)
  {
    if xs != [] {
      var init := xs[..|xs| - 1];
      FilterMembers(init, keep, x);
      assert xs == init + [xs[|xs| - 1]];
    }
  }

  /** Filtering keeps order: the filter of a concatenation is the
      concatenation of the filters. */
  lemma {:induction false} FilterConcat<T>(xs: seq<T>, ys: seq<T>, keep: T -> bool)
    ensures Filter(xs + ys, keep) == Filter(xs, keep) + Filter(ys, keep)
  {
    if ys == [] {
      assert xs + ys == xs;
    } else {
      var init := ys[..|ys| - 1];
      FilterConcat(xs, init, keep);
      assert (xs + ys)[..|xs + ys| - 1] == xs + init;
    }
  }

  /** A filter keeps every copy of a kept element and none of the others. */
  lemma {:induction false} FilterMultiset<T>(xs: seq<T>, keep: T -> bool, x: T)
    ensures multiset(Filter(xs, keep))[x] == if keep(x) then multiset(xs)[x] else 0
  {
    if xs != [] {
      var init := xs[..|xs| - 1];
      FilterMultiset(init, keep, x);
      assert xs == init + [xs[|xs| - 1]];
    }
  }

  /** `[...new Set(xs)]`: the distinct elements in order of first appearance. */
  function Dedupe<T(==)>(xs: seq<T>): (r: seq<T>)
    ensures |r| <= |xs|
  {
    if xs == [] then []
    else
      var init := xs[..|xs| - 1];
      var last := xs[|xs| - 1];
      Dedupe(init) + (if last in init then [] else [last])
  }

  predicate NoDuplicates<T(==)>(xs: seq<T>) {
    forall i, j :: 0 <= i < j < |xs| ==> xs[i] != xs[j]
  }

  /** The deduplicated list has the same elements and no repetition. */
  lemma {:induction false} DedupeSpec<T>(xs: seq<T>)
    ensures forall x :: x in Dedupe(xs) <==> x in xs
    ensures NoDuplicates(Dedupe(xs))
  {
    if xs != [] {
      var init := xs[..|xs| - 1];
      var last := xs[|xs| - 1];
      DedupeSpec(init);
      assert xs == init + [last];
      assert forall x :: x in xs <==> x in init || x == last;
    }
  }

  /** Order of first appearance: a new element goes to the end, a repeated
      one changes nothing. */
  lemma DedupeAppend<T>(xs: seq<T>, x: T)
    ensures Dedupe(xs + [x]) == Dedupe(xs) + (if x in xs then [] else [x])
  {
    assert (xs + [x])[..|xs + [x]| - 1] == xs;
  }

  /** A list without repetitions is its own deduplication. */
  lemma {:induction false} DedupeDistinct<T>(xs: seq<T>)
    requires NoDuplicates(xs)
    ensures Dedupe(xs) == xs
  {
    if xs != [] {
      var init := xs[..|xs| - 1];
      DedupeDistinct(init);
      assert xs[|xs| - 1] !in init;
    }
  }
}
