// Array.prototype.sort with a numeric comparator, as the components use it
// (`(a, b) => key(b) - key(a)`), and sums over sequences that a reordering
// leaves unchanged.

module Sorting {
  import Collections

  predicate SortedDesc<T>(s: seq<T>, key: T -> int) {
    forall i, j :: 0 <= i < j < |s| ==> key(s[i]) >= key(s[j])
  }

  /** The elements whose key is k, in their order in s. A stable sort keeps
      each of these runs as it was. */
  function KeyRun<T>(s: seq<T>, key: T -> int, k: int): seq<T> {
    Collections.Filter(s, x => key(x) == k)
  }

  /** Inserting x after a prefix: x moves left only past strictly smaller
      keys. */
  function InsertDesc<T>(s: seq<T>, x: T, key: T -> int): seq<T> {
    if s == [] || key(s[|s| - 1]) >= key(x) then s + [x]
    else InsertDesc(s[..|s| - 1], x, key) + [s[|s| - 1]]
  }

  /** The reference stable sort: each element in turn inserted into the
      sorted prefix before it. */
  function InsertionSorted<T>(s: seq<T>, key: T -> int): seq<T> {
    if s == [] then []
    else InsertDesc(InsertionSorted(s[..|s| - 1], key), s[|s| - 1], key)
  }

  /** In-place sort by descending key, computing the stable reference sort. */
  method SortDesc<T>(a: array<T>, key: T -> int)
    modifies a
    ensures a[..] == InsertionSorted(old(a[..]), key)
    ensures SortedDesc(a[..], key)
    ensures multiset(a[..]) == old(multiset(a[..]))
  {
    ghost var s := a[..];
    var i := 0;
    while i < a.Length
      invariant 0 <= i <= a.Length
      invariant a[..i] == InsertionSorted(s[..i], key)
      invariant a[i..] == s[i..]
    {
      InsertDown(a, key, i);
      assert s[..i + 1][..i] == s[..i];
      i := i + 1;
    }
    assert a[..a.Length] == a[..] && s[..a.Length] == s;
    InsertionSortedFacts(s, key);
  }

  /** One insertion step: moves a[i] left into the prefix a[..i], past the
      elements with strictly smaller keys. */
  method InsertDown<T>(a: array<T>, key: T -> int, i: int)
    requires 0 <= i < a.Length
    modifies a
    ensures a[..i + 1] == InsertDesc(old(a[..i]), old(a[i]), key)
    ensures a[i + 1..] == old(a[i + 1..])
  {
    ghost var s0 := a[..i];
    ghost var x := a[i];
    ghost var rest := a[i + 1..];
    InsertStart(s0, x, key, rest, a[..]);
    var j := i;
    while j > 0 && key(a[j - 1]) < key(a[j])
      invariant 0 <= j <= i
      invariant a[..] == Picture(s0, x, rest, j)
      invariant Pending(s0, x, key, j)
    {
      ghost var before := a[..];
      a[j - 1], a[j] := a[j], a[j - 1];
      InsertStep(s0, x, key, rest, j, before, a[..]);
      j := j - 1;
    }
    InsertStop(s0, x, key, rest, j, a[..]);
  }

  /** The array while the element x moves left: x sits at position j of the
      prefix s0, followed by the untouched rest. */
  ghost function Picture<T>(s0: seq<T>, x: T, rest: seq<T>, j: int): seq<T>
    requires 0 <= j <= |s0|
  {
    s0[..j] + [x] + s0[j..] + rest
  }

  /** What is left to do: the insertion into s0[..j], then s0[j..]. */
  ghost predicate Pending<T>(s0: seq<T>, x: T, key: T -> int, j: int)
    requires 0 <= j <= |s0|
  {
    InsertDesc(s0, x, key) == InsertDesc(s0[..j], x, key) + s0[j..]
  }

  lemma InsertStart<T>(s0: seq<T>, x: T, key: T -> int, rest: seq<T>, t: seq<T>)
    requires t == s0 + [x] + rest
    ensures t == Picture(s0, x, rest, |s0|) && Pending(s0, x, key, |s0|)
  {
    assert s0[..|s0|] == s0 && s0[|s0|..] == [];
  }

  /** Swapping the moving element with a smaller-keyed left neighbour keeps
      the loop's picture one position further left. */
  lemma InsertStep<T>(s0: seq<T>, x: T, key: T -> int, rest: seq<T>, j: int, before: seq<T>, after: seq<T>)
    requires 0 < j <= |s0|
    requires before == Picture(s0, x, rest, j) && Pending(s0, x, key, j)
    requires key(before[j - 1]) < key(before[j])
    requires after == before[j - 1 := before[j]][j := before[j - 1]]
    ensures after == Picture(s0, x, rest, j - 1) && Pending(s0, x, key, j - 1)
  {
    var y := s0[j - 1];
    var front := s0[..j - 1];
    assert s0[..j] == front + [y];
    assert s0[j - 1..] == [y] + s0[j..];
    var back := s0[j..] + rest;
    assert before == front + [y] + [x] + back;
    SwapAt(front, y, x, back);
    InsertPast(s0, x, key, j);
  }

  lemma SwapAt<T>(front: seq<T>, y: T, x: T, back: seq<T>)
    ensures (front + [y] + [x] + back)[|front| := x][|front| + 1 := y] == front + [x] + [y] + back
  {
  }

  /** The moving element passes a neighbour with a strictly smaller key. */
  lemma InsertPast<T>(s0: seq<T>, x: T, key: T -> int, j: int)
    requires 0 < j <= |s0| && key(s0[j - 1]) < key(x)
    ensures InsertDesc(s0[..j], x, key) == InsertDesc(s0[..j - 1], x, key) + [s0[j - 1]]
  {
    var pre := s0[..j];
    assert pre[..|pre| - 1] == s0[..j - 1];
  }

  /** Where the moving element stops, the first i + 1 entries are the
      insertion. */
  lemma InsertStop<T>(s0: seq<T>, x: T, key: T -> int, rest: seq<T>, j: int, t: seq<T>)
    requires 0 <= j <= |s0|
    requires t == Picture(s0, x, rest, j) && Pending(s0, x, key, j)
    requires j == 0 || key(t[j - 1]) >= key(t[j])
    ensures t[..|s0| + 1] == InsertDesc(s0, x, key)
    ensures t[|s0| + 1..] == rest
  {
    assert t[j] == x;
    if j == 0 {
      assert s0[..j] == [];
    } else {
      assert t[j - 1] == s0[..j][j - 1];
    }
    assert t[..|s0| + 1] == s0[..j] + [x] + s0[j..];
  }

  lemma {:induction false} InsertDescMultiset<T>(s: seq<T>, x: T, key: T -> int)
    ensures multiset(InsertDesc(s, x, key)) == multiset(s) + multiset{x}
    decreases |s|
  {
    if !(s == [] || key(s[|s| - 1]) >= key(x)) {
      InsertDescMultiset(s[..|s| - 1], x, key);
      assert s == s[..|s| - 1] + [s[|s| - 1]];
    }
  }

  lemma {:induction false} InsertDescSorted<T>(s: seq<T>, x: T, key: T -> int)
    requires SortedDesc(s, key)
    ensures SortedDesc(InsertDesc(s, x, key), key)
    decreases |s|
  {
    if !(s == [] || key(s[|s| - 1]) >= key(x)) {
      var init := s[..|s| - 1];
      var last := s[|s| - 1];
      var r := InsertDesc(init, x, key);
      InsertDescSorted(init, x, key);
      InsertDescMultiset(init, x, key);
      forall y | y in r
        ensures key(y) >= key(last)
      {
        assert y in multiset(r);
        if y != x {
          assert y in multiset(init);
          var k :| 0 <= k < |init| && init[k] == y;
          assert s[k] == y;
        }
      }
      assert forall p :: 0 <= p < |r| ==> r[p] in r;
    }
  }

  /** Insertion keeps every key's run and adds x at the end of its own. */
  lemma {:induction false} InsertDescRuns<T>(s: seq<T>, x: T, key: T -> int, k: int)
    ensures KeyRun(InsertDesc(s, x, key), key, k) == KeyRun(s, key, k) + (if key(x) == k then [x] else [])
    decreases |s|
  {
    if s == [] || key(s[|s| - 1]) >= key(x) {
      Collections.FilterConcat(s, [x], y => key(y) == k);
      assert [x][..0] == [];
    } else {
      var init := s[..|s| - 1];
      var last := s[|s| - 1];
      InsertDescRuns(init, x, key, k);
      Collections.FilterConcat(InsertDesc(init, x, key), [last], y => key(y) == k);
      Collections.FilterConcat(init, [last], y => key(y) == k);
      assert [last][..0] == [];
      assert s == init + [last];
    }
  }

  /** The reference sort is ordered by descending key, rearranges its input,
      and is stable: every key's run is the input's run. */
  lemma {:induction false} InsertionSortedFacts<T>(s: seq<T>, key: T -> int)
    ensures SortedDesc(InsertionSorted(s, key), key)
    ensures multiset(InsertionSorted(s, key)) == multiset(s)
    ensures forall k :: KeyRun(InsertionSorted(s, key), key, k) == KeyRun(s, key, k)
    decreases |s|
  {
    if s != [] {
      var init := s[..|s| - 1];
      var last := s[|s| - 1];
      InsertionSortedFacts(init, key);
      InsertDescSorted(InsertionSorted(init, key), last, key);
      InsertDescMultiset(InsertionSorted(init, key), last, key);
      assert s == init + [last];
      forall k
        ensures KeyRun(InsertionSorted(s, key), key, k) == KeyRun(s, key, k)
      {
        InsertDescRuns(InsertionSorted(init, key), last, key, k);
        Collections.FilterConcat(init, [last], y => key(y) == k);
        assert [last][..0] == [];
      }
    }
  }

  /** A list ordered by descending key is determined by its runs: two such
      lists with the same run for every key are equal. So the stable sort is
      the only ordering that keeps every run. */
  lemma {:induction false} SortedRunsUnique<T>(r1: seq<T>, r2: seq<T>, key: T -> int)
    requires SortedDesc(r1, key) && SortedDesc(r2, key)
    requires forall k :: KeyRun(r1, key, k) == KeyRun(r2, key, k)
    ensures r1 == r2
    decreases |r1| + |r2|
  {
    if r1 == [] && r2 != [] {
      LastRun(r2, key);
    } else if r1 != [] && r2 == [] {
      LastRun(r1, key);
    } else if r1 != [] {
      var init1, l1 := r1[..|r1| - 1], r1[|r1| - 1];
      var init2, l2 := r2[..|r2| - 1], r2[|r2| - 1];
      LastRun(r1, key);
      LastRun(r2, key);
      KeyAtLeastLast(r2, key, KeyRun(r1, key, key(l1)), key(l1));
      KeyAtLeastLast(r1, key, KeyRun(r2, key, key(l2)), key(l2));
      assert key(l1) == key(l2);
      var run := KeyRun(r1, key, key(l1));
      assert run == KeyRun(init1, key, key(l1)) + [l1] == KeyRun(init2, key, key(l1)) + [l2];
      assert run[|run| - 1] == l1 && run[|run| - 1] == l2;
      forall k
        ensures KeyRun(init1, key, k) == KeyRun(init2, key, k)
      {
        if k == key(l1) {
          assert KeyRun(init1, key, k) == (KeyRun(init1, key, k) + [l1])[..|KeyRun(init1, key, k)|];
          assert KeyRun(init2, key, k) == (KeyRun(init2, key, k) + [l2])[..|KeyRun(init2, key, k)|];
        } else {
          assert KeyRun(r1, key, k) == KeyRun(init1, key, k);
          assert KeyRun(r2, key, k) == KeyRun(init2, key, k);
        }
      }
      SortedPrefix(r1, key);
      SortedPrefix(r2, key);
      SortedRunsUnique(init1, init2, key);
      assert r1 == init1 + [l1] && r2 == init2 + [l2];
    }
  }

  /** The last element ends its own run. */
  lemma LastRun<T>(s: seq<T>, key: T -> int)
    requires s != []
    ensures KeyRun(s, key, key(s[|s| - 1])) == KeyRun(s[..|s| - 1], key, key(s[|s| - 1])) + [s[|s| - 1]]
    ensures forall k :: k != key(s[|s| - 1]) ==> KeyRun(s, key, k) == KeyRun(s[..|s| - 1], key, k)
  {
  }

  /** A non-empty run of key k in a list ordered by descending key puts k at
      or above the key of the list's last element. */
  lemma KeyAtLeastLast<T>(s: seq<T>, key: T -> int, run: seq<T>, k: int)
    requires SortedDesc(s, key) && s != []
    requires run == KeyRun(s, key, k) && run != []
    ensures k >= key(s[|s| - 1])
  {
    Collections.FilterMembers(s, x => key(x) == k, run[0]);
    var i :| 0 <= i < |s| && s[i] == run[0];
  }

  lemma SortedPrefix<T>(s: seq<T>, key: T -> int)
    requires SortedDesc(s, key) && s != []
    ensures SortedDesc(s[..|s| - 1], key)
  {
  }

  /** The same sort on a copy: `[...xs].sort(...)`, which is stable. */
  method SortedCopyDesc<T>(xs: seq<T>, key: T -> int) returns (r: seq<T>)
    ensures r == InsertionSorted(xs, key)
    ensures SortedDesc(r, key)
    ensures multiset(r) == multiset(xs)
  {
    InsertionSortedFacts(xs, key);
    if |xs| == 0 { return []; }
    var a := new T[|xs|](i requires 0 <= i < |xs| => xs[i]);
    assert a[..] == xs;
    SortDesc(a, key);
    r := a[..];
  }

  /** `xs.reduce((sum, x) => sum + f(x), 0)`. */
  function SumOf<T>(xs: seq<T>, f: T -> int): int {
    if xs == [] then 0 else f(xs[0]) + SumOf(xs[1..], f)
  }

  lemma {:induction false} SumOfAppend<T>(xs: seq<T>, ys: seq<T>, f: T -> int)
    ensures SumOf(xs + ys, f) == SumOf(xs, f) + SumOf(ys, f)
  {
    if xs != [] {
      assert (xs + ys)[0] == xs[0];
      assert (xs + ys)[1..] == xs[1..] + ys;
      SumOfAppend(xs[1..], ys, f);
    } else {
      assert xs + ys == ys;
    }
  }

  /** A sum does not depend on the order of its terms. */
  lemma {:induction false} SumOfPermutation<T>(xs: seq<T>, ys: seq<T>, f: T -> int)
    requires multiset(xs) == multiset(ys)
    ensures SumOf(xs, f) == SumOf(ys, f)
    decreases |xs|
  {
    if xs != [] {
      var x := xs[0];
      assert x in multiset(ys);
      var j :| 0 <= j < |ys| && ys[j] == x;
      var rest := ys[..j] + ys[j + 1..];
      RemoveOne(ys, j);
      assert xs == [x] + xs[1..];
      assert multiset(xs[1..]) == multiset(rest);
      SumOfPermutation(xs[1..], rest, f);
      SumOfRemove(ys, j, f);
    }
  }

  lemma RemoveOne<T>(ys: seq<T>, j: nat)
    requires j < |ys|
    ensures multiset(ys[..j] + ys[j + 1..]) == multiset(ys) - multiset{ys[j]}
  {
    assert ys == ys[..j] + [ys[j]] + ys[j + 1..];
  }

  lemma SumOfRemove<T>(ys: seq<T>, j: nat, f: T -> int)
    requires j < |ys|
    ensures SumOf(ys, f) == f(ys[j]) + SumOf(ys[..j] + ys[j + 1..], f)
  {
    assert ys == ys[..j] + [ys[j]] + ys[j + 1..];
    SumOfAppend(ys[..j] + [ys[j]], ys[j + 1..], f);
    SumOfAppend(ys[..j], [ys[j]], f);
    SumOfAppend(ys[..j], ys[j + 1..], f);
    assert SumOf([ys[j]], f) == f(ys[j]);
  }

  /** Sums of two sequences that agree term by term are equal. */
  lemma {:induction false} SumOfPointwise<T, U>(xs: seq<T>, ys: seq<U>, f: T -> int, g: U -> int)
    requires |xs| == |ys|
    requires forall i :: 0 <= i < |xs| ==> f(xs[i]) == g(ys[i])
    ensures SumOf(xs, f) == SumOf(ys, g)
  {
    if xs != [] {
      SumOfPointwise(xs[1..], ys[1..], f, g);
    }
  }

  predicate Distinct<T(==)>(s: seq<T>) {
    forall i, j :: 0 <= i < j < |s| ==> s[i] != s[j]
  }

  /** A sequence with distinct elements holds each value at most once. */
  lemma {:induction false} DistinctMultiplicity<T>(s: seq<T>, x: T)
    requires Distinct(s)
    ensures multiset(s)[x] <= 1
  {
    if s != [] {
      var init := s[..|s| - 1];
      assert s == init + [s[|s| - 1]];
      DistinctMultiplicity(init, x);
      if s[|s| - 1] == x {
        assert x !in init;
      }
    }
  }

  /** A value at two positions occurs at least twice. */
  lemma TwiceInMultiset<T>(s: seq<T>, p: nat, q: nat)
    requires p < q < |s| && s[p] == s[q]
    ensures multiset(s)[s[p]] >= 2
  {
    assert s == s[..p] + [s[p]] + s[p + 1..q] + [s[q]] + s[q + 1..];
  }

  /** A rearrangement of a sequence without repeats has none either. */
  lemma DistinctPermutation<T>(s: seq<T>, t: seq<T>)
    requires Distinct(s) && multiset(s) == multiset(t)
    ensures Distinct(t)
  {
    forall p, q | 0 <= p < q < |t| ensures t[p] != t[q] {
      if t[p] == t[q] {
        TwiceInMultiset(t, p, q);
        DistinctMultiplicity(s, t[p]);
      }
    }
  }

  /** Replacing one term changes a sum by the difference of the two terms. */
  lemma {:induction false} SumOfUpdate<T>(s: seq<T>, i: nat, x: T, f: T -> int)
    requires i < |s|
    ensures SumOf(s[i := x], f) == SumOf(s, f) - f(s[i]) + f(x)
  {
    if i > 0 {
      assert s[i := x][1..] == s[1..][i - 1 := x];
      SumOfUpdate(s[1..], i - 1, x, f);
    }
  }

  /** A sum over a prefix grows by the next term. */
  lemma SumOfPrefix<T>(xs: seq<T>, m: nat, f: T -> int)
    requires 0 < m <= |xs|
    ensures SumOf(xs[..m], f) == SumOf(xs[..m - 1], f) + f(xs[m - 1])
  {
    assert xs[..m] == xs[..m - 1] + [xs[m - 1]];
    SumOfAppend(xs[..m - 1], [xs[m - 1]], f);
  }
}
