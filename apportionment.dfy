// How a level's percentage table becomes whole question counts for the
// 45-question self-assessment: the largest-remainder method of
// distributeQuestions, and the five level tables of getLevelsConfig.
//
// The exact count p / 100 * total is kept as integers: its whole part is
// p * total / 100 and its fractional part, in hundredths, p * total % 100
// (both exact, since Dafny's division by a positive number floors).

module Apportionment {
  import opened Outcomes
  import Sorting

  /** The five cognitive categories, in the key order of every weight table. */
  datatype Category = Remembering | Understanding | Applying | Analyzing | Evaluating

  /** One key of a weight table: a category and its percentage. */
  datatype Weight = Weight(category: Category, percent: int)

  datatype LevelConfig = LevelConfig(level: int, weights: seq<Weight>, title: string)

  /** One key of distributeQuestions' result object. */
  datatype Quota = Quota(category: Category, count: int)

  /** One element of `integerCounts`; `index` is the key's position in the
      weight table, which the sort's stability refers to. */
  datatype Entry = Entry(category: Category, index: nat, integer: int, fractional: int)

  const QuestionsPerAssessment: int := 45

  function Table(r: int, u: int, ap: int, an: int, e: int): seq<Weight> {
    [Weight(Remembering, r), Weight(Understanding, u), Weight(Applying, ap),
     Weight(Analyzing, an), Weight(Evaluating, e)]
  }

  /** getLevelsConfig. */
  function LevelsConfig(): seq<LevelConfig> {
    [ LevelConfig(1, Table(40, 20, 15, 15, 10), "Level 1 (Basic)"),
      LevelConfig(2, Table(30, 30, 15, 15, 10), "Level 2 (Intermediate)"),
      LevelConfig(3, Table(20, 20, 20, 20, 20), "Level 3 (Advanced)"),
      LevelConfig(4, Table(15, 15, 25, 25, 20), "Level 4 (Expert)"),
      LevelConfig(5, Table(10, 10, 30, 25, 25), "Level 5 (Master)") ]
  }

  predicate DistinctCategories(ws: seq<Weight>) {
    forall i, j :: 0 <= i < j < |ws| ==> ws[i].category != ws[j].category
  }

  function Floor(w: Weight, total: int): int {
    w.percent * total / 100
  }

  /** The fractional part of p / 100 * total, in hundredths. */
  function Fraction(w: Weight, total: int): (f: int)
    ensures 0 <= f < 100
  {
    w.percent * total % 100
  }

  /** `integerCounts` before the sort. */
  function Entries(ws: seq<Weight>, total: int): (r: seq<Entry>)
    ensures |r| == |ws|
  {
    seq(|ws|, k requires 0 <= k < |ws| => Entry(ws[k].category, k, Floor(ws[k], total), Fraction(ws[k], total)))
  }

  function IntegerOf(e: Entry): int { e.integer }

  function CountOf(q: Quota): int { q.count }

  /** `remaining`: how many counts the whole parts fall short of the total. */
  function Remaining(ws: seq<Weight>, total: int): int {
    total - Sorting.SumOf(Entries(ws, total), IntegerOf)
  }

  /** The order the stable descending sort on fractional parts produces:
      larger fraction first, and on a tie the earlier key first. */
  predicate Before(ws: seq<Weight>, total: int, j: nat, k: nat)
    requires j < |ws| && k < |ws|
  {
    Fraction(ws[j], total) > Fraction(ws[k], total)
    || (Fraction(ws[j], total) == Fraction(ws[k], total) && j < k)
  }

  /** How many of the first m keys come before key k. */
  function CountBefore(ws: seq<Weight>, total: int, k: nat, m: nat): nat
    requires k < |ws| && m <= |ws|
  {
    if m == 0 then 0
    else CountBefore(ws, total, k, m - 1) + (if Before(ws, total, m - 1, k) then 1 else 0)
  }

  /** Key k's position after the sort. */
  function Rank(ws: seq<Weight>, total: int, k: nat): nat
    requires k < |ws|
  {
    CountBefore(ws, total, k, |ws|)
  }

  /** The count distributeQuestions gives key k: its whole part, plus one
      when it is among the first `remaining` keys of the sorted order. */
  function QuotaOf(ws: seq<Weight>, total: int, k: nat): int
    requires k < |ws|
  {
    Floor(ws[k], total) + (if Rank(ws, total, k) < Remaining(ws, total) then 1 else 0)
  }

  function FractionOf(e: Entry): int { e.fractional }

  function PercentOf(w: Weight): int { w.percent }

  /** The sort key that orders entries exactly as `Before` does. */
  function SortKey(n: int, e: Entry): int {
    e.fractional * n + (n - 1 - e.index)
  }

  function KeyFor(n: int): Entry -> int {
    e => SortKey(n, e)
  }

  /** distributeQuestions: the quotas in the order of the result object's
      keys (the sorted order); a TypeError when `remaining` exceeds the
      number of keys, since the bump loop then reads past the array. */
  method DistributeQuestions(weights: seq<Weight>, total: int) returns (r: Result<seq<Quota>>, ghost order: seq<nat>)
    requires DistinctCategories(weights)
    ensures r.Failure? <==> Remaining(weights, total) > |weights|
    ensures r.Success? ==> |r.value| == |order| == |weights|
    ensures r.Success? ==> forall i :: 0 <= i < |order| ==>
      (order[i] < |weights| && Rank(weights, total, order[i]) == i
       && r.value[i] == Quota(weights[order[i]].category, QuotaOf(weights, total, order[i])))
    ensures r.Success? ==>
      (Sorting.SumOf(r.value, CountOf) == if Remaining(weights, total) >= 0 then total else total - Remaining(weights, total))
  {
    var n := |weights|;
    var entries := Entries(weights, total);
    var remaining := total - Sorting.SumOf(entries, IntegerOf);
    var a := new Entry[n](k requires 0 <= k < n => entries[k]);
    assert a[..] == entries;
    Sorting.SortDesc(a, KeyFor(n));
    ghost var sorted := a[..];
    var bumped := Bump(a, remaining);
    if bumped.None? {
      return Failure("TypeError: Cannot read properties of undefined (reading 'integer')"), [];
    }
    var quotas := seq(n, p requires 0 <= p < n reads a => Quota(a[p].category, a[p].integer));
    r := Success(quotas);
    order := seq(n, p requires 0 <= p < n => sorted[p].index);
    SortedQuotas(weights, total, sorted, quotas, bumped.value);
  }

  /** The bump loop: one more question for each of the first `remaining`
      sorted entries; `None` when it would read past the end. */
  method Bump(a: array<Entry>, remaining: int) returns (bumped: Option<nat>)
    modifies a
    ensures bumped.None? <==> remaining > a.Length
    ensures bumped.Some? ==> bumped.value == (if remaining >= 0 then remaining else 0)
    ensures bumped.Some? ==> forall p :: 0 <= p < a.Length ==>
      a[p] == old(a[p]).(integer := old(a[p]).integer + if p < bumped.value then 1 else 0)
  {
    var i := 0;
    while i < remaining
      invariant 0 <= i <= a.Length
      invariant i == 0 || i <= remaining
      invariant forall p :: 0 <= p < a.Length ==> a[p] == old(a[p]).(integer := old(a[p]).integer + if p < i then 1 else 0)
    {
      if i >= a.Length {
        return None;
      }
      a[i] := a[i].(integer := a[i].integer + 1);
      i := i + 1;
    }
    return Some(i);
  }

  /** The facts DistributeQuestions promises, from the sorted entries and the bump. */
  lemma {:induction false} SortedQuotas(ws: seq<Weight>, total: int, sorted: seq<Entry>, quotas: seq<Quota>, bumped: int)
    requires multiset(sorted) == multiset(Entries(ws, total))
    requires Sorting.SortedDesc(sorted, KeyFor(|ws|))
    requires |quotas| == |sorted| == |ws|
    requires bumped == if Remaining(ws, total) >= 0 then Remaining(ws, total) else 0
    requires bumped <= |ws|
    requires forall p :: 0 <= p < |ws| ==>
      quotas[p] == Quota(sorted[p].category, sorted[p].integer + if p < bumped then 1 else 0)
    ensures forall p :: 0 <= p < |ws| ==>
      (sorted[p].index < |ws| && Rank(ws, total, sorted[p].index) == p
       && quotas[p] == Quota(ws[sorted[p].index].category, QuotaOf(ws, total, sorted[p].index)))
    ensures Sorting.SumOf(quotas, CountOf) ==
      (if Remaining(ws, total) >= 0 then total else total - Remaining(ws, total))
  {
    forall p | 0 <= p < |ws|
      ensures sorted[p].index < |ws| && Rank(ws, total, sorted[p].index) == p
      ensures quotas[p] == Quota(ws[sorted[p].index].category, QuotaOf(ws, total, sorted[p].index))
    {
      SortedQuotaAt(ws, total, sorted, quotas[p], bumped, p);
    }
    BumpedSum(quotas, sorted, bumped);
    Sorting.SumOfPermutation(sorted, Entries(ws, total), IntegerOf);
  }

  // ---- proof of the sorted order ------------------------------------------

  /** Every element of a rearrangement of the entries is the entry of its own index. */
  lemma InEntries(ws: seq<Weight>, total: int, s: seq<Entry>, p: nat)
    requires multiset(s) == multiset(Entries(ws, total)) && p < |s|
    ensures s[p].index < |ws| && s[p] == Entries(ws, total)[s[p].index]
  {
    assert s[p] in multiset(Entries(ws, total));
  }

  lemma MulLower(d: int, n: int)
    requires d >= 1 && n >= 0
    ensures d * n >= n
  {
  }

  /** The sort key orders two distinct keys exactly as `Before` does. */
  lemma KeyOrder(ws: seq<Weight>, total: int, j: nat, k: nat)
    requires j < |ws| && k < |ws| && j != k
    ensures SortKey(|ws|, Entries(ws, total)[j]) > SortKey(|ws|, Entries(ws, total)[k]) <==> Before(ws, total, j, k)
    ensures SortKey(|ws|, Entries(ws, total)[j]) != SortKey(|ws|, Entries(ws, total)[k])
  {
    var n := |ws|;
    var fj, fk := Fraction(ws[j], total), Fraction(ws[k], total);
    var dj := SortKey(n, Entries(ws, total)[j]);
    var dk := SortKey(n, Entries(ws, total)[k]);
    assert dj - dk == (fj - fk) * n + (k - j);
    if fj > fk {
      MulLower(fj - fk, n);
    } else if fj < fk {
      MulLower(fk - fj, n);
      assert (fj - fk) * n == -((fk - fj) * n);
    }
  }

  /** A rearrangement of the entries has no repeated index. */
  lemma DistinctIndices(ws: seq<Weight>, total: int, s: seq<Entry>)
    requires multiset(s) == multiset(Entries(ws, total))
    ensures forall p, q :: 0 <= p < q < |s| ==> s[p].index != s[q].index
  {
    var es := Entries(ws, total);
    forall p, q | 0 <= p < q < |s| ensures s[p].index != s[q].index {
      InEntries(ws, total, s, p);
      InEntries(ws, total, s, q);
      if s[p].index == s[q].index {
        Sorting.TwiceInMultiset(s, p, q);
        Sorting.DistinctMultiplicity(es, s[p]);
      }
    }
  }

  lemma {:induction false} CountBeforeIsCard(ws: seq<Weight>, total: int, k: nat, m: nat)
    requires k < |ws| && m <= |ws|
    ensures CountBefore(ws, total, k, m) == |set j: nat | j < m && Before(ws, total, j, k)|
  {
    if m > 0 {
      CountBeforeIsCard(ws, total, k, m - 1);
      var prev := set j: nat | j < m - 1 && Before(ws, total, j, k);
      var cur := set j: nat | j < m && Before(ws, total, j, k);
      if Before(ws, total, m - 1, k) {
        assert cur == prev + {m - 1};
      } else {
        assert cur == prev;
      }
    }
  }

  lemma {:induction false} PrefixIndexCard(s: seq<Entry>, p: nat)
    requires p <= |s|
    requires forall a, b :: 0 <= a < b < |s| ==> s[a].index != s[b].index
    ensures |set q | 0 <= q < p :: s[q].index| == p
  {
    if p > 0 {
      PrefixIndexCard(s, p - 1);
      var prev := set q | 0 <= q < p - 1 :: s[q].index;
      var cur := set q | 0 <= q < p :: s[q].index;
      assert cur == prev + {s[p - 1].index};
      assert s[p - 1].index !in prev;
    }
  }

  lemma SortedQuotaAt(ws: seq<Weight>, total: int, sorted: seq<Entry>, quota: Quota, bumped: int, p: nat)
    requires multiset(sorted) == multiset(Entries(ws, total))
    requires Sorting.SortedDesc(sorted, KeyFor(|ws|))
    requires p < |sorted|
    requires bumped == if Remaining(ws, total) >= 0 then Remaining(ws, total) else 0
    requires quota == Quota(sorted[p].category, sorted[p].integer + if p < bumped then 1 else 0)
    ensures sorted[p].index < |ws| && Rank(ws, total, sorted[p].index) == p
    ensures quota == Quota(ws[sorted[p].index].category, QuotaOf(ws, total, sorted[p].index))
  {
    RankIsPosition(ws, total, sorted, p);
    InEntries(ws, total, sorted, p);
  }

  /** In a sequence sorted by descending key, a strictly larger key sits earlier. */
  lemma SortedPosition<T>(s: seq<T>, key: T -> int, a: nat, b: nat)
    requires Sorting.SortedDesc(s, key) && a < |s| && b < |s|
    requires key(s[a]) > key(s[b])
    ensures a < b
  {
  }

  /** In the sorted entries, the entry at position p has rank p. */
  lemma RankIsPosition(ws: seq<Weight>, total: int, s: seq<Entry>, p: nat)
    requires multiset(s) == multiset(Entries(ws, total))
    requires Sorting.SortedDesc(s, KeyFor(|ws|))
    requires p < |s|
    ensures s[p].index < |ws| && Rank(ws, total, s[p].index) == p
  {
    var es := Entries(ws, total);
    var n := |ws|;
    assert |s| == n by { assert |multiset(s)| == |multiset(es)|; }
    InEntries(ws, total, s, p);
    var k := s[p].index;
    DistinctIndices(ws, total, s);
    var before := set j: nat | j < n && Before(ws, total, j, k);
    var prefix := set q | 0 <= q < p :: s[q].index;
    forall j: nat | j < n && Before(ws, total, j, k) ensures j in prefix {
      assert es[j] in multiset(s);
      var q :| 0 <= q < |s| && s[q] == es[j];
      KeyOrder(ws, total, j, k);
      SortedPosition(s, KeyFor(n), q, p);
    }
    forall j | j in prefix ensures j < n && Before(ws, total, j, k) {
      var q :| 0 <= q < p && s[q].index == j;
      InEntries(ws, total, s, q);
      KeyOrder(ws, total, j, k);
    }
    assert before == prefix;
    CountBeforeIsCard(ws, total, k, n);
    PrefixIndexCard(s, p);
  }

  lemma {:induction false} BumpedSum(quotas: seq<Quota>, s: seq<Entry>, m: int)
    requires |quotas| == |s| && 0 <= m <= |s|
    requires forall p :: 0 <= p < |s| ==> quotas[p].count == s[p].integer + if p < m then 1 else 0
    ensures Sorting.SumOf(quotas, CountOf) == Sorting.SumOf(s, IntegerOf) + m
  {
    if s != [] {
      BumpedSum(quotas[1..], s[1..], if m > 0 then m - 1 else 0);
    }
  }

  // ---- properties of the apportionment -----------------------------------

  /** When the percentages add up to 100, the whole parts fall short of the
      total by fewer counts than there are keys, so the bump loop stays in
      bounds and the counts add up to the total exactly. */
  lemma RemainingInRange(ws: seq<Weight>, total: int)
    requires |ws| > 0
    requires Sorting.SumOf(ws, PercentOf) == 100
    ensures 0 <= Remaining(ws, total) < |ws|
  {
    var es := Entries(ws, total);
    FractionSum(ws, total);
    FractionSumBounds(es);
  }

  /** The exact counts p * total split into whole hundreds and hundredths, summed over the keys. */
  lemma {:induction false} FractionSum(ws: seq<Weight>, total: int)
    ensures 100 * Sorting.SumOf(Entries(ws, total), IntegerOf) + Sorting.SumOf(Entries(ws, total), FractionOf)
         == Sorting.SumOf(ws, PercentOf) * total
  {
    if ws != [] {
      FractionSum(ws[1..], total);
      var es, rest := Entries(ws, total), Entries(ws[1..], total);
      Sorting.SumOfPointwise(es[1..], rest, IntegerOf, IntegerOf);
      Sorting.SumOfPointwise(es[1..], rest, FractionOf, FractionOf);
      var p := ws[0].percent;
      assert 100 * Floor(ws[0], total) + Fraction(ws[0], total) == p * total;
      assert Sorting.SumOf(ws, PercentOf) * total == p * total + Sorting.SumOf(ws[1..], PercentOf) * total;
    }
  }

  lemma {:induction false} FractionSumBounds(es: seq<Entry>)
    requires forall i :: 0 <= i < |es| ==> 0 <= es[i].fractional < 100
    ensures 0 <= Sorting.SumOf(es, FractionOf) <= 99 * |es|
  {
    if es != [] {
      FractionSumBounds(es[1..]);
    }
  }

  /** Transitivity of the sorted order, counted: everything before k is
      before j, and so is k itself. */
  lemma {:induction false} CountBeforeMono(ws: seq<Weight>, total: int, j: nat, k: nat, m: nat)
    requires j < |ws| && k < |ws| && m <= |ws|
    requires Before(ws, total, k, j)
    ensures CountBefore(ws, total, k, m) + (if k < m then 1 else 0) <= CountBefore(ws, total, j, m)
  {
    if m > 0 {
      CountBeforeMono(ws, total, j, k, m - 1);
    }
  }

  /** The surplus goes to the largest fractional parts: a key that got the
      extra question comes before every key that did not, in the order
      "larger fraction first, earlier key on a tie". */
  lemma LargestRemaindersFirst(ws: seq<Weight>, total: int, j: nat, k: nat)
    requires j < |ws| && k < |ws|
    requires QuotaOf(ws, total, j) == Floor(ws[j], total) + 1
    requires QuotaOf(ws, total, k) == Floor(ws[k], total)
    ensures Fraction(ws[j], total) > Fraction(ws[k], total)
      || (Fraction(ws[j], total) == Fraction(ws[k], total) && j < k)
  {
    if Before(ws, total, k, j) {
      CountBeforeMono(ws, total, j, k, |ws|);
    }
  }

  /** Every key gets its whole part or one more, and exactly `remaining`
      keys get one more: ranks are the positions 0 .. n - 1. */
  lemma QuotaIsFloorOrNext(ws: seq<Weight>, total: int, k: nat)
    requires k < |ws|
    ensures QuotaOf(ws, total, k) - Floor(ws[k], total) == (if Rank(ws, total, k) < Remaining(ws, total) then 1 else 0)
    ensures Rank(ws, total, k) < |ws|
  {
    RankBound(ws, total, k, |ws|);
  }

  lemma {:induction false} RankBound(ws: seq<Weight>, total: int, k: nat, m: nat)
    requires k < |ws| && m <= |ws|
    ensures CountBefore(ws, total, k, m) + (if k < m then 1 else 0) <= m
  {
    if m > 0 {
      RankBound(ws, total, k, m - 1);
    }
  }

  /** The five level tables: numbered 1 to 5, one key per category, and
      percentages adding up to 100. */
  lemma LevelsConfigWellFormed()
    ensures |LevelsConfig()| == 5
    ensures forall i :: 0 <= i < 5 ==>
      (LevelsConfig()[i].level == i + 1 && |LevelsConfig()[i].weights| == 5
       && DistinctCategories(LevelsConfig()[i].weights)
       && Sorting.SumOf(LevelsConfig()[i].weights, PercentOf) == 100
       && forall j :: 0 <= j < 5 ==> LevelsConfig()[i].weights[j].percent > 0)
  {
    forall i | 0 <= i < 5
      ensures LevelsConfig()[i].level == i + 1 && |LevelsConfig()[i].weights| == 5
        && DistinctCategories(LevelsConfig()[i].weights)
        && Sorting.SumOf(LevelsConfig()[i].weights, PercentOf) == 100
        && forall j :: 0 <= j < 5 ==> LevelsConfig()[i].weights[j].percent > 0
    {
      if i == 0 {
        WeightTableFacts(40, 20, 15, 15, 10);
      } else if i == 1 {
        WeightTableFacts(30, 30, 15, 15, 10);
      } else if i == 2 {
        WeightTableFacts(20, 20, 20, 20, 20);
      } else if i == 3 {
        WeightTableFacts(15, 15, 25, 25, 20);
      } else {
        WeightTableFacts(10, 10, 30, 25, 25);
      }
    }
  }

  /** A table names each category once and its percentages add up. */
  lemma WeightTableFacts(r: int, u: int, ap: int, an: int, e: int)
    requires r > 0 && u > 0 && ap > 0 && an > 0 && e > 0
    ensures |Table(r, u, ap, an, e)| == 5 && DistinctCategories(Table(r, u, ap, an, e))
    ensures Sorting.SumOf(Table(r, u, ap, an, e), PercentOf) == r + u + ap + an + e
    ensures forall j :: 0 <= j < 5 ==> Table(r, u, ap, an, e)[j].percent > 0
  {
    var t := Table(r, u, ap, an, e);
    var t4 := [Weight(Evaluating, e)];
    var t3 := [Weight(Analyzing, an)] + t4;
    var t2 := [Weight(Applying, ap)] + t3;
    var t1 := [Weight(Understanding, u)] + t2;
    assert t == [Weight(Remembering, r)] + t1;
    assert t[1..] == t1 && t1[1..] == t2 && t2[1..] == t3 && t3[1..] == t4 && t4[1..] == [];
    assert Sorting.SumOf(t4, PercentOf) == e;
    assert Sorting.SumOf(t3, PercentOf) == an + e;
    assert Sorting.SumOf(t2, PercentOf) == ap + an + e;
    assert Sorting.SumOf(t1, PercentOf) == u + ap + an + e;
  }

  /** The expected split of the 45 questions, category by category. */
  function ExpectedQuotas(level: nat): seq<int>
    requires 1 <= level <= 5
  {
    [[18, 9, 7, 7, 4], [14, 13, 7, 7, 4], [9, 9, 9, 9, 9], [7, 7, 11, 11, 9], [5, 5, 13, 11, 11]][level - 1]
  }

  function FloorSum(ws: seq<Weight>, total: int): int {
    if ws == [] then 0 else Floor(ws[0], total) + FloorSum(ws[1..], total)
  }

  /** `currentTotal`, read key by key. */
  lemma {:induction false} FloorSumIsCurrentTotal(ws: seq<Weight>, total: int)
    ensures Remaining(ws, total) == total - FloorSum(ws, total)
  {
    if ws != [] {
      FloorSumIsCurrentTotal(ws[1..], total);
      Sorting.SumOfPointwise(Entries(ws, total)[1..], Entries(ws[1..], total), IntegerOf, IntegerOf);
    }
  }

  /** How each level's 45 questions split by category (Remembering,
      Understanding, Applying, Analyzing, Evaluating); level 5 shows the
      tie-break: three keys share the largest fraction and the two earlier
      ones get the two spare questions. */
  lemma LevelQuotas(level: nat)
    requires 1 <= level <= 5
    ensures |LevelsConfig()[level - 1].weights| == 5
    ensures forall k :: 0 <= k < 5 ==> QuotaOf(LevelsConfig()[level - 1].weights, QuestionsPerAssessment, k) == ExpectedQuotas(level)[k]
  {
    var ws := LevelsConfig()[level - 1].weights;
    if level == 1 {
      assert ws == Table(40, 20, 15, 15, 10);
      TableQuotas1();
    } else if level == 2 {
      assert ws == Table(30, 30, 15, 15, 10);
      TableQuotas2();
    } else if level == 3 {
      assert ws == Table(20, 20, 20, 20, 20);
      TableQuotas3();
    } else if level == 4 {
      assert ws == Table(15, 15, 25, 25, 20);
      TableQuotas4();
    } else {
      assert ws == Table(10, 10, 30, 25, 25);
      TableQuotas5();
    }
  }

  lemma TableRemaining1()
    ensures Remaining(Table(40, 20, 15, 15, 10), 45) == 2
  {
    FloorSumIsCurrentTotal(Table(40, 20, 15, 15, 10), 45);
  }

  lemma TableQuotas1()
    ensures forall k :: 0 <= k < 5 ==> QuotaOf(Table(40, 20, 15, 15, 10), QuestionsPerAssessment, k) == ExpectedQuotas(1)[k]
  {
    assert ExpectedQuotas(1) == [18, 9, 7, 7, 4];
    TableRemaining1();
    TableRank1_0();
    TableRank1_1();
    TableRank1_2();
    TableRank1_3();
    TableRank1_4();
  }

  lemma TableRank1_0()
    ensures Rank(Table(40, 20, 15, 15, 10), 45, 0) == 3
  {
    assert |Table(40, 20, 15, 15, 10)| == 5;
    assert CountBefore(Table(40, 20, 15, 15, 10), 45, 0, 1) == 0;
    assert CountBefore(Table(40, 20, 15, 15, 10), 45, 0, 2) == 0;
    assert CountBefore(Table(40, 20, 15, 15, 10), 45, 0, 3) == 1;
    assert CountBefore(Table(40, 20, 15, 15, 10), 45, 0, 4) == 2;
    assert CountBefore(Table(40, 20, 15, 15, 10), 45, 0, 5) == 3;
  }

  lemma TableRank1_1()
    ensures Rank(Table(40, 20, 15, 15, 10), 45, 1) == 4
  {
    assert |Table(40, 20, 15, 15, 10)| == 5;
    assert CountBefore(Table(40, 20, 15, 15, 10), 45, 1, 1) == 1;
    assert CountBefore(Table(40, 20, 15, 15, 10), 45, 1, 2) == 1;
    assert CountBefore(Table(40, 20, 15, 15, 10), 45, 1, 3) == 2;
    assert CountBefore(Table(40, 20, 15, 15, 10), 45, 1, 4) == 3;
    assert CountBefore(Table(40, 20, 15, 15, 10), 45, 1, 5) == 4;
  }

  lemma TableRank1_2()
    ensures Rank(Table(40, 20, 15, 15, 10), 45, 2) == 0
  {
    assert |Table(40, 20, 15, 15, 10)| == 5;
    assert CountBefore(Table(40, 20, 15, 15, 10), 45, 2, 1) == 0;
    assert CountBefore(Table(40, 20, 15, 15, 10), 45, 2, 2) == 0;
    assert CountBefore(Table(40, 20, 15, 15, 10), 45, 2, 3) == 0;
    assert CountBefore(Table(40, 20, 15, 15, 10), 45, 2, 4) == 0;
    assert CountBefore(Table(40, 20, 15, 15, 10), 45, 2, 5) == 0;
  }

  lemma TableRank1_3()
    ensures Rank(Table(40, 20, 15, 15, 10), 45, 3) == 1
  {
    assert |Table(40, 20, 15, 15, 10)| == 5;
    assert CountBefore(Table(40, 20, 15, 15, 10), 45, 3, 1) == 0;
    assert CountBefore(Table(40, 20, 15, 15, 10), 45, 3, 2) == 0;
    assert CountBefore(Table(40, 20, 15, 15, 10), 45, 3, 3) == 1;
    assert CountBefore(Table(40, 20, 15, 15, 10), 45, 3, 4) == 1;
    assert CountBefore(Table(40, 20, 15, 15, 10), 45, 3, 5) == 1;
  }

  lemma TableRank1_4()
    ensures Rank(Table(40, 20, 15, 15, 10), 45, 4) == 2
  {
    assert |Table(40, 20, 15, 15, 10)| == 5;
    assert CountBefore(Table(40, 20, 15, 15, 10), 45, 4, 1) == 0;
    assert CountBefore(Table(40, 20, 15, 15, 10), 45, 4, 2) == 0;
    assert CountBefore(Table(40, 20, 15, 15, 10), 45, 4, 3) == 1;
    assert CountBefore(Table(40, 20, 15, 15, 10), 45, 4, 4) == 2;
    assert CountBefore(Table(40, 20, 15, 15, 10), 45, 4, 5) == 2;
  }

  lemma TableRemaining2()
    ensures Remaining(Table(30, 30, 15, 15, 10), 45) == 3
  {
    FloorSumIsCurrentTotal(Table(30, 30, 15, 15, 10), 45);
  }

  lemma TableQuotas2()
    ensures forall k :: 0 <= k < 5 ==> QuotaOf(Table(30, 30, 15, 15, 10), QuestionsPerAssessment, k) == ExpectedQuotas(2)[k]
  {
    assert ExpectedQuotas(2) == [14, 13, 7, 7, 4];
    TableRemaining2();
    TableRank2_0();
    TableRank2_1();
    TableRank2_2();
    TableRank2_3();
    TableRank2_4();
  }

  lemma TableRank2_0()
    ensures Rank(Table(30, 30, 15, 15, 10), 45, 0) == 2
  {
    assert |Table(30, 30, 15, 15, 10)| == 5;
    assert CountBefore(Table(30, 30, 15, 15, 10), 45, 0, 1) == 0;
    assert CountBefore(Table(30, 30, 15, 15, 10), 45, 0, 2) == 0;
    assert CountBefore(Table(30, 30, 15, 15, 10), 45, 0, 3) == 1;
    assert CountBefore(Table(30, 30, 15, 15, 10), 45, 0, 4) == 2;
    assert CountBefore(Table(30, 30, 15, 15, 10), 45, 0, 5) == 2;
  }

  lemma TableRank2_1()
    ensures Rank(Table(30, 30, 15, 15, 10), 45, 1) == 3
  {
    assert |Table(30, 30, 15, 15, 10)| == 5;
    assert CountBefore(Table(30, 30, 15, 15, 10), 45, 1, 1) == 1;
    assert CountBefore(Table(30, 30, 15, 15, 10), 45, 1, 2) == 1;
    assert CountBefore(Table(30, 30, 15, 15, 10), 45, 1, 3) == 2;
    assert CountBefore(Table(30, 30, 15, 15, 10), 45, 1, 4) == 3;
    assert CountBefore(Table(30, 30, 15, 15, 10), 45, 1, 5) == 3;
  }

  lemma TableRank2_2()
    ensures Rank(Table(30, 30, 15, 15, 10), 45, 2) == 0
  {
    assert |Table(30, 30, 15, 15, 10)| == 5;
    assert CountBefore(Table(30, 30, 15, 15, 10), 45, 2, 1) == 0;
    assert CountBefore(Table(30, 30, 15, 15, 10), 45, 2, 2) == 0;
    assert CountBefore(Table(30, 30, 15, 15, 10), 45, 2, 3) == 0;
    assert CountBefore(Table(30, 30, 15, 15, 10), 45, 2, 4) == 0;
    assert CountBefore(Table(30, 30, 15, 15, 10), 45, 2, 5) == 0;
  }

  lemma TableRank2_3()
    ensures Rank(Table(30, 30, 15, 15, 10), 45, 3) == 1
  {
    assert |Table(30, 30, 15, 15, 10)| == 5;
    assert CountBefore(Table(30, 30, 15, 15, 10), 45, 3, 1) == 0;
    assert CountBefore(Table(30, 30, 15, 15, 10), 45, 3, 2) == 0;
    assert CountBefore(Table(30, 30, 15, 15, 10), 45, 3, 3) == 1;
    assert CountBefore(Table(30, 30, 15, 15, 10), 45, 3, 4) == 1;
    assert CountBefore(Table(30, 30, 15, 15, 10), 45, 3, 5) == 1;
  }

  lemma TableRank2_4()
    ensures Rank(Table(30, 30, 15, 15, 10), 45, 4) == 4
  {
    assert |Table(30, 30, 15, 15, 10)| == 5;
    assert CountBefore(Table(30, 30, 15, 15, 10), 45, 4, 1) == 1;
    assert CountBefore(Table(30, 30, 15, 15, 10), 45, 4, 2) == 2;
    assert CountBefore(Table(30, 30, 15, 15, 10), 45, 4, 3) == 3;
    assert CountBefore(Table(30, 30, 15, 15, 10), 45, 4, 4) == 4;
    assert CountBefore(Table(30, 30, 15, 15, 10), 45, 4, 5) == 4;
  }

  lemma TableRemaining3()
    ensures Remaining(Table(20, 20, 20, 20, 20), 45) == 0
  {
    FloorSumIsCurrentTotal(Table(20, 20, 20, 20, 20), 45);
  }

  lemma TableQuotas3()
    ensures forall k :: 0 <= k < 5 ==> QuotaOf(Table(20, 20, 20, 20, 20), QuestionsPerAssessment, k) == ExpectedQuotas(3)[k]
  {
    assert ExpectedQuotas(3) == [9, 9, 9, 9, 9];
    TableRemaining3();
    TableRank3_0();
    TableRank3_1();
    TableRank3_2();
    TableRank3_3();
    TableRank3_4();
  }

  lemma TableRank3_0()
    ensures Rank(Table(20, 20, 20, 20, 20), 45, 0) == 0
  {
    assert |Table(20, 20, 20, 20, 20)| == 5;
    assert CountBefore(Table(20, 20, 20, 20, 20), 45, 0, 1) == 0;
    assert CountBefore(Table(20, 20, 20, 20, 20), 45, 0, 2) == 0;
    assert CountBefore(Table(20, 20, 20, 20, 20), 45, 0, 3) == 0;
    assert CountBefore(Table(20, 20, 20, 20, 20), 45, 0, 4) == 0;
    assert CountBefore(Table(20, 20, 20, 20, 20), 45, 0, 5) == 0;
  }

  lemma TableRank3_1()
    ensures Rank(Table(20, 20, 20, 20, 20), 45, 1) == 1
  {
    assert |Table(20, 20, 20, 20, 20)| == 5;
    assert CountBefore(Table(20, 20, 20, 20, 20), 45, 1, 1) == 1;
    assert CountBefore(Table(20, 20, 20, 20, 20), 45, 1, 2) == 1;
    assert CountBefore(Table(20, 20, 20, 20, 20), 45, 1, 3) == 1;
    assert CountBefore(Table(20, 20, 20, 20, 20), 45, 1, 4) == 1;
    assert CountBefore(Table(20, 20, 20, 20, 20), 45, 1, 5) == 1;
  }

  lemma TableRank3_2()
    ensures Rank(Table(20, 20, 20, 20, 20), 45, 2) == 2
  {
    assert |Table(20, 20, 20, 20, 20)| == 5;
    assert CountBefore(Table(20, 20, 20, 20, 20), 45, 2, 1) == 1;
    assert CountBefore(Table(20, 20, 20, 20, 20), 45, 2, 2) == 2;
    assert CountBefore(Table(20, 20, 20, 20, 20), 45, 2, 3) == 2;
    assert CountBefore(Table(20, 20, 20, 20, 20), 45, 2, 4) == 2;
    assert CountBefore(Table(20, 20, 20, 20, 20), 45, 2, 5) == 2;
  }

  lemma TableRank3_3()
    ensures Rank(Table(20, 20, 20, 20, 20), 45, 3) == 3
  {
    assert |Table(20, 20, 20, 20, 20)| == 5;
    assert CountBefore(Table(20, 20, 20, 20, 20), 45, 3, 1) == 1;
    assert CountBefore(Table(20, 20, 20, 20, 20), 45, 3, 2) == 2;
    assert CountBefore(Table(20, 20, 20, 20, 20), 45, 3, 3) == 3;
    assert CountBefore(Table(20, 20, 20, 20, 20), 45, 3, 4) == 3;
    assert CountBefore(Table(20, 20, 20, 20, 20), 45, 3, 5) == 3;
  }

  lemma TableRank3_4()
    ensures Rank(Table(20, 20, 20, 20, 20), 45, 4) == 4
  {
    assert |Table(20, 20, 20, 20, 20)| == 5;
    assert CountBefore(Table(20, 20, 20, 20, 20), 45, 4, 1) == 1;
    assert CountBefore(Table(20, 20, 20, 20, 20), 45, 4, 2) == 2;
    assert CountBefore(Table(20, 20, 20, 20, 20), 45, 4, 3) == 3;
    assert CountBefore(Table(20, 20, 20, 20, 20), 45, 4, 4) == 4;
    assert CountBefore(Table(20, 20, 20, 20, 20), 45, 4, 5) == 4;
  }

  lemma TableRemaining4()
    ensures Remaining(Table(15, 15, 25, 25, 20), 45) == 2
  {
    FloorSumIsCurrentTotal(Table(15, 15, 25, 25, 20), 45);
  }

  lemma TableQuotas4()
    ensures forall k :: 0 <= k < 5 ==> QuotaOf(Table(15, 15, 25, 25, 20), QuestionsPerAssessment, k) == ExpectedQuotas(4)[k]
  {
    assert ExpectedQuotas(4) == [7, 7, 11, 11, 9];
    TableRemaining4();
    TableRank4_0();
    TableRank4_1();
    TableRank4_2();
    TableRank4_3();
    TableRank4_4();
  }

  lemma TableRank4_0()
    ensures Rank(Table(15, 15, 25, 25, 20), 45, 0) == 0
  {
    assert |Table(15, 15, 25, 25, 20)| == 5;
    assert CountBefore(Table(15, 15, 25, 25, 20), 45, 0, 1) == 0;
    assert CountBefore(Table(15, 15, 25, 25, 20), 45, 0, 2) == 0;
    assert CountBefore(Table(15, 15, 25, 25, 20), 45, 0, 3) == 0;
    assert CountBefore(Table(15, 15, 25, 25, 20), 45, 0, 4) == 0;
    assert CountBefore(Table(15, 15, 25, 25, 20), 45, 0, 5) == 0;
  }

  lemma TableRank4_1()
    ensures Rank(Table(15, 15, 25, 25, 20), 45, 1) == 1
  {
    assert |Table(15, 15, 25, 25, 20)| == 5;
    assert CountBefore(Table(15, 15, 25, 25, 20), 45, 1, 1) == 1;
    assert CountBefore(Table(15, 15, 25, 25, 20), 45, 1, 2) == 1;
    assert CountBefore(Table(15, 15, 25, 25, 20), 45, 1, 3) == 1;
    assert CountBefore(Table(15, 15, 25, 25, 20), 45, 1, 4) == 1;
    assert CountBefore(Table(15, 15, 25, 25, 20), 45, 1, 5) == 1;
  }

  lemma TableRank4_2()
    ensures Rank(Table(15, 15, 25, 25, 20), 45, 2) == 2
  {
    assert |Table(15, 15, 25, 25, 20)| == 5;
    assert CountBefore(Table(15, 15, 25, 25, 20), 45, 2, 1) == 1;
    assert CountBefore(Table(15, 15, 25, 25, 20), 45, 2, 2) == 2;
    assert CountBefore(Table(15, 15, 25, 25, 20), 45, 2, 3) == 2;
    assert CountBefore(Table(15, 15, 25, 25, 20), 45, 2, 4) == 2;
    assert CountBefore(Table(15, 15, 25, 25, 20), 45, 2, 5) == 2;
  }

  lemma TableRank4_3()
    ensures Rank(Table(15, 15, 25, 25, 20), 45, 3) == 3
  {
    assert |Table(15, 15, 25, 25, 20)| == 5;
    assert CountBefore(Table(15, 15, 25, 25, 20), 45, 3, 1) == 1;
    assert CountBefore(Table(15, 15, 25, 25, 20), 45, 3, 2) == 2;
    assert CountBefore(Table(15, 15, 25, 25, 20), 45, 3, 3) == 3;
    assert CountBefore(Table(15, 15, 25, 25, 20), 45, 3, 4) == 3;
    assert CountBefore(Table(15, 15, 25, 25, 20), 45, 3, 5) == 3;
  }

  lemma TableRank4_4()
    ensures Rank(Table(15, 15, 25, 25, 20), 45, 4) == 4
  {
    assert |Table(15, 15, 25, 25, 20)| == 5;
    assert CountBefore(Table(15, 15, 25, 25, 20), 45, 4, 1) == 1;
    assert CountBefore(Table(15, 15, 25, 25, 20), 45, 4, 2) == 2;
    assert CountBefore(Table(15, 15, 25, 25, 20), 45, 4, 3) == 3;
    assert CountBefore(Table(15, 15, 25, 25, 20), 45, 4, 4) == 4;
    assert CountBefore(Table(15, 15, 25, 25, 20), 45, 4, 5) == 4;
  }

  lemma TableRemaining5()
    ensures Remaining(Table(10, 10, 30, 25, 25), 45) == 2
  {
    FloorSumIsCurrentTotal(Table(10, 10, 30, 25, 25), 45);
  }

  lemma TableQuotas5()
    ensures forall k :: 0 <= k < 5 ==> QuotaOf(Table(10, 10, 30, 25, 25), QuestionsPerAssessment, k) == ExpectedQuotas(5)[k]
  {
    assert ExpectedQuotas(5) == [5, 5, 13, 11, 11];
    TableRemaining5();
    TableRank5_0();
    TableRank5_1();
    TableRank5_2();
    TableRank5_3();
    TableRank5_4();
  }

  lemma TableRank5_0()
    ensures Rank(Table(10, 10, 30, 25, 25), 45, 0) == 0
  {
    assert |Table(10, 10, 30, 25, 25)| == 5;
    assert CountBefore(Table(10, 10, 30, 25, 25), 45, 0, 1) == 0;
    assert CountBefore(Table(10, 10, 30, 25, 25), 45, 0, 2) == 0;
    assert CountBefore(Table(10, 10, 30, 25, 25), 45, 0, 3) == 0;
    assert CountBefore(Table(10, 10, 30, 25, 25), 45, 0, 4) == 0;
    assert CountBefore(Table(10, 10, 30, 25, 25), 45, 0, 5) == 0;
  }

  lemma TableRank5_1()
    ensures Rank(Table(10, 10, 30, 25, 25), 45, 1) == 1
  {
    assert |Table(10, 10, 30, 25, 25)| == 5;
    assert CountBefore(Table(10, 10, 30, 25, 25), 45, 1, 1) == 1;
    assert CountBefore(Table(10, 10, 30, 25, 25), 45, 1, 2) == 1;
    assert CountBefore(Table(10, 10, 30, 25, 25), 45, 1, 3) == 1;
    assert CountBefore(Table(10, 10, 30, 25, 25), 45, 1, 4) == 1;
    assert CountBefore(Table(10, 10, 30, 25, 25), 45, 1, 5) == 1;
  }

  lemma TableRank5_2()
    ensures Rank(Table(10, 10, 30, 25, 25), 45, 2) == 2
  {
    assert |Table(10, 10, 30, 25, 25)| == 5;
    assert CountBefore(Table(10, 10, 30, 25, 25), 45, 2, 1) == 1;
    assert CountBefore(Table(10, 10, 30, 25, 25), 45, 2, 2) == 2;
    assert CountBefore(Table(10, 10, 30, 25, 25), 45, 2, 3) == 2;
    assert CountBefore(Table(10, 10, 30, 25, 25), 45, 2, 4) == 2;
    assert CountBefore(Table(10, 10, 30, 25, 25), 45, 2, 5) == 2;
  }

  lemma TableRank5_3()
    ensures Rank(Table(10, 10, 30, 25, 25), 45, 3) == 3
  {
    assert |Table(10, 10, 30, 25, 25)| == 5;
    assert CountBefore(Table(10, 10, 30, 25, 25), 45, 3, 1) == 1;
    assert CountBefore(Table(10, 10, 30, 25, 25), 45, 3, 2) == 2;
    assert CountBefore(Table(10, 10, 30, 25, 25), 45, 3, 3) == 3;
    assert CountBefore(Table(10, 10, 30, 25, 25), 45, 3, 4) == 3;
    assert CountBefore(Table(10, 10, 30, 25, 25), 45, 3, 5) == 3;
  }

  lemma TableRank5_4()
    ensures Rank(Table(10, 10, 30, 25, 25), 45, 4) == 4
  {
    assert |Table(10, 10, 30, 25, 25)| == 5;
    assert CountBefore(Table(10, 10, 30, 25, 25), 45, 4, 1) == 1;
    assert CountBefore(Table(10, 10, 30, 25, 25), 45, 4, 2) == 2;
    assert CountBefore(Table(10, 10, 30, 25, 25), 45, 4, 3) == 3;
    assert CountBefore(Table(10, 10, 30, 25, 25), 45, 4, 4) == 4;
    assert CountBefore(Table(10, 10, 30, 25, 25), 45, 4, 5) == 4;
  }
}
