// startAssignment: the question pool of one self-assessment. Each category's
// bank is flattened (a comprehension set becomes one entry per sub-question),
// shuffled and cut to the category's quota; up to five of the chosen MCQs
// become drag-and-drop questions; and the whole list is shuffled once more.
//
// Math.random is an oracle: `random(call, i)` is the draw of the call-th
// shuffle at the step that fills position i, and the position swapped in is
// that draw modulo i + 1, so every position the source can pick is reachable.

module Pool {
  import opened Outcomes
  import Sorting
  import opened Apportionment

  datatype SubQuestion = SubQuestion(subQuestion: string, correctAnswer: Option<seq<string>>, solution: string)

  /** A question as the bank returns it; only Comprehension sets use
      `paragraph` and `subQuestions`. */
  datatype SourceQuestion = SourceQuestion(
    questionType: string,
    question: string,
    paragraph: string,
    solution: string,
    correctAnswer: Option<seq<string>>,
    subQuestions: seq<SubQuestion>)

  /** The `type` tag startAssignment gives each entry. */
  datatype Kind = Mcq | ComprehensionPart

  /** `comprehensionData`: what a sub-question keeps of its set. */
  datatype Passage = Passage(paragraph: string, mainQuestion: string, solution: string)

  /** One entry of the assessment. A sub-question has no `isDragDrop` of its
      own, which reads as false. */
  datatype Item = Item(
    kind: Kind,
    category: Category,
    text: string,
    solution: string,
    correctAnswer: Option<seq<string>>,
    passage: Option<Passage>,
    isDragDrop: bool)

  /** The five question banks the component receives as props. */
  datatype Banks = Banks(
    remember: seq<SourceQuestion>,
    understand: seq<SourceQuestion>,
    apply: seq<SourceQuestion>,
    analyze: seq<SourceQuestion>,
    evaluate: seq<SourceQuestion>)

  type Random = (nat, nat) -> nat

  const DragDropLimit: int := 5

  function BankFor(b: Banks, c: Category): seq<SourceQuestion> {
    match c
    case Remembering => b.remember
    case Understanding => b.understand
    case Applying => b.apply
    case Analyzing => b.analyze
    case Evaluating => b.evaluate
  }

  function Min(a: int, b: int): int {
    if a <= b then a else b
  }

  // ---- flattening a bank --------------------------------------------------

  /** The entries one bank question contributes under category c. */
  function Expand(c: Category, q: SourceQuestion): seq<Item> {
    if q.questionType == "Comprehension" then
      seq(|q.subQuestions|, k requires 0 <= k < |q.subQuestions| =>
        Item(ComprehensionPart, c, q.subQuestions[k].subQuestion, q.subQuestions[k].solution,
             q.subQuestions[k].correctAnswer, Some(Passage(q.paragraph, q.question, q.solution)), false))
    else
      [Item(Mcq, c, q.question, q.solution, q.correctAnswer, None, false)]
  }

  /** `cognitivePool` before the shuffle: every entry is tagged with the
      category it was fetched under, and none is drag-and-drop yet. */
  function Flatten(c: Category, qs: seq<SourceQuestion>): seq<Item> {
    if qs == [] then [] else Flatten(c, qs[..|qs| - 1]) + Expand(c, qs[|qs| - 1])
  }

  /** Every entry of the pool carries the category it was fetched under and
      none is drag-and-drop. */
  lemma {:induction false} FlattenTagged(c: Category, qs: seq<SourceQuestion>)
    ensures forall i :: 0 <= i < |Flatten(c, qs)| ==> Flatten(c, qs)[i].category == c && !Flatten(c, qs)[i].isDragDrop
  {
    if qs != [] {
      FlattenTagged(c, qs[..|qs| - 1]);
    }
  }

  /** How many entries a bank question becomes. */
  function EntryCount(q: SourceQuestion): int {
    if q.questionType == "Comprehension" then |q.subQuestions| else 1
  }

  /** The pool holds one entry per plain question and one per sub-question. */
  lemma {:induction false} FlattenSize(c: Category, qs: seq<SourceQuestion>)
    ensures |Flatten(c, qs)| == Sorting.SumOf(qs, EntryCount)
  {
    if qs != [] {
      var init, last := qs[..|qs| - 1], qs[|qs| - 1];
      FlattenSize(c, init);
      assert qs == init + [last];
      Sorting.SumOfAppend(init, [last], EntryCount);
    }
  }

  /** Each sub-question of a Comprehension set in the bank appears in the
      pool, as a comprehension entry carrying its set's paragraph, question
      and solution. */
  lemma {:induction false} FlattenKeepsSubQuestions(c: Category, qs: seq<SourceQuestion>, i: nat, k: nat)
    requires i < |qs| && qs[i].questionType == "Comprehension" && k < |qs[i].subQuestions|
    ensures Item(ComprehensionPart, c, qs[i].subQuestions[k].subQuestion, qs[i].subQuestions[k].solution,
                 qs[i].subQuestions[k].correctAnswer, Some(Passage(qs[i].paragraph, qs[i].question, qs[i].solution)), false)
            in Flatten(c, qs)
  {
    var init := qs[..|qs| - 1];
    if i < |qs| - 1 {
      FlattenKeepsSubQuestions(c, init, i, k);
    } else {
      assert Expand(c, qs[i])[k] in Expand(c, qs[i]);
    }
  }

  /** A plain question appears in the pool as one MCQ entry. */
  lemma {:induction false} FlattenKeepsMcq(c: Category, qs: seq<SourceQuestion>, i: nat)
    requires i < |qs| && qs[i].questionType != "Comprehension"
    ensures Item(Mcq, c, qs[i].question, qs[i].solution, qs[i].correctAnswer, None, false) in Flatten(c, qs)
  {
    if i < |qs| - 1 {
      FlattenKeepsMcq(c, qs[..|qs| - 1], i);
    }
  }

  /** The forEach that fills `cognitivePool`. */
  method CognitivePool(c: Category, qs: seq<SourceQuestion>) returns (pool: seq<Item>)
    ensures pool == Flatten(c, qs)
  {
    pool := [];
    var i := 0;
    while i < |qs|
      invariant 0 <= i <= |qs|
      invariant pool == Flatten(c, qs[..i])
    {
      assert qs[..i + 1][..i] == qs[..i];
      pool := pool + Expand(c, qs[i]);
      i := i + 1;
    }
    assert qs[..|qs|] == qs;
  }

  // ---- shuffleArray ---------------------------------------------------------

  function Swap<T>(s: seq<T>, i: nat, j: nat): seq<T>
    requires i < |s| && j < |s|
  {
    s[i := s[j]][j := s[i]]
  }

  /** The Fisher-Yates steps that fill positions i - 1 down to 1, in that order. */
  function ShuffleFrom<T>(s: seq<T>, draw: nat -> nat, i: nat): (r: seq<T>)
    requires i <= |s|
    ensures |r| == |s|
    decreases i
  {
    if i <= 1 then s else ShuffleFrom(Swap(s, i - 1, draw(i - 1) % i), draw, i - 1)
  }

  /** shuffleArray's result. */
  function Shuffled<T>(s: seq<T>, draw: nat -> nat): (r: seq<T>)
    ensures |r| == |s|
  {
    ShuffleFrom(s, draw, |s|)
  }

  /** A swap exchanges two entries and keeps the rest. */
  lemma SwapFacts<T>(s: seq<T>, i: nat, j: nat)
    requires i < |s| && j < |s|
    ensures var r := Swap(s, i, j);
      |r| == |s| && multiset(r) == multiset(s) && r[i] == s[j] && r[j] == s[i]
      && forall k :: 0 <= k < |s| && k != i && k != j ==> r[k] == s[k]
  {
  }

  /** Each step swaps two entries, so the shuffle is a rearrangement. */
  lemma {:induction false} ShuffleFromPermutes<T>(s: seq<T>, draw: nat -> nat, i: nat)
    requires i <= |s|
    ensures |ShuffleFrom(s, draw, i)| == |s| && multiset(ShuffleFrom(s, draw, i)) == multiset(s)
    decreases i
  {
    if i > 1 {
      SwapFacts(s, i - 1, draw(i - 1) % i);
      ShuffleFromPermutes(Swap(s, i - 1, draw(i - 1) % i), draw, i - 1);
    }
  }

  /** shuffleArray returns a rearrangement of its input. */
  lemma ShuffledPermutes<T>(s: seq<T>, draw: nat -> nat)
    ensures |Shuffled(s, draw)| == |s| && multiset(Shuffled(s, draw)) == multiset(s)
  {
    ShuffleFromPermutes(s, draw, |s|);
  }

  /** Draws that always pick the position being filled leave the order as it was. */
  lemma {:induction false} ShuffleKeepsOrder<T>(s: seq<T>, draw: nat -> nat, i: nat)
    requires i <= |s|
    requires forall k :: 0 < k < i ==> draw(k) % (k + 1) == k
    ensures ShuffleFrom(s, draw, i) == s
    decreases i
  {
    if i > 1 {
      assert draw(i - 1) % i == i - 1;
      SwapSame(s, i - 1);
      ShuffleKeepsOrder(s, draw, i - 1);
    }
  }

  lemma SwapSame<T>(s: seq<T>, i: nat)
    requires i < |s|
    ensures Swap(s, i, i) == s
  {
    assert s[i := s[i]] == s;
  }

  /** A shuffle step never touches a position above the ones it still fills. */
  lemma {:induction false} ShuffleKeepsTail<T>(s: seq<T>, draw: nat -> nat, i: nat, k: nat)
    requires i <= k < |s|
    ensures ShuffleFrom(s, draw, i)[k] == s[k]
    decreases i
  {
    if i > 1 {
      ShuffleKeepsTail(Swap(s, i - 1, draw(i - 1) % i), draw, i - 1, k);
    }
  }

  /** shuffleArray: works on a copy and swaps in a loop. */
  method ShuffleArray<T>(xs: seq<T>, draw: nat -> nat) returns (r: seq<T>)
    ensures r == Shuffled(xs, draw)
  {
    var a := new T[|xs|](k requires 0 <= k < |xs| => xs[k]);
    assert a[..] == xs;
    var i := a.Length;
    while i > 1
      invariant 0 <= i <= a.Length
      invariant ShuffleFrom(a[..], draw, i) == ShuffleFrom(xs, draw, |xs|)
    {
      var j := draw(i - 1) % i;
      ghost var before := a[..];
      a[i - 1], a[j] := a[j], a[i - 1];
      assert a[..] == Swap(before, i - 1, j);
      i := i - 1;
    }
    r := a[..];
  }

  /** `array.slice(0, count)`: a prefix, counted from the end when `count`
      is negative. */
  function SliceTo<T>(s: seq<T>, count: int): (r: seq<T>)
    ensures |r| == (if count >= 0 then Min(count, |s|) else if |s| + count >= 0 then |s| + count else 0)
    ensures r == s[..|r|]
  {
    if count >= 0 then (if count <= |s| then s[..count] else s)
    else if |s| + count >= 0 then s[..|s| + count]
    else []
  }

  // ---- sampling each category ----------------------------------------------

  function DrawsOf(random: Random, call: nat): nat -> nat {
    i => random(call, i)
  }

  /** The entries one quota contributes: its category's pool, shuffled and cut. */
  function Chosen(q: Quota, banks: Banks, draw: nat -> nat): seq<Item> {
    SliceTo(Shuffled(Flatten(q.category, BankFor(banks, q.category)), draw), q.count)
  }

  /** What each key of `questionCounts` contributes, the k-th shuffle using
      the k-th call's draws. */
  function Blocks(quotas: seq<Quota>, banks: Banks, random: Random): (b: seq<seq<Item>>)
    ensures |b| == |quotas|
  {
    seq(|quotas|, k requires 0 <= k < |quotas| => Chosen(quotas[k], banks, DrawsOf(random, k)))
  }

  /** The first m blocks, one after the other. */
  function Concat(blocks: seq<seq<Item>>, m: nat): seq<Item>
    requires m <= |blocks|
  {
    if m == 0 then [] else Concat(blocks, m - 1) + blocks[m - 1]
  }

  /** `allQuestions` once the forEach over `questionCounts` is done. */
  function Selected(quotas: seq<Quota>, banks: Banks, random: Random): seq<Item> {
    Concat(Blocks(quotas, banks, random), |quotas|)
  }

  /** The forEach over `questionCounts`. */
  method SelectQuestions(quotas: seq<Quota>, banks: Banks, random: Random) returns (all: seq<Item>)
    ensures all == Selected(quotas, banks, random)
  {
    ghost var blocks := Blocks(quotas, banks, random);
    all := [];
    var m := 0;
    while m < |quotas|
      invariant 0 <= m <= |blocks|
      invariant all == Concat(blocks, m)
    {
      var chosen := ChooseFor(quotas, banks, random, m);
      ConcatNext(blocks, m, all, chosen);
      all := all + chosen;
      m := m + 1;
    }
  }

  lemma ConcatNext(blocks: seq<seq<Item>>, m: nat, all: seq<Item>, chosen: seq<Item>)
    requires m < |blocks| && all == Concat(blocks, m) && chosen == blocks[m]
    ensures all + chosen == Concat(blocks, m + 1)
  {
  }

  /** The m-th key of the forEach: the category's pool, shuffled, cut to the quota. */
  method ChooseFor(quotas: seq<Quota>, banks: Banks, random: Random, m: nat) returns (chosen: seq<Item>)
    requires m < |quotas|
    ensures chosen == Blocks(quotas, banks, random)[m]
  {
    var q := quotas[m];
    var pool := CognitivePool(q.category, BankFor(banks, q.category));
    pool := ShuffleArray(pool, DrawsOf(random, m));
    chosen := SliceTo(pool, q.count);
    BlockAt(quotas, banks, random, m);
  }

  lemma BlockAt(quotas: seq<Quota>, banks: Banks, random: Random, m: nat)
    requires m < |quotas|
    ensures Blocks(quotas, banks, random)[m] == Chosen(quotas[m], banks, DrawsOf(random, m))
  {
  }

  function InCategory(c: Category): Item -> int {
    (it: Item) => if it.category == c then 1 else 0
  }

  predicate DistinctQuotaCategories(quotas: seq<Quota>) {
    forall i, j :: 0 <= i < j < |quotas| ==> quotas[i].category != quotas[j].category
  }

  /** The shuffled pool keeps every entry's category tag and holds no
      drag-and-drop entry. */
  lemma ShuffledTagged(c: Category, qs: seq<SourceQuestion>, draw: nat -> nat, k: nat)
    requires k < |Shuffled(Flatten(c, qs), draw)|
    ensures Shuffled(Flatten(c, qs), draw)[k].category == c && !Shuffled(Flatten(c, qs), draw)[k].isDragDrop
  {
    var pool := Flatten(c, qs);
    var sh := Shuffled(pool, draw);
    ShuffledPermutes(pool, draw);
    FlattenTagged(c, qs);
    assert sh[k] in multiset(pool);
  }

  /** Every entry a quota chooses belongs to the quota's category. */
  lemma ChosenCategory(q: Quota, banks: Banks, draw: nat -> nat, k: nat)
    requires k < |Chosen(q, banks, draw)|
    ensures Chosen(q, banks, draw)[k].category == q.category
  {
    ShuffledTagged(q.category, BankFor(banks, q.category), draw, k);
  }

  /** A quota chooses min(count, pool size) entries. */
  lemma ChosenSize(q: Quota, banks: Banks, draw: nat -> nat)
    requires q.count >= 0
    ensures |Chosen(q, banks, draw)| == Min(q.count, |Flatten(q.category, BankFor(banks, q.category))|)
  {
  }

  /** Entries that all belong to one category count fully for it and not at all for another. */
  lemma {:induction false} OneCategoryCount(s: seq<Item>, d: Category, c: Category)
    requires forall k :: 0 <= k < |s| ==> s[k].category == d
    ensures Sorting.SumOf(s, InCategory(c)) == if d == c then |s| else 0
  {
    if s != [] {
      OneCategoryCount(s[1..], d, c);
    }
  }

  /** When block k holds only category cats[k] and no category repeats, the
      concatenation holds exactly block k's entries of category cats[k]. */
  lemma {:induction false} ConcatCategoryCount(blocks: seq<seq<Item>>, cats: seq<Category>, m: nat, k: nat)
    requires |cats| == |blocks| && m <= |blocks| && k < |blocks|
    requires forall i, j :: 0 <= i < j < |cats| ==> cats[i] != cats[j]
    requires forall i, j :: 0 <= i < |blocks| && 0 <= j < |blocks[i]| ==> blocks[i][j].category == cats[i]
    ensures Sorting.SumOf(Concat(blocks, m), InCategory(cats[k])) == if k < m then |blocks[k]| else 0
  {
    if m > 0 {
      ConcatCategoryCount(blocks, cats, m - 1, k);
      Sorting.SumOfAppend(Concat(blocks, m - 1), blocks[m - 1], InCategory(cats[k]));
      OneCategoryCount(blocks[m - 1], cats[m - 1], cats[k]);
    }
  }

  function Id(x: int): int { x }

  /** The concatenation is as long as its blocks together. */
  lemma {:induction false} ConcatSize(blocks: seq<seq<Item>>, counts: seq<int>, m: nat)
    requires |counts| == |blocks| && m <= |blocks|
    requires forall i :: 0 <= i < |blocks| ==> |blocks[i]| <= counts[i]
    ensures |Concat(blocks, m)| <= Sorting.SumOf(counts[..m], Id)
  {
    if m > 0 {
      ConcatSize(blocks, counts, m - 1);
      Sorting.SumOfPrefix(counts, m, Id);
    }
  }

  /** Each category gets exactly min(quota, pool size) entries, when the
      quotas name each category once and none is negative. */
  lemma SelectedCategoryCount(quotas: seq<Quota>, banks: Banks, random: Random, k: nat)
    requires k < |quotas| && DistinctQuotaCategories(quotas) && quotas[k].count >= 0
    ensures Sorting.SumOf(Selected(quotas, banks, random), InCategory(quotas[k].category)) ==
      Min(quotas[k].count, |Flatten(quotas[k].category, BankFor(banks, quotas[k].category))|)
  {
    var blocks: seq<seq<Item>> := Blocks(quotas, banks, random);
    var cats: seq<Category> := seq(|quotas|, i requires 0 <= i < |quotas| => quotas[i].category);
    forall i: int, j: int | 0 <= i < |blocks| && 0 <= j < |blocks[i]| ensures blocks[i][j].category == cats[i] {
      ChosenCategory(quotas[i], banks, DrawsOf(random, i), j);
    }
    ConcatCategoryCount(blocks, cats, |quotas|, k);
    ChosenSize(quotas[k], banks, DrawsOf(random, k));
  }

  /** The selection is no longer than the quotas add up to. */
  lemma SelectedSize(quotas: seq<Quota>, banks: Banks, random: Random)
    requires forall k :: 0 <= k < |quotas| ==> quotas[k].count >= 0
    ensures |Selected(quotas, banks, random)| <= Sorting.SumOf(quotas, CountOf)
  {
    var blocks: seq<seq<Item>> := Blocks(quotas, banks, random);
    var counts: seq<int> := seq(|quotas|, i requires 0 <= i < |quotas| => quotas[i].count);
    ConcatSize(blocks, counts, |quotas|);
    assert counts[..|quotas|] == counts;
    Sorting.SumOfPointwise(counts, quotas, Id, CountOf);
  }

  // ---- drag-and-drop tagging -------------------------------------------------

  function IsMcq(it: Item): int {
    if it.kind == Mcq then 1 else 0
  }

  function IsDragDrop(it: Item): int {
    if it.isDragDrop then 1 else 0
  }

  /** The positions of the MCQ entries among the first m, in order:
      `allQuestions.filter(q => q.type === 'mcq')`, by position. */
  function McqIndices(s: seq<Item>, m: nat): (r: seq<nat>)
    requires m <= |s|
    ensures forall k :: 0 <= k < |r| ==> r[k] < m && s[r[k]].kind == Mcq
    ensures forall a, b :: 0 <= a < b < |r| ==> r[a] < r[b]
  {
    if m == 0 then [] else McqIndices(s, m - 1) + (if s[m - 1].kind == Mcq then [m - 1] else [])
  }

  lemma {:induction false} McqIndicesCount(s: seq<Item>, m: nat)
    requires m <= |s|
    ensures |McqIndices(s, m)| == Sorting.SumOf(s[..m], IsMcq)
  {
    if m > 0 {
      McqIndicesCount(s, m - 1);
      Sorting.SumOfPrefix(s, m, IsMcq);
    }
  }

  /** A rearrangement of the MCQ positions still names distinct MCQ positions. */
  lemma PermutedPositions(s: seq<Item>, mcq: seq<nat>, sh: seq<nat>)
    requires forall k :: 0 <= k < |mcq| ==> mcq[k] < |s| && s[mcq[k]].kind == Mcq
    requires Sorting.Distinct(mcq) && multiset(sh) == multiset(mcq)
    ensures forall k :: 0 <= k < |sh| ==> sh[k] < |s| && s[sh[k]].kind == Mcq
    ensures Sorting.Distinct(sh)
  {
    forall k | 0 <= k < |sh| ensures sh[k] < |s| && s[sh[k]].kind == Mcq {
      assert sh[k] in multiset(mcq);
    }
    Sorting.DistinctPermutation(mcq, sh);
  }

  /** The positions tagged drag-and-drop: the first five of the shuffled
      MCQ positions, so min(5, number of MCQs) distinct MCQ positions. */
  function DragDropPicks(s: seq<Item>, draw: nat -> nat): (r: seq<nat>)
    ensures |r| == Min(DragDropLimit, Sorting.SumOf(s, IsMcq))
    ensures Sorting.Distinct(r)
    ensures forall k :: 0 <= k < |r| ==> r[k] < |s| && s[r[k]].kind == Mcq
  {
    var mcq := McqIndices(s, |s|);
    var sh := Shuffled(mcq, draw);
    ShuffledPermutes(mcq, draw);
    PermutedPositions(s, mcq, sh);
    McqIndicesCount(s, |s|);
    assert s[..|s|] == s;
    SliceTo(sh, DragDropLimit)
  }

  /** `q.isDragDrop = true` for each picked entry, in order. */
  function MarkAll(s: seq<Item>, picked: seq<nat>): (r: seq<Item>)
    requires forall k :: 0 <= k < |picked| ==> picked[k] < |s|
    ensures |r| == |s|
  {
    if picked == [] then s
    else
      var prev := MarkAll(s, picked[..|picked| - 1]);
      prev[picked[|picked| - 1] := prev[picked[|picked| - 1]].(isDragDrop := true)]
  }

  /** Tagging sets the flag exactly on the picked entries and changes nothing else. */
  lemma {:induction false} MarkAllAt(s: seq<Item>, picked: seq<nat>, i: nat)
    requires forall k :: 0 <= k < |picked| ==> picked[k] < |s|
    requires i < |s|
    ensures MarkAll(s, picked)[i] == s[i].(isDragDrop := s[i].isDragDrop || i in picked)
  {
    if picked != [] {
      var init := picked[..|picked| - 1];
      MarkAllAt(s, init, i);
      assert picked == init + [picked[|picked| - 1]];
    }
  }

  /** With no entry tagged beforehand and no position picked twice, exactly
      the picked entries end up tagged. */
  lemma {:induction false} MarkAllCount(s: seq<Item>, picked: seq<nat>)
    requires forall k :: 0 <= k < |picked| ==> picked[k] < |s|
    requires Sorting.Distinct(picked)
    requires forall i :: 0 <= i < |s| ==> !s[i].isDragDrop
    ensures Sorting.SumOf(MarkAll(s, picked), IsDragDrop) == |picked|
  {
    if picked != [] {
      var init := picked[..|picked| - 1];
      var p := picked[|picked| - 1];
      MarkAllCount(s, init);
      MarkAllAt(s, init, p);
      assert p !in init by {
        forall k | 0 <= k < |init| ensures init[k] != p {
          assert init[k] == picked[k];
        }
      }
      var prev := MarkAll(s, init);
      assert !prev[p].isDragDrop;
      assert MarkAll(s, picked) == prev[p := prev[p].(isDragDrop := true)];
      Sorting.SumOfUpdate(prev, p, prev[p].(isDragDrop := true), IsDragDrop);
    } else {
      NoneTagged(s);
    }
  }

  lemma {:induction false} NoneTagged(s: seq<Item>)
    requires forall i :: 0 <= i < |s| ==> !s[i].isDragDrop
    ensures Sorting.SumOf(s, IsDragDrop) == 0
  {
    if s != [] {
      NoneTagged(s[1..]);
    }
  }

  /** The tagging loop of startAssignment. */
  method MarkDragDrop(all: seq<Item>, draw: nat -> nat) returns (marked: seq<Item>)
    ensures marked == MarkAll(all, DragDropPicks(all, draw))
  {
    var mcq := McqIndices(all, |all|);
    var shuffled := ShuffleArray(mcq, draw);
    var picked := SliceTo(shuffled, DragDropLimit);
    assert picked == DragDropPicks(all, draw);
    marked := all;
    var k := 0;
    while k < |picked|
      invariant 0 <= k <= |picked|
      invariant marked == MarkAll(all, picked[..k])
    {
      MarkStep(all, picked, k);
      marked := marked[picked[k] := marked[picked[k]].(isDragDrop := true)];
      k := k + 1;
    }
    assert picked[..|picked|] == picked;
  }

  lemma MarkStep(s: seq<Item>, picked: seq<nat>, k: nat)
    requires forall j :: 0 <= j < |picked| ==> picked[j] < |s|
    requires k < |picked|
    ensures MarkAll(s, picked[..k + 1]) ==
      MarkAll(s, picked[..k])[picked[k] := MarkAll(s, picked[..k])[picked[k]].(isDragDrop := true)]
  {
    assert picked[..k + 1][..k] == picked[..k];
  }

  /** After tagging: exactly min(5, number of MCQs) entries are drag-and-drop,
      all of them MCQs, and the entries are otherwise as they were. */
  lemma DragDropFacts(all: seq<Item>, draw: nat -> nat)
    requires forall i :: 0 <= i < |all| ==> !all[i].isDragDrop
    ensures Sorting.SumOf(MarkAll(all, DragDropPicks(all, draw)), IsDragDrop) == Min(DragDropLimit, Sorting.SumOf(all, IsMcq))
    ensures forall i :: 0 <= i < |all| ==>
      MarkAll(all, DragDropPicks(all, draw))[i] == all[i].(isDragDrop := MarkAll(all, DragDropPicks(all, draw))[i].isDragDrop)
    ensures forall i :: 0 <= i < |all| && MarkAll(all, DragDropPicks(all, draw))[i].isDragDrop ==> all[i].kind == Mcq
  {
    var picked := DragDropPicks(all, draw);
    MarkAllCount(all, picked);
    forall i | 0 <= i < |all|
      ensures MarkAll(all, picked)[i] == all[i].(isDragDrop := MarkAll(all, picked)[i].isDragDrop)
      ensures MarkAll(all, picked)[i].isDragDrop ==> all[i].kind == Mcq
    {
      MarkAllAt(all, picked, i);
      if i in picked {
        var k :| 0 <= k < |picked| && picked[k] == i;
      }
    }
  }

  // ---- startAssignment ------------------------------------------------------

  /** The question list startAssignment stores: the selection with its
      drag-and-drop tags, shuffled. Shuffles are numbered by call: one per
      quota, then the MCQ positions, then the whole list. */
  function Assembled(quotas: seq<Quota>, banks: Banks, random: Random): seq<Item> {
    var selected := Selected(quotas, banks, random);
    Shuffled(MarkAll(selected, DragDropPicks(selected, DrawsOf(random, |quotas|))), DrawsOf(random, |quotas| + 1))
  }

  /** The computation of startAssignment: distributeQuestions over the level's
      weights, the selection, the tagging and the final shuffle. The failure
      is the TypeError distributeQuestions throws. */
  method BuildQuestions(config: LevelConfig, banks: Banks, random: Random)
    returns (r: Result<seq<Item>>, quotas: seq<Quota>, ghost order: seq<nat>)
    requires DistinctCategories(config.weights)
    ensures r.Failure? <==> Remaining(config.weights, QuestionsPerAssessment) > |config.weights|
    ensures r.Success? ==> r.value == Assembled(quotas, banks, random)
    ensures r.Success? ==> QuotasFromWeights(config.weights, quotas, order)
    ensures r.Success? ==> (Sorting.SumOf(quotas, CountOf) ==
      if Remaining(config.weights, QuestionsPerAssessment) >= 0 then QuestionsPerAssessment
      else QuestionsPerAssessment - Remaining(config.weights, QuestionsPerAssessment))
  {
    var counts;
    counts, order := DistributeQuestions(config.weights, QuestionsPerAssessment);
    if counts.Failure? {
      return Failure(counts.error), [], [];
    }
    quotas := counts.value;
    var all := SelectQuestions(quotas, banks, random);
    var marked := MarkDragDrop(all, DrawsOf(random, |quotas|));
    var questions := ShuffleArray(marked, DrawsOf(random, |quotas| + 1));
    r := Success(questions);
  }

  /** `questionCounts` in key order: key i is weight order[i] with its
      apportioned count. */
  ghost predicate QuotasFromWeights(ws: seq<Weight>, quotas: seq<Quota>, order: seq<nat>) {
    |quotas| == |order| == |ws|
    && forall i :: 0 <= i < |order| ==>
      order[i] < |ws| && Rank(ws, QuestionsPerAssessment, order[i]) == i
      && quotas[i] == Quota(ws[order[i]].category, QuotaOf(ws, QuestionsPerAssessment, order[i]))
  }

  /** Weights with distinct categories give quotas with distinct categories. */
  lemma QuotasDistinct(ws: seq<Weight>, quotas: seq<Quota>, order: seq<nat>)
    requires DistinctCategories(ws) && QuotasFromWeights(ws, quotas, order)
    ensures DistinctQuotaCategories(quotas)
  {
    forall i, j | 0 <= i < j < |quotas| ensures quotas[i].category != quotas[j].category {
      assert order[i] != order[j];
      if order[i] < order[j] {
        assert ws[order[i]].category != ws[order[j]].category;
      } else {
        assert ws[order[j]].category != ws[order[i]].category;
      }
    }
  }

  /** For a level of the table, distributeQuestions cannot fail, and its
      quotas name each category once, are not negative and add up to 45. */
  lemma LevelQuotasWellFormed(config: LevelConfig, quotas: seq<Quota>, order: seq<nat>)
    requires config in LevelsConfig()
    requires QuotasFromWeights(config.weights, quotas, order)
    ensures 0 <= Remaining(config.weights, QuestionsPerAssessment) < |config.weights|
    ensures DistinctQuotaCategories(quotas)
    ensures forall k :: 0 <= k < |quotas| ==> quotas[k].count >= 0
  {
    LevelsConfigWellFormed();
    var i :| 0 <= i < 5 && LevelsConfig()[i] == config;
    RemainingInRange(config.weights, QuestionsPerAssessment);
    QuotasDistinct(config.weights, quotas, order);
  }

  /** The stored list has no more entries than the quotas add up to. */
  lemma AssembledSize(quotas: seq<Quota>, banks: Banks, random: Random)
    requires forall k :: 0 <= k < |quotas| ==> quotas[k].count >= 0
    ensures |Assembled(quotas, banks, random)| <= Sorting.SumOf(quotas, CountOf)
  {
    SelectedSize(quotas, banks, random);
  }

  /** Category quotas[k] has exactly min(quota, pool size) entries in the
      stored list, when the quotas name each category once. */
  lemma AssembledCategoryCount(quotas: seq<Quota>, banks: Banks, random: Random, k: nat)
    requires DistinctQuotaCategories(quotas) && k < |quotas| && quotas[k].count >= 0
    ensures Sorting.SumOf(Assembled(quotas, banks, random), InCategory(quotas[k].category)) ==
      Min(quotas[k].count, |Flatten(quotas[k].category, BankFor(banks, quotas[k].category))|)
  {
    UntaggedSelection(quotas, banks, random);
    SelectedCategoryCount(quotas, banks, random, k);
    TaggedShuffleCount(Selected(quotas, banks, random), DrawsOf(random, |quotas|), DrawsOf(random, |quotas| + 1),
      InCategory(quotas[k].category));
  }

  /** Tagging and shuffling an untagged list keeps each category's count. */
  lemma TaggedShuffleCount(selected: seq<Item>, pick: nat -> nat, draw: nat -> nat, f: Item -> int)
    requires forall i :: 0 <= i < |selected| ==> !selected[i].isDragDrop
    requires forall it: Item :: f(it) == f(it.(isDragDrop := false))
    ensures Sorting.SumOf(Shuffled(MarkAll(selected, DragDropPicks(selected, pick)), draw), f) == Sorting.SumOf(selected, f)
  {
    var marked := MarkAll(selected, DragDropPicks(selected, pick));
    DragDropFacts(selected, pick);
    forall i | 0 <= i < |selected| ensures f(marked[i]) == f(selected[i]) {
      assert f(marked[i]) == f(marked[i].(isDragDrop := false));
      assert marked[i].(isDragDrop := false) == selected[i];
    }
    Sorting.SumOfPointwise(marked, selected, f, f);
    ShuffledPermutes(marked, draw);
    Sorting.SumOfPermutation(Shuffled(marked, draw), marked, f);
  }

  /** Exactly min(5, number of MCQs) entries of the stored list are
      drag-and-drop, and all of them are MCQs. */
  lemma AssembledDragDrop(quotas: seq<Quota>, banks: Banks, random: Random)
    ensures Sorting.SumOf(Assembled(quotas, banks, random), IsDragDrop) ==
      Min(DragDropLimit, Sorting.SumOf(Assembled(quotas, banks, random), IsMcq))
    ensures forall i :: 0 <= i < |Assembled(quotas, banks, random)| && Assembled(quotas, banks, random)[i].isDragDrop ==>
      Assembled(quotas, banks, random)[i].kind == Mcq
  {
    UntaggedSelection(quotas, banks, random);
    TaggedShuffle(Selected(quotas, banks, random), DrawsOf(random, |quotas|), DrawsOf(random, |quotas| + 1));
  }

  /** Tagging an untagged list and shuffling it leaves min(5, number of
      MCQs) drag-and-drop entries, all of them MCQs. */
  lemma TaggedShuffle(selected: seq<Item>, pick: nat -> nat, draw: nat -> nat)
    requires forall i :: 0 <= i < |selected| ==> !selected[i].isDragDrop
    ensures var questions := Shuffled(MarkAll(selected, DragDropPicks(selected, pick)), draw);
      Sorting.SumOf(questions, IsDragDrop) == Min(DragDropLimit, Sorting.SumOf(questions, IsMcq))
      && forall i :: 0 <= i < |questions| && questions[i].isDragDrop ==> questions[i].kind == Mcq
  {
    var marked := MarkAll(selected, DragDropPicks(selected, pick));
    var questions := Shuffled(marked, draw);
    DragDropFacts(selected, pick);
    ShuffledPermutes(marked, draw);
    Sorting.SumOfPointwise(marked, selected, IsMcq, IsMcq);
    Sorting.SumOfPermutation(questions, marked, IsMcq);
    Sorting.SumOfPermutation(questions, marked, IsDragDrop);
    TaggedAreMcq(marked, questions);
  }

  /** A rearrangement keeps "every drag-and-drop entry is an MCQ". */
  lemma TaggedAreMcq(marked: seq<Item>, questions: seq<Item>)
    requires multiset(questions) == multiset(marked)
    requires forall i :: 0 <= i < |marked| && marked[i].isDragDrop ==> marked[i].kind == Mcq
    ensures forall i :: 0 <= i < |questions| && questions[i].isDragDrop ==> questions[i].kind == Mcq
  {
    forall i | 0 <= i < |questions| && questions[i].isDragDrop ensures questions[i].kind == Mcq {
      assert questions[i] in multiset(marked);
      var j :| 0 <= j < |marked| && marked[j] == questions[i];
    }
  }

  /** Nothing in the selection is drag-and-drop before the tagging. */
  lemma UntaggedSelection(quotas: seq<Quota>, banks: Banks, random: Random)
    ensures forall i :: 0 <= i < |Selected(quotas, banks, random)| ==> !Selected(quotas, banks, random)[i].isDragDrop
  {
    var blocks: seq<seq<Item>> := Blocks(quotas, banks, random);
    forall b: int, j: int | 0 <= b < |blocks| && 0 <= j < |blocks[b]| ensures !blocks[b][j].isDragDrop {
      var q := quotas[b];
      ShuffledTagged(q.category, BankFor(banks, q.category), DrawsOf(random, b), j);
    }
    ConcatUntagged(blocks, |blocks|);
  }

  lemma {:induction false} ConcatUntagged(blocks: seq<seq<Item>>, m: nat)
    requires m <= |blocks|
    requires forall b, j :: 0 <= b < |blocks| && 0 <= j < |blocks[b]| ==> !blocks[b][j].isDragDrop
    ensures forall i :: 0 <= i < |Concat(blocks, m)| ==> !Concat(blocks, m)[i].isDragDrop
  {
    if m > 0 {
      ConcatUntagged(blocks, m - 1);
      var prev := Concat(blocks, m - 1);
      forall i | 0 <= i < |Concat(blocks, m)| ensures !Concat(blocks, m)[i].isDragDrop {
        if i >= |prev| {
          assert Concat(blocks, m)[i] == blocks[m - 1][i - |prev|];
        }
      }
    }
  }
}
