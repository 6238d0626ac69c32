// calculateScore: how each stored question is judged against the student's
// answer, the per-category correct/total table, the total score handleSubmit
// reports, and the per-category breakdown it posts.

module Scoring {
  import opened Outcomes
  import Sorting
  import opened Apportionment
  import opened Pool

  /** `answers`: question position to the chosen option keys. */
  type Answers = map<nat, seq<string>>

  datatype Tally = Tally(correct: nat, total: nat)

  /** `scoreByLevel`, one entry per category. */
  datatype ScoreTable = ScoreTable(
    remembering: Tally,
    understanding: Tally,
    applying: Tally,
    analyzing: Tally,
    evaluating: Tally)

  /** One entry of the posted `progress` object. */
  datatype CategoryProgress = CategoryProgress(questionCount: nat, correctCount: nat)

  /** The posted `progress` object, in its own key order. */
  datatype Breakdown = Breakdown(
    analyse: CategoryProgress,
    apply: CategoryProgress,
    evaluate: CategoryProgress,
    remember: CategoryProgress,
    understand: CategoryProgress)

  const EmptyTable: ScoreTable :=
    ScoreTable(Tally(0, 0), Tally(0, 0), Tally(0, 0), Tally(0, 0), Tally(0, 0))

  function TallyOf(t: ScoreTable, c: Category): Tally {
    match c
    case Remembering => t.remembering
    case Understanding => t.understanding
    case Applying => t.applying
    case Analyzing => t.analyzing
    case Evaluating => t.evaluating
  }

  function WithTally(t: ScoreTable, c: Category, v: Tally): (r: ScoreTable)
    ensures TallyOf(r, c) == v
    ensures forall d :: d != c ==> TallyOf(r, d) == TallyOf(t, d)
  {
    match c
    case Remembering => t.(remembering := v)
    case Understanding => t.(understanding := v)
    case Applying => t.(applying := v)
    case Analyzing => t.(analyzing := v)
    case Evaluating => t.(evaluating := v)
  }

  /** `answers[idx] || []`. */
  function AnswerAt(answers: Answers, i: nat): seq<string> {
    if i in answers then answers[i] else []
  }

  /** `q.correctAnswer || []`. */
  function CorrectKeys(q: Item): seq<string> {
    if q.correctAnswer.Some? then q.correctAnswer.value else []
  }

  /** `xs[0]`, which is undefined for an empty array. */
  function First(xs: seq<string>): Option<string> {
    if xs == [] then None else Some(xs[0])
  }

  /** The judgement of calculateScore: drag-and-drop and single-answer
      questions compare the first keys; the others need as many keys as the
      correct list, each of them in it. */
  predicate IsCorrect(q: Item, user: seq<string>) {
    var correct := CorrectKeys(q);
    if q.isDragDrop || |correct| == 1 then First(user) == First(correct)
    else |user| == |correct| && forall a :: a in user ==> a in correct
  }

  /** How many of the first m questions belong to category c. */
  function TotalIn(qs: seq<Item>, c: Category, m: nat): nat
    requires m <= |qs|
  {
    if m == 0 then 0 else TotalIn(qs, c, m - 1) + (if qs[m - 1].category == c then 1 else 0)
  }

  /** How many of the first m questions belong to category c and are judged correct. */
  function CorrectIn(qs: seq<Item>, answers: Answers, c: Category, m: nat): nat
    requires m <= |qs|
  {
    if m == 0 then 0
    else
      var hit := qs[m - 1].category == c && IsCorrect(qs[m - 1], AnswerAt(answers, m - 1));
      CorrectIn(qs, answers, c, m - 1) + (if hit then 1 else 0)
  }

  /** How many of the first m questions are judged correct, whatever their category. */
  function CorrectCount(qs: seq<Item>, answers: Answers, m: nat): nat
    requires m <= |qs|
  {
    if m == 0 then 0
    else CorrectCount(qs, answers, m - 1) + (if IsCorrect(qs[m - 1], AnswerAt(answers, m - 1)) then 1 else 0)
  }

  /** The table for the first m questions. */
  predicate TableFor(t: ScoreTable, qs: seq<Item>, answers: Answers, m: nat)
    requires m <= |qs|
  {
    forall c :: TallyOf(t, c) == Tally(CorrectIn(qs, answers, c, m), TotalIn(qs, c, m))
  }

  /** The table calculateScore returns: each category's correct count and
      total over the whole list. */
  function Tabulate(qs: seq<Item>, answers: Answers): ScoreTable {
    var n := |qs|;
    ScoreTable(
      Tally(CorrectIn(qs, answers, Remembering, n), TotalIn(qs, Remembering, n)),
      Tally(CorrectIn(qs, answers, Understanding, n), TotalIn(qs, Understanding, n)),
      Tally(CorrectIn(qs, answers, Applying, n), TotalIn(qs, Applying, n)),
      Tally(CorrectIn(qs, answers, Analyzing, n), TotalIn(qs, Analyzing, n)),
      Tally(CorrectIn(qs, answers, Evaluating, n), TotalIn(qs, Evaluating, n)))
  }

  /** calculateScore: each question adds one to its own category's total,
      and one to its correct count when judged correct. */
  method CalculateScore(qs: seq<Item>, answers: Answers) returns (t: ScoreTable)
    ensures t == Tabulate(qs, answers)
  {
    t := EmptyTable;
    var i := 0;
    while i < |qs|
      invariant 0 <= i <= |qs|
      invariant TableFor(t, qs, answers, i)
    {
      var q := qs[i];
      var user := AnswerAt(answers, i);
      var tally := TallyOf(t, q.category);
      tally := tally.(total := tally.total + 1);
      if IsCorrect(q, user) {
        tally := tally.(correct := tally.correct + 1);
      }
      t := WithTally(t, q.category, tally);
      i := i + 1;
    }
    assert TallyOf(t, Remembering) == t.remembering;
    assert TallyOf(t, Understanding) == t.understanding;
    assert TallyOf(t, Applying) == t.applying;
    assert TallyOf(t, Analyzing) == t.analyzing;
    assert TallyOf(t, Evaluating) == t.evaluating;
  }

  /** `Object.values(scoreByLevel).reduce((sum, l) => sum + l.correct, 0)`. */
  function TotalScore(t: ScoreTable): nat {
    t.remembering.correct + t.understanding.correct + t.applying.correct
    + t.analyzing.correct + t.evaluating.correct
  }

  function TotalCount(t: ScoreTable): nat {
    t.remembering.total + t.understanding.total + t.applying.total
    + t.analyzing.total + t.evaluating.total
  }

  /** `cognitiveBreakdown.progress`: the table under the server's key names. */
  function ToBreakdown(t: ScoreTable): (b: Breakdown)
    ensures b.analyse == CategoryProgress(TallyOf(t, Analyzing).total, TallyOf(t, Analyzing).correct)
    ensures b.apply == CategoryProgress(TallyOf(t, Applying).total, TallyOf(t, Applying).correct)
    ensures b.evaluate == CategoryProgress(TallyOf(t, Evaluating).total, TallyOf(t, Evaluating).correct)
    ensures b.remember == CategoryProgress(TallyOf(t, Remembering).total, TallyOf(t, Remembering).correct)
    ensures b.understand == CategoryProgress(TallyOf(t, Understanding).total, TallyOf(t, Understanding).correct)
  {
    Breakdown(
      CategoryProgress(t.analyzing.total, t.analyzing.correct),
      CategoryProgress(t.applying.total, t.applying.correct),
      CategoryProgress(t.evaluating.total, t.evaluating.correct),
      CategoryProgress(t.remembering.total, t.remembering.correct),
      CategoryProgress(t.understanding.total, t.understanding.correct))
  }

  // ---- properties of the table ----------------------------------------------

  /** Every question lands in exactly one category. */
  lemma {:induction false} TotalsCoverAll(qs: seq<Item>, m: nat)
    requires m <= |qs|
    ensures TotalIn(qs, Remembering, m) + TotalIn(qs, Understanding, m) + TotalIn(qs, Applying, m)
      + TotalIn(qs, Analyzing, m) + TotalIn(qs, Evaluating, m) == m
  {
    if m > 0 {
      TotalsCoverAll(qs, m - 1);
    }
  }

  /** A category's correct count never exceeds its total. */
  lemma {:induction false} CorrectAtMostTotal(qs: seq<Item>, answers: Answers, c: Category, m: nat)
    requires m <= |qs|
    ensures CorrectIn(qs, answers, c, m) <= TotalIn(qs, c, m)
  {
    if m > 0 {
      CorrectAtMostTotal(qs, answers, c, m - 1);
    }
  }

  /** The per-category correct counts add up to the number of correct questions. */
  lemma {:induction false} CorrectCoverAll(qs: seq<Item>, answers: Answers, m: nat)
    requires m <= |qs|
    ensures CorrectIn(qs, answers, Remembering, m) + CorrectIn(qs, answers, Understanding, m)
      + CorrectIn(qs, answers, Applying, m) + CorrectIn(qs, answers, Analyzing, m)
      + CorrectIn(qs, answers, Evaluating, m) == CorrectCount(qs, answers, m)
  {
    if m > 0 {
      CorrectCoverAll(qs, answers, m - 1);
    }
  }

  /** The table of a whole question list: its totals add up to the number of
      questions, no category has more correct than total, and the reported
      score is the number of questions judged correct. */
  lemma TableFacts(qs: seq<Item>, answers: Answers)
    ensures TotalCount(Tabulate(qs, answers)) == |qs|
    ensures forall c :: TallyOf(Tabulate(qs, answers), c).correct <= TallyOf(Tabulate(qs, answers), c).total
    ensures TotalScore(Tabulate(qs, answers)) == CorrectCount(qs, answers, |qs|)
    ensures TotalScore(Tabulate(qs, answers)) <= |qs|
  {
    var t := Tabulate(qs, answers);
    TotalsCoverAll(qs, |qs|);
    CorrectCoverAll(qs, answers, |qs|);
    forall c ensures TallyOf(t, c).correct <= TallyOf(t, c).total {
      CorrectAtMostTotal(qs, answers, c, |qs|);
    }
    assert TallyOf(t, Remembering) == t.remembering && TallyOf(t, Understanding) == t.understanding;
    assert TallyOf(t, Applying) == t.applying && TallyOf(t, Analyzing) == t.analyzing;
    assert TallyOf(t, Evaluating) == t.evaluating;
  }

  /** A category's total is its share of the list, as the pool lemmas count it. */
  lemma {:induction false} TotalInIsShare(qs: seq<Item>, c: Category, m: nat)
    requires m <= |qs|
    ensures TotalIn(qs, c, m) == Sorting.SumOf(qs[..m], InCategory(c))
  {
    if m > 0 {
      TotalInIsShare(qs, c, m - 1);
      Sorting.SumOfPrefix(qs, m, InCategory(c));
    }
  }

  // ---- how one question is judged -------------------------------------------

  /** A multi-answer question (neither drag-and-drop nor single-answer) with
      repeat-free answer and key lists is correct exactly when both name the
      same set of keys. */
  lemma MultiAnswerIsSetEquality(q: Item, user: seq<string>)
    requires !q.isDragDrop && |CorrectKeys(q)| != 1
    requires Sorting.Distinct(user) && Sorting.Distinct(CorrectKeys(q))
    ensures IsCorrect(q, user) <==> KeySet(user) == KeySet(CorrectKeys(q))
  {
    var correct := CorrectKeys(q);
    var su := KeySet(user);
    var sc := KeySet(correct);
    DistinctCard(user);
    DistinctCard(correct);
    if IsCorrect(q, user) {
      assert su <= sc;
      SubsetEqualCard(su, sc);
    }
    if su == sc {
      assert forall a :: a in user ==> a in su;
      assert forall a :: a in sc ==> a in correct;
    }
  }

  function KeySet(s: seq<string>): set<string> {
    set a | a in s
  }

  lemma {:induction false} DistinctCard(s: seq<string>)
    requires Sorting.Distinct(s)
    ensures |KeySet(s)| == |s|
  {
    if s != [] {
      var init := s[..|s| - 1];
      var x := s[|s| - 1];
      DistinctCard(init);
      assert KeySet(s) == KeySet(init) + {x};
      assert x !in init by {
        forall k | 0 <= k < |init| ensures init[k] != x {
          assert init[k] == s[k];
        }
      }
    }
  }

  lemma SubsetEqualCard<T>(a: set<T>, b: set<T>)
    requires a <= b && |a| == |b|
    ensures a == b
  {
    assert b == a + (b - a);
    assert a * (b - a) == {};
    assert |b - a| == 0;
  }

  /** A question with no correct keys counts as correct when left
      unanswered: as a multi-answer question both lists are empty, and as a
      drag-and-drop question both first keys are undefined. */
  lemma EmptyKeyUnansweredIsCorrect(q: Item, answers: Answers, i: nat)
    requires CorrectKeys(q) == [] && i !in answers
    ensures IsCorrect(q, AnswerAt(answers, i))
  {
  }

  /** An unanswered question is otherwise wrong: a single-answer or
      drag-and-drop question with a key, or a multi-answer one with keys. */
  lemma UnansweredIsWrong(q: Item, answers: Answers, i: nat)
    requires CorrectKeys(q) != [] && i !in answers
    ensures !IsCorrect(q, AnswerAt(answers, i))
  {
  }

  /** Answer order does not matter for a multi-answer question. */
  lemma MultiAnswerOrderFree(q: Item, user: seq<string>, other: seq<string>)
    requires !q.isDragDrop && |CorrectKeys(q)| != 1
    requires multiset(user) == multiset(other)
    ensures IsCorrect(q, user) <==> IsCorrect(q, other)
  {
    assert |user| == |multiset(user)| == |multiset(other)| == |other|;
    forall a ensures a in user <==> a in other {
      assert a in user <==> a in multiset(user);
      assert a in other <==> a in multiset(other);
    }
  }
}
