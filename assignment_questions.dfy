// The student's timed assignment: a countdown stepped once a second, the
// answer map and visited set, 1-based pages of five questions, the
// per-question status, and the score computed on submission.

module AssignmentQuestions {
  import opened Outcomes
  import opened Strings
  import opened Clock
  import AssessmentView

  const PerPage: nat := 5

  // ---- countdown --------------------------------------------------------------

  /** One tick of the interval: at most one second left becomes zero. */
  function Step(prev: int): (next: int)
    ensures next >= 0
    ensures prev > 1000 ==> next == prev - 1000
  {
    if prev <= 1000 then 0 else prev - 1000
  }

  /** `!timeRemaining`: no interval runs while the time is null or zero. */
  predicate Running(t: Option<int>) {
    t.Some? && t.value != 0
  }

  /** The remaining time after k ticks. */
  function Steps(t: int, k: nat): int
    decreases k
  {
    if k == 0 then t else Steps(Step(t), k - 1)
  }

  /** A countdown from t milliseconds runs for ceil(t/1000) ticks: it is
      still positive before the last one and zero after it. */
  lemma {:induction false} CountdownLength(t: nat, k: nat)
    ensures k < (t + 999) / 1000 ==> Steps(t, k) > 0
    ensures k >= (t + 999) / 1000 ==> Steps(t, k) == 0
  {
    if k > 0 {
      if t > 1000 {
        CountdownLength(t - 1000, k - 1);
        assert (t + 999) / 1000 == (t - 1000 + 999) / 1000 + 1;
      } else {
        StaysZero(k - 1);
      }
    }
  }

  lemma {:induction false} StaysZero(k: nat)
    ensures Steps(0, k) == 0
  {
    if k > 0 {
      StaysZero(k - 1);
    }
  }

  // ---- formatTime -------------------------------------------------------------

  /** The three fields as formatTime computes them from milliseconds. */
  function RemainingFields(ms: int): seq<string>
    requires ms > 0
  {
    [Pad(ms / 3600000), Pad(ms / 60000 % 60), Pad(ms / 1000 % 60)]
  }

  /** formatTime: "00:00:00" once the time is up, else HH:MM:SS. */
  function FormatRemaining(ms: int): string {
    if ms <= 0 then "00:00:00" else Join(RemainingFields(ms), ":")
  }

  /** The rendering is the clock of the whole seconds left; the early return
      for no time left prints what the clock prints for zero. */
  lemma FormatRemainingIsClock(ms: int)
    ensures FormatRemaining(ms) == FormatClock(if ms <= 0 then 0 else ms / 1000)
  {
    if ms <= 0 {
      ClockZero();
    } else {
      WholeSeconds(ms);
    }
  }

  lemma WholeSeconds(ms: nat)
    ensures ms / 1000 / 3600 == ms / 3600000
    ensures ms / 1000 % 3600 / 60 == ms / 60000 % 60
  {
    var s := ms / 1000;
    var q, r := ms / 3600000, ms % 3600000;
    assert s == 3600 * q + r / 1000 by {
      assert ms == 3600000 * q + r;
      assert r == 1000 * (r / 1000) + r % 1000;
      assert ms == 1000 * (3600 * q + r / 1000) + r % 1000;
    }
    assert s / 3600 == q;
    var m := ms / 60000;
    assert m == s / 60 by {
      assert ms == 1000 * s + ms % 1000;
      assert s == 60 * (s / 60) + s % 60;
      assert ms == 60000 * (s / 60) + (1000 * (s % 60) + ms % 1000);
    }
    var b := s % 3600;
    assert s == 3600 * (s / 3600) + b;
    assert s / 60 == 60 * (s / 3600) + b / 60 by {
      assert s == 60 * (60 * (s / 3600) + b / 60) + b % 60;
    }
  }

  /** The time left reads back as whole seconds. */
  lemma FormatRemainingReadsBack(ms: int)
    requires ms > 0
    ensures var f := Split(FormatRemaining(ms), ':');
      |f| == 3 && IsDigits(f[0]) && IsDigits(f[1]) && IsDigits(f[2])
      && DecimalValue(f[1]) < 60 && DecimalValue(f[2]) < 60
      && 3600 * DecimalValue(f[0]) + 60 * DecimalValue(f[1]) + DecimalValue(f[2]) == ms / 1000
  {
    FormatRemainingIsClock(ms);
    ClockReadsBack(ms / 1000);
  }

  // ---- scoring ------------------------------------------------------------------

  /** A question's `correctAnswer` as the server sends it: a key, an array
      of keys, or absent. */
  datatype AnswerKey = KeyText(key: string) | KeyArray(keys: seq<string>) | NoKey

  datatype Question = Question(id: string, correctAnswer: AnswerKey)

  /** `answers[q._id] === q.correctAnswer`: an array is never strictly equal
      to a string, and a missing answer equals a missing key. */
  predicate StrictlyEqual(stored: Option<string>, key: AnswerKey) {
    match key
    case KeyText(k) => stored == Some(k)
    case KeyArray(_) => false
    case NoKey => stored.None?
  }

  function Stored(answers: map<string, string>, id: string): Option<string> {
    if id in answers then Some(answers[id]) else None
  }

  /** The number of questions the loop counts as correct. */
  function CorrectCount(qs: seq<Question>, answers: map<string, string>): (c: nat)
    ensures c <= |qs|
  {
    if qs == [] then 0
    else
      var q := qs[|qs| - 1];
      CorrectCount(qs[..|qs| - 1], answers)
        + (if StrictlyEqual(Stored(answers, q.id), q.correctAnswer) then 1 else 0)
  }

  /** `Math.round(correct / total * 100)`; NaN (None) for an empty list. */
  function ScoredMarks(correct: nat, total: nat): Option<int> {
    if total == 0 then None else Some((200 * correct + total) / (2 * total))
  }

  /** The mark is the percentage rounded to the nearest whole number, ties
      upwards: 100c/t - 1/2 <= mark < 100c/t + 1/2, between 0 and 100. */
  lemma MarksNearest(correct: nat, total: nat)
    requires correct <= total && total > 0
    ensures var m := ScoredMarks(correct, total).value;
      0 <= m <= 100
      && 200 * correct - total < 2 * total * m <= 200 * correct + total
  {
    var d, n := 2 * total, 200 * correct + total;
    DivBelow(n, d, 101);
    var m := n / d;
    assert n == d * m + n % d && 0 <= n % d < d;
  }

  /** A quotient is below k when the dividend is below k divisors. */
  lemma DivBelow(n: nat, d: nat, k: nat)
    requires d > 0 && n < d * k
    ensures n / d < k
  {
    var q := n / d;
    assert d * q <= n;
    if q >= k {
      MulMono(d, k, q);
    }
  }

  lemma MulMono(d: nat, a: nat, b: nat)
    requires a <= b
    ensures d * a <= d * b
  {
  }

  lemma DivExact(q: nat, d: nat, r: nat)
    requires 0 <= r < d
    ensures (d * q + r) / d == q
  {
    var n := d * q + r;
    var p := n / d;
    assert n == d * p + n % d && 0 <= n % d < d;
    if p > q {
      MulMono(d, q + 1, p);
    } else if p < q {
      MulMono(d, p + 1, q);
    }
  }

  /** `Math.round(elapsed / 60000)`: whole minutes, half a minute rounding up. */
  function TimeTaken(elapsedMs: int): int {
    (elapsedMs + 30000) / 60000
  }

  lemma TimeTakenNearest(elapsedMs: int)
    ensures 60000 * TimeTaken(elapsedMs) - 30000 <= elapsedMs < 60000 * TimeTaken(elapsedMs) + 30000
  {
  }

  /** formatMinutes, as the result card prints the minutes taken. */
  function FormatMinutes(ms: int): string {
    if ms <= 0 then "0 minutes"
    else
      var minutes := ms / 60000;
      NatToString(minutes) + " minute" + (if minutes != 1 then "s" else "")
  }

  lemma FormatMinutesOfWholeMinutes(t: nat)
    ensures FormatMinutes(t * 60000) ==
      if t == 0 then "0 minutes" else NatToString(t) + (if t == 1 then " minute" else " minutes")
  {
    var ms := t * 60000;
    assert ms / 60000 == t;
  }

  /** As written, a question whose key is an array is never counted, so a
      sheet of array keys scores zero whatever is answered. */
  lemma ArrayKeysNeverScore(qs: seq<Question>, answers: map<string, string>)
    requires forall i :: 0 <= i < |qs| ==> qs[i].correctAnswer.KeyArray?
    ensures CorrectCount(qs, answers) == 0
  {
    if qs != [] {
      ArrayKeysNeverScore(qs[..|qs| - 1], answers);
    }
  }

  /** The concrete case: the one question answered with its only correct
      key scores 0 marks. */
  lemma ArrayKeyExample()
    ensures CorrectCount([Question("q1", KeyArray(["A"]))], map["q1" := "A"]) == 0
    ensures ScoredMarks(0, 1) == Some(0)
  {
    ArrayKeysNeverScore([Question("q1", KeyArray(["A"]))], map["q1" := "A"]);
  }

  /** The evident intent: the chosen key is right when it is the correct key
      (for an array, its first key, as the self-assessment scorer judges
      single-answer questions); an unanswered question is never right. */
  predicate Matches(stored: Option<string>, key: AnswerKey) {
    match key
    case KeyText(k) => stored == Some(k)
    case KeyArray(keys) => |keys| > 0 && stored == Some(keys[0])
    case NoKey => false
  }

  function MatchCount(qs: seq<Question>, answers: map<string, string>): (c: nat)
    ensures c <= |qs|
  {
    if qs == [] then 0
    else
      var q := qs[|qs| - 1];
      MatchCount(qs[..|qs| - 1], answers) + (if Matches(Stored(answers, q.id), q.correctAnswer) then 1 else 0)
  }

  /** The question is answered with its correct key. */
  predicate AnsweredRight(q: Question, answers: map<string, string>) {
    match q.correctAnswer
    case KeyText(k) => Stored(answers, q.id) == Some(k)
    case KeyArray(keys) => |keys| > 0 && Stored(answers, q.id) == Some(keys[0])
    case NoKey => false
  }

  /** With the corrected comparison, answering every question with its
      correct key counts every question. */
  lemma {:induction false} AllRightAllCounted(qs: seq<Question>, answers: map<string, string>)
    requires forall i :: 0 <= i < |qs| ==> AnsweredRight(qs[i], answers)
    ensures MatchCount(qs, answers) == |qs|
  {
    if qs != [] {
      AllRightAllCounted(qs[..|qs| - 1], answers);
      assert AnsweredRight(qs[|qs| - 1], answers);
    }
  }

  /** ... and so gives full marks. */
  lemma AllRightFullMarks(qs: seq<Question>, answers: map<string, string>)
    requires |qs| > 0 && forall i :: 0 <= i < |qs| ==> AnsweredRight(qs[i], answers)
    ensures ScoredMarks(MatchCount(qs, answers), |qs|) == Some(100)
  {
    AllRightAllCounted(qs, answers);
    var t := |qs|;
    assert 200 * t + t == (2 * t) * 100 + t;
    DivExact(100, 2 * t, t);
  }

  /** The correction only changes the verdict on array keys and on
      unanswered questions without a key. */
  lemma {:induction false} CorrectionAgreesOnTextKeys(qs: seq<Question>, answers: map<string, string>)
    requires forall i :: 0 <= i < |qs| ==> qs[i].correctAnswer.KeyText?
    ensures MatchCount(qs, answers) == CorrectCount(qs, answers)
  {
    if qs != [] {
      CorrectionAgreesOnTextKeys(qs[..|qs| - 1], answers);
    }
  }

  // ---- pages and status ----------------------------------------------------------

  /** `Math.ceil(n / 5)`. */
  function TotalPages(n: nat): nat {
    (n + PerPage - 1) / PerPage
  }

  /** `questions.slice((page - 1) * 5, page * 5)`. */
  function PageQuestions<T>(qs: seq<T>, page: int): seq<T> {
    AssessmentView.Slice(qs, (page - 1) * PerPage, page * PerPage)
  }

  /** A 1-based page here shows what 0-based page `page - 1` of the
      self-assessment screen shows. */
  lemma PagesAsOnAssessment<T>(qs: seq<T>, page: int)
    requires page >= 1
    ensures PageQuestions(qs, page) == AssessmentView.PageSlice(qs, page - 1)
    ensures TotalPages(|qs|) == AssessmentView.PageCount(|qs|)
  {
  }

  /** The indicator of question i jumps to the page that shows it. */
  lemma IndicatorPage<T>(qs: seq<T>, i: nat)
    requires i < |qs|
    ensures 1 <= i / PerPage + 1 <= TotalPages(|qs|)
    ensures PageQuestions(qs, i / PerPage + 1)[i % PerPage] == qs[i]
  {
    AssessmentView.QuestionOnItsPage(qs, i);
  }

  datatype Status = Answered | Visited | Unvisited

  /** getQuestionStatus: a truthy answer first, then the visited set. */
  function StatusOf(answers: map<string, string>, visited: set<string>, id: string): Status {
    if id in answers && answers[id] != "" then Answered
    else if id in visited then Visited
    else Unvisited
  }

  /** The attempt's local state after the questions were loaded. */
  class Attempt {
    var answers: map<string, string>
    var visited: set<string>
    var currentPage: int
    var timeRemaining: Option<int>
    var isSubmitting: bool

    /** Every answered question was visited; pages count from one; the time
        left is never negative. */
    predicate Valid()
      reads this
    {
      answers.Keys <= visited && currentPage >= 1
      && (timeRemaining.Some? ==> timeRemaining.value >= 0)
    }

    /** The state once the questions arrived: the time left is
        `Math.max(0, end - now)` when the assignment has an end time. */
    constructor (remaining: Option<int>)
      requires remaining.Some? ==> remaining.value >= 0
      ensures Valid()
      ensures answers == map[] && visited == {} && currentPage == 1
      ensures timeRemaining == remaining && !isSubmitting
    {
      answers := map[];
      visited := {};
      currentPage := 1;
      timeRemaining := remaining;
      isSubmitting := false;
    }

    /** One interval tick. */
    method Tick()
      requires Valid() && Running(timeRemaining)
      modifies this
      ensures Valid()
      ensures timeRemaining == Some(Step(old(timeRemaining).value))
      ensures answers == old(answers) && visited == old(visited) && currentPage == old(currentPage)
    {
      timeRemaining := Some(Step(timeRemaining.value));
    }

    /** handleAnswerSelect: overwrites this question's answer and marks it
        visited. */
    method SelectAnswer(id: string, key: string)
      requires Valid()
      modifies this
      ensures Valid()
      ensures answers == old(answers)[id := key] && visited == old(visited) + {id}
      ensures currentPage == old(currentPage) && timeRemaining == old(timeRemaining)
    {
      answers := answers[id := key];
      visited := visited + {id};
    }

    /** The Previous button, enabled away from page one. */
    method PreviousPage()
      requires Valid() && currentPage != 1
      modifies this
      ensures Valid() && currentPage == old(currentPage) - 1
      ensures answers == old(answers) && visited == old(visited) && timeRemaining == old(timeRemaining)
    {
      currentPage := currentPage - 1;
    }

    /** The Next button, enabled unless this is the last page. */
    method NextPage(n: nat)
      requires Valid() && currentPage != TotalPages(n)
      modifies this
      ensures Valid() && currentPage == old(currentPage) + 1
      ensures answers == old(answers) && visited == old(visited) && timeRemaining == old(timeRemaining)
    {
      currentPage := currentPage + 1;
    }

    /** A click on the indicator of question i. */
    method JumpTo(i: nat)
      requires Valid()
      modifies this
      ensures Valid() && currentPage == i / PerPage + 1
      ensures answers == old(answers) && visited == old(visited) && timeRemaining == old(timeRemaining)
    {
      currentPage := i / PerPage + 1;
    }

    /** The submit button's `disabled` expression, negated. */
    predicate SubmitEnabled()
      reads this
    {
      !isSubmitting && !(timeRemaining.Some? && timeRemaining.value <= 0)
    }

    /** The local part of handleSubmit: the forEach counter, the marks and
        the minutes taken. */
    method Score(qs: seq<Question>, elapsedMs: int) returns (correct: nat, marks: Option<int>, minutes: int)
      ensures correct == CorrectCount(qs, answers)
      ensures marks == ScoredMarks(correct, |qs|)
      ensures minutes == TimeTaken(elapsedMs)
    {
      correct := 0;
      var i := 0;
      while i < |qs|
        invariant 0 <= i <= |qs|
        invariant correct == CorrectCount(qs[..i], answers)
      {
        assert qs[..i + 1][..i] == qs[..i];
        if StrictlyEqual(Stored(answers, qs[i].id), qs[i].correctAnswer) {
          correct := correct + 1;
        }
        i := i + 1;
      }
      assert qs[..|qs|] == qs;
      marks := ScoredMarks(correct, |qs|);
      minutes := TimeTaken(elapsedMs);
    }
  }

  /** After an answer its question shows as answered (for a non-empty key)
      and every other question keeps its status, except that it can only
      move on from unvisited. */
  lemma StatusAfterSelect(answers: map<string, string>, visited: set<string>, id: string, key: string, other: string)
    requires key != ""
    ensures StatusOf(answers[id := key], visited + {id}, id) == Answered
    ensures other != id ==> StatusOf(answers[id := key], visited + {id}, other) == StatusOf(answers, visited, other)
  {
  }

  /** While every answered question is visited, a question with an answer is
      never shown as unvisited. */
  lemma AnsweredIsNotUnvisited(answers: map<string, string>, visited: set<string>, id: string)
    requires answers.Keys <= visited && id in answers
    ensures StatusOf(answers, visited, id) != Unvisited
  {
  }

  /** On a non-empty list the two buttons keep the page between 1 and the
      page count. */
  lemma ButtonsKeepPageInRange(n: nat, page: int)
    requires n > 0 && 1 <= page <= TotalPages(n)
    ensures page != TotalPages(n) ==> page + 1 <= TotalPages(n)
    ensures page != 1 ==> page - 1 >= 1
  {
  }

  /** With no questions the page count is 0, so Next is never disabled and
      every page it reaches is empty. */
  lemma EmptyListNextNeverDisabled<T>(qs: seq<T>, page: int)
    requires qs == [] && page >= 1
    ensures page != TotalPages(|qs|)
    ensures PageQuestions(qs, page) == []
  {
  }
}
