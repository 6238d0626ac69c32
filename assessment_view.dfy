// The pure helpers of the self-assessment screen: question-text cleaning,
// the two time formats, the pagination arithmetic, the per-question status
// and the review screen's correct/incorrect mark.

module AssessmentView {
  import opened Outcomes
  import opened Strings
  import Sorting
  import opened Apportionment
  import opened Pool
  import opened Scoring

  const QuestionsPerPage: int := 5

  // ---- cleanQuestionText ----------------------------------------------------

  /** cleanQuestionText: `''` for a missing or empty text; otherwise every
      `\text{` is dropped, then every `}`, `\`, `$`, `(` and `)`. */
  function CleanQuestionText(text: Option<string>): (r: string)
    ensures '}' !in r && '\\' !in r && '$' !in r && '(' !in r && ')' !in r
  {
    if text.None? || text.value == "" then ""
    else
      var s0 := ReplaceAll(text.value, "\\text{", "");
      var s1 := RemoveChar(s0, '}');
      var s2 := RemoveChar(s1, '\\');
      var s3 := RemoveChar(s2, '$');
      var s4 := RemoveChar(s3, '(');
      RemoveChar(s4, ')')
  }

  /** A text free of the five removed characters comes back unchanged. */
  lemma CleanKeepsClean(s: string)
    requires '}' !in s && '\\' !in s && '$' !in s && '(' !in s && ')' !in s
    ensures CleanQuestionText(Some(s)) == s
  {
    if s != "" {
      ReplaceAbsent(s, "\\text{", "");
    }
  }

  /** Cleaning twice is cleaning once. */
  lemma CleanIdempotent(text: Option<string>)
    ensures CleanQuestionText(Some(CleanQuestionText(text))) == CleanQuestionText(text)
  {
    CleanKeepsClean(CleanQuestionText(text));
  }

  // ---- formatTime -----------------------------------------------------------

  /** formatTime: whole minutes, a colon, and the seconds as two digits. */
  function FormatTime(seconds: nat): string {
    NatToString(seconds / 60) + ":" + PadStart2(NatToString(seconds % 60))
  }

  /** The minutes before the colon and the two digits after it read back as
      the number of seconds. */
  lemma FormatTimeReadsBack(seconds: nat)
    ensures |FormatTime(seconds)| >= 4
    ensures FormatTime(seconds)[|FormatTime(seconds)| - 3] == ':'
    ensures IsDigits(FormatTime(seconds)[..|FormatTime(seconds)| - 3])
    ensures IsDigits(FormatTime(seconds)[|FormatTime(seconds)| - 2..])
    ensures 60 * DecimalValue(FormatTime(seconds)[..|FormatTime(seconds)| - 3])
      + DecimalValue(FormatTime(seconds)[|FormatTime(seconds)| - 2..]) == seconds
  {
    var mins := NatToString(seconds / 60);
    var secs := PadStart2(NatToString(seconds % 60));
    var r := FormatTime(seconds);
    PadStart2Value(seconds % 60);
    DecimalRoundTrip(seconds / 60);
    assert r == mins + ":" + secs;
    assert |secs| == 2;
    assert r[..|r| - 3] == mins;
    assert r[|r| - 2..] == secs;
  }

  // ---- formatTimeTaken ------------------------------------------------------

  datatype TimeUnit = Hour | Minute | Second

  /** One part of a duration: an amount of one unit. */
  datatype Amount = Amount(n: nat, unit: TimeUnit)

  function UnitSeconds(u: TimeUnit): nat {
    match u
    case Hour => 3600
    case Minute => 60
    case Second => 1
  }

  function UnitRank(u: TimeUnit): nat {
    match u
    case Hour => 0
    case Minute => 1
    case Second => 2
  }

  function AmountSeconds(a: Amount): int { a.n * UnitSeconds(a.unit) }

  /** The parts formatTimeTaken prints: the non-zero hours and minutes, and
      the seconds when they are non-zero or nothing else was printed. */
  function DurationParts(seconds: nat): seq<Amount> {
    PartsOf(seconds / 3600, (seconds % 3600) / 60, seconds % 60)
  }

  /** The parts printed for given hours, minutes and seconds. */
  function PartsOf(hours: nat, minutes: nat, secs: nat): seq<Amount> {
    (if hours > 0 then [Amount(hours, Hour)] else [])
    + (if minutes > 0 then [Amount(minutes, Minute)] else [])
    + (if secs > 0 || (hours == 0 && minutes == 0) then [Amount(secs, Second)] else [])
  }

  /** A well-formed breakdown: units from largest to smallest, each at most
      once, minutes and seconds below 60, and no zero part unless it is the
      only one. */
  predicate Canonical(parts: seq<Amount>) {
    |parts| >= 1
    && (forall i, j :: 0 <= i < j < |parts| ==> UnitRank(parts[i].unit) < UnitRank(parts[j].unit))
    && (forall i :: 0 <= i < |parts| && parts[i].unit != Hour ==> parts[i].n < 60)
    && (|parts| > 1 ==> forall i :: 0 <= i < |parts| ==> parts[i].n > 0)
    && (|parts| == 1 && parts[0].n == 0 ==> parts[0].unit == Second)
  }

  /** Seconds split into whole hours, the minutes below 60 and the seconds below 60. */
  lemma Radix(seconds: nat)
    ensures seconds == 3600 * (seconds / 3600) + 60 * ((seconds % 3600) / 60) + seconds % 60
    ensures (seconds % 3600) / 60 < 60 && seconds % 60 < 60
  {
  }

  /** The printed parts are well formed. */
  lemma PartsOfCanonical(hours: nat, minutes: nat, secs: nat)
    requires minutes < 60 && secs < 60
    ensures Canonical(PartsOf(hours, minutes, secs))
  {
  }

  /** The printed parts add up to their amounts. */
  lemma PartsOfSum(hours: nat, minutes: nat, secs: nat)
    ensures Sorting.SumOf(PartsOf(hours, minutes, secs), AmountSeconds) == 3600 * hours + 60 * minutes + secs
  {
    var h: seq<Amount> := if hours > 0 then [Amount(hours, Hour)] else [];
    var m: seq<Amount> := if minutes > 0 then [Amount(minutes, Minute)] else [];
    var s: seq<Amount> := if secs > 0 || (hours == 0 && minutes == 0) then [Amount(secs, Second)] else [];
    Sorting.SumOfAppend(h + m, s, AmountSeconds);
    Sorting.SumOfAppend(h, m, AmountSeconds);
    assert Sorting.SumOf(h, AmountSeconds) == 3600 * hours;
    assert Sorting.SumOf(m, AmountSeconds) == 60 * minutes;
    assert Sorting.SumOf(s, AmountSeconds) == secs;
  }

  /** The parts add up to the duration and are well formed. */
  lemma DurationPartsSum(seconds: nat)
    ensures Sorting.SumOf(DurationParts(seconds), AmountSeconds) == seconds
    ensures Canonical(DurationParts(seconds))
  {
    Radix(seconds);
    PartsOfSum(seconds / 3600, (seconds % 3600) / 60, seconds % 60);
    PartsOfCanonical(seconds / 3600, (seconds % 3600) / 60, seconds % 60);
  }

  /** The breakdown is the only well-formed one: any well-formed list of parts
      adding up to the duration is the one formatTimeTaken prints. */
  lemma DurationPartsUnique(seconds: nat, parts: seq<Amount>)
    requires Canonical(parts) && Sorting.SumOf(parts, AmountSeconds) == seconds
    ensures parts == DurationParts(seconds)
  {
    var h, m, s := CanonicalParts(parts);
    MixedRadix(seconds, h, m, s);
  }

  /** A well-formed list of parts is the one printed for its hours, minutes
      and seconds. */
  lemma CanonicalParts(parts: seq<Amount>) returns (h: nat, m: nat, s: nat)
    requires Canonical(parts)
    ensures m < 60 && s < 60
    ensures Sorting.SumOf(parts, AmountSeconds) == 3600 * h + 60 * m + s
    ensures parts == PartsOf(h, m, s)
  {
    RankAtLeastIndex(parts, |parts| - 1);
    if |parts| == 1 {
      var a := parts[0];
      assert Sorting.SumOf(parts, AmountSeconds) == AmountSeconds(a);
      match a.unit
      case Hour => h, m, s := a.n, 0, 0;
      case Minute => h, m, s := 0, a.n, 0;
      case Second => h, m, s := 0, 0, a.n;
    } else if |parts| == 2 {
      var a, b := parts[0], parts[1];
      assert Sorting.SumOf(parts, AmountSeconds) == AmountSeconds(a) + AmountSeconds(b) by {
        assert parts[1..] == [b] && [b][1..] == [];
        assert Sorting.SumOf([b], AmountSeconds) == AmountSeconds(b);
      }
      assert UnitRank(a.unit) < UnitRank(b.unit);
      if a.unit == Hour && b.unit == Minute {
        h, m, s := a.n, b.n, 0;
      } else if a.unit == Hour {
        h, m, s := a.n, 0, b.n;
      } else {
        h, m, s := 0, a.n, b.n;
      }
    } else {
      var a, b, c := parts[0], parts[1], parts[2];
      assert Sorting.SumOf(parts, AmountSeconds) == AmountSeconds(a) + AmountSeconds(b) + AmountSeconds(c) by {
        assert parts[1..] == [b, c] && [b, c][1..] == [c] && [c][1..] == [];
        assert Sorting.SumOf([c], AmountSeconds) == AmountSeconds(c);
        assert Sorting.SumOf([b, c], AmountSeconds) == AmountSeconds(b) + AmountSeconds(c);
      }
      assert UnitRank(a.unit) < UnitRank(b.unit) < UnitRank(c.unit);
      h, m, s := a.n, b.n, c.n;
    }
  }

  /** With strictly growing ranks, the part at index i has rank at least i. */
  lemma {:induction false} RankAtLeastIndex(parts: seq<Amount>, i: nat)
    requires forall a, b :: 0 <= a < b < |parts| ==> UnitRank(parts[a].unit) < UnitRank(parts[b].unit)
    requires i < |parts|
    ensures UnitRank(parts[i].unit) >= i
  {
    if i > 0 {
      RankAtLeastIndex(parts, i - 1);
    }
  }

  /** Hours, minutes below 60 and seconds below 60 are determined by the total. */
  lemma MixedRadix(seconds: nat, h: nat, m: nat, s: nat)
    requires m < 60 && s < 60 && seconds == 3600 * h + 60 * m + s
    ensures seconds / 3600 == h && (seconds % 3600) / 60 == m && seconds % 60 == s
  {
  }

  function UnitName(u: TimeUnit): string {
    match u
    case Hour => "hour"
    case Minute => "minute"
    case Second => "second"
  }

  /** One printed part: hours and minutes take an `s` above one, seconds
      whenever they are not exactly one. */
  function AmountText(a: Amount): string {
    var plural := if a.unit == Second then a.n != 1 else a.n > 1;
    NatToString(a.n) + " " + UnitName(a.unit) + (if plural then "s" else "")
  }

  function AmountTexts(parts: seq<Amount>): (r: seq<string>)
    ensures |r| == |parts|
    ensures forall i :: 0 <= i < |parts| ==> r[i] == AmountText(parts[i])
  {
    if parts == [] then [] else [AmountText(parts[0])] + AmountTexts(parts[1..])
  }

  /** formatTimeTaken: `"0 seconds"` for zero, otherwise the parts joined by spaces. */
  function FormatTimeTaken(seconds: nat): string {
    if seconds == 0 then "0 seconds" else Join(AmountTexts(DurationParts(seconds)), " ")
  }

  /** The shortcut for zero prints what the general rule would print. */
  lemma FormatTimeTakenZero()
    ensures FormatTimeTaken(0) == Join(AmountTexts(DurationParts(0)), " ")
  {
    assert DurationParts(0) == [Amount(0, Second)];
    assert NatToString(0) == "0";
  }

  /** 61 seconds print as "1 minute 1 second". */
  lemma FormatTimeTakenMinute()
    ensures FormatTimeTaken(61) == "1 minute 1 second"
  {
    MixedRadix(61, 0, 1, 1);
    assert DurationParts(61) == [Amount(1, Minute), Amount(1, Second)];
    assert NatToString(1) == "1";
    assert AmountText(Amount(1, Minute)) == "1 minute";
    assert AmountText(Amount(1, Second)) == "1 second";
    assert Join(["1 minute", "1 second"], " ") == "1 minute 1 second";
  }

  /** Two hours print as "2 hours". */
  lemma FormatTimeTakenHours()
    ensures FormatTimeTaken(7200) == "2 hours"
  {
    MixedRadix(7200, 2, 0, 0);
    assert DurationParts(7200) == [Amount(2, Hour)];
    assert NatToString(2) == "2";
    assert AmountText(Amount(2, Hour)) == "2 hours";
  }

  // ---- pagination -----------------------------------------------------------

  function Max(a: int, b: int): int { if a >= b then a else b }

  /** `Math.ceil(n / 5)`. */
  function PageCount(n: nat): nat { (n + QuestionsPerPage - 1) / QuestionsPerPage }

  /** The page the sidebar jumps to for question i. */
  function PageOf(i: nat): nat { i / QuestionsPerPage }

  /** Array.prototype.slice: a negative bound counts from the end, and a
      bound past the end stops at the end. */
  function Slice<T>(s: seq<T>, start: int, end: int): (r: seq<T>)
    ensures |r| <= |s|
  {
    var from := if start < 0 then Max(|s| + start, 0) else Min(start, |s|);
    var to := if end < 0 then Max(|s| + end, 0) else Min(end, |s|);
    if from >= to then [] else s[from..to]
  }

  /** renderCurrentQuestions: the questions shown on a page. */
  function PageSlice<T>(qs: seq<T>, page: int): seq<T> {
    var start := page * QuestionsPerPage;
    Slice(qs, start, Min(start + QuestionsPerPage, |qs|))
  }

  /** Question i is on page floor(i/5), at position i mod 5, and that page exists. */
  lemma QuestionOnItsPage<T>(qs: seq<T>, i: nat)
    requires i < |qs|
    ensures PageOf(i) < PageCount(|qs|)
    ensures i % QuestionsPerPage < |PageSlice(qs, PageOf(i))|
    ensures PageSlice(qs, PageOf(i))[i % QuestionsPerPage] == qs[i]
  {
    var start := PageOf(i) * QuestionsPerPage;
    assert start <= i < start + QuestionsPerPage;
    assert PageSlice(qs, PageOf(i)) == qs[start..Min(start + QuestionsPerPage, |qs|)];
  }

  /** Every existing page shows one to five questions; pages past the end show none. */
  lemma PageSizes<T>(qs: seq<T>, page: nat)
    ensures page < PageCount(|qs|) ==> 1 <= |PageSlice(qs, page)| <= QuestionsPerPage
    ensures page >= PageCount(|qs|) ==> PageSlice(qs, page) == []
  {
  }

  /** The pages 0 .. k-1 one after another. */
  function PagesUpTo<T>(qs: seq<T>, k: nat): seq<T> {
    if k == 0 then [] else PagesUpTo(qs, k - 1) + PageSlice(qs, k - 1)
  }

  /** Read page after page, the pages show every question once, in order. */
  lemma {:induction false} PagesCover<T>(qs: seq<T>, k: nat)
    ensures PagesUpTo(qs, k) == qs[..Min(k * QuestionsPerPage, |qs|)]
  {
    if k > 0 {
      PagesCover(qs, k - 1);
      var a := Min((k - 1) * QuestionsPerPage, |qs|);
      var b := Min(k * QuestionsPerPage, |qs|);
      assert PageSlice(qs, k - 1) == qs[a..b];
      assert qs[..a] + qs[a..b] == qs[..b];
    }
  }

  lemma AllPagesAreTheList<T>(qs: seq<T>)
    ensures PagesUpTo(qs, PageCount(|qs|)) == qs
  {
    PagesCover(qs, PageCount(|qs|));
    assert Min(PageCount(|qs|) * QuestionsPerPage, |qs|) == |qs|;
  }

  /** handlePageNavigation: one page on, but not past the last page, or one
      page back, but not before the first. */
  function Navigate(next: bool, page: int, n: nat): int {
    if next then Min(PageCount(n) - 1, page + 1) else Max(0, page - 1)
  }

  /** On a non-empty list, navigation from a valid page lands on a valid
      page, moving by one unless it is at the end it moves towards. */
  lemma NavigateStaysOnPages(next: bool, page: int, n: nat)
    requires n > 0 && 0 <= page < PageCount(n)
    ensures 0 <= Navigate(next, page, n) < PageCount(n)
    ensures next ==> Navigate(next, page, n) == if page == PageCount(n) - 1 then page else page + 1
    ensures !next ==> Navigate(next, page, n) == if page == 0 then 0 else page - 1
  {
  }

  /** With no questions, 'next' moves to page -1. */
  lemma NavigateOnEmptyList()
    ensures Navigate(true, 0, 0) == -1
    ensures PageSlice([0][..0], -1) == []
  {
  }

  // ---- getQuestionStatus ----------------------------------------------------

  datatype QuestionStatus = Attempted | Unattempted

  /** getQuestionStatus: attempted when at least one key is chosen. */
  function Status(answers: Answers, i: nat): QuestionStatus {
    if |AnswerAt(answers, i)| > 0 then Attempted else Unattempted
  }

  /** Answering question i decides its status by whether any key was chosen,
      and leaves every other status as it was. */
  lemma StatusAfterAnswer(answers: Answers, i: nat, value: seq<string>, j: nat)
    ensures Status(answers[i := value], j) ==
      if j == i then (if value == [] then Unattempted else Attempted) else Status(answers, j)
  {
  }

  // ---- the review screen ----------------------------------------------------

  /** `keys?.join(', ')`: undefined for a missing list. */
  function JoinedKeys(keys: Option<seq<string>>): Option<string> {
    if keys.Some? then Some(Join(keys.value, ", ")) else None
  }

  function StoredAnswer(answers: Answers, i: nat): Option<seq<string>> {
    if i in answers then Some(answers[i]) else None
  }

  /** The review screen's mark: the joined correct keys equal the joined
      chosen keys. */
  predicate ReviewMark(q: Item, answers: Answers, i: nat) {
    JoinedKeys(q.correctAnswer) == JoinedKeys(StoredAnswer(answers, i))
  }

  /** The review screen marks incorrect a multi-answer question the scorer
      counts: the right keys chosen in the other order. It does the same to
      an unanswered question with an empty key list. */
  lemma ReviewMarkDisagreesWithScorer()
    ensures var q := Item(Mcq, Remembering, "", "", Some(["a", "b"]), None, false);
      IsCorrect(q, AnswerAt(map[0 := ["b", "a"]], 0)) && !ReviewMark(q, map[0 := ["b", "a"]], 0)
    ensures var q := Item(Mcq, Remembering, "", "", Some([]), None, false);
      IsCorrect(q, AnswerAt(map[], 0)) && !ReviewMark(q, map[], 0)
  {
    var answers: Answers := map[0 := ["b", "a"]];
    assert AnswerAt(answers, 0) == ["b", "a"];
    assert Join(["a", "b"], ", ") == "a, b";
    assert Join(["b", "a"], ", ") == "b, a";
    assert "a, b"[0] != "b, a"[0];
  }

  /** The mark the review screen evidently means: the scorer's own judgement. */
  predicate CorrectedReviewMark(q: Item, answers: Answers, i: nat) {
    IsCorrect(q, AnswerAt(answers, i))
  }

  /** A question gets the corrected mark exactly when it adds one to its
      category's correct count. */
  lemma CorrectedReviewMatchesScore(qs: seq<Item>, answers: Answers, i: nat)
    requires i < |qs|
    ensures CorrectedReviewMark(qs[i], answers, i) <==>
      CorrectIn(qs, answers, qs[i].category, i + 1) == CorrectIn(qs, answers, qs[i].category, i) + 1
  {
  }

  /** The corrected mark of a multi-answer question does not depend on the
      order of the chosen keys. */
  lemma CorrectedReviewOrderFree(q: Item, answers: Answers, i: nat, reordered: seq<string>)
    requires !q.isDragDrop && |CorrectKeys(q)| != 1 && multiset(AnswerAt(answers, i)) == multiset(reordered)
    ensures CorrectedReviewMark(q, answers, i) <==> CorrectedReviewMark(q, answers[i := reordered], i)
  {
    MultiAnswerOrderFree(q, AnswerAt(answers, i), reordered);
  }
}
