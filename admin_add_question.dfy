// The admin's question-set editor: a list of questions of one sub-type (MCQ
// or Comprehension) built up field by field, validated in a fixed order,
// turned into one record per question and posted one after another to the
// endpoint of the chosen question type.

module AdminAddQuestion {
  import opened Outcomes
  import opened QuestionForms
  import Strings

  const BlankSub := SubQuestion("", BlankChoices, Many([]), Some(""))

  /** The blank the form starts with, and returns to after a type change
      or a successful submit: both shapes at once, with an empty type tag. */
  const FullBlank := Question("", Some(""), Some(BlankChoices), Some(Many([])), Some(""), Some(""), Some([BlankSub]), Some(""))

  /** The keys a sub-type's questions need: a Comprehension set its
      paragraph and sub-questions, any other question its options and
      correct answer. */
  predicate WellShaped(q: Question, subType: string) {
    if subType == "Comprehension" then q.paragraph.Some? && q.subQuestions.Some?
    else q.options.Some? && q.correctAnswer.Some?
  }

  /** The blank question of a sub-type's shape, tagged with the sub-type. */
  function BlankOf(subType: string): (q: Question)
    ensures WellShaped(q, subType) && q.questionType == Some(subType)
    ensures q.question == "" && q.adminId == Some("")
    ensures subType == "Comprehension" <==> q.subQuestions == Some([BlankSub])
  {
    if subType == "Comprehension" then
      Question("", Some(subType), None, None, Some(""), Some(""), Some([BlankSub]), Some(""))
    else
      Question("", Some(subType), Some(BlankChoices), Some(Many([])), Some(""), None, None, Some(""))
  }

  /** Why handleSubmit stopped, in the order it checks; `Threw` is a
      TypeError from a key the question does not have. */
  datatype Problem =
    | NoChapter | NoType | NoSubType
    | BlankQuestion | BlankOption | NoAnswer
    | NoParagraph | BlankSubQuestion | NoSubAnswer | BlankSubOption
    | Threw

  /** The checks on one sub-question, in the order the loop makes them. */
  function SubProblem(sub: SubQuestion): Option<Problem> {
    if Blank(sub.subQuestion) then Some(BlankSubQuestion)
    else if AnswerLength(sub.correctAnswer) == 0 then Some(NoSubAnswer)
    else if AnyBlank(Texts(sub.options)) then Some(BlankSubOption)
    else None
  }

  /** The first sub-question that fails, in list order. */
  function SubsProblem(subs: seq<SubQuestion>): Option<Problem> {
    FirstSome(subs, SubProblem)
  }

  /** The checks on one question. For an MCQ the `for ... in` over missing
      options visits nothing, and a missing answer or paragraph throws. */
  function QuestionProblem(q: Question, subType: string): Option<Problem> {
    if Blank(q.question) then Some(BlankQuestion)
    else if subType == "MCQ" then
      if q.options.Some? && AnyBlank(Texts(q.options.value)) then Some(BlankOption)
      else if q.correctAnswer.None? then Some(Threw)
      else if AnswerLength(q.correctAnswer.value) == 0 then Some(NoAnswer)
      else None
    else if subType == "Comprehension" then
      if q.paragraph.None? then Some(Threw)
      else if Blank(q.paragraph.value) then Some(NoParagraph)
      else if q.subQuestions.None? then Some(Threw)
      else SubsProblem(q.subQuestions.value)
    else None
  }

  /** The first question that fails, in list order. */
  function QuestionsProblem(qs: seq<Question>, subType: string): Option<Problem> {
    FirstSome(qs, q => QuestionProblem(q, subType))
  }

  /** handleSubmit's validation: chapter, type and sub-type first, then the
      questions. */
  function Check(chapter: Option<Chapter>, questionType: string, subType: string, qs: seq<Question>): Option<Problem> {
    if chapter.None? then Some(NoChapter)
    else if questionType == "" then Some(NoType)
    else if subType == "" then Some(NoSubType)
    else QuestionsProblem(qs, subType)
  }

  /** A sub-question the form accepts: text, at least one answer, four
      filled options. */
  predicate SubComplete(sub: SubQuestion) {
    !Blank(sub.subQuestion) && AnswerLength(sub.correctAnswer) > 0 && AllFilled(sub.options)
  }

  /** A question the form accepts, stated field by field. */
  predicate Complete(q: Question, subType: string) {
    && !Blank(q.question)
    && (subType == "MCQ" ==>
          (q.options.Some? ==> AllFilled(q.options.value))
          && q.correctAnswer.Some? && AnswerLength(q.correctAnswer.value) > 0)
    && (subType == "Comprehension" ==>
          q.paragraph.Some? && !Blank(q.paragraph.value) && q.subQuestions.Some?
          && forall k :: 0 <= k < |q.subQuestions.value| ==> SubComplete(q.subQuestions.value[k]))
  }

  /** The sub-question loop passes exactly when every sub-question is
      complete, and otherwise reports the first one that is not. */
  lemma SubsProblemSpec(subs: seq<SubQuestion>)
    ensures SubsProblem(subs).None? <==> forall k :: 0 <= k < |subs| ==> SubComplete(subs[k])
    ensures SubsProblem(subs).Some? ==> exists k :: 0 <= k < |subs| && SubProblem(subs[k]) == SubsProblem(subs)
  {
    FirstSomeSpec(subs, SubProblem);
    forall k | 0 <= k < |subs|
      ensures SubProblem(subs[k]).None? <==> SubComplete(subs[k])
    {
      AnyBlankLetters(subs[k].options);
    }
  }

  /** One question passes exactly when it is complete. */
  lemma QuestionProblemSpec(q: Question, subType: string)
    ensures QuestionProblem(q, subType).None? <==> Complete(q, subType)
  {
    if q.options.Some? {
      AnyBlankLetters(q.options.value);
    }
    if q.subQuestions.Some? {
      SubsProblemSpec(q.subQuestions.value);
    }
  }

  /** The question loop passes exactly when every question is complete;
      otherwise it stops at a question that fails after passing all the
      ones before it. */
  lemma QuestionsProblemSpec(qs: seq<Question>, subType: string)
    ensures QuestionsProblem(qs, subType).None? <==> forall i :: 0 <= i < |qs| ==> Complete(qs[i], subType)
    ensures QuestionsProblem(qs, subType).Some? ==>
      exists i :: 0 <= i < |qs| && QuestionProblem(qs[i], subType) == QuestionsProblem(qs, subType)
        && forall j :: 0 <= j < i ==> Complete(qs[j], subType)
  {
    FirstSomeSpec(qs, q => QuestionProblem(q, subType));
    forall i | 0 <= i < |qs|
      ensures QuestionProblem(qs[i], subType).None? <==> Complete(qs[i], subType)
    {
      QuestionProblemSpec(qs[i], subType);
    }
  }

  /** Questions of the sub-type's shape never make the validation throw. */
  lemma {:induction false} ShapedNeverThrows(qs: seq<Question>, subType: string)
    requires forall i :: 0 <= i < |qs| ==> WellShaped(qs[i], subType)
    ensures QuestionsProblem(qs, subType) != Some(Threw)
  {
    if qs != [] {
      assert forall i :: 0 <= i < |qs[1..]| ==> qs[1..][i] == qs[i + 1];
      ShapedNeverThrows(qs[1..], subType);
      if subType == "Comprehension" && QuestionProblem(qs[0], subType) == Some(Threw) {
        SubsNeverThrow(qs[0].subQuestions.value);
      }
    }
  }

  lemma {:induction false} SubsNeverThrow(subs: seq<SubQuestion>)
    ensures SubsProblem(subs) != Some(Threw)
  {
    if subs != [] {
      SubsNeverThrow(subs[1..]);
    }
  }

  /** The sub-question loop of one Comprehension set. */
  method CheckSubs(subs: seq<SubQuestion>) returns (problem: Option<Problem>)
    ensures problem == SubsProblem(subs)
  {
    var k := 0;
    while k < |subs|
      invariant 0 <= k <= |subs|
      invariant SubsProblem(subs) == SubsProblem(subs[k..])
    {
      assert subs[k..][1..] == subs[k + 1..];
      var sub := subs[k];
      if Strings.Trim(sub.subQuestion) == "" {
        return Some(BlankSubQuestion);
      }
      if AnswerLength(sub.correctAnswer) == 0 {
        return Some(NoSubAnswer);
      }
      var blank := FindBlank(Texts(sub.options));
      if blank {
        return Some(BlankSubOption);
      }
      k := k + 1;
    }
    return None;
  }

  /** The body of the question loop for one question. */
  method CheckQuestion(q: Question, subType: string) returns (problem: Option<Problem>)
    ensures problem == QuestionProblem(q, subType)
  {
    if Strings.Trim(q.question) == "" {
      return Some(BlankQuestion);
    }
    if subType == "MCQ" {
      if q.options.Some? {
        var blank := FindBlank(Texts(q.options.value));
        if blank {
          return Some(BlankOption);
        }
      }
      if q.correctAnswer.None? {
        return Some(Threw);
      }
      if AnswerLength(q.correctAnswer.value) == 0 {
        return Some(NoAnswer);
      }
      return None;
    } else if subType == "Comprehension" {
      if q.paragraph.None? {
        return Some(Threw);
      }
      if Strings.Trim(q.paragraph.value) == "" {
        return Some(NoParagraph);
      }
      if q.subQuestions.None? {
        return Some(Threw);
      }
      problem := CheckSubs(q.subQuestions.value);
    } else {
      return None;
    }
  }

  /** handleSubmit's validation, check by check and question by question. */
  method Validate(chapter: Option<Chapter>, questionType: string, subType: string, qs: seq<Question>)
    returns (problem: Option<Problem>)
    ensures problem == Check(chapter, questionType, subType, qs)
  {
    if chapter.None? {
      return Some(NoChapter);
    }
    if questionType == "" {
      return Some(NoType);
    }
    if subType == "" {
      return Some(NoSubType);
    }
    var i := 0;
    while i < |qs|
      invariant 0 <= i <= |qs|
      invariant QuestionsProblem(qs, subType) == QuestionsProblem(qs[i..], subType)
    {
      assert qs[i..][1..] == qs[i + 1..];
      problem := CheckQuestion(qs[i], subType);
      if problem.Some? {
        return;
      }
      i := i + 1;
    }
    return None;
  }

  /** One record of `finalData`: `None` stands for a key set to `undefined`,
      which `JSON.stringify` leaves out. */
  datatype Record = Record(
    chapterId: string,
    question: string,
    questionType: string,
    options: Option<Choices>,
    correctAnswer: Option<Answer>,
    solution: Option<string>,
    paragraph: Option<string>,
    subQuestions: Option<seq<SubQuestion>>,
    adminId: Option<string>)

  /** `value || undefined` for an optional string. */
  function OrUndefined(value: Option<string>): Option<string> {
    if value == Some("") then None else value
  }

  function RecordOf(q: Question, chapterId: string, subType: string): Record {
    var comprehension := subType == "Comprehension";
    Record(chapterId, q.question, subType, q.options, q.correctAnswer, q.solution,
      if comprehension then q.paragraph else None,
      if comprehension then q.subQuestions else None,
      OrUndefined(q.adminId))
  }

  /** `finalData`: one record per question, in order. */
  function FinalData(qs: seq<Question>, chapterId: string, subType: string): (r: seq<Record>)
    ensures |r| == |qs| && forall i :: 0 <= i < |qs| ==> r[i] == RecordOf(qs[i], chapterId, subType)
  {
    seq(|qs|, i requires 0 <= i < |qs| => RecordOf(qs[i], chapterId, subType))
  }

  /** Each record carries its question's content under the chosen chapter
      and sub-type; the paragraph and sub-questions only for Comprehension;
      and an empty admin id is dropped. */
  lemma FinalDataSpec(qs: seq<Question>, chapterId: string, subType: string, i: nat)
    requires i < |qs|
    ensures var r := FinalData(qs, chapterId, subType)[i];
      && r.chapterId == chapterId && r.questionType == subType
      && r.question == qs[i].question && r.options == qs[i].options
      && r.correctAnswer == qs[i].correctAnswer && r.solution == qs[i].solution
      && (r.paragraph.Some? <==> subType == "Comprehension" && qs[i].paragraph.Some?)
      && (r.subQuestions.Some? <==> subType == "Comprehension" && qs[i].subQuestions.Some?)
      && (r.subQuestions.Some? ==> r.subQuestions == qs[i].subQuestions)
      && (r.adminId.None? <==> qs[i].adminId.None? || qs[i].adminId == Some(""))
      && (r.adminId.Some? ==> r.adminId == qs[i].adminId)
  {
  }

  /** getApiUrl: the endpoint of each of the five types; `remeber` (the
      picker's spelling) posts to the `remember` endpoint. */
  function ApiUrl(questionType: string): (url: string)
    ensures url != "" <==> questionType in QuestionTypes
  {
    if questionType == "understand" then Endpoint("understand")
    else if questionType == "remeber" then Endpoint("remember")
    else if questionType == "eval" then Endpoint("eval")
    else if questionType == "apply" then Endpoint("apply")
    else if questionType == "analyse" then Endpoint("analyse")
    else ""
  }

  /** The picker's `remeber` reaches the correctly spelt endpoint, and the
      correct spelling itself is unknown. */
  lemma RemeberUrl()
    ensures ApiUrl("remeber") == "http://localhost:5000/api/remember/questions"
    ensures ApiUrl("remember") == ""
  {
  }

  /** The five types post to five different endpoints. */
  lemma ApiUrlSpec(a: string, b: string)
    ensures a in QuestionTypes && b in QuestionTypes && ApiUrl(a) == ApiUrl(b) ==> a == b
  {
    if a in QuestionTypes && b in QuestionTypes && ApiUrl(a) == ApiUrl(b) {
      var sa := if a == "remeber" then "remember" else a;
      var sb := if b == "remeber" then "remember" else b;
      assert ApiUrl(a) == Endpoint(sa) && ApiUrl(b) == Endpoint(sb);
      EndpointInjective(sa, sb);
    }
  }

  /** What a press of the submit button ended in. */
  datatype Outcome = Rejected(problem: Problem) | Submitted | Failed(at: nat)

  class QuestionEditor {
    var questions: seq<Question>
    var questionType: string
    var questionSubType: string
    var selectedChapter: Option<Chapter>
    var activeInput: Option<ActiveInput>

    /** Every question has the keys its sub-type needs. */
    predicate Valid()
      reads this
    {
      forall i :: 0 <= i < |questions| ==> WellShaped(questions[i], questionSubType)
    }

    /** The form as it opens. */
    predicate Cleared()
      reads this
    {
      questions == [FullBlank] && questionType == "" && questionSubType == ""
      && selectedChapter.None? && activeInput.None?
    }

    constructor ()
      ensures Cleared() && Valid()
    {
      questions, questionType, questionSubType := [FullBlank], "", "";
      selectedChapter, activeInput := None, None;
    }

    /** handleQuestionTypeChange: sets the type, clears the sub-type and
        starts over from the full blank. */
    method TypeChange(value: string)
      modifies this
      ensures questionType == value && questionSubType == "" && questions == [FullBlank]
      ensures selectedChapter == old(selectedChapter) && activeInput == old(activeInput)
      ensures Valid()
    {
      questionType, questionSubType, questions := value, "", [FullBlank];
    }

    /** handleQuestionSubTypeChange: starts over from one blank of the new
        sub-type's shape. */
    method SubTypeChange(value: string)
      modifies this
      ensures questionSubType == value && questions == [BlankOf(value)]
      ensures questionType == old(questionType)
      ensures selectedChapter == old(selectedChapter) && activeInput == old(activeInput)
      ensures Valid()
    {
      questionSubType, questions := value, [BlankOf(value)];
    }

    /** handleChapterChange. */
    method ChapterChange(chapters: seq<Chapter>, id: string)
      modifies this
      ensures selectedChapter == FindChapter(chapters, id)
      ensures questions == old(questions) && questionType == old(questionType)
      ensures questionSubType == old(questionSubType) && activeInput == old(activeInput)
    {
      selectedChapter := FindChapter(chapters, id);
    }

    /** handleInputFocus: remembers the field the math keyboard writes to. */
    method InputFocus(index: nat, field: string, option: Option<string>, subIndex: Option<nat>)
      modifies this
      ensures activeInput == Some(ActiveInput(index, field, option, subIndex))
      ensures questions == old(questions) && questionType == old(questionType)
      ensures questionSubType == old(questionSubType) && selectedChapter == old(selectedChapter)
    {
      activeInput := Some(ActiveInput(index, field, option, subIndex));
    }

    /** handleCorrectAnswerChange: stores the selection as a list; a
        missing question throws and changes nothing. */
    method CorrectAnswerChange(index: nat, value: Answer)
      requires Valid()
      modifies this
      ensures index < |old(questions)| ==>
        questions == old(questions)[index := old(questions)[index].(correctAnswer := Some(Many(Wrapped(value))))]
      ensures index >= |old(questions)| ==> questions == old(questions)
      ensures questionType == old(questionType) && questionSubType == old(questionSubType)
      ensures selectedChapter == old(selectedChapter) && activeInput == old(activeInput)
      ensures Valid()
    {
      if index < |questions| {
        questions := questions[index := questions[index].(correctAnswer := Some(Many(Wrapped(value))))];
      }
    }

    /** handleSubCorrectAnswerChange: the same for one sub-question. */
    method SubCorrectAnswerChange(index: nat, subIndex: nat, value: Answer)
      requires Valid()
      modifies this
      ensures index < |old(questions)| && HasSub(old(questions)[index], Spot(SubQuestionText, None, Some(subIndex))) ==>
        var q := old(questions)[index];
        var sub := q.subQuestions.value[subIndex];
        questions == old(questions)[index := WithSub(q, subIndex, sub.(correctAnswer := Many(Wrapped(value))))]
      ensures !(index < |old(questions)| && HasSub(old(questions)[index], Spot(SubQuestionText, None, Some(subIndex)))) ==>
        questions == old(questions)
      ensures questionType == old(questionType) && questionSubType == old(questionSubType)
      ensures selectedChapter == old(selectedChapter) && activeInput == old(activeInput)
      ensures Valid()
    {
      if index < |questions| && HasSub(questions[index], Spot(SubQuestionText, None, Some(subIndex))) {
        var q := questions[index];
        var sub := q.subQuestions.value[subIndex];
        questions := questions[index := WithSub(q, subIndex, sub.(correctAnswer := Many(Wrapped(value))))];
      }
    }

    /** handleAddQuestion: appends one blank of the current sub-type. */
    method AddQuestion()
      requires Valid()
      modifies this
      ensures questions == old(questions) + [BlankOf(questionSubType)]
      ensures questionType == old(questionType) && questionSubType == old(questionSubType)
      ensures selectedChapter == old(selectedChapter) && activeInput == old(activeInput)
      ensures Valid()
    {
      questions := questions + [BlankOf(questionSubType)];
    }

    /** handleAddSubQuestion: appends a blank sub-question to question
        `index`; a question without sub-questions throws. */
    method AddSubQuestion(index: nat)
      requires Valid()
      modifies this
      ensures index < |old(questions)| && old(questions)[index].subQuestions.Some? ==>
        questions == old(questions)[index := old(questions)[index].(subQuestions := Some(old(questions)[index].subQuestions.value + [BlankSub]))]
      ensures !(index < |old(questions)| && old(questions)[index].subQuestions.Some?) ==> questions == old(questions)
      ensures questionType == old(questionType) && questionSubType == old(questionSubType)
      ensures selectedChapter == old(selectedChapter) && activeInput == old(activeInput)
      ensures Valid()
    {
      if index < |questions| && questions[index].subQuestions.Some? {
        var q := questions[index];
        questions := questions[index := q.(subQuestions := Some(q.subQuestions.value + [BlankSub]))];
      }
    }

    /** handleRemoveQuestion: `splice(index, 1)`. */
    method RemoveQuestion(index: nat)
      requires Valid()
      modifies this
      ensures questions == Spliced(old(questions), index)
      ensures questionType == old(questionType) && questionSubType == old(questionSubType)
      ensures selectedChapter == old(selectedChapter) && activeInput == old(activeInput)
      ensures Valid()
    {
      SplicedSpec(questions, index);
      questions := Spliced(questions, index);
    }

    /** handleRemoveSubQuestion: `splice(subIndex, 1)` on one question's
        sub-questions; a question without them throws. */
    method RemoveSubQuestion(index: nat, subIndex: nat)
      requires Valid()
      modifies this
      ensures index < |old(questions)| && old(questions)[index].subQuestions.Some? ==>
        questions == old(questions)[index := old(questions)[index].(subQuestions := Some(Spliced(old(questions)[index].subQuestions.value, subIndex)))]
      ensures !(index < |old(questions)| && old(questions)[index].subQuestions.Some?) ==> questions == old(questions)
      ensures questionType == old(questionType) && questionSubType == old(questionSubType)
      ensures selectedChapter == old(selectedChapter) && activeInput == old(activeInput)
      ensures Valid()
    {
      if index < |questions| && questions[index].subQuestions.Some? {
        var q := questions[index];
        questions := questions[index := q.(subQuestions := Some(Spliced(q.subQuestions.value, subIndex)))];
      }
    }

    /** handleInsertSymbol: with no focus, or a field name it does not
        know, nothing changes; otherwise the symbol between two spaces is
        appended to the focused field, and a path that throws changes
        nothing. */
    method InsertSymbol(symbol: string)
      requires Valid()
      modifies this
      ensures old(activeInput).None? ==> questions == old(questions)
      ensures old(activeInput).Some? ==>
        var a := old(activeInput).value;
        questions == match FieldNamed(a.field)
          case None => old(questions)
          case Some(f) =>
            match Appended(old(questions), a.index, Spot(f, a.option, a.subIndex), Padded(symbol))
            case None => old(questions)
            case Some(r) => r
      ensures questionType == old(questionType) && questionSubType == old(questionSubType)
      ensures selectedChapter == old(selectedChapter) && activeInput == old(activeInput)
      ensures Valid()
    {
      if activeInput.None? {
        return;
      }
      var a := activeInput.value;
      match FieldNamed(a.field)
      case None =>
      case Some(f) =>
        var s := Spot(f, a.option, a.subIndex);
        var r := Appended(questions, a.index, s, Padded(symbol));
        if r.Some? {
          var q := questions[a.index];
          SetLaws(q, s, JsText(Get(q, s)) + Padded(symbol), "");
          questions := r.value;
        }
    }

    /** handleSubmit: validates, then posts the `finalData` records one by
        one to the type's endpoint. A failed request stops the run and
        leaves the form as it was; full success resets it. `replies[k]`
        says whether the k-th response was ok. */
    method Submit(replies: seq<bool>) returns (outcome: Outcome, url: string, posted: seq<Record>)
      modifies this
      ensures var problem := Check(old(selectedChapter), old(questionType), old(questionSubType), old(questions));
        && (outcome.Rejected? <==> problem.Some?)
        && (outcome.Rejected? ==> Some(outcome.problem) == problem && posted == [])
        && (old(Valid()) ==> outcome != Rejected(Threw))
      ensures !outcome.Rejected? ==> old(selectedChapter).Some? && url == ApiUrl(old(questionType))
      ensures !outcome.Rejected? ==>
        var records := FinalData(old(questions), old(selectedChapter).value.chapterId, old(questionSubType));
        && (outcome.Submitted? <==> forall k :: 0 <= k < |records| ==> Ok(replies, k))
        && (outcome.Submitted? ==> posted == records)
        && (outcome.Failed? ==> (outcome.at < |records| && posted == records[..outcome.at + 1]
              && !Ok(replies, outcome.at) && forall j :: 0 <= j < outcome.at ==> Ok(replies, j)))
      ensures outcome.Submitted? ==> Cleared()
      ensures !outcome.Submitted? ==>
        && questions == old(questions) && questionType == old(questionType)
        && questionSubType == old(questionSubType) && selectedChapter == old(selectedChapter)
        && activeInput == old(activeInput)
      ensures old(Valid()) ==> Valid()
    {
      if Valid() && selectedChapter.Some? && questionType != "" && questionSubType != "" {
        ShapedNeverThrows(questions, questionSubType);
      }
      var problem := Validate(selectedChapter, questionType, questionSubType, questions);
      if problem.Some? {
        return Rejected(problem.value), "", [];
      }
      var records := FinalData(questions, selectedChapter.value.chapterId, questionSubType);
      url := ApiUrl(questionType);
      var failedAt := SendInOrder(|records|, replies);
      if failedAt.Some? {
        return Failed(failedAt.value), url, records[..failedAt.value + 1];
      }
      posted := records;
      questions, questionType, questionSubType := [FullBlank], "", "";
      selectedChapter, activeInput := None, None;
      outcome := Submitted;
    }
  }

  /** Submitting an empty list passes validation and posts nothing. */
  lemma EmptyListPasses(chapter: Chapter, questionType: string, subType: string)
    requires questionType != "" && subType != ""
    ensures Check(Some(chapter), questionType, subType, []) == None
    ensures FinalData([], chapter.chapterId, subType) == []
  {
  }
}
