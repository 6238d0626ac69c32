// The super admin's question-set editor. It shares the admin editor's
// layout, but its validation trims the correct answers, it posts the raw
// questions with the stored admin id (the normalised `finalData` is only
// logged), and its `remeber` type posts to an endpoint spelt the same way.

module SuperAddQuestion {
  import opened Outcomes
  import opened QuestionForms
  import Strings

  /** A blank sub-question whose answer is already a list. */
  const ListSub := SubQuestion("", BlankChoices, Many([]), None)

  /** A blank sub-question whose answer starts as the string `''`. */
  const TextSub := SubQuestion("", BlankChoices, One(""), None)

  /** The form as it opens and after a successful submit. */
  const Initial := Question("", None, Some(BlankChoices), Some(Many([])), None, Some(""), Some([ListSub]), None)

  /** The blank after a type change: both shapes, with a `''` sub-answer. */
  const TypeBlank := Question("", None, Some(BlankChoices), Some(Many([])), None, Some(""), Some([TextSub]), None)

  /** The blank after a sub-type change: a Comprehension set with a `''`
      sub-answer, or an MCQ. */
  function SubTypeBlank(subType: string): Question {
    if subType == "Comprehension" then Question("", None, None, None, None, Some(""), Some([TextSub]), None)
    else Question("", None, Some(BlankChoices), Some(Many([])), None, None, None, None)
  }

  /** The blank handleAddQuestion appends, whose sub-answer is a list. */
  function AddedBlank(subType: string): Question {
    if subType == "Comprehension" then Question("", None, None, None, None, Some(""), Some([ListSub]), None)
    else Question("", None, Some(BlankChoices), Some(Many([])), None, None, None, None)
  }

  /** What the editor's handlers keep true of each question: a question
      with sub-questions has at least one (none can be removed), and a
      sub-answer is either the initial `''` or a list. */
  predicate SubsKept(q: Question) {
    q.subQuestions.Some? ==>
      |q.subQuestions.value| > 0
      && forall k :: 0 <= k < |q.subQuestions.value| ==>
           q.subQuestions.value[k].correctAnswer == One("") || q.subQuestions.value[k].correctAnswer.Many?
  }

  /** Why handleSubmit stopped, in the order it checks; `Threw` is a
      TypeError. */
  datatype Problem =
    | NoChapter | NoType | NoSubType
    | UnfilledQuestion | BlankOption
    | NoParagraph | UnfilledSubQuestion | BlankSubOption
    | Threw

  /** The trimmed answer the checks look at: a list joined with `", "`, a
      string as it is, and `undefined` for a missing key. */
  function AnswerText(a: Option<Answer>): Option<string> {
    match a
    case None => None
    case Some(Many(values)) => Some(Strings.Trim(Strings.Join(values, ", ")))
    case Some(One(value)) => Some(Strings.Trim(value))
  }

  /** `!AnswerText(a)`: missing or blank. */
  predicate Unanswered(a: Option<Answer>) {
    AnswerText(a).None? || AnswerText(a).value == ""
  }

  /** One sub-question's checks. As written (`fixed` false) its answer is
      trimmed like a string, so a list throws; the intended check treats
      it like the question's own answer. */
  function SubProblem(sub: SubQuestion, fixed: bool): Option<Problem> {
    if !fixed && sub.correctAnswer.Many? then Some(Threw)
    else if Blank(sub.subQuestion) || Unanswered(Some(sub.correctAnswer)) then Some(UnfilledSubQuestion)
    else if AnyBlank(Texts(sub.options)) then Some(BlankSubOption)
    else None
  }

  function SubsProblem(subs: seq<SubQuestion>, fixed: bool): Option<Problem> {
    FirstSome(subs, sub => SubProblem(sub, fixed))
  }

  /** One question's checks. The text-and-answer check is skipped for
      Comprehension sets; a missing paragraph reads as blank. */
  function QuestionProblem(q: Question, subType: string, fixed: bool): Option<Problem> {
    if subType != "Comprehension" && (Blank(q.question) || Unanswered(q.correctAnswer)) then Some(UnfilledQuestion)
    else if subType == "MCQ" then
      if q.options.Some? && AnyBlank(Texts(q.options.value)) then Some(BlankOption) else None
    else if subType == "Comprehension" then
      if q.paragraph.None? || Blank(q.paragraph.value) then Some(NoParagraph)
      else if q.subQuestions.None? then Some(Threw)
      else SubsProblem(q.subQuestions.value, fixed)
    else None
  }

  function QuestionsProblem(qs: seq<Question>, subType: string, fixed: bool): Option<Problem> {
    FirstSome(qs, q => QuestionProblem(q, subType, fixed))
  }

  function Check(chapter: Option<Chapter>, questionType: string, subType: string, qs: seq<Question>, fixed: bool): Option<Problem> {
    if chapter.None? then Some(NoChapter)
    else if questionType == "" then Some(NoType)
    else if subType == "" then Some(NoSubType)
    else QuestionsProblem(qs, subType, fixed)
  }

  /** The validation as written rejects every Comprehension set the editor
      can hold: the first sub-question's answer is either still `''`,
      which reads as unanswered, or a list, whose `trim` call throws. */
  lemma ComprehensionNeverAccepted(qs: seq<Question>, subType: string)
    requires subType == "Comprehension" && |qs| > 0
    requires forall i :: 0 <= i < |qs| ==> SubsKept(qs[i]) && qs[i].subQuestions.Some?
    ensures QuestionsProblem(qs, subType, false).Some?
  {
    var q := qs[0];
    var sub := q.subQuestions.value[0];
    assert SubProblem(sub, false).Some?;
  }

  /** A sub-question the intended check accepts. */
  predicate SubComplete(sub: SubQuestion) {
    !Blank(sub.subQuestion) && !Unanswered(Some(sub.correctAnswer)) && AllFilled(sub.options)
  }

  /** A question the intended check accepts, field by field. */
  predicate Complete(q: Question, subType: string) {
    && (subType != "Comprehension" ==> !Blank(q.question) && !Unanswered(q.correctAnswer))
    && (subType == "MCQ" ==> (q.options.Some? ==> AllFilled(q.options.value)))
    && (subType == "Comprehension" ==>
          q.paragraph.Some? && !Blank(q.paragraph.value) && q.subQuestions.Some?
          && forall k :: 0 <= k < |q.subQuestions.value| ==> SubComplete(q.subQuestions.value[k]))
  }

  lemma FixedSubsSpec(subs: seq<SubQuestion>)
    ensures SubsProblem(subs, true).None? <==> forall k :: 0 <= k < |subs| ==> SubComplete(subs[k])
  {
    FirstSomeSpec(subs, sub => SubProblem(sub, true));
    forall k | 0 <= k < |subs|
      ensures SubProblem(subs[k], true).None? <==> SubComplete(subs[k])
    {
      AnyBlankLetters(subs[k].options);
    }
  }

  /** The intended check passes exactly the complete questions, and
      otherwise reports the first question that is not. */
  lemma FixedCheckSpec(qs: seq<Question>, subType: string)
    ensures QuestionsProblem(qs, subType, true).None? <==> forall i :: 0 <= i < |qs| ==> Complete(qs[i], subType)
    ensures QuestionsProblem(qs, subType, true).Some? ==>
      exists i :: 0 <= i < |qs| && QuestionProblem(qs[i], subType, true) == QuestionsProblem(qs, subType, true)
        && forall j :: 0 <= j < i ==> Complete(qs[j], subType)
  {
    FirstSomeSpec(qs, q => QuestionProblem(q, subType, true));
    forall i | 0 <= i < |qs|
      ensures QuestionProblem(qs[i], subType, true).None? <==> Complete(qs[i], subType)
    {
      FixedQuestionSpec(qs[i], subType);
    }
  }

  lemma FixedQuestionSpec(q: Question, subType: string)
    ensures QuestionProblem(q, subType, true).None? <==> Complete(q, subType)
  {
    if q.options.Some? {
      AnyBlankLetters(q.options.value);
    }
    if q.subQuestions.Some? {
      FixedSubsSpec(q.subQuestions.value);
    }
  }

  /** A one-character text is blank only when the character is
      whitespace. */
  lemma OneCharNotBlank(c: char)
    requires !Strings.IsSpace(c)
    ensures !Blank([c])
  {
    assert Strings.TrimStart([c]) == [c];
    assert Strings.TrimEnd([c]) == [c];
  }

  const FilledChoices := Choices(Choice("1", "", ""), Choice("2", "", ""), Choice("3", "", ""), Choice("4", "", ""))

  /** A filled-in sub-question with a chosen answer. */
  const FilledSub := SubQuestion("Q", FilledChoices, Many(["A"]), None)

  /** The filled-in sub-question: the check as written throws on it, the
      intended check accepts it. */
  lemma FilledSubWitness()
    ensures SubProblem(FilledSub, false) == Some(Threw)
    ensures SubProblem(FilledSub, true) == None
  {
    OneCharNotBlank('Q');
    OneCharNotBlank('A');
    assert Strings.Join(["A"], ", ") == "A";
    FilledChoicesComplete();
  }

  lemma FilledChoicesComplete()
    ensures !AnyBlank(Texts(FilledChoices))
  {
    OneCharNotBlank('1');
    OneCharNotBlank('2');
    OneCharNotBlank('3');
    OneCharNotBlank('4');
    assert Texts(FilledChoices) == ["1", "2", "3", "4"];
  }

  /** A whole filled-in Comprehension set the editor can hold: the check
      as written rejects it with a TypeError, the intended check accepts
      it. */
  lemma FilledSetWitness(subType: string)
    requires subType == "Comprehension"
    ensures var q := Question("", None, None, None, None, Some("P"), Some([FilledSub]), None);
      && SubsKept(q)
      && QuestionsProblem([q], subType, false) == Some(Threw)
      && QuestionsProblem([q], subType, true) == None
  {
    FilledSubWitness();
    OneCharNotBlank('P');
    var q := Question("", None, None, None, None, Some("P"), Some([FilledSub]), None);
    FirstSomeSpec([FilledSub], sub => SubProblem(sub, true));
    assert SubsProblem([FilledSub], true) == None;
    assert QuestionProblem(q, subType, true) == None;
    FirstSomeSpec([q], q => QuestionProblem(q, subType, true));
    FirstSomeSpec([q], q => QuestionProblem(q, subType, false));
  }

  /** The sub-question loop. */
  method CheckSubs(subs: seq<SubQuestion>, fixed: bool) returns (problem: Option<Problem>)
    ensures problem == SubsProblem(subs, fixed)
  {
    var k := 0;
    while k < |subs|
      invariant 0 <= k <= |subs|
      invariant SubsProblem(subs, fixed) == SubsProblem(subs[k..], fixed)
    {
      assert subs[k..][1..] == subs[k + 1..];
      var sub := subs[k];
      if !fixed && sub.correctAnswer.Many? {
        return Some(Threw);
      }
      var answer := AnswerText(Some(sub.correctAnswer));
      if Strings.Trim(sub.subQuestion) == "" || answer.None? || answer.value == "" {
        return Some(UnfilledSubQuestion);
      }
      var blank := FindBlank(Texts(sub.options));
      if blank {
        return Some(BlankSubOption);
      }
      k := k + 1;
    }
    return None;
  }

  method CheckQuestion(q: Question, subType: string, fixed: bool) returns (problem: Option<Problem>)
    ensures problem == QuestionProblem(q, subType, fixed)
  {
    var answer := AnswerText(q.correctAnswer);
    if subType != "Comprehension" && (Strings.Trim(q.question) == "" || answer.None? || answer.value == "") {
      return Some(UnfilledQuestion);
    }
    if subType == "MCQ" {
      if q.options.Some? {
        var blank := FindBlank(Texts(q.options.value));
        if blank {
          return Some(BlankOption);
        }
      }
      return None;
    } else if subType == "Comprehension" {
      if q.paragraph.None? || Strings.Trim(q.paragraph.value) == "" {
        return Some(NoParagraph);
      }
      if q.subQuestions.None? {
        return Some(Threw);
      }
      problem := CheckSubs(q.subQuestions.value, fixed);
    } else {
      return None;
    }
  }

  /** handleSubmit's validation. */
  method Validate(chapter: Option<Chapter>, questionType: string, subType: string, qs: seq<Question>, fixed: bool)
    returns (problem: Option<Problem>)
    ensures problem == Check(chapter, questionType, subType, qs, fixed)
  {
    if chapter.None? {
      return Some(NoChapter);
    }
    if questionType == "" {
      return Some(NoType);
    }
    if subType == "" {
      return Some(NoSubType);
    }
    var i := 0;
    while i < |qs|
      invariant 0 <= i <= |qs|
      invariant QuestionsProblem(qs, subType, fixed) == QuestionsProblem(qs[i..], subType, fixed)
    {
      assert qs[i..][1..] == qs[i + 1..];
      problem := CheckQuestion(qs[i], subType, fixed);
      if problem.Some? {
        return;
      }
      i := i + 1;
    }
    return None;
  }

  /** A request body: the question as held in state, unnormalised, with
      the admin id, the chapter and the sub-type. */
  datatype Body = Body(
    adminId: string,
    chapterId: string,
    question: string,
    paragraph: Option<string>,
    subQuestions: Option<seq<SubQuestion>>,
    options: Option<Choices>,
    correctAnswer: Option<Answer>,
    questionType: string)

  function BodyOf(q: Question, adminId: string, chapterId: string, subType: string): Body {
    Body(adminId, chapterId, q.question, q.paragraph, q.subQuestions, q.options, q.correctAnswer, subType)
  }

  function Bodies(qs: seq<Question>, adminId: string, chapterId: string, subType: string): (r: seq<Body>)
    ensures |r| == |qs| && forall i :: 0 <= i < |qs| ==> r[i] == BodyOf(qs[i], adminId, chapterId, subType)
  {
    seq(|qs|, i requires 0 <= i < |qs| => BodyOf(qs[i], adminId, chapterId, subType))
  }

  /** getApiUrl: unlike the admin editor, `remeber` posts to an endpoint
      spelt the same way. */
  function ApiUrl(questionType: string): (url: string)
    ensures url != "" <==> questionType in QuestionTypes
  {
    if questionType == "understand" then Endpoint("understand")
    else if questionType == "remeber" then Endpoint("remeber")
    else if questionType == "eval" then Endpoint("eval")
    else if questionType == "apply" then Endpoint("apply")
    else if questionType == "analyse" then Endpoint("analyse")
    else ""
  }

  /** `remeber` keeps its spelling in the URL. */
  lemma RemeberUrl()
    ensures ApiUrl("remeber") == "http://localhost:5000/api/remeber/questions"
  {
  }

  /** Every known type posts to the endpoint named after it, so the five
      endpoints differ. */
  lemma ApiUrlSpec(t: string, u: string)
    ensures t in QuestionTypes ==> ApiUrl(t) == Endpoint(t)
    ensures t in QuestionTypes && u in QuestionTypes && ApiUrl(t) == ApiUrl(u) ==> t == u
  {
    if t in QuestionTypes && u in QuestionTypes && ApiUrl(t) == ApiUrl(u) {
      assert ApiUrl(t) == Endpoint(t) && ApiUrl(u) == Endpoint(u);
      EndpointInjective(t, u);
    }
  }

  /** The math keyboard here writes only to five fields: the solution
      fields are names it does not know. */
  function KeyboardField(name: string): (f: Option<Field>)
    ensures f.Some? ==> f.value != Solution && f.value != SubSolution
    ensures f.None? <==> name !in {"question", "paragraph", "subQuestion", "option", "subOption"}
  {
    var f := FieldNamed(name);
    if f == Some(Solution) || f == Some(SubSolution) then None else f
  }

  datatype Outcome = Rejected(problem: Problem) | NoAdminId | Submitted | Failed(at: nat)

  class QuestionEditor {
    var questions: seq<Question>
    var questionType: string
    var questionSubType: string
    var selectedChapter: Option<Chapter>
    var activeInput: Option<ActiveInput>

    /** Each question keeps its sub-questions, and under the Comprehension
        sub-type every question has them. */
    predicate Valid()
      reads this
    {
      forall i :: 0 <= i < |questions| ==>
        SubsKept(questions[i]) && (questionSubType == "Comprehension" ==> questions[i].subQuestions.Some?)
    }

    predicate Cleared()
      reads this
    {
      questions == [Initial] && questionType == "" && questionSubType == ""
      && selectedChapter.None? && activeInput.None?
    }

    constructor ()
      ensures Cleared() && Valid()
    {
      questions, questionType, questionSubType := [Initial], "", "";
      selectedChapter, activeInput := None, None;
    }

    /** handleQuestionTypeChange. */
    method TypeChange(value: string)
      modifies this
      ensures questionType == value && questionSubType == "" && questions == [TypeBlank]
      ensures selectedChapter == old(selectedChapter) && activeInput == old(activeInput)
      ensures Valid()
    {
      questionType, questionSubType, questions := value, "", [TypeBlank];
    }

    /** handleQuestionSubTypeChange. */
    method SubTypeChange(value: string)
      modifies this
      ensures questionSubType == value && questions == [SubTypeBlank(value)]
      ensures questionType == old(questionType)
      ensures selectedChapter == old(selectedChapter) && activeInput == old(activeInput)
      ensures Valid()
    {
      questionSubType, questions := value, [SubTypeBlank(value)];
    }

    /** handleChapterChange. */
    method ChapterChange(chapters: seq<Chapter>, id: string)
      modifies this
      ensures selectedChapter == FindChapter(chapters, id)
      ensures questions == old(questions) && questionType == old(questionType)
      ensures questionSubType == old(questionSubType) && activeInput == old(activeInput)
    {
      selectedChapter := FindChapter(chapters, id);
    }

    /** handleInputFocus. */
    method InputFocus(index: nat, field: string, option: Option<string>, subIndex: Option<nat>)
      modifies this
      ensures activeInput == Some(ActiveInput(index, field, option, subIndex))
      ensures questions == old(questions) && questionType == old(questionType)
      ensures questionSubType == old(questionSubType) && selectedChapter == old(selectedChapter)
    {
      activeInput := Some(ActiveInput(index, field, option, subIndex));
    }

    /** handleCorrectAnswerChange: the selection stored as a list. */
    method CorrectAnswerChange(index: nat, value: Answer)
      requires Valid()
      modifies this
      ensures index < |old(questions)| ==>
        questions == old(questions)[index := old(questions)[index].(correctAnswer := Some(Many(Wrapped(value))))]
      ensures index >= |old(questions)| ==> questions == old(questions)
      ensures questionType == old(questionType) && questionSubType == old(questionSubType)
      ensures selectedChapter == old(selectedChapter) && activeInput == old(activeInput)
      ensures Valid()
    {
      if index < |questions| {
        questions := questions[index := questions[index].(correctAnswer := Some(Many(Wrapped(value))))];
      }
    }

    /** handleSubCorrectAnswerChange: after it the sub-answer is a list. */
    method SubCorrectAnswerChange(index: nat, subIndex: nat, value: Answer)
      requires Valid()
      modifies this
      ensures index < |old(questions)| && HasSub(old(questions)[index], Spot(SubQuestionText, None, Some(subIndex))) ==>
        var q := old(questions)[index];
        var sub := q.subQuestions.value[subIndex];
        questions == old(questions)[index := WithSub(q, subIndex, sub.(correctAnswer := Many(Wrapped(value))))]
      ensures !(index < |old(questions)| && HasSub(old(questions)[index], Spot(SubQuestionText, None, Some(subIndex)))) ==>
        questions == old(questions)
      ensures questionType == old(questionType) && questionSubType == old(questionSubType)
      ensures selectedChapter == old(selectedChapter) && activeInput == old(activeInput)
      ensures Valid()
    {
      if index < |questions| && HasSub(questions[index], Spot(SubQuestionText, None, Some(subIndex))) {
        var q := questions[index];
        var sub := q.subQuestions.value[subIndex];
        questions := questions[index := WithSub(q, subIndex, sub.(correctAnswer := Many(Wrapped(value))))];
      }
    }

    /** handleAddQuestion. */
    method AddQuestion()
      requires Valid()
      modifies this
      ensures questions == old(questions) + [AddedBlank(questionSubType)]
      ensures questionType == old(questionType) && questionSubType == old(questionSubType)
      ensures selectedChapter == old(selectedChapter) && activeInput == old(activeInput)
      ensures Valid()
    {
      questions := questions + [AddedBlank(questionSubType)];
    }

    /** handleAddSubQuestion: a blank sub-question, answer `[]`, appended to
        question `index` only. */
    method AddSubQuestion(index: nat)
      requires Valid()
      modifies this
      ensures index < |old(questions)| && old(questions)[index].subQuestions.Some? ==>
        questions == old(questions)[index := old(questions)[index].(subQuestions := Some(old(questions)[index].subQuestions.value + [ListSub]))]
      ensures !(index < |old(questions)| && old(questions)[index].subQuestions.Some?) ==> questions == old(questions)
      ensures questionType == old(questionType) && questionSubType == old(questionSubType)
      ensures selectedChapter == old(selectedChapter) && activeInput == old(activeInput)
      ensures Valid()
    {
      if index < |questions| && questions[index].subQuestions.Some? {
        var q := questions[index];
        questions := questions[index := q.(subQuestions := Some(q.subQuestions.value + [ListSub]))];
      }
    }

    /** handleRemoveQuestion: `splice(index, 1)`. */
    method RemoveQuestion(index: nat)
      requires Valid()
      modifies this
      ensures questions == Spliced(old(questions), index)
      ensures questionType == old(questionType) && questionSubType == old(questionSubType)
      ensures selectedChapter == old(selectedChapter) && activeInput == old(activeInput)
      ensures Valid()
    {
      SplicedSpec(questions, index);
      questions := Spliced(questions, index);
    }

    /** handleInsertSymbol over its five fields. */
    method InsertSymbol(symbol: string)
      requires Valid()
      modifies this
      ensures old(activeInput).None? ==> questions == old(questions)
      ensures old(activeInput).Some? ==>
        var a := old(activeInput).value;
        questions == match KeyboardField(a.field)
          case None => old(questions)
          case Some(f) =>
            match Appended(old(questions), a.index, Spot(f, a.option, a.subIndex), Padded(symbol))
            case None => old(questions)
            case Some(r) => r
      ensures questionType == old(questionType) && questionSubType == old(questionSubType)
      ensures selectedChapter == old(selectedChapter) && activeInput == old(activeInput)
      ensures Valid()
    {
      if activeInput.None? {
        return;
      }
      var a := activeInput.value;
      match KeyboardField(a.field)
      case None =>
      case Some(f) =>
        var s := Spot(f, a.option, a.subIndex);
        var r := Appended(questions, a.index, s, Padded(symbol));
        if r.Some? {
          var q := questions[a.index];
          SetLaws(q, s, JsText(Get(q, s)) + Padded(symbol), "");
          if q.subQuestions.Some? {
            SetKeepsSubs(q, s, JsText(Get(q, s)) + Padded(symbol));
          }
          questions := r.value;
        }
    }

    /** handleSubmit. `fixed` picks the sub-question answer check: false
        the one written, true the intended one. `storedAdminId` is the
        `userId` in local storage; `replies[k]` whether the k-th response
        was ok. */
    method Submit(fixed: bool, storedAdminId: Option<string>, replies: seq<bool>)
      returns (outcome: Outcome, url: string, posted: seq<Body>)
      modifies this
      ensures var problem := Check(old(selectedChapter), old(questionType), old(questionSubType), old(questions), fixed);
        && (outcome.Rejected? <==> problem.Some?)
        && (outcome.Rejected? ==> Some(outcome.problem) == problem)
      ensures outcome.NoAdminId? <==>
        Check(old(selectedChapter), old(questionType), old(questionSubType), old(questions), fixed).None?
        && (storedAdminId.None? || storedAdminId == Some(""))
      ensures outcome.Rejected? || outcome.NoAdminId? ==> posted == []
      ensures old(Valid()) && !fixed && old(questionSubType) == "Comprehension" && |old(questions)| > 0 ==>
        outcome.Rejected?
      ensures outcome.Submitted? || outcome.Failed? ==>
        && old(selectedChapter).Some? && storedAdminId.Some?
        && url == ApiUrl(old(questionType))
        && var bodies := Bodies(old(questions), storedAdminId.value, old(selectedChapter).value.chapterId, old(questionSubType));
        && (outcome.Submitted? <==> forall k :: 0 <= k < |bodies| ==> Ok(replies, k))
        && (outcome.Submitted? ==> posted == bodies)
        && (outcome.Failed? ==> (outcome.at < |bodies| && posted == bodies[..outcome.at + 1]
              && !Ok(replies, outcome.at) && forall j :: 0 <= j < outcome.at ==> Ok(replies, j)))
      ensures outcome.Submitted? ==> Cleared()
      ensures !outcome.Submitted? ==>
        && questions == old(questions) && questionType == old(questionType)
        && questionSubType == old(questionSubType) && selectedChapter == old(selectedChapter)
        && activeInput == old(activeInput)
      ensures old(Valid()) ==> Valid()
    {
      if Valid() && !fixed && questionSubType == "Comprehension" && |questions| > 0 {
        ComprehensionNeverAccepted(questions, questionSubType);
      }
      var problem := Validate(selectedChapter, questionType, questionSubType, questions, fixed);
      if problem.Some? {
        return Rejected(problem.value), "", [];
      }
      url := ApiUrl(questionType);
      if storedAdminId.None? || storedAdminId.value == "" {
        return NoAdminId, url, [];
      }
      var bodies := Bodies(questions, storedAdminId.value, selectedChapter.value.chapterId, questionSubType);
      var failedAt := SendInOrder(|bodies|, replies);
      if failedAt.Some? {
        return Failed(failedAt.value), url, bodies[..failedAt.value + 1];
      }
      posted := bodies;
      questions, questionType, questionSubType := [Initial], "", "";
      selectedChapter, activeInput := None, None;
      outcome := Submitted;
    }
  }
}
