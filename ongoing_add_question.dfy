// Adding questions to an ongoing assignment: the admin picks questions from
// a bank filtered by subject, chapter and level, or writes new ones in a
// form, collects them in a list, and sends the list in one request tagged
// with the subject, chapter and level selected at the moment of sending.

module OngoingAddQuestion {
  import opened Outcomes
  import opened QuestionForms

  /** What the picker shows of a question and sends for it. */
  datatype Content = Content(questionType: string, question: string, options: Option<Choices>, correctAnswer: seq<string>)

  /** The tags a question written in the form is given when it is made. */
  datatype Tags = Tags(assignmentId: string, subjectId: Option<string>, chapterId: Option<string>, questionLevel: string)

  /** A collected question: one from the bank carries no tags of its own. */
  datatype Item = Item(content: Content, tags: Option<Tags>)

  /** A subject or chapter offered in a picker. */
  datatype Named = Named(id: string, name: string)

  /** What the server has sent so far: subjects of the class, chapters of
      the subject, and the bank questions of the chapter and level. */
  datatype Bank = Bank(subjects: seq<Named>, chapters: seq<Named>, questions: seq<Content>)

  /** The three pickers; the level starts as `remember`. */
  datatype Selection = Selection(subject: Option<string>, chapter: Option<string>, level: string)

  datatype Mode = Preview | Create

  /** The modal: whether it shows, which of the two it is, and the bank
      question being previewed. */
  datatype Modal = Modal(visible: bool, mode: Option<Mode>, question: Option<Item>)

  const Closed := Modal(false, None, None)

  /** A reply to a fetch: `None` when it failed, else the list the server
      sent (`data || []`). */
  type Reply<T> = Option<seq<T>>

  /** The values the new-question form holds when it is submitted. */
  datatype FormValues = FormValues(questionType: string, question: string, options: Choices, correctAnswer: seq<string>)

  /** The rule that failed for a field. */
  datatype FormError = QuestionRequired | QuestionTooShort | OptionRequired(letter: Letter) | AnswerRequired

  function QuestionError(v: FormValues): seq<FormError> {
    if v.question == "" then [QuestionRequired] else if |v.question| < 10 then [QuestionTooShort] else []
  }

  function OptionError(v: FormValues, l: Letter): seq<FormError> {
    if ChoiceAt(v.options, l).text == "" then [OptionRequired(l)] else []
  }

  function OptionErrors(v: FormValues): seq<FormError> {
    OptionError(v, A) + OptionError(v, B) + OptionError(v, C) + OptionError(v, D)
  }

  function AnswerError(v: FormValues): seq<FormError> {
    if v.correctAnswer == [] then [AnswerRequired] else []
  }

  /** validateFields: each field's failing rule, in the form's field order.
      An empty question text fails `required` only, since `min` skips an
      empty value. */
  function FormErrors(v: FormValues): seq<FormError> {
    QuestionError(v) + OptionErrors(v) + AnswerError(v)
  }

  /** A form the rules accept: ten characters of question text or more,
      every option written, and at least one correct answer. */
  predicate Acceptable(v: FormValues) {
    |v.question| >= 10
    && (forall l :: ChoiceAt(v.options, l).text != "")
    && |v.correctAnswer| >= 1
  }

  lemma OptionErrorsSpec(v: FormValues)
    ensures OptionErrors(v) == [] <==> forall l :: ChoiceAt(v.options, l).text != ""
    ensures forall e :: e in OptionErrors(v) ==> e.OptionRequired?
    ensures forall l :: OptionRequired(l) in OptionErrors(v) <==> ChoiceAt(v.options, l).text == ""
  {
    forall l ensures OptionRequired(l) in OptionErrors(v) <==> ChoiceAt(v.options, l).text == "" {
      assert OptionRequired(l) in OptionError(v, l) <==> ChoiceAt(v.options, l).text == "";
    }
  }

  /** validateFields passes exactly on an acceptable form, and every error
      it reports names a rule the values break. */
  lemma FormErrorsSpec(v: FormValues)
    ensures FormErrors(v) == [] <==> Acceptable(v)
    ensures QuestionRequired in FormErrors(v) <==> v.question == ""
    ensures QuestionTooShort in FormErrors(v) <==> 0 < |v.question| < 10
    ensures forall l :: OptionRequired(l) in FormErrors(v) <==> ChoiceAt(v.options, l).text == ""
    ensures AnswerRequired in FormErrors(v) <==> v.correctAnswer == []
  {
    OptionErrorsSpec(v);
    var e := FormErrors(v);
    assert e == [] <==> QuestionError(v) == [] && OptionErrors(v) == [] && AnswerError(v) == [];
    assert forall x :: x in e <==> x in QuestionError(v) || x in OptionErrors(v) || x in AnswerError(v);
  }

  /** One entry of the request: the question's content, tagged with the
      assignment and the current pickers. */
  datatype Entry = Entry(
    assignmentId: string,
    questionType: string,
    question: string,
    options: Option<Choices>,
    correctAnswer: seq<string>,
    subjectId: Option<string>,
    chapterId: Option<string>,
    questionLevel: string)

  function EntryOf(item: Item, assignmentId: string, s: Selection): Entry {
    var c := item.content;
    Entry(assignmentId, c.questionType, c.question, c.options, c.correctAnswer, s.subject, s.chapter, s.level)
  }

  /** The `questions` of the payload: one entry per collected question. */
  function Payload(items: seq<Item>, assignmentId: string, s: Selection): (p: seq<Entry>)
    ensures |p| == |items| && forall i :: 0 <= i < |items| ==> p[i] == EntryOf(items[i], assignmentId, s)
  {
    seq(|items|, i requires 0 <= i < |items| => EntryOf(items[i], assignmentId, s))
  }

  /** Every entry keeps its question's content in list order and shares
      the pickers' current subject, chapter and level. */
  lemma PayloadSpec(items: seq<Item>, assignmentId: string, s: Selection, i: nat)
    requires i < |items|
    ensures var e := Payload(items, assignmentId, s)[i];
      && e.assignmentId == assignmentId
      && e.questionType == items[i].content.questionType && e.question == items[i].content.question
      && e.options == items[i].content.options && e.correctAnswer == items[i].content.correctAnswer
      && e.subjectId == s.subject && e.chapterId == s.chapter && e.questionLevel == s.level
  {
  }

  /** The tags a created question was given are not sent: two lists with
      the same contents give the same payload, whatever their tags. */
  lemma PayloadIgnoresTags(items: seq<Item>, others: seq<Item>, assignmentId: string, s: Selection)
    requires |items| == |others|
    requires forall i :: 0 <= i < |items| ==> items[i].content == others[i].content
    ensures Payload(items, assignmentId, s) == Payload(others, assignmentId, s)
  {
  }

  /** What a press of the submit button ended in. */
  datatype SubmitOutcome = NothingSelected | Sent(count: nat) | SendFailed

  class AssignmentQuestions {
    const assignmentId: string
    var bank: Bank
    var selection: Selection
    var selectedQuestions: seq<Item>
    var modal: Modal

    constructor (assignmentId: string)
      ensures this.assignmentId == assignmentId
      ensures bank == Bank([], [], []) && selection == Selection(None, None, "remember")
      ensures selectedQuestions == [] && modal == Closed
    {
      this.assignmentId := assignmentId;
      bank := Bank([], [], []);
      selection := Selection(None, None, "remember");
      selectedQuestions := [];
      modal := Closed;
    }

    /** The class effect when the assignment has no class: every list and
        picker back to its start. */
    method NoClass()
      modifies this
      ensures bank == Bank([], [], []) && selection == Selection(None, None, "remember")
      ensures selectedQuestions == old(selectedQuestions) && modal == old(modal)
    {
      bank := Bank([], [], []);
      selection := Selection(None, None, "remember");
    }

    /** fetchSubjects' reply. */
    method SubjectsLoaded(reply: Reply<Named>)
      modifies this
      ensures reply.Some? ==> bank == old(bank).(subjects := reply.value)
      ensures reply.None? ==> bank == old(bank)
      ensures selection == old(selection) && selectedQuestions == old(selectedQuestions) && modal == old(modal)
    {
      if reply.Some? {
        bank := bank.(subjects := reply.value);
      }
    }

    /** The subject picker: a new subject clears the chapter. */
    method SubjectChange(value: string)
      modifies this
      ensures selection == old(selection).(subject := Some(value), chapter := None)
      ensures bank == old(bank) && selectedQuestions == old(selectedQuestions) && modal == old(modal)
    {
      selection := selection.(subject := Some(value), chapter := None);
    }

    /** fetchChapters' reply: new chapters clear the chosen chapter and the
        bank questions; a failed fetch keeps everything. */
    method ChaptersLoaded(reply: Reply<Named>)
      modifies this
      ensures reply.Some? ==>
        bank == old(bank).(chapters := reply.value, questions := []) && selection == old(selection).(chapter := None)
      ensures reply.None? ==> bank == old(bank) && selection == old(selection)
      ensures selectedQuestions == old(selectedQuestions) && modal == old(modal)
    {
      if reply.Some? {
        bank := bank.(chapters := reply.value, questions := []);
        selection := selection.(chapter := None);
      }
    }

    method ChapterChange(value: string)
      modifies this
      ensures selection == old(selection).(chapter := Some(value))
      ensures bank == old(bank) && selectedQuestions == old(selectedQuestions) && modal == old(modal)
    {
      selection := selection.(chapter := Some(value));
    }

    method LevelChange(value: string)
      modifies this
      ensures selection == old(selection).(level := value)
      ensures bank == old(bank) && selectedQuestions == old(selectedQuestions) && modal == old(modal)
    {
      selection := selection.(level := value);
    }

    /** fetchQuestions' reply. */
    method QuestionsLoaded(reply: Reply<Content>)
      modifies this
      ensures reply.Some? ==> bank == old(bank).(questions := reply.value)
      ensures reply.None? ==> bank == old(bank)
      ensures selection == old(selection) && selectedQuestions == old(selectedQuestions) && modal == old(modal)
    {
      if reply.Some? {
        bank := bank.(questions := reply.value);
      }
    }

    /** handleQuestionSelect: previews a bank question. */
    method QuestionSelect(question: Content)
      modifies this
      ensures modal == Modal(true, Some(Preview), Some(Item(question, None)))
      ensures bank == old(bank) && selection == old(selection) && selectedQuestions == old(selectedQuestions)
    {
      modal := Modal(true, Some(Preview), Some(Item(question, None)));
    }

    /** The create button: opens an empty form. */
    method OpenCreate()
      modifies this
      ensures modal == Modal(true, Some(Create), None)
      ensures bank == old(bank) && selection == old(selection) && selectedQuestions == old(selectedQuestions)
    {
      modal := Modal(true, Some(Create), None);
    }

    /** Either modal's cancel: hides it and keeps the rest. */
    method CancelModal()
      modifies this
      ensures modal == old(modal).(visible := false)
      ensures bank == old(bank) && selection == old(selection) && selectedQuestions == old(selectedQuestions)
    {
      modal := modal.(visible := false);
    }

    /** handleAddQuestion: the previewed question, when there is one, joins
        the list and the modal hides; nothing checks for a duplicate. */
    method AddQuestion()
      modifies this
      ensures old(modal).question.Some? ==>
        selectedQuestions == old(selectedQuestions) + [old(modal).question.value]
        && modal == old(modal).(visible := false)
      ensures old(modal).question.None? ==> selectedQuestions == old(selectedQuestions) && modal == old(modal)
      ensures bank == old(bank) && selection == old(selection)
    {
      if modal.question.Some? {
        selectedQuestions := selectedQuestions + [modal.question.value];
        modal := modal.(visible := false);
      }
    }

    /** handleCreateQuestion: a form the rules accept becomes one question,
        tagged with the assignment and the current pickers; otherwise
        nothing changes. */
    method CreateQuestion(values: FormValues)
      modifies this
      ensures Acceptable(values) ==>
        selectedQuestions == old(selectedQuestions) + [Item(
          Content(values.questionType, values.question, Some(values.options), values.correctAnswer),
          Some(Tags(assignmentId, selection.subject, selection.chapter, selection.level)))]
        && modal == old(modal).(visible := false)
      ensures !Acceptable(values) ==> selectedQuestions == old(selectedQuestions) && modal == old(modal)
      ensures bank == old(bank) && selection == old(selection)
    {
      FormErrorsSpec(values);
      if FormErrors(values) != [] {
        return;
      }
      var content := Content(values.questionType, values.question, Some(values.options), values.correctAnswer);
      var tags := Tags(assignmentId, selection.subject, selection.chapter, selection.level);
      selectedQuestions := selectedQuestions + [Item(content, Some(tags))];
      modal := modal.(visible := false);
    }

    /** handleRemoveQuestion: keeps every question whose position is not
        `index`. */
    method RemoveQuestion(index: nat)
      modifies this
      ensures selectedQuestions == Spliced(old(selectedQuestions), index)
      ensures bank == old(bank) && selection == old(selection) && modal == old(modal)
    {
      selectedQuestions := Spliced(selectedQuestions, index);
    }

    /** handleSubmitQuestions: an empty list only warns; otherwise one
        request carries the whole payload, and an accepted request empties
        the list. `accepted` is whether the post resolved. */
    method SubmitQuestions(accepted: bool) returns (outcome: SubmitOutcome, payload: Option<seq<Entry>>)
      modifies this
      ensures outcome == NothingSelected <==> old(selectedQuestions) == []
      ensures outcome == NothingSelected ==> payload == None
      ensures outcome != NothingSelected ==> payload == Some(Payload(old(selectedQuestions), assignmentId, selection))
      ensures outcome.Sent? <==> old(selectedQuestions) != [] && accepted
      ensures outcome.Sent? ==> outcome.count == |old(selectedQuestions)| && selectedQuestions == []
      ensures !outcome.Sent? ==> selectedQuestions == old(selectedQuestions)
      ensures bank == old(bank) && selection == old(selection) && modal == old(modal)
    {
      if |selectedQuestions| == 0 {
        return NothingSelected, None;
      }
      payload := Some(Payload(selectedQuestions, assignmentId, selection));
      if accepted {
        outcome := Sent(|selectedQuestions|);
        selectedQuestions := [];
      } else {
        outcome := SendFailed;
      }
    }
  }

  /** The same bank question previewed and added twice is collected twice. */
  method AddTwice(assignmentId: string, question: Content) returns (collected: seq<Item>)
    ensures collected == [Item(question, None), Item(question, None)]
  {
    var picker := new AssignmentQuestions(assignmentId);
    picker.QuestionSelect(question);
    picker.AddQuestion();
    picker.QuestionSelect(question);
    picker.AddQuestion();
    collected := picker.selectedQuestions;
  }

  /** A question written while one chapter was chosen is sent under the
      chapter chosen when the list is submitted. */
  method SentUnderCurrentChapter(values: FormValues, first: string, second: string) returns (payload: Option<seq<Entry>>)
    requires Acceptable(values)
    ensures payload.Some? && |payload.value| == 1 && payload.value[0].chapterId == Some(second)
  {
    var picker := new AssignmentQuestions("assignment");
    picker.ChapterChange(first);
    picker.OpenCreate();
    picker.CreateQuestion(values);
    assert picker.selectedQuestions[0].tags.value.chapterId == Some(first);
    picker.ChapterChange(second);
    var outcome;
    outcome, payload := picker.SubmitQuestions(true);
  }
}
