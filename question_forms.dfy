// The data both question-set editors keep in state: a question object whose
// fields depend on its shape (an MCQ has lettered options and a correct
// answer, a Comprehension set a paragraph and sub-questions), the four
// lettered options, and the input the math keyboard writes into.

module QuestionForms {
  import opened Outcomes
  import Strings

  /** One lettered option: its text and the uploaded image with its name. */
  datatype Choice = Choice(text: string, image: string, fileName: string)

  const BlankChoice := Choice("", "", "")

  /** An `options` object, whose keys are A, B, C and D in that order. */
  datatype Choices = Choices(a: Choice, b: Choice, c: Choice, d: Choice)

  const BlankChoices := Choices(BlankChoice, BlankChoice, BlankChoice, BlankChoice)

  datatype Letter = A | B | C | D

  /** The option key a string names; any other key reads `undefined`. */
  function LetterOf(key: string): Option<Letter> {
    if key == "A" then Some(A)
    else if key == "B" then Some(B)
    else if key == "C" then Some(C)
    else if key == "D" then Some(D)
    else None
  }

  function ChoiceAt(cs: Choices, l: Letter): Choice {
    match l
    case A => cs.a
    case B => cs.b
    case C => cs.c
    case D => cs.d
  }

  function WithChoice(cs: Choices, l: Letter, ch: Choice): (r: Choices)
    ensures ChoiceAt(r, l) == ch
    ensures forall m :: m != l ==> ChoiceAt(r, m) == ChoiceAt(cs, m)
  {
    match l
    case A => cs.(a := ch)
    case B => cs.(b := ch)
    case C => cs.(c := ch)
    case D => cs.(d := ch)
  }

  /** The option texts in the order a `for ... in` visits the keys. */
  function Texts(cs: Choices): (r: seq<string>)
    ensures |r| == 4
    ensures forall l :: ChoiceAt(cs, l).text in r
  {
    [cs.a.text, cs.b.text, cs.c.text, cs.d.text]
  }

  /** `!s.trim()`. */
  predicate Blank(s: string) {
    Strings.Trim(s) == ""
  }

  predicate AnyBlank(texts: seq<string>) {
    exists i :: 0 <= i < |texts| && Blank(texts[i])
  }

  predicate AllFilled(cs: Choices) {
    forall l :: !Blank(ChoiceAt(cs, l).text)
  }

  /** Looking at the four texts in key order finds a blank one exactly when
      some letter's text is blank. */
  lemma AnyBlankLetters(cs: Choices)
    ensures AnyBlank(Texts(cs)) <==> !AllFilled(cs)
  {
    if AnyBlank(Texts(cs)) {
      var i :| 0 <= i < 4 && Blank(Texts(cs)[i]);
      var l := if i == 0 then A else if i == 1 then B else if i == 2 then C else D;
      assert ChoiceAt(cs, l).text == Texts(cs)[i];
    }
    if !AllFilled(cs) {
      var l :| Blank(ChoiceAt(cs, l).text);
      var i := match l case A => 0 case B => 1 case C => 2 case D => 3;
      assert Texts(cs)[i] == ChoiceAt(cs, l).text;
    }
  }

  /** The `for ... in` over an options object: is any text blank? */
  method FindBlank(texts: seq<string>) returns (found: bool)
    ensures found <==> AnyBlank(texts)
  {
    var i := 0;
    while i < |texts|
      invariant 0 <= i <= |texts|
      invariant forall j :: 0 <= j < i ==> !Blank(texts[j])
    {
      if Strings.Trim(texts[i]) == "" {
        return true;
      }
      i := i + 1;
    }
    return false;
  }

  /** A correct answer as the editors hold it: the list a multi-select
      produces, or a bare string (the `''` some blanks start with). */
  datatype Answer = Many(values: seq<string>) | One(value: string)

  /** `Array.isArray(value) ? value : [value]`. */
  function Wrapped(value: Answer): (r: seq<string>)
    ensures value.Many? ==> r == value.values
    ensures value.One? ==> r == [value.value]
  {
    match value
    case Many(values) => values
    case One(v) => [v]
  }

  /** The `length` property: of the list, or of the string. */
  function AnswerLength(value: Answer): nat {
    match value
    case Many(values) => |values|
    case One(v) => |v|
  }

  datatype SubQuestion = SubQuestion(subQuestion: string, options: Choices, correctAnswer: Answer, solution: Option<string>)

  /** A question object; `None` stands for a key the object does not have. */
  datatype Question = Question(
    question: string,
    questionType: Option<string>,
    options: Option<Choices>,
    correctAnswer: Option<Answer>,
    solution: Option<string>,
    paragraph: Option<string>,
    subQuestions: Option<seq<SubQuestion>>,
    adminId: Option<string>)

  /** A chapter of the `chapters` prop. */
  datatype Chapter = Chapter(chapterId: string, chapterName: string)

  /** handleChapterChange: the first chapter with that id, or `undefined`. */
  function FindChapter(chapters: seq<Chapter>, id: string): (r: Option<Chapter>)
    ensures r.None? <==> forall i :: 0 <= i < |chapters| ==> chapters[i].chapterId != id
    ensures r.Some? ==> exists i :: (0 <= i < |chapters| && chapters[i] == r.value
      && forall j :: 0 <= j < i ==> chapters[j].chapterId != id)
    ensures r.Some? ==> r.value.chapterId == id
  {
    if chapters == [] then None
    else if chapters[0].chapterId == id then Some(chapters[0])
    else
      var rest := FindChapter(chapters[1..], id);
      assert forall i :: 1 <= i < |chapters| ==> chapters[i] == chapters[1..][i - 1];
      rest
  }

  /** `splice(i, 1)`: removes the element at `i`, or nothing when `i` is
      past the end. */
  function Spliced<T>(xs: seq<T>, i: nat): seq<T> {
    if i < |xs| then xs[..i] + xs[i + 1..] else xs
  }

  /** splice removes exactly the element at `i` and keeps the rest in order. */
  lemma SplicedSpec<T>(xs: seq<T>, i: nat)
    ensures i < |xs| ==> (|Spliced(xs, i)| == |xs| - 1
      && (forall j :: 0 <= j < i ==> Spliced(xs, i)[j] == xs[j])
      && (forall j :: i <= j < |xs| - 1 ==> Spliced(xs, i)[j] == xs[j + 1])
      && multiset(Spliced(xs, i)) + multiset{xs[i]} == multiset(xs))
    ensures i >= |xs| ==> Spliced(xs, i) == xs
  {
    if i < |xs| {
      assert xs == xs[..i] + [xs[i]] + xs[i + 1..];
    }
  }

  /** The fields the math keyboard can write into. */
  datatype Field = QuestionText | Paragraph | Solution | OptionText | SubQuestionText | SubOptionText | SubSolution

  /** The field name an input registers on focus. */
  function FieldNamed(name: string): Option<Field> {
    if name == "question" then Some(QuestionText)
    else if name == "paragraph" then Some(Paragraph)
    else if name == "solution" then Some(Solution)
    else if name == "option" then Some(OptionText)
    else if name == "subQuestion" then Some(SubQuestionText)
    else if name == "subOption" then Some(SubOptionText)
    else if name == "subSolution" then Some(SubSolution)
    else None
  }

  /** The recorded focus: question index, field name, option key and
      sub-question index (the last two `null` when not given). */
  datatype ActiveInput = ActiveInput(index: nat, field: string, option: Option<string>, subIndex: Option<nat>)

  /** A field of one question, with the option key and sub-question index
      the field needs. */
  datatype Spot = Spot(field: Field, option: Option<string>, subIndex: Option<nat>)

  predicate HasLetter(s: Spot) {
    s.option.Some? && LetterOf(s.option.value).Some?
  }

  predicate HasSub(q: Question, s: Spot) {
    q.subQuestions.Some? && s.subIndex.Some? && s.subIndex.value < |q.subQuestions.value|
  }

  /** The path to the field exists, so reading or writing it does not
      throw; a missing leaf such as an MCQ's `paragraph` only reads as
      `undefined`. */
  predicate Reaches(q: Question, s: Spot) {
    match s.field
    case QuestionText => true
    case Paragraph => true
    case Solution => true
    case OptionText => q.options.Some? && HasLetter(s)
    case SubQuestionText => HasSub(q, s)
    case SubSolution => HasSub(q, s)
    case SubOptionText => HasSub(q, s) && HasLetter(s)
  }

  /** The field's value, `None` for an absent leaf. */
  function Get(q: Question, s: Spot): Option<string>
    requires Reaches(q, s)
  {
    match s.field
    case QuestionText => Some(q.question)
    case Paragraph => q.paragraph
    case Solution => q.solution
    case OptionText => Some(ChoiceAt(q.options.value, LetterOf(s.option.value).value).text)
    case SubQuestionText => Some(q.subQuestions.value[s.subIndex.value].subQuestion)
    case SubSolution => q.subQuestions.value[s.subIndex.value].solution
    case SubOptionText =>
      Some(ChoiceAt(q.subQuestions.value[s.subIndex.value].options, LetterOf(s.option.value).value).text)
  }

  function WithSub(q: Question, i: nat, sub: SubQuestion): Question
    requires q.subQuestions.Some? && i < |q.subQuestions.value|
  {
    q.(subQuestions := Some(q.subQuestions.value[i := sub]))
  }

  /** The question with the field set to `v`. */
  function Set(q: Question, s: Spot, v: string): Question
    requires Reaches(q, s)
  {
    match s.field
    case QuestionText => q.(question := v)
    case Paragraph => q.(paragraph := Some(v))
    case Solution => q.(solution := Some(v))
    case OptionText =>
      var l := LetterOf(s.option.value).value;
      var cs := q.options.value;
      q.(options := Some(WithChoice(cs, l, ChoiceAt(cs, l).(text := v))))
    case SubQuestionText =>
      var sub := q.subQuestions.value[s.subIndex.value];
      WithSub(q, s.subIndex.value, sub.(subQuestion := v))
    case SubSolution =>
      var sub := q.subQuestions.value[s.subIndex.value];
      WithSub(q, s.subIndex.value, sub.(solution := Some(v)))
    case SubOptionText =>
      var l := LetterOf(s.option.value).value;
      var sub := q.subQuestions.value[s.subIndex.value];
      WithSub(q, s.subIndex.value, sub.(options := WithChoice(sub.options, l, ChoiceAt(sub.options, l).(text := v))))
  }

  /** Writing a field touches that field only: what is written is read
      back, a second write replaces the first, writing back what was read
      changes nothing, and the shape of the question (which keys exist, how
      many sub-questions, every answer) stays as it was. */
  lemma SetLaws(q: Question, s: Spot, v: string, w: string)
    requires Reaches(q, s)
    ensures Reaches(Set(q, s, v), s) && Get(Set(q, s, v), s) == Some(v)
    ensures Set(Set(q, s, v), s, w) == Set(q, s, w)
    ensures Get(q, s).Some? ==> Set(q, s, Get(q, s).value) == q
    ensures var r := Set(q, s, v);
      r.options.Some? == q.options.Some? && r.correctAnswer == q.correctAnswer
      && r.subQuestions.Some? == q.subQuestions.Some?
      && r.adminId == q.adminId && r.questionType == q.questionType
      && (r.paragraph.Some? <== q.paragraph.Some?)
  {
    if s.field == OptionText {
      var l := LetterOf(s.option.value).value;
      var cs := q.options.value;
      if Get(q, s).Some? {
        assert WithChoice(cs, l, ChoiceAt(cs, l).(text := Get(q, s).value)) == cs;
      }
    } else if s.field == SubOptionText {
      var l := LetterOf(s.option.value).value;
      var i := s.subIndex.value;
      var subs := q.subQuestions.value;
      var sub := subs[i];
      var sv := sub.(options := WithChoice(sub.options, l, ChoiceAt(sub.options, l).(text := v)));
      var sw := sub.(options := WithChoice(sub.options, l, ChoiceAt(sub.options, l).(text := w)));
      assert Set(q, s, v).subQuestions.value == subs[i := sv];
      assert sw == sv.(options := WithChoice(sv.options, l, ChoiceAt(sv.options, l).(text := w)));
      assert subs[i := sv][i := sw] == subs[i := sw];
      if Get(q, s).Some? {
        assert WithChoice(sub.options, l, ChoiceAt(sub.options, l).(text := Get(q, s).value)) == sub.options;
        assert subs[i := sub] == subs;
      }
    } else if s.field == SubQuestionText || s.field == SubSolution {
      var i := s.subIndex.value;
      var subs := q.subQuestions.value;
      var sv := Set(q, s, v).subQuestions.value[i];
      var sw := Set(q, s, w).subQuestions.value[i];
      assert subs[i := sv][i := sw] == subs[i := sw];
      assert subs[i := subs[i]] == subs;
    }
  }

  /** A write leaves the sub-question list's length and every answer as
      they were. */
  lemma SetKeepsSubs(q: Question, s: Spot, v: string)
    requires Reaches(q, s) && q.subQuestions.Some?
    ensures var r := Set(q, s, v);
      r.subQuestions.Some? && |r.subQuestions.value| == |q.subQuestions.value|
      && forall k :: 0 <= k < |q.subQuestions.value| ==>
           r.subQuestions.value[k].correctAnswer == q.subQuestions.value[k].correctAnswer
  {
  }

  /** JavaScript `+=` on a string field: an absent field reads as
      `undefined`, which concatenates as the word. */
  function JsText(s: Option<string>): string {
    if s.Some? then s.value else "undefined"
  }

  /** The text handleInsertSymbol appends: the symbol between two spaces. */
  function Padded(symbol: string): string {
    " " + symbol + " "
  }

  /** handleInsertSymbol on the question list, for a focus whose field name
      is known: `None` when the path throws (the question, the option key
      or the sub-question is missing), otherwise the list with `piece`
      appended to that one field. */
  function Appended(qs: seq<Question>, index: nat, s: Spot, piece: string): (r: Option<seq<Question>>)
    ensures r.Some? <==> index < |qs| && Reaches(qs[index], s)
    ensures r.Some? ==> (|r.value| == |qs|
      && (forall j :: 0 <= j < |qs| && j != index ==> r.value[j] == qs[j])
      && r.value[index] == Set(qs[index], s, JsText(Get(qs[index], s)) + piece))
  {
    if index < |qs| && Reaches(qs[index], s) then
      Some(qs[index := Set(qs[index], s, JsText(Get(qs[index], s)) + piece)])
    else None
  }

  /** After an insertion the targeted field reads as its old text (or
      `undefined`) followed by the piece. */
  lemma AppendedField(qs: seq<Question>, index: nat, s: Spot, piece: string)
    requires index < |qs| && Reaches(qs[index], s)
    ensures var r := Appended(qs, index, s, piece).value;
      Reaches(r[index], s) && Get(r[index], s) == Some(JsText(Get(qs[index], s)) + piece)
  {
    SetLaws(qs[index], s, JsText(Get(qs[index], s)) + piece, "");
  }

  /** The URL a question type posts to. */
  function Endpoint(segment: string): string {
    "http://localhost:5000/api/" + segment + "/questions"
  }

  /** The five question types the type picker offers. */
  const QuestionTypes: set<string> := {"understand", "remeber", "eval", "apply", "analyse"}

  /** A different question type never shares an endpoint. */
  lemma EndpointInjective(x: string, y: string)
    requires Endpoint(x) == Endpoint(y)
    ensures x == y
  {
    var p := "http://localhost:5000/api/";
    assert |x| == |y|;
    assert Endpoint(x) == p + x + "/questions";
    assert x == Endpoint(x)[|p|..|p| + |x|];
    assert y == Endpoint(y)[|p|..|p| + |y|];
  }

  /** Whether the `k`-th request of a run came back ok; a request with no
      listed reply stands for a fetch that rejected. */
  predicate Ok(replies: seq<bool>, k: nat) {
    k < |replies| && replies[k]
  }

  /** The `for ... of` over the request bodies with an `await`ed fetch each:
      requests go out one after another and the first response that is not
      ok throws, so nothing after it is sent. */
  method SendInOrder(count: nat, replies: seq<bool>) returns (failedAt: Option<nat>)
    ensures failedAt.None? <==> forall k :: 0 <= k < count ==> Ok(replies, k)
    ensures failedAt.Some? ==> (failedAt.value < count && !Ok(replies, failedAt.value)
      && forall j :: 0 <= j < failedAt.value ==> Ok(replies, j))
  {
    var k := 0;
    while k < count
      invariant 0 <= k <= count
      invariant forall j :: 0 <= j < k ==> Ok(replies, j)
    {
      if !(k < |replies| && replies[k]) {
        assert !Ok(replies, k);
        return Some(k);
      }
      k := k + 1;
    }
    return None;
  }
}
