// The super-admin's question download screen: the fetched response is
// normalised into a list of questions, texts are cleaned before they are
// shown as plain text or as LaTeX, and the PDF export lays text blocks out
// page by page and numbers the questions.

module ChapterQuestions {
  import opened Outcomes
  import opened Strings

  /** An option as stored: its text and image, either possibly absent. */
  datatype OptionEntry = OptionEntry(text: Option<string>, image: Option<string>)

  /** The `correctAnswer` field as the server sends it. */
  datatype AnswerValue = Undefined | AnswerText(text: string) | AnswerKeys(keys: seq<string>)

  /** JavaScript truthiness of the field: arrays are always truthy. */
  predicate AnswerTruthy(a: AnswerValue) {
    a.AnswerKeys? || (a.AnswerText? && a.text != "")
  }

  /** A question record; `options` is None when it is missing or falsy. */
  datatype Question = Question(id: string, question: Option<string>,
                               options: Option<map<string, OptionEntry>>, correctAnswer: AnswerValue)

  /** A field of a response object: an array of questions or anything else. */
  datatype Field = NotAnArray | AnArray(items: seq<Question>)

  /** The parsed JSON body: a bare array, an object, or `null`. */
  datatype Body = ArrayBody(items: seq<Question>) | ObjectBody(data: Field, questions: Field) | NullBody

  /** What the fetch came back with: a parsed body, or a failure (a non-OK
      status, a network error or a body that is not JSON). */
  datatype Fetched = Received(body: Body) | FetchFailed

  /** The question list a response yields: a bare array, else a `data`
      array, else a `questions` array, else nothing. A `null` body throws on
      `result.data` and, like any failure, ends with no questions. */
  function QuestionsOf(f: Fetched): (r: seq<Question>)
    ensures f.FetchFailed? || f.body.NullBody? ==> r == []
  {
    match f
    case FetchFailed => []
    case Received(body) =>
      match body
      case ArrayBody(items) => items
      case ObjectBody(data, questions) =>
        if data.AnArray? then data.items
        else if questions.AnArray? then questions.items
        else []
      case NullBody => []
  }

  /** A bare array is the list; in an object `data` wins over `questions`,
      and an object with neither array gives no questions. */
  lemma ResponsePrecedence(d: seq<Question>, q: seq<Question>)
    ensures QuestionsOf(Received(ArrayBody(d))) == d
    ensures QuestionsOf(Received(ObjectBody(AnArray(d), AnArray(q)))) == d
    ensures QuestionsOf(Received(ObjectBody(NotAnArray, AnArray(q)))) == q
    ensures QuestionsOf(Received(ObjectBody(NotAnArray, NotAnArray))) == []
  {
  }

  /** One question after normalisation: `options || {}` and
      `correctAnswer || []`, every other field as it was. */
  function Normalize(q: Question): (r: Question)
    ensures r.id == q.id && r.question == q.question
    ensures r.options.Some? && (q.options.Some? ==> r.options == q.options)
    ensures AnswerTruthy(r.correctAnswer)
    ensures AnswerTruthy(q.correctAnswer) ==> r.correctAnswer == q.correctAnswer
    ensures !AnswerTruthy(q.correctAnswer) ==> r.correctAnswer == AnswerKeys([])
  {
    q.(options := if q.options.Some? then q.options else Some(map[]),
       correctAnswer := if AnswerTruthy(q.correctAnswer) then q.correctAnswer else AnswerKeys([]))
  }

  /** Normalising a normalised question changes nothing. */
  lemma NormalizeIdempotent(q: Question)
    ensures Normalize(Normalize(q)) == Normalize(q)
  {
  }

  function NormalizeAll(qs: seq<Question>): (r: seq<Question>)
    ensures |r| == |qs| && forall i :: 0 <= i < |qs| ==> r[i] == Normalize(qs[i])
  {
    seq(|qs|, i requires 0 <= i < |qs| => Normalize(qs[i]))
  }

  /** The list screen's state. */
  class QuestionList {
    var questions: seq<Question>
    var loading: bool
    var selectedType: string

    constructor ()
      ensures questions == [] && !loading && selectedType == "remember"
    {
      questions, loading, selectedType := [], false, "remember";
    }

    /** fetchQuestions, once the response is in: the normalised list, or an
        empty one on any failure; loading ends either way. */
    method Fetch(f: Fetched)
      modifies this
      ensures questions == NormalizeAll(QuestionsOf(f))
      ensures !loading && selectedType == old(selectedType)
    {
      loading := true;
      questions := NormalizeAll(QuestionsOf(f));
      loading := false;
    }
  }

  /** After a fetch every listed question has options and a truthy correct
      answer, in the order the server sent them. */
  lemma FetchedListIsNormal(f: Fetched, i: nat)
    requires i < |QuestionsOf(f)|
    ensures var r := NormalizeAll(QuestionsOf(f));
      r[i].id == QuestionsOf(f)[i].id && r[i].options.Some? && AnswerTruthy(r[i].correctAnswer)
  {
  }

  // ---- cleaning texts ---------------------------------------------------------

  /** cleanLatexText: `\ ` becomes a space, runs of two or more whitespace
      characters become one space, the ends are trimmed, and a missing text
      is the empty string. */
  function CleanLatex(text: Option<string>): string {
    if text.None? then "" else Trim(CollapseSpaces(ReplaceAll(text.value, "\\ ", " ")))
  }

  /** The cleaned text has no whitespace at its ends and no two whitespace
      characters in a row; a text without a backslash is only collapsed
      and trimmed. */
  lemma CleanLatexShape(text: string)
    ensures Trimmed(CleanLatex(Some(text))) && SingleSpaced(CleanLatex(Some(text)))
    ensures '\\' !in text ==> CleanLatex(Some(text)) == Trim(CollapseSpaces(text))
  {
    var replaced := ReplaceAll(text, "\\ ", " ");
    CollapseNoDoubleSpace(replaced);
    TrimKeepsSingleSpaced(CollapseSpaces(replaced));
    TrimIdempotent(CollapseSpaces(replaced));
    if '\\' !in text {
      ReplaceAbsent(text, "\\ ", " ");
    }
  }

  /** How renderTextOrLatex shows a text. */
  datatype Rendering = Nothing | AsMath(math: string) | AsText(text: string)

  function Render(text: Option<string>): Rendering {
    if text.None? || text.value == "" then Nothing
    else
      var cleaned := CleanLatex(text);
      if '\\' in cleaned then AsMath(cleaned) else AsText(cleaned)
  }

  /** A text is shown as math exactly when a backslash survives cleaning,
      and a text without any backslash is always shown as plain text. */
  lemma RenderMathIffBackslash(text: string)
    requires text != ""
    ensures Render(Some(text)).AsMath? <==> '\\' in CleanLatex(Some(text))
    ensures Render(Some(text)).AsText? ==> '\\' !in Render(Some(text)).text
    ensures '\\' !in text ==> Render(Some(text)).AsText?
  {
    if '\\' !in text {
      ReplaceAbsent(text, "\\ ", " ");
      CollapseKeepsAbsent(text, '\\');
      TrimKeepsAbsent(CollapseSpaces(text), '\\');
    }
  }

  /** The PDF's cleanText: every backslash removed, whitespace runs
      collapsed, the ends trimmed; a missing text is the empty string. */
  function CleanText(text: Option<string>): string {
    if text.None? then "" else Trim(CollapseSpaces(RemoveChar(text.value, '\\')))
  }

  /** The PDF text has no backslash, no whitespace at its ends and no two
      whitespace characters in a row. */
  lemma CleanTextShape(text: string)
    ensures '\\' !in CleanText(Some(text))
    ensures Trimmed(CleanText(Some(text))) && SingleSpaced(CleanText(Some(text)))
  {
    var removed := RemoveChar(text, '\\');
    CollapseKeepsAbsent(removed, '\\');
    TrimKeepsAbsent(CollapseSpaces(removed), '\\');
    CollapseNoDoubleSpace(removed);
    TrimKeepsSingleSpaced(CollapseSpaces(removed));
    TrimIdempotent(CollapseSpaces(removed));
  }

  /** Cleaning a cleaned text changes nothing. */
  lemma CleanTextIdempotent(text: string)
    ensures CleanText(Some(CleanText(Some(text)))) == CleanText(Some(text))
  {
    var once := CleanText(Some(text));
    CleanTextShape(text);
    CollapseOfSingleSpaced(once);
  }

  // ---- PDF layout ----------------------------------------------------------------

  const Margin := 15
  const LineHeight := 8

  /** The export's write position: `y` on the current page, and how many
      pages the document has. */
  class PdfLayout {
    var y: int
    var pages: nat
    const pageHeight: int

    predicate Valid()
      reads this
    {
      y >= Margin && pages >= 1
    }

    constructor (pageHeight: int)
      ensures Valid() && y == Margin && pages == 1 && this.pageHeight == pageHeight
    {
      this.pageHeight := pageHeight;
      y := Margin;
      pages := 1;
    }

    /** addTextBlock for a text split into `lines` lines: a block that would
        cross the bottom margin starts a new page at the top margin; the
        cursor then moves past the block and a 2-unit gap. `top` is where the
        block is written. */
    method AddTextBlock(lines: nat) returns (top: int)
      requires Valid()
      modifies this
      ensures Valid()
      ensures old(y) + LineHeight * lines > pageHeight - Margin ==> top == Margin && pages == old(pages) + 1
      ensures old(y) + LineHeight * lines <= pageHeight - Margin ==> top == old(y) && pages == old(pages)
      ensures y == top + LineHeight * lines + 2
      ensures LineHeight * lines <= pageHeight - 2 * Margin ==> top + LineHeight * lines <= pageHeight - Margin
    {
      var blockHeight := lines * LineHeight;
      if y + blockHeight > pageHeight - Margin {
        pages := pages + 1;
        y := Margin;
      }
      top := y;
      y := y + blockHeight + 2;
    }

    /** The fixed gaps after a question (10) and after the title (20). */
    method Skip(gap: nat)
      requires Valid()
      modifies this
      ensures Valid() && y == old(y) + gap && pages == old(pages)
    {
      y := y + gap;
    }
  }

  /** Two blocks that each fit on a page, written one after the other, never
      overlap: the second starts below the first or on a later page. */
  method BlocksDoNotOverlap(pageHeight: int, a: nat, b: nat) returns (topA: int, topB: int, samePage: bool)
    requires LineHeight * a <= pageHeight - 2 * Margin && LineHeight * b <= pageHeight - 2 * Margin
    ensures samePage ==> topA + LineHeight * a < topB
    ensures topA + LineHeight * a <= pageHeight - Margin && topB + LineHeight * b <= pageHeight - Margin
  {
    var layout := new PdfLayout(pageHeight);
    topA := layout.AddTextBlock(a);
    var before := layout.pages;
    topB := layout.AddTextBlock(b);
    samePage := layout.pages == before;
  }

  // ---- question numbering --------------------------------------------------------

  /** The heading block of the question at position k. */
  function Heading(k: nat, q: Question): string {
    "Q" + NatToString(k + 1) + ". " + CleanText(q.question)
  }

  /** processQuestion's headings, with `questionCount` starting at 1. */
  method Headings(questions: seq<Question>) returns (headings: seq<string>)
    ensures |headings| == |questions|
    ensures forall i :: 0 <= i < |questions| ==> headings[i] == Heading(i, questions[i])
  {
    headings := [];
    var questionCount := 1;
    var index := 0;
    while index < |questions|
      invariant 0 <= index <= |questions| && questionCount == index + 1
      invariant |headings| == index
      invariant forall i :: 0 <= i < index ==> headings[i] == Heading(i, questions[i])
    {
      headings := headings + ["Q" + NatToString(questionCount) + ". " + CleanText(questions[index].question)];
      questionCount := questionCount + 1;
      index := index + 1;
    }
  }

  /** The number in a heading reads back as the question's position plus
      one, and is followed by ". ". */
  lemma HeadingNumber(k: nat, q: Question)
    ensures var h := Heading(k, q); var d := NatToString(k + 1);
      h[0] == 'Q' && h[1..1 + |d|] == d && IsDigits(d) && DecimalValue(d) == k + 1
      && h[1 + |d|] == '.' && h[2 + |d|] == ' '
  {
    DecimalRoundTrip(k + 1);
  }

  /** The run of digits a string starts with. */
  function DigitPrefix(s: string): string {
    if s == [] || !('0' <= s[0] <= '9') then [] else [s[0]] + DigitPrefix(s[1..])
  }

  /** Digits followed by a non-digit read back as those digits. */
  lemma {:induction false} DigitPrefixOf(d: string, rest: string)
    requires forall k :: 0 <= k < |d| ==> '0' <= d[k] <= '9'
    requires rest != [] && !('0' <= rest[0] <= '9')
    ensures DigitPrefix(d + rest) == d
  {
    if d != [] {
      assert (d + rest)[1..] == d[1..] + rest;
      DigitPrefixOf(d[1..], rest);
    } else {
      assert d + rest == rest;
    }
  }

  /** Two strings `Q<digits><rest>` with different digit runs differ. */
  lemma NumberedDiffer(di: string, dj: string, ri: string, rj: string)
    requires IsDigits(di) && IsDigits(dj) && di != dj
    requires ri != [] && !('0' <= ri[0] <= '9') && rj != [] && !('0' <= rj[0] <= '9')
    ensures "Q" + di + ri != "Q" + dj + rj
  {
    var hi, hj := "Q" + di + ri, "Q" + dj + rj;
    assert hi[1..] == di + ri;
    assert hj[1..] == dj + rj;
    DigitPrefixOf(di, ri);
    DigitPrefixOf(dj, rj);
  }

  /** Questions at different positions get different headings. */
  lemma HeadingsDiffer(i: nat, j: nat, p: Question, q: Question)
    requires i != j
    ensures Heading(i, p) != Heading(j, q)
  {
    var di, dj := NatToString(i + 1), NatToString(j + 1);
    DecimalRoundTrip(i + 1);
    DecimalRoundTrip(j + 1);
    var ri, rj := ". " + CleanText(p.question), ". " + CleanText(q.question);
    assert Heading(i, p) == "Q" + di + ri;
    assert Heading(j, q) == "Q" + dj + rj;
    NumberedDiffer(di, dj, ri, rj);
  }
}
