// The question-sheet uploaders, from the rows `sheet_to_json` has already
// parsed: the MCQ sheet (one question per row), the admin and super-admin
// comprehension sheets (rows grouped into passages with their
// sub-questions), and the upload URL each component posts to.

module Uploads {
  import opened Outcomes
  import opened Strings
  import Sorting

  /** A sheet cell; None when the row has no value in that column. */
  type Cell = Option<string>

  /** JavaScript truthiness of a cell. */
  predicate Truthy(c: Cell) { c.Some? && c.value != "" }

  /** `cell || ''`. */
  function OrEmpty(c: Cell): (r: string)
    ensures r == "" <==> !Truthy(c)
    ensures Truthy(c) ==> r == c.value
  {
    if Truthy(c) then c.value else ""
  }

  /** `cell?.trim()`, with "" standing for undefined: both are falsy and
      neither is stored. */
  function TrimmedText(c: Cell): string {
    if c.Some? then Trim(c.value) else ""
  }

  /** `cell ? cell.split(',').map(ans => ans.trim()) : []`: the answer keys
      of a comma-separated cell, each trimmed and free of commas. */
  function AnswerList(c: Cell): (r: seq<string>)
    ensures Truthy(c) <==> |r| >= 1
    ensures forall i :: 0 <= i < |r| ==> ',' !in r[i] && Trimmed(r[i])
  {
    if Truthy(c) then
      var parts := Split(c.value, ',');
      var r := SplitTrim(c.value);
      assert forall i :: 0 <= i < |r| ==> Trimmed(r[i]) by {
        forall i | 0 <= i < |r| ensures Trimmed(r[i]) {
          TrimIdempotent(parts[i]);
        }
      }
      r
    else []
  }

  /** Writing keys back as a comma-separated cell and reading it again gives
      the same keys. */
  lemma AnswerListRoundTrip(keys: seq<string>)
    requires |keys| >= 1 && Join(keys, ",") != ""
    requires forall i :: 0 <= i < |keys| ==> ',' !in keys[i] && Trimmed(keys[i])
    ensures AnswerList(Some(Join(keys, ","))) == keys
  {
    SplitJoin(keys, ',');
    TrimAllTrimmed(keys);
  }

  /** The four option columns A to D of a row. */
  datatype Four<T> = Four(a: T, b: T, c: T, d: T)

  // ---- McqUpload -------------------------------------------------------

  /** What an option's `image` holds: '' or the promise
      convertImageToBase64 returns for the cell. */
  datatype Image = NoImage | Converting(file: string)

  datatype McqOption = McqOption(text: Cell, image: Image)

  datatype McqRow = McqRow(question: Cell, options: Four<Cell>, images: Four<Cell>, correctAnswer: Cell, solution: Cell)

  datatype McqQuestion = McqQuestion(
    chapterId: string,
    question: Cell,
    options: Four<McqOption>,
    correctAnswer: seq<string>,
    solution: string,
    questionType: string)

  function McqOptionOf(text: Cell, image: Cell): (o: McqOption)
    ensures o.text == text && (o.image == NoImage <==> !Truthy(image))
  {
    McqOption(text, if Truthy(image) then Converting(image.value) else NoImage)
  }

  /** One row of the MCQ sheet as a question record: the cells carried over,
      the answer cell split into keys, the solution defaulting to '' and an
      image only where its column has one. */
  function McqQuestionOf(chapterId: string, row: McqRow): (q: McqQuestion)
    ensures q.chapterId == chapterId && q.question == row.question && q.questionType == "MCQ"
    ensures q.options.a.text == row.options.a && q.options.b.text == row.options.b
    ensures q.options.c.text == row.options.c && q.options.d.text == row.options.d
    ensures (q.options.a.image == NoImage <==> !Truthy(row.images.a)) && (q.options.b.image == NoImage <==> !Truthy(row.images.b))
    ensures (q.options.c.image == NoImage <==> !Truthy(row.images.c)) && (q.options.d.image == NoImage <==> !Truthy(row.images.d))
    ensures q.correctAnswer == [] <==> !Truthy(row.correctAnswer)
    ensures q.solution == OrEmpty(row.solution)
  {
    McqQuestion(
      chapterId,
      row.question,
      Four(McqOptionOf(row.options.a, row.images.a), McqOptionOf(row.options.b, row.images.b),
           McqOptionOf(row.options.c, row.images.c), McqOptionOf(row.options.d, row.images.d)),
      AnswerList(row.correctAnswer),
      OrEmpty(row.solution),
      "MCQ")
  }

  /** processExcel of the MCQ sheet: one question per row, in sheet order. */
  function McqSheet(chapterId: string, rows: seq<McqRow>): (qs: seq<McqQuestion>)
    ensures |qs| == |rows|
    ensures forall i :: 0 <= i < |rows| ==> qs[i] == McqQuestionOf(chapterId, rows[i])
  {
    seq(|rows|, i requires 0 <= i < |rows| => McqQuestionOf(chapterId, rows[i]))
  }

  /** The sheet is processed row by row: two sheets one after the other give
      their questions one after the other. */
  lemma McqSheetConcat(chapterId: string, rows: seq<McqRow>, more: seq<McqRow>)
    ensures McqSheet(chapterId, rows + more) == McqSheet(chapterId, rows) + McqSheet(chapterId, more)
  {
    var whole := McqSheet(chapterId, rows + more);
    var parts := McqSheet(chapterId, rows) + McqSheet(chapterId, more);
    forall i | 0 <= i < |whole| ensures whole[i] == parts[i] {
      if i < |rows| {
        assert (rows + more)[i] == rows[i];
      } else {
        assert (rows + more)[i] == more[i - |rows|];
      }
    }
  }

  // ---- upload URLs -----------------------------------------------------

  const ApiBase: string := "http://localhost:5000/api/"

  /** The question types with an upload endpoint of their own. */
  const UploadTypes: seq<string> := ["understand", "remember", "eval", "apply", "analyse"]

  /** getApiUrl of the upload components: the lower-cased type picks its
      endpoint; any other type gets `fallback`. */
  function UploadUrl(questionType: string, fallback: string): (url: string)
    ensures ToLower(questionType) in UploadTypes ==> url == ApiBase + ToLower(questionType) + "/upload"
    ensures ToLower(questionType) !in UploadTypes ==> url == fallback
  {
    var t := ToLower(questionType);
    if t == "understand" then ApiBase + "understand/upload"
    else if t == "remember" then ApiBase + "remember/upload"
    else if t == "eval" then ApiBase + "eval/upload"
    else if t == "apply" then ApiBase + "apply/upload"
    else if t == "analyse" then ApiBase + "analyse/upload"
    else fallback
  }

  /** The endpoint does not depend on the letter case of the type. */
  lemma UploadUrlIgnoresCase(questionType: string, fallback: string)
    ensures UploadUrl(ToLower(questionType), fallback) == UploadUrl(questionType, fallback)
  {
    ToLowerIdempotent(questionType);
  }

  // ---- comprehension sheets ------------------------------------------

  /** The two comprehension uploaders: the admin one keeps the paragraph
      image and the sub-solution, drops incomplete sets and refuses an empty
      result; the super-admin one does neither. */
  datatype Uploader = AdminUploader | SuperAdminUploader

  /** How rows are matched to a set. `JoinedKey` is the code as written:
      the object key `question + "_" + paragraph`. `PairKey` compares the
      question and the paragraph themselves. */
  datatype Keying = JoinedKey | PairKey

  datatype ComprehensionRow = ComprehensionRow(
    question: Cell,
    paragraph: Cell,
    subQuestion: Cell,
    paragraphImage: Cell,
    subOptions: Four<Cell>,
    subOptionImages: Four<Cell>,
    subCorrectAnswer: Cell,
    subSolution: Cell)

  datatype SubOption = SubOption(text: Cell, image: string, fileName: string)

  /** A sub-question; `solution` is None where the uploader sends none. */
  datatype SubRecord = SubRecord(subQuestion: string, options: Four<SubOption>, correctAnswer: seq<string>, solution: Option<string>)

  /** A comprehension set; `paragraphImage` is None where the uploader sends none. */
  datatype ComprehensionSet = ComprehensionSet(
    chapterId: string,
    question: string,
    paragraph: string,
    paragraphImage: Option<string>,
    subQuestions: seq<SubRecord>,
    questionType: string)

  const NoValidSets: string := "No valid comprehension questions found in the file"
  const ComprehensionFallback: string := "http://localhost:5000/api/comprehension/upload"

  /** What the reduce reads from one row: the trimmed question, paragraph
      and sub-question, the paragraph image and the sub-question record. */
  datatype Entry = Entry(question: string, paragraph: string, paragraphImage: Option<string>, sub: SubRecord)

  function SubOptionOf(text: Cell, image: Cell, fileName: string): (o: SubOption)
    ensures o.text == text && o.image == OrEmpty(image)
    ensures o.fileName == (if Truthy(image) then fileName else "")
  {
    SubOption(text, OrEmpty(image), if Truthy(image) then fileName else "")
  }

  function EntryOf(u: Uploader, row: ComprehensionRow): Entry {
    Entry(
      TrimmedText(row.question),
      TrimmedText(row.paragraph),
      if u == AdminUploader then Some(OrEmpty(row.paragraphImage)) else None,
      SubRecord(
        TrimmedText(row.subQuestion),
        Four(SubOptionOf(row.subOptions.a, row.subOptionImages.a, "imageA.png"),
             SubOptionOf(row.subOptions.b, row.subOptionImages.b, "imageB.png"),
             SubOptionOf(row.subOptions.c, row.subOptionImages.c, "imageC.png"),
             SubOptionOf(row.subOptions.d, row.subOptionImages.d, "imageD.png")),
        AnswerList(row.subCorrectAnswer),
        if u == AdminUploader then Some(OrEmpty(row.subSolution)) else None))
  }

  /** The rows of the sheet as the reduce reads them, one entry per row. */
  function Entries(u: Uploader, rows: seq<ComprehensionRow>): (es: seq<Entry>)
    ensures |es| == |rows|
    ensures forall i :: 0 <= i < |rows| ==> es[i] == EntryOf(u, rows[i])
  {
    seq(|rows|, i requires 0 <= i < |rows| => EntryOf(u, rows[i]))
  }

  /** A row is used only when its trimmed question, paragraph and
      sub-question are all non-empty. */
  predicate Complete(e: Entry) {
    e.question != "" && e.paragraph != "" && e.sub.subQuestion != ""
  }

  /** What identifies a set, from its question and paragraph. */
  type KeyFn = (string, string) -> (string, string)

  /** The key of each key. */
  function KeyOf(keying: Keying): KeyFn {
    match keying
    case JoinedKey => (question, paragraph) => (question + "_" + paragraph, "")
    case PairKey => (question, paragraph) => (question, paragraph)
  }

  function EntryKey(key: KeyFn, e: Entry): (string, string) {
    key(e.question, e.paragraph)
  }

  function SetKey(key: KeyFn, s: ComprehensionSet): (string, string) {
    key(s.question, s.paragraph)
  }

  /** `acc[groupKey]`: the position of the set with the entry's key. */
  function FindSet(key: KeyFn, sets: seq<ComprehensionSet>, e: Entry): (r: Option<nat>)
    ensures r.Some? ==> r.value < |sets| && SetKey(key, sets[r.value]) == EntryKey(key, e)
    ensures r.None? ==> forall i :: 0 <= i < |sets| ==> SetKey(key, sets[i]) != EntryKey(key, e)
  {
    if sets == [] then None
    else if SetKey(key, sets[0]) == EntryKey(key, e) then Some(0)
    else match FindSet(key, sets[1..], e)
      case None => None
      case Some(i) => Some(i + 1)
  }

  /** The set an entry opens when its key is new, holding its sub-question. */
  function NewSet(chapterId: string, e: Entry): ComprehensionSet {
    ComprehensionSet(chapterId, e.question, e.paragraph, e.paragraphImage, [e.sub], "Comprehension")
  }

  /** One step of the reduce: skip an incomplete row, else add its
      sub-question to the set with its key, opening that set if needed. */
  function AddEntry(key: KeyFn, chapterId: string, sets: seq<ComprehensionSet>, e: Entry): seq<ComprehensionSet> {
    if !Complete(e) then sets
    else match FindSet(key, sets, e)
      case Some(i) => sets[i := sets[i].(subQuestions := sets[i].subQuestions + [e.sub])]
      case None => sets + [NewSet(chapterId, e)]
  }

  /** The sets the reduce builds, in order of their first row. */
  function Grouped(key: KeyFn, chapterId: string, es: seq<Entry>): seq<ComprehensionSet> {
    if es == [] then []
    else AddEntry(key, chapterId, Grouped(key, chapterId, es[..|es| - 1]), es[|es| - 1])
  }

  /** The `questionsMap` reduce over the sheet's rows. */
  method GroupRows(u: Uploader, key: KeyFn, chapterId: string, rows: seq<ComprehensionRow>)
    returns (sets: seq<ComprehensionSet>)
    ensures sets == Grouped(key, chapterId, Entries(u, rows))
  {
    sets := [];
    for i := 0 to |rows|
      invariant sets == Grouped(key, chapterId, Entries(u, rows[..i]))
    {
      var es := Entries(u, rows[..i + 1]);
      assert es[..i] == Entries(u, rows[..i]);
      sets := AddEntry(key, chapterId, sets, EntryOf(u, rows[i]));
    }
    assert rows[..|rows|] == rows;
  }

  // ---- reference definitions and what the grouping guarantees ----------

  /** The sub-questions of the complete entries with key `k`, in row order. */
  function SubsWithKey(key: KeyFn, es: seq<Entry>, k: (string, string)): seq<SubRecord> {
    if es == [] then []
    else
      var last := es[|es| - 1];
      SubsWithKey(key, es[..|es| - 1], k)
        + (if Complete(last) && EntryKey(key, last) == k then [last.sub] else [])
  }

  /** The number of complete entries. */
  function CompleteCount(es: seq<Entry>): nat {
    if es == [] then 0
    else CompleteCount(es[..|es| - 1]) + (if Complete(es[|es| - 1]) then 1 else 0)
  }

  function SubCount(s: ComprehensionSet): int { |s.subQuestions| }

  /** The sets have distinct keys. */
  predicate DistinctKeys(key: KeyFn, sets: seq<ComprehensionSet>) {
    forall i, j :: 0 <= i < j < |sets| ==> SetKey(key, sets[i]) != SetKey(key, sets[j])
  }

  /** Each set has a non-empty question and paragraph, the chapter id and
      at least one sub-question: exactly the sub-questions of the complete
      entries with its key, in row order. */
  predicate SetsMatchEntries(key: KeyFn, chapterId: string, es: seq<Entry>, sets: seq<ComprehensionSet>) {
    forall i :: 0 <= i < |sets| ==>
      sets[i].question != "" && sets[i].paragraph != "" && sets[i].chapterId == chapterId
      && |sets[i].subQuestions| >= 1 && sets[i].subQuestions == SubsWithKey(key, es, SetKey(key, sets[i]))
  }

  /** Every complete entry has its set. */
  predicate CoversEntries(key: KeyFn, es: seq<Entry>, sets: seq<ComprehensionSet>) {
    forall r :: 0 <= r < |es| && Complete(es[r]) ==>
      exists i :: 0 <= i < |sets| && SetKey(key, sets[i]) == EntryKey(key, es[r])
  }

  predicate GroupedInvariant(key: KeyFn, chapterId: string, es: seq<Entry>, sets: seq<ComprehensionSet>) {
    DistinctKeys(key, sets) && SetsMatchEntries(key, chapterId, es, sets) && CoversEntries(key, es, sets)
    && Sorting.SumOf(sets, SubCount) == CompleteCount(es)
  }

  /** What the grouping guarantees, for either key: distinct keys; each
      set with its question, paragraph and chapter, holding exactly the
      sub-questions of the complete rows with its key, in row order, and at
      least one; every complete row has its set; and there are as many
      sub-questions as complete rows. */
  lemma {:induction false} GroupedFacts(key: KeyFn, chapterId: string, es: seq<Entry>)
    ensures GroupedInvariant(key, chapterId, es, Grouped(key, chapterId, es))
  {
    if es != [] {
      var init := es[..|es| - 1];
      var e := es[|es| - 1];
      assert es == init + [e];
      GroupedFacts(key, chapterId, init);
      var prev := Grouped(key, chapterId, init);
      if !Complete(e) {
        GroupedSkip(key, chapterId, init, e, prev);
      } else {
        match FindSet(key, prev, e)
        case Some(k) => GroupedJoin(key, chapterId, init, e, prev, k);
        case None => GroupedOpen(key, chapterId, init, e, prev);
      }
    }
  }

  lemma SubsWithKeySnoc(key: KeyFn, init: seq<Entry>, e: Entry, k: (string, string))
    ensures SubsWithKey(key, init + [e], k) ==
      SubsWithKey(key, init, k) + (if Complete(e) && EntryKey(key, e) == k then [e.sub] else [])
  {
    assert (init + [e])[..|init|] == init;
  }

  lemma CompleteCountSnoc(init: seq<Entry>, e: Entry)
    ensures CompleteCount(init + [e]) == CompleteCount(init) + (if Complete(e) then 1 else 0)
  {
    assert (init + [e])[..|init|] == init;
  }

  /** An incomplete row changes nothing. */
  lemma GroupedSkip(key: KeyFn, chapterId: string, init: seq<Entry>, e: Entry, prev: seq<ComprehensionSet>)
    requires GroupedInvariant(key, chapterId, init, prev) && !Complete(e)
    ensures GroupedInvariant(key, chapterId, init + [e], prev)
  {
    var es := init + [e];
    CompleteCountSnoc(init, e);
    forall i | 0 <= i < |prev|
      ensures prev[i].subQuestions == SubsWithKey(key, es, SetKey(key, prev[i]))
    {
      SubsWithKeySnoc(key, init, e, SetKey(key, prev[i]));
    }
    forall r | 0 <= r < |es| && Complete(es[r])
      ensures exists i :: 0 <= i < |prev| && SetKey(key, prev[i]) == EntryKey(key, es[r])
    {
      assert r < |init| && es[r] == init[r];
    }
  }

  /** A complete row whose key has a set adds its sub-question to that set. */
  lemma GroupedJoin(key: KeyFn, chapterId: string, init: seq<Entry>, e: Entry, prev: seq<ComprehensionSet>, k: nat)
    requires GroupedInvariant(key, chapterId, init, prev) && Complete(e)
    requires FindSet(key, prev, e) == Some(k)
    ensures GroupedInvariant(key, chapterId, init + [e], AddEntry(key, chapterId, prev, e))
  {
    var grown := prev[k].(subQuestions := prev[k].subQuestions + [e.sub]);
    assert prev[k := grown] == AddEntry(key, chapterId, prev, e);
    CompleteCountSnoc(init, e);
    Sorting.SumOfUpdate(prev, k, grown, SubCount);
    JoinKeepsKeys(key, prev, k, grown);
    JoinMatches(key, chapterId, init, e, prev, k);
    JoinCovers(key, init, e, prev, k, grown);
  }

  lemma JoinKeepsKeys(key: KeyFn, prev: seq<ComprehensionSet>, k: nat, grown: ComprehensionSet)
    requires k < |prev| && SetKey(key, grown) == SetKey(key, prev[k]) && DistinctKeys(key, prev)
    ensures DistinctKeys(key, prev[k := grown])
  {
    var sets := prev[k := grown];
    assert forall i :: 0 <= i < |sets| ==> SetKey(key, sets[i]) == SetKey(key, prev[i]);
  }

  lemma JoinMatches(key: KeyFn, chapterId: string, init: seq<Entry>, e: Entry, prev: seq<ComprehensionSet>, k: nat)
    requires SetsMatchEntries(key, chapterId, init, prev) && DistinctKeys(key, prev)
    requires Complete(e) && k < |prev| && SetKey(key, prev[k]) == EntryKey(key, e)
    ensures SetsMatchEntries(key, chapterId, init + [e], prev[k := prev[k].(subQuestions := prev[k].subQuestions + [e.sub])])
  {
    var sets := prev[k := prev[k].(subQuestions := prev[k].subQuestions + [e.sub])];
    forall i | 0 <= i < |sets|
      ensures sets[i].subQuestions == SubsWithKey(key, init + [e], SetKey(key, sets[i]))
    {
      SubsWithKeySnoc(key, init, e, SetKey(key, prev[i]));
      if i != k {
        assert SetKey(key, prev[i]) != SetKey(key, prev[k]);
      }
    }
  }

  lemma JoinCovers(key: KeyFn, init: seq<Entry>, e: Entry, prev: seq<ComprehensionSet>, k: nat, grown: ComprehensionSet)
    requires CoversEntries(key, init, prev)
    requires k < |prev| && SetKey(key, grown) == SetKey(key, prev[k]) && SetKey(key, prev[k]) == EntryKey(key, e)
    ensures CoversEntries(key, init + [e], prev[k := grown])
  {
    var es := init + [e];
    var sets := prev[k := grown];
    assert forall i :: 0 <= i < |sets| ==> SetKey(key, sets[i]) == SetKey(key, prev[i]);
    forall r | 0 <= r < |es| && Complete(es[r])
      ensures exists i :: 0 <= i < |sets| && SetKey(key, sets[i]) == EntryKey(key, es[r])
    {
      if r < |init| {
        assert es[r] == init[r];
      } else {
        assert SetKey(key, sets[k]) == EntryKey(key, es[r]);
      }
    }
  }

  /** A complete row with a new key opens a set of its own at the end. */
  lemma GroupedOpen(key: KeyFn, chapterId: string, init: seq<Entry>, e: Entry, prev: seq<ComprehensionSet>)
    requires GroupedInvariant(key, chapterId, init, prev) && Complete(e)
    requires FindSet(key, prev, e) == None
    ensures GroupedInvariant(key, chapterId, init + [e], AddEntry(key, chapterId, prev, e))
  {
    var added := NewSet(chapterId, e);
    assert prev + [added] == AddEntry(key, chapterId, prev, e);
    CompleteCountSnoc(init, e);
    Sorting.SumOfAppend(prev, [added], SubCount);
    assert Sorting.SumOf([added], SubCount) == 1;
    OpenKeepsDistinct(key, chapterId, prev, e);
    OpenMatches(key, chapterId, init, e, prev);
    OpenCovers(key, chapterId, init, e, prev);
  }

  lemma OpenKeepsDistinct(key: KeyFn, chapterId: string, prev: seq<ComprehensionSet>, e: Entry)
    requires DistinctKeys(key, prev) && FindSet(key, prev, e) == None
    ensures DistinctKeys(key, prev + [NewSet(chapterId, e)])
  {
    var sets := prev + [NewSet(chapterId, e)];
    assert SetKey(key, sets[|prev|]) == EntryKey(key, e);
    assert forall i :: 0 <= i < |prev| ==> sets[i] == prev[i];
  }

  lemma OpenMatches(key: KeyFn, chapterId: string, init: seq<Entry>, e: Entry, prev: seq<ComprehensionSet>)
    requires SetsMatchEntries(key, chapterId, init, prev) && CoversEntries(key, init, prev)
    requires Complete(e) && FindSet(key, prev, e) == None
    ensures SetsMatchEntries(key, chapterId, init + [e], prev + [NewSet(chapterId, e)])
  {
    var sets := prev + [NewSet(chapterId, e)];
    NoEntryWithKey(key, init, EntryKey(key, e));
    SubsWithKeySnoc(key, init, e, EntryKey(key, e));
    forall i | 0 <= i < |prev|
      ensures prev[i].subQuestions == SubsWithKey(key, init + [e], SetKey(key, prev[i]))
    {
      SubsWithKeySnoc(key, init, e, SetKey(key, prev[i]));
    }
    assert forall i :: 0 <= i < |prev| ==> sets[i] == prev[i];
  }

  lemma OpenCovers(key: KeyFn, chapterId: string, init: seq<Entry>, e: Entry, prev: seq<ComprehensionSet>)
    requires CoversEntries(key, init, prev)
    ensures CoversEntries(key, init + [e], prev + [NewSet(chapterId, e)])
  {
    var es := init + [e];
    var sets := prev + [NewSet(chapterId, e)];
    forall r | 0 <= r < |es| && Complete(es[r])
      ensures exists i :: 0 <= i < |sets| && SetKey(key, sets[i]) == EntryKey(key, es[r])
    {
      if r < |init| {
        assert es[r] == init[r];
        var i :| 0 <= i < |prev| && SetKey(key, prev[i]) == EntryKey(key, init[r]);
        assert sets[i] == prev[i];
      } else {
        assert SetKey(key, sets[|prev|]) == EntryKey(key, es[r]);
      }
    }
  }

  /** A key no complete entry carries has no sub-questions. */
  lemma {:induction false} NoEntryWithKey(key: KeyFn, es: seq<Entry>, k: (string, string))
    requires forall r :: 0 <= r < |es| && Complete(es[r]) ==> EntryKey(key, es[r]) != k
    ensures SubsWithKey(key, es, k) == []
  {
    if es != [] {
      NoEntryWithKey(key, es[..|es| - 1], k);
    }
  }

  /** The sheet part of processExcel: the reduce, then for the admin
      uploader the filter on complete sets and the error on an empty result. */
  method ProcessComprehensionSheet(u: Uploader, keying: Keying, chapterId: string, rows: seq<ComprehensionRow>)
    returns (r: Result<seq<ComprehensionSet>>)
    ensures u == SuperAdminUploader ==> r == Success(Grouped(KeyOf(keying), chapterId, Entries(u, rows)))
    ensures u == AdminUploader ==> (r.Failure? <==> CompleteCount(Entries(u, rows)) == 0)
    ensures u == AdminUploader && r.Failure? ==> r.error == NoValidSets
    ensures r.Success? ==> r.value == Grouped(KeyOf(keying), chapterId, Entries(u, rows))
  {
    var sets := GroupRows(u, KeyOf(keying), chapterId, rows);
    if u == SuperAdminUploader {
      return Success(sets);
    }
    GroupedSummary(KeyOf(keying), chapterId, Entries(u, rows));
    var kept := AdminKept(sets);
    if |kept| == 0 {
      return Failure(NoValidSets);
    }
    assert Sorting.SumOf(sets, SubCount) >= 1 by {
      assert sets == [sets[0]] + sets[1..];
      SumOfSubsNonNegative(sets[1..]);
    }
    r := Success(kept);
  }

  /** The admin filter on a set: a question, a paragraph and a sub-question. */
  predicate PassesAdminFilter(s: ComprehensionSet) {
    s.question != "" && s.paragraph != "" && |s.subQuestions| > 0
  }

  /** `.filter(...)` of the admin uploader: the sets passing the filter, in order. */
  function AdminKept(sets: seq<ComprehensionSet>): (r: seq<ComprehensionSet>)
    ensures (forall i :: 0 <= i < |sets| ==> PassesAdminFilter(sets[i])) ==> r == sets
    ensures forall i :: 0 <= i < |r| ==> PassesAdminFilter(r[i]) && r[i] in sets
  {
    if sets == [] then []
    else if PassesAdminFilter(sets[0]) then [sets[0]] + AdminKept(sets[1..])
    else AdminKept(sets[1..])
  }

  /** Every set passes the admin filter, and the sets hold one sub-question
      per complete row. */
  lemma GroupedSummary(key: KeyFn, chapterId: string, es: seq<Entry>)
    ensures var sets := Grouped(key, chapterId, es);
      (forall i :: 0 <= i < |sets| ==> PassesAdminFilter(sets[i]))
      && Sorting.SumOf(sets, SubCount) == CompleteCount(es)
  {
    GroupedFacts(key, chapterId, es);
  }

  lemma {:induction false} SumOfSubsNonNegative(sets: seq<ComprehensionSet>)
    ensures Sorting.SumOf(sets, SubCount) >= 0
  {
    if sets != [] {
      SumOfSubsNonNegative(sets[1..]);
    }
  }

  // ---- the key collision ----------------------------------------------

  /** A row with these cells, and no other. */
  function PassageRow(question: string, paragraph: string, subQuestion: string): ComprehensionRow {
    var blank := Four(None, None, None, None);
    ComprehensionRow(Some(question), Some(paragraph), Some(subQuestion), None, blank, blank, None, None)
  }

  /** The entry of a row whose cells are already trimmed carries them as they are. */
  lemma PassageEntry(u: Uploader, question: string, paragraph: string, subQuestion: string)
    requires Trimmed(question) && Trimmed(paragraph) && Trimmed(subQuestion)
    ensures var e := EntryOf(u, PassageRow(question, paragraph, subQuestion));
      e.question == question && e.paragraph == paragraph && e.sub.subQuestion == subQuestion
  {
    var row := PassageRow(question, paragraph, subQuestion);
    assert TrimmedText(row.question) == question;
    assert TrimmedText(row.paragraph) == paragraph;
    assert TrimmedText(row.subQuestion) == subQuestion;
  }

  /** Under the joined key, two complete rows whose texts join to the same
      key make one set, under the first row's question and paragraph. */
  lemma JoinedKeyMerges(chapterId: string, e1: Entry, e2: Entry)
    requires Complete(e1) && Complete(e2)
    requires e1.question + "_" + e1.paragraph == e2.question + "_" + e2.paragraph
    ensures Grouped(KeyOf(JoinedKey), chapterId, [e1, e2]) == [NewSet(chapterId, e1).(subQuestions := [e1.sub, e2.sub])]
  {
    var es := [e1, e2];
    assert es[..1] == [e1] && [e1][..0] == [];
    var first := [NewSet(chapterId, e1)];
    assert Grouped(KeyOf(JoinedKey), chapterId, [e1]) == first;
    assert SetKey(KeyOf(JoinedKey), first[0]) == (e1.question + "_" + e1.paragraph, "");
    assert EntryKey(KeyOf(JoinedKey), e2) == (e2.question + "_" + e2.paragraph, "");
    assert FindSet(KeyOf(JoinedKey), first, e2) == Some(0);
    assert Grouped(KeyOf(JoinedKey), chapterId, es) == AddEntry(KeyOf(JoinedKey), chapterId, first, e2);
    assert [e1.sub] + [e2.sub] == [e1.sub, e2.sub];
  }

  /** Keyed by the pair, two complete rows with different paragraphs make two sets. */
  lemma PairKeySeparates(chapterId: string, e1: Entry, e2: Entry)
    requires Complete(e1) && Complete(e2) && e1.paragraph != e2.paragraph
    ensures Grouped(KeyOf(PairKey), chapterId, [e1, e2]) == [NewSet(chapterId, e1), NewSet(chapterId, e2)]
  {
    var es := [e1, e2];
    assert es[..1] == [e1] && [e1][..0] == [];
    assert Grouped(KeyOf(PairKey), chapterId, [e1]) == [NewSet(chapterId, e1)];
  }

  /** As written, two rows of different passages whose texts join to the
      same key, such as ("a_b", "c") and ("a", "b_c") with key "a_b_c",
      become one set: the second row's sub-question is sent under the
      first row's paragraph. Keyed by the pair, they make two sets. */
  lemma KeyCollision(u: Uploader, q1: string, p1: string, s1: string, q2: string, p2: string, s2: string)
    requires Trimmed(q1) && Trimmed(p1) && Trimmed(s1) && Trimmed(q2) && Trimmed(p2) && Trimmed(s2)
    requires q1 != "" && p1 != "" && s1 != "" && q2 != "" && p2 != "" && s2 != ""
    requires q1 + "_" + p1 == q2 + "_" + p2 && p1 != p2
    ensures var sets := Grouped(KeyOf(JoinedKey), "", Entries(u, [PassageRow(q1, p1, s1), PassageRow(q2, p2, s2)]));
      |sets| == 1 && sets[0].paragraph == p1 && |sets[0].subQuestions| == 2 && sets[0].subQuestions[1].subQuestion == s2
    ensures |Grouped(KeyOf(PairKey), "", Entries(u, [PassageRow(q1, p1, s1), PassageRow(q2, p2, s2)]))| == 2
  {
    var es := Entries(u, [PassageRow(q1, p1, s1), PassageRow(q2, p2, s2)]);
    PassageEntry(u, q1, p1, s1);
    PassageEntry(u, q2, p2, s2);
    assert es == [es[0], es[1]];
    JoinedKeyMerges("", es[0], es[1]);
    PairKeySeparates("", es[0], es[1]);
  }

  /** The texts of the example join to the same key. */
  lemma CollidingTexts()
    ensures "a_b" + "_" + "c" == "a" + "_" + "b_c" && "c" != "b_c"
  {
  }

  /** Keyed by the pair, a set holds exactly the sub-questions of the
      complete rows whose trimmed question and paragraph are its own, and no
      two sets share both. */
  lemma PairKeyGroupsByPassage(chapterId: string, es: seq<Entry>)
    ensures var sets := Grouped(KeyOf(PairKey), chapterId, es);
      (forall i :: 0 <= i < |sets| ==> sets[i].subQuestions == SubsOfPassage(es, sets[i].question, sets[i].paragraph))
      && (forall i, j :: 0 <= i < j < |sets| ==> (sets[i].question, sets[i].paragraph) != (sets[j].question, sets[j].paragraph))
  {
    GroupedFacts(KeyOf(PairKey), chapterId, es);
    var sets := Grouped(KeyOf(PairKey), chapterId, es);
    forall i | 0 <= i < |sets|
      ensures sets[i].subQuestions == SubsOfPassage(es, sets[i].question, sets[i].paragraph)
    {
      SubsOfPassageIsPairKey(es, sets[i].question, sets[i].paragraph);
    }
  }

  /** The sub-questions of the complete entries with this question and paragraph. */
  function SubsOfPassage(es: seq<Entry>, question: string, paragraph: string): seq<SubRecord> {
    if es == [] then []
    else
      var last := es[|es| - 1];
      SubsOfPassage(es[..|es| - 1], question, paragraph)
        + (if Complete(last) && last.question == question && last.paragraph == paragraph then [last.sub] else [])
  }

  lemma {:induction false} SubsOfPassageIsPairKey(es: seq<Entry>, question: string, paragraph: string)
    ensures SubsOfPassage(es, question, paragraph) == SubsWithKey(KeyOf(PairKey), es, (question, paragraph))
  {
    if es != [] {
      SubsOfPassageIsPairKey(es[..|es| - 1], question, paragraph);
    }
  }

  /** The admin success message counts the sets and their sub-questions. */
  function AdminUploadMessage(sets: seq<ComprehensionSet>): string {
    "Uploaded " + NatToString(|sets|) + " comprehension sets with "
      + NatToString(SumOfSubs(sets)) + " total questions!"
  }

  function SumOfSubs(sets: seq<ComprehensionSet>): (n: nat)
    ensures n == Sorting.SumOf(sets, SubCount)
  {
    if sets == [] then 0 else |sets[0].subQuestions| + SumOfSubs(sets[1..])
  }

  /** The super-admin success message counts the sets. */
  function SuperAdminUploadMessage(sets: seq<ComprehensionSet>): string {
    NatToString(|sets|) + " Comprehension Sets Uploaded!"
  }

  /** The admin message reports one question per complete row. */
  lemma AdminMessageCountsRows(key: KeyFn, chapterId: string, es: seq<Entry>)
    ensures AdminUploadMessage(Grouped(key, chapterId, es)) ==
      "Uploaded " + NatToString(|Grouped(key, chapterId, es)|) + " comprehension sets with "
      + NatToString(CompleteCount(es)) + " total questions!"
  {
    GroupedFacts(key, chapterId, es);
  }
}
