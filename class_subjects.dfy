// The admin form that creates a class with its subjects: the subject field
// is a comma-separated list, the class field a free text, and both inputs
// are cleared once the server accepts the request.

module ClassSubjects {
  import opened Strings
  import opened Outcomes

  /** `subjectInput.split(',').map(s => s.trim()).filter(Boolean)`. */
  function SubjectList(input: string): (r: seq<string>)
  {
    NonEmpty(SplitTrim(input))
  }

  /** Every subject sent is non-empty, trimmed and free of commas. */
  lemma SubjectListElements(input: string)
    ensures forall i :: 0 <= i < |SubjectList(input)| ==>
      var x := SubjectList(input)[i]; x != "" && Trimmed(x) && ',' !in x
  {
    var pieces := Split(input, ',');
    var trimmed := SplitTrim(input);
    forall i | 0 <= i < |SubjectList(input)|
      ensures var x := SubjectList(input)[i]; x != "" && Trimmed(x) && ',' !in x
    {
      var x := SubjectList(input)[i];
      var j :| 0 <= j < |trimmed| && trimmed[j] == x;
      assert x == Trim(pieces[j]);
      TrimIdempotent(pieces[j]);
    }
  }

  /** A string is a subject exactly when it is a non-empty trimmed piece of
      the comma-split input. */
  lemma SubjectListMembers(input: string, x: string)
    ensures x in SubjectList(input) <==>
      x != "" && exists p :: p in Split(input, ',') && Trim(p) == x
  {
    var pieces := Split(input, ',');
    var trimmed := SplitTrim(input);
    if x in SubjectList(input) {
      var j :| 0 <= j < |trimmed| && trimmed[j] == x;
      assert pieces[j] in pieces && Trim(pieces[j]) == x;
    }
    if x != "" && exists p :: p in pieces && Trim(p) == x {
      var p :| p in pieces && Trim(p) == x;
      var j :| 0 <= j < |pieces| && pieces[j] == p;
      assert trimmed[j] == x;
    }
  }

  /** Subjects keep their input order: the list of a comma-joined input is
      the list of the left part followed by that of the right part. */
  lemma SubjectListConcat(left: string, right: string)
    ensures SubjectList(left + "," + right) == SubjectList(left) + SubjectList(right)
  {
    SplitConcat(left, right, ',');
    TrimAllConcat(Split(left, ','), Split(right, ','));
    NonEmptyConcat(SplitTrim(left), SplitTrim(right));
  }

  /** Non-empty, trimmed, comma-free subjects joined with commas read back as
      themselves. */
  lemma SubjectListRoundTrip(subjects: seq<string>)
    requires forall i :: 0 <= i < |subjects| ==>
      subjects[i] != "" && Trimmed(subjects[i]) && ',' !in subjects[i]
    ensures SubjectList(Join(subjects, ",")) == subjects
  {
    if subjects == [] {
      assert Split("", ',') == [""];
      assert TrimAll([""]) == [""];
    } else {
      SplitJoin(subjects, ',');
      TrimAllTrimmed(subjects);
      NonEmptyKeepsAll(subjects);
    }
  }

  lemma {:induction false} NonEmptyKeepsAll(xs: seq<string>)
    requires forall i :: 0 <= i < |xs| ==> xs[i] != ""
    ensures NonEmpty(xs) == xs
  {
    if xs != [] {
      NonEmptyKeepsAll(xs[1..]);
    }
  }

  /** The POST body of the form. */
  datatype ClassRequest = ClassRequest(className: string, subjects: seq<string>)

  /** What a press of "Create Class" sends: both inputs are `required`, so
      the browser refuses the form while either is empty and handleSubmit
      never runs; otherwise the trimmed class and the subject list. */
  function RequestOf(classInput: string, subjectInput: string): (r: Option<ClassRequest>)
    ensures r.None? <==> classInput == "" || subjectInput == ""
    ensures r.Some? ==> Trimmed(r.value.className)
    ensures r.Some? ==> (r.value.className == "" <==> AllSpace(classInput))
    ensures r.Some? ==> forall i :: 0 <= i < |r.value.subjects| ==>
      var x := r.value.subjects[i]; x != "" && Trimmed(x) && ',' !in x
  {
    if classInput == "" || subjectInput == "" then None
    else
      ClassNameTrimmed(classInput);
      SubjectListElements(subjectInput);
      Some(ClassRequest(Trim(classInput), SubjectList(subjectInput)))
  }

  /** The two text inputs of the form. */
  class SubjectForm {
    var classInput: string
    var subjectInput: string

    constructor ()
      ensures classInput == "" && subjectInput == ""
    {
      classInput := "";
      subjectInput := "";
    }

    method SetClass(text: string)
      modifies this
      ensures classInput == text && subjectInput == old(subjectInput)
    {
      classInput := text;
    }

    method SetSubjects(text: string)
      modifies this
      ensures subjectInput == text && classInput == old(classInput)
    {
      subjectInput := text;
    }

    /** Pressing "Create Class": nothing is sent while an input is empty;
        otherwise handleSubmit sends the request of the current inputs and
        clears them only when the server answered OK (`accepted` is false
        for a non-OK status and for a failed request). */
    method Submit(accepted: bool) returns (request: Option<ClassRequest>)
      modifies this
      ensures request == RequestOf(old(classInput), old(subjectInput))
      ensures request.Some? && accepted ==> classInput == "" && subjectInput == ""
      ensures request.None? || !accepted ==> classInput == old(classInput) && subjectInput == old(subjectInput)
    {
      if classInput == "" || subjectInput == "" {
        return None;
      }
      request := Some(ClassRequest(Trim(classInput), SubjectList(subjectInput)));
      if accepted {
        classInput := "";
        subjectInput := "";
      }
    }
  }

  /** The class name sent has no whitespace at either end and is empty only
      for an all-whitespace input. */
  lemma ClassNameTrimmed(input: string)
    ensures Trimmed(ClassRequest(Trim(input), []).className)
    ensures Trim(input) == "" <==> AllSpace(input)
  {
    TrimEnds(input);
    TrimEmpty(input);
  }
}
