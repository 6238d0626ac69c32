// The student's assignment list: every assignment goes to one of three tabs
// by its time window, and the selected assignment can be started only while
// the server holds no score for it.

module ImmediateQuest {
  import opened Dates
  import opened Outcomes

  /** A student's assignment record, reduced to what the tabs look at. */
  datatype StudentAssignment = StudentAssignment(assignmentId: string, start: Instant, end: Instant)

  datatype Section = Upcoming | Ongoing | Completed

  /** The tab an assignment belongs to: upcoming before its start, completed
      after its end, ongoing otherwise (both endpoints included). */
  function SectionOf(now: Instant, a: StudentAssignment): Section {
    if Before(now, a.start) then Upcoming
    else if Before(a.end, now) then Completed
    else Ongoing
  }

  /** The assignments of one tab, in input order. */
  function InSection(xs: seq<StudentAssignment>, now: Instant, s: Section): (r: seq<StudentAssignment>)
    ensures |r| <= |xs|
  {
    if xs == [] then []
    else
      var last := xs[|xs| - 1];
      InSection(xs[..|xs| - 1], now, s) + (if SectionOf(now, last) == s then [last] else [])
  }

  /** categorizeAssignments: one pass pushing each assignment on its tab. */
  method Categorize(xs: seq<StudentAssignment>, now: Instant)
    returns (upcoming: seq<StudentAssignment>, ongoing: seq<StudentAssignment>, completed: seq<StudentAssignment>)
    ensures upcoming == InSection(xs, now, Upcoming)
    ensures ongoing == InSection(xs, now, Ongoing)
    ensures completed == InSection(xs, now, Completed)
  {
    upcoming, ongoing, completed := [], [], [];
    var i := 0;
    while i < |xs|
      invariant 0 <= i <= |xs|
      invariant upcoming == InSection(xs[..i], now, Upcoming)
      invariant ongoing == InSection(xs[..i], now, Ongoing)
      invariant completed == InSection(xs[..i], now, Completed)
    {
      var a := xs[i];
      assert xs[..i + 1][..i] == xs[..i];
      if Before(now, a.start) {
        upcoming := upcoming + [a];
      } else if Before(a.end, now) {
        completed := completed + [a];
      } else {
        ongoing := ongoing + [a];
      }
      i := i + 1;
    }
    assert xs[..|xs|] == xs;
  }

  /** The three tabs together hold every assignment exactly as often as the
      input does. */
  lemma {:induction false} SectionsPartition(xs: seq<StudentAssignment>, now: Instant)
    ensures multiset(InSection(xs, now, Upcoming)) + multiset(InSection(xs, now, Ongoing))
      + multiset(InSection(xs, now, Completed)) == multiset(xs)
  {
    if xs != [] {
      var init, last := xs[..|xs| - 1], xs[|xs| - 1];
      SectionsPartition(init, now);
      assert xs == init + [last];
      SectionStep(xs, now);
    }
  }

  lemma SectionStep(xs: seq<StudentAssignment>, now: Instant)
    requires xs != []
    ensures var init, last := xs[..|xs| - 1], xs[|xs| - 1];
      multiset(InSection(xs, now, Upcoming)) + multiset(InSection(xs, now, Ongoing)) + multiset(InSection(xs, now, Completed))
      == multiset(InSection(init, now, Upcoming)) + multiset(InSection(init, now, Ongoing)) + multiset(InSection(init, now, Completed)) + multiset{last}
  {
  }

  /** An assignment is on a tab exactly when it is in the input and that is
      its section. */
  lemma {:induction false} SectionMembers(xs: seq<StudentAssignment>, now: Instant, s: Section, a: StudentAssignment)
    ensures a in InSection(xs, now, s) <==> a in xs && SectionOf(now, a) == s
  {
    if xs != [] {
      var init := xs[..|xs| - 1];
      SectionMembers(init, now, s, a);
      assert xs == init + [xs[|xs| - 1]];
    }
  }

  /** Tabs keep input order: the tab of a concatenation is the concatenation
      of the tabs. */
  lemma {:induction false} SectionConcat(xs: seq<StudentAssignment>, ys: seq<StudentAssignment>, now: Instant, s: Section)
    ensures InSection(xs + ys, now, s) == InSection(xs, now, s) + InSection(ys, now, s)
  {
    if ys == [] {
      assert xs + ys == xs;
    } else {
      var init := ys[..|ys| - 1];
      SectionConcat(xs, init, now, s);
      assert (xs + ys)[..|xs + ys| - 1] == xs + init;
    }
  }

  /** Both ends of a window are inside it, and an assignment with an invalid
      date is never upcoming or completed on that side. */
  lemma WindowEndpoints(a: StudentAssignment, t: int)
    ensures a.start == At(t) && NotAfter(a.start, a.end) ==> SectionOf(At(t), a) == Ongoing
    ensures a.end == At(t) && NotAfter(a.start, a.end) ==> SectionOf(At(t), a) == Ongoing
    ensures a.start == InvalidDate && a.end == InvalidDate ==> SectionOf(At(t), a) == Ongoing
  {
  }

  // ---- score status --------------------------------------------------------

  /** What the score lookup came back with: an HTTP status and whether its
      body could be read, or a failed request. */
  datatype ScoreResponse<D> = Answered(status: int, body: Option<D>) | RequestFailed

  /** checkForExistingScore: only a 200 with a readable body means a score
      exists; 404, any other status, an unreadable body and a failed request
      all mean none. */
  function ScoreStatus<D>(r: ScoreResponse<D>): (result: (bool, Option<D>))
    ensures result.0 <==> r.Answered? && r.status == 200 && r.body.Some?
    ensures result.1.Some? <==> result.0
    ensures result.0 ==> result.1 == r.body
  {
    match r
    case Answered(status, body) =>
      if status == 200 && body.Some? then (true, body)
      else (false, None)
    case RequestFailed => (false, None)
  }

  /** The selection and score flags of the assignment list. */
  class ScoreGate<D> {
    var selected: Option<StudentAssignment>
    var hasScore: bool
    var scoreData: Option<D>
    var showQuestions: bool

    /** A score flag always comes with its data. */
    predicate Valid()
      reads this
    {
      hasScore <==> scoreData.Some?
    }

    constructor ()
      ensures Valid() && selected == None && !hasScore && !showQuestions
    {
      selected := None;
      hasScore := false;
      scoreData := None;
      showQuestions := false;
    }

    /** handleAssignmentClick: selects and forgets any earlier score. */
    method AssignmentClick(a: StudentAssignment)
      modifies this
      ensures Valid()
      ensures selected == Some(a) && !hasScore && scoreData == None
      ensures showQuestions == old(showQuestions)
    {
      selected := Some(a);
      hasScore := false;
      scoreData := None;
    }

    /** The end of checkForExistingScore; without a selection it returns
        before asking. */
    method ScoreChecked(r: ScoreResponse<D>)
      requires Valid()
      modifies this
      ensures Valid()
      ensures old(selected).Some? ==> (hasScore, scoreData) == ScoreStatus(r)
      ensures old(selected).None? ==> hasScore == old(hasScore) && scoreData == old(scoreData)
      ensures selected == old(selected) && showQuestions == old(showQuestions)
    {
      if selected.Some? {
        var status := ScoreStatus(r);
        hasScore, scoreData := status.0, status.1;
      }
    }

    /** handleStartAssignment: opens the questions only without a score. */
    method StartAssignment()
      modifies this
      ensures showQuestions <==> old(showQuestions) || !old(hasScore)
      ensures selected == old(selected) && hasScore == old(hasScore) && scoreData == old(scoreData)
    {
      if !hasScore {
        showQuestions := true;
      }
    }

    method BackFromQuestions()
      modifies this
      ensures !showQuestions
      ensures selected == old(selected) && hasScore == old(hasScore) && scoreData == old(scoreData)
    {
      showQuestions := false;
    }

    method BackToAssignments()
      modifies this
      ensures selected == None
      ensures hasScore == old(hasScore) && scoreData == old(scoreData) && showQuestions == old(showQuestions)
    {
      selected := None;
    }
  }

  /** Once a score is found for the selected assignment, starting it does
      nothing; after a 404 it opens. */
  method ScoredAssignmentStaysClosed<D>(a: StudentAssignment, data: D) returns (startedScored: bool, startedUnscored: bool)
    ensures !startedScored && startedUnscored
  {
    var gate := new ScoreGate<D>();
    gate.AssignmentClick(a);
    gate.ScoreChecked(Answered(200, Some(data)));
    gate.StartAssignment();
    startedScored := gate.showQuestions;
    gate.AssignmentClick(a);
    gate.ScoreChecked(Answered(404, None));
    gate.StartAssignment();
    startedUnscored := gate.showQuestions;
  }
}
