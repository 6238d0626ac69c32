// The self-assessment session: the component's one state record, the
// handlers that replace parts of it, the one-second interval, the effect
// that watches [timerActive, timeLeft], and handleSubmit's local part.
//
// React runs an effect after a render whenever one of its dependencies
// changed since its previous run, and a state update made by the effect
// causes another render. Commit models that cycle for the timer effect: it
// re-runs the effect while [timerActive, timeLeft] differ from the values of
// its previous run.

module Assessment {
  import opened Outcomes
  import Sorting
  import opened Apportionment
  import opened Pool
  import opened Scoring
  import opened AssessmentView

  const TimeLimit: int := 300

  /** `assignmentState`. */
  datatype State = State(
    isActive: bool,
    questions: seq<Item>,
    currentPage: int,
    answers: Answers,
    showScore: bool,
    selectedLevel: Option<int>,
    score: nat,
    scoreByLevel: Option<ScoreTable>,
    timeLeft: int,
    timerActive: bool,
    startTime: Option<int>,
    endTime: Option<int>,
    showSolutions: bool,
    fullScreen: bool)

  const Initial: State :=
    State(false, [], 0, map[], false, None, 0, None, TimeLimit, false, None, None, false, true)

  /** The timer effect's dependencies. */
  function Deps(s: State): (bool, int) { (s.timerActive, s.timeLeft) }

  /** What handleSubmit posts: the `add-progress` body (level, score, table,
      seconds taken) and the `studentProgress` breakdown. */
  datatype Submission = Submission(
    level: Option<int>,
    score: nat,
    table: ScoreTable,
    breakdown: Breakdown,
    timeTaken: int)

  /** `Math.floor((endTime - startTime) / 1000)` with times in milliseconds;
      a missing start time counts as zero. */
  function ElapsedSeconds(start: Option<int>, now: int): int {
    (now - (if start.Some? then start.value else 0)) / 1000
  }

  /** What handleSubmit posts from a state at time `now`. */
  function SubmissionOf(s: State, now: int): (r: Submission)
    ensures r.score == CorrectCount(s.questions, s.answers, |s.questions|) && r.score <= |s.questions|
    ensures TotalCount(r.table) == |s.questions|
    ensures r.level == s.selectedLevel && r.breakdown == ToBreakdown(r.table)
  {
    TableFacts(s.questions, s.answers);
    var table := Tabulate(s.questions, s.answers);
    Submission(s.selectedLevel, TotalScore(table), table, ToBreakdown(table), ElapsedSeconds(s.startTime, now))
  }

  /** The update handleSubmit makes to the state. */
  function Submitted(s: State, now: int): State {
    var posted := SubmissionOf(s, now);
    s.(showScore := true, timerActive := false, score := posted.score,
       scoreByLevel := Some(posted.table), endTime := Some(now), fullScreen := false)
  }

  /** Submitting again at the same time changes nothing more in the state:
      a repeated handleSubmit shows only in the requests it posts. */
  lemma SubmittedTwice(s: State, now: int)
    ensures Submitted(Submitted(s, now), now) == Submitted(s, now)
    ensures SubmissionOf(Submitted(s, now), now) == SubmissionOf(s, now)
    ensures Submitted(s, now).score == CorrectCount(s.questions, s.answers, |s.questions|)
  {
  }

  /** The local computation of handleSubmit: calculateScore, the total and
      the two request bodies. */
  method ScoreAnswers(s: State, now: int) returns (posted: Submission)
    ensures posted == SubmissionOf(s, now)
  {
    var table := CalculateScore(s.questions, s.answers);
    var total := TotalScore(table);
    posted := Submission(s.selectedLevel, total, table, ToBreakdown(table), ElapsedSeconds(s.startTime, now));
  }

  /** n copies of one submission. */
  function Copies(p: Submission, n: nat): (r: seq<Submission>)
    ensures |r| == n && forall i :: 0 <= i < n ==> r[i] == p
  {
    if n == 0 then [] else Copies(p, n - 1) + [p]
  }

  /** distributeQuestions never fails on a level of the table. */
  lemma LevelNeverFails(config: LevelConfig)
    requires config in LevelsConfig()
    ensures DistinctCategories(config.weights)
    ensures 0 <= Remaining(config.weights, QuestionsPerAssessment) < |config.weights|
  {
    LevelsConfigWellFormed();
    var i :| 0 <= i < 5 && LevelsConfig()[i] == config;
    RemainingInRange(config.weights, QuestionsPerAssessment);
  }

  /** The question list startAssignment stores for a level: at most 45
      questions, min(quota, pool size) from each category, and exactly
      min(5, number of MCQs) drag-and-drop questions, all of them MCQs. */
  lemma LevelAssembly(config: LevelConfig, quotas: seq<Quota>, order: seq<nat>, banks: Banks, random: Random)
    requires config in LevelsConfig() && QuotasFromWeights(config.weights, quotas, order)
    requires Sorting.SumOf(quotas, CountOf) == QuestionsPerAssessment
    ensures |Assembled(quotas, banks, random)| <= QuestionsPerAssessment
    ensures forall k :: 0 <= k < |quotas| ==>
      Sorting.SumOf(Assembled(quotas, banks, random), InCategory(quotas[k].category)) ==
      Min(quotas[k].count, |Flatten(quotas[k].category, BankFor(banks, quotas[k].category))|)
    ensures Sorting.SumOf(Assembled(quotas, banks, random), IsDragDrop) ==
      Min(DragDropLimit, Sorting.SumOf(Assembled(quotas, banks, random), IsMcq))
  {
    LevelQuotasWellFormed(config, quotas, order);
    AssembledSize(quotas, banks, random);
    forall k | 0 <= k < |quotas|
      ensures Sorting.SumOf(Assembled(quotas, banks, random), InCategory(quotas[k].category)) ==
        Min(quotas[k].count, |Flatten(quotas[k].category, BankFor(banks, quotas[k].category))|)
    {
      AssembledCategoryCount(quotas, banks, random, k);
    }
    AssembledDragDrop(quotas, banks, random);
  }

  class Session {
    var state: State
    /** Every submission posted so far, oldest first. */
    var submissions: seq<Submission>
    /** The dependencies of the timer effect's last run. */
    var lastDeps: (bool, int)
    /** Whether the interval set by the timer effect's last run is still set. */
    var intervalArmed: bool

    /** What holds after every render: the effect has run for the current
        dependencies, the interval is set exactly while the timer runs with
        time left, the clock stays within 0 .. 300, and neither the score
        screen nor an empty clock goes with a running timer. */
    predicate Valid()
      reads this
    {
      lastDeps == Deps(state)
      && intervalArmed == (state.timerActive && state.timeLeft > 0)
      && 0 <= state.timeLeft <= TimeLimit
      && (state.showScore ==> !state.timerActive)
      && !(state.timerActive && state.timeLeft == 0)
    }

    /** What holds between a state update and its render. */
    predicate Updated()
      reads this
    {
      0 <= state.timeLeft <= TimeLimit
      && (state.showScore ==> !state.timerActive)
      && (lastDeps == Deps(state) ==>
            intervalArmed == (state.timerActive && state.timeLeft > 0)
            && !(state.timerActive && state.timeLeft == 0))
    }

    /** The component as first rendered. */
    constructor()
      ensures Valid() && state == Initial && submissions == []
    {
      state := Initial;
      submissions := [];
      lastDeps := Deps(Initial);
      intervalArmed := false;
    }

    /** handleSubmit: scores the answers, posts the result and shows the score. */
    method HandleSubmit(now: int)
      modifies this
      ensures state == Submitted(old(state), now)
      ensures submissions == old(submissions) + [SubmissionOf(old(state), now)]
      ensures lastDeps == old(lastDeps) && intervalArmed == old(intervalArmed)
    {
      var posted := ScoreAnswers(state, now);
      submissions := submissions + [posted];
      state := state.(showScore := true, timerActive := false, score := posted.score,
                      scoreByLevel := Some(posted.table), endTime := Some(now), fullScreen := false);
    }

    /** How many submissions the pending effect runs will post: none when the
        effect is up to date or time is left. Otherwise, as written, one per
        run: once with the timer on and once more after handleSubmit switched
        it off. The latched effect posts only while no score is shown. */
    function Owed(latched: bool): nat
      reads this
    {
      if lastDeps == Deps(state) || state.timeLeft != 0 then 0
      else if latched then (if state.showScore then 0 else 1)
      else if state.timerActive then 2 else 1
    }

    function EffectMeasure(): nat
      reads this
    {
      (if state.timerActive then 2 else 0) + (if lastDeps == Deps(state) then 0 else 1)
    }

    /** The renders after a state update: while its dependencies changed, the
        timer effect clears the previous interval, then sets a new one while
        the timer runs with time left, or submits when the time is up. With
        `latched` it submits only while no score is shown. */
    method Commit(now: int, latched: bool)
      requires Updated()
      modifies this
      ensures Valid()
      ensures state == if old(Owed(latched)) > 0 then Submitted(old(state), now) else old(state)
      ensures submissions == old(submissions) + Copies(SubmissionOf(old(state), now), old(Owed(latched)))
    {
      ghost var owed := Owed(latched);
      ghost var made: nat := 0;
      ghost var start := state;
      while lastDeps != Deps(state)
        invariant Updated()
        invariant made + Owed(latched) == owed
        invariant state == if made > 0 then Submitted(start, now) else start
        invariant submissions == old(submissions) + Copies(SubmissionOf(start, now), made)
        decreases EffectMeasure()
      {
        intervalArmed := false;
        lastDeps := Deps(state);
        if state.timerActive && state.timeLeft > 0 {
          intervalArmed := true;
        } else if state.timeLeft == 0 && (!latched || !state.showScore) {
          HandleSubmit(now);
          made := made + 1;
        }
      }
    }

    /** startAssignment: builds the level's question list and starts a fresh
        five-minute attempt; the effect then sets the interval. */
    method Start(config: LevelConfig, banks: Banks, random: Random, now: int)
      returns (ghost quotas: seq<Quota>, ghost order: seq<nat>)
      requires Valid() && config in LevelsConfig()
      modifies this
      ensures Valid() && intervalArmed
      ensures QuotasFromWeights(config.weights, quotas, order)
      ensures Sorting.SumOf(quotas, CountOf) == QuestionsPerAssessment
      ensures state == State(true, Assembled(quotas, banks, random), 0, map[], false, Some(config.level),
                             0, None, TimeLimit, true, Some(now), None, false, true)
      ensures submissions == old(submissions)
    {
      LevelNeverFails(config);
      var built, qs;
      built, qs, order := BuildQuestions(config, banks, random);
      quotas := qs;
      state := State(true, built.value, 0, map[], false, Some(config.level),
                     0, None, TimeLimit, true, Some(now), None, false, true);
      Commit(now, false);
    }

    /** handleAnswer: replaces the answer to one question. */
    method HandleAnswer(value: seq<string>, questionIndex: nat)
      requires Valid()
      modifies this
      ensures Valid()
      ensures state == old(state).(answers := old(state).answers[questionIndex := value])
      ensures submissions == old(submissions)
    {
      state := state.(answers := state.answers[questionIndex := value]);
    }

    /** handlePageNavigation. */
    method HandlePageNavigation(next: bool)
      requires Valid()
      modifies this
      ensures Valid()
      ensures state == old(state).(currentPage := Navigate(next, old(state).currentPage, |old(state).questions|))
      ensures submissions == old(submissions)
    {
      state := state.(currentPage := Navigate(next, state.currentPage, |state.questions|));
    }

    /** A click on question `index` in the sidebar opens its page. */
    method JumpToQuestion(index: nat)
      requires Valid()
      modifies this
      ensures Valid()
      ensures state == old(state).(currentPage := PageOf(index))
      ensures submissions == old(submissions)
    {
      state := state.(currentPage := PageOf(index));
    }

    /** The "View Solutions" / "Hide Solutions" toggle. */
    method ToggleSolutions()
      requires Valid()
      modifies this
      ensures Valid()
      ensures state == old(state).(showSolutions := !old(state).showSolutions)
      ensures submissions == old(submissions)
    {
      state := state.(showSolutions := !state.showSolutions);
    }

    /** One firing of the interval, as written: a second off the clock and a
        render. The second that empties the clock posts the result twice. */
    method Tick(now: int)
      requires Valid()
      modifies this
      ensures Valid()
      ensures !old(intervalArmed) ==> state == old(state) && submissions == old(submissions)
      ensures old(intervalArmed) && old(state).timeLeft > 1 ==>
        state == old(state).(timeLeft := old(state).timeLeft - 1) && submissions == old(submissions)
      ensures old(intervalArmed) && old(state).timeLeft == 1 ==>
        state == Submitted(old(state).(timeLeft := 0), now)
        && submissions == old(submissions) + [SubmissionOf(old(state), now), SubmissionOf(old(state), now)]
    {
      if intervalArmed {
        state := state.(timeLeft := state.timeLeft - 1);
        Commit(now, false);
      }
    }

    /** One firing of the interval with the effect latched on the score
        screen: the second that empties the clock posts the result once. */
    method TickLatched(now: int)
      requires Valid()
      modifies this
      ensures Valid()
      ensures !old(intervalArmed) ==> state == old(state) && submissions == old(submissions)
      ensures old(intervalArmed) && old(state).timeLeft > 1 ==>
        state == old(state).(timeLeft := old(state).timeLeft - 1) && submissions == old(submissions)
      ensures old(intervalArmed) && old(state).timeLeft == 1 ==>
        state == Submitted(old(state).(timeLeft := 0), now)
        && submissions == old(submissions) + [SubmissionOf(old(state), now)]
    {
      if intervalArmed {
        state := state.(timeLeft := state.timeLeft - 1);
        Commit(now, true);
      }
    }

    /** The "Submit Now" button (and "next" on the last page): one submission,
        and the effect then clears the interval. */
    method SubmitNow(now: int)
      requires Valid()
      modifies this
      ensures Valid() && !intervalArmed
      ensures state == Submitted(old(state), now)
      ensures submissions == old(submissions) + [SubmissionOf(old(state), now)]
    {
      HandleSubmit(now);
      Commit(now, false);
    }

    /** handleBack: leaving a running attempt needs the confirmation and
        submits it; refusing stays put. Otherwise the attempt closes and the
        caller's onBack runs, reported as `left`. */
    method HandleBack(confirmed: bool, now: int) returns (left: bool)
      requires Valid()
      modifies this
      ensures Valid()
      ensures left <==> !(old(state).isActive && !old(state).showScore) || confirmed
      ensures !left ==> state == old(state) && submissions == old(submissions)
      ensures left && old(state).isActive && !old(state).showScore ==>
        state == Submitted(old(state), now).(isActive := false, timerActive := false, fullScreen := false)
        && submissions == old(submissions) + [SubmissionOf(old(state), now)]
      ensures left && !(old(state).isActive && !old(state).showScore) ==>
        state == old(state).(isActive := false, timerActive := false, fullScreen := false)
        && submissions == old(submissions)
    {
      if state.isActive && !state.showScore {
        if confirmed {
          HandleSubmit(now);
        } else {
          return false;
        }
      }
      state := state.(isActive := false, timerActive := false, fullScreen := false);
      Commit(now, false);
      left := true;
    }

    /** handleChooseDifferentLevel: back to the level list, timer off. */
    method ChooseDifferentLevel(now: int)
      requires Valid()
      modifies this
      ensures Valid()
      ensures state == old(state).(isActive := false, showScore := false, timerActive := false, fullScreen := false)
      ensures submissions == old(submissions)
    {
      state := state.(isActive := false, showScore := false, timerActive := false, fullScreen := false);
      Commit(now, false);
    }
  }

  /** An attempt whose interval is set, left to run out with one firing per
      second: the number of posts once the clock is empty, as written
      (`latched` false) and with the latched effect. */
  method RunOut(session: Session, latched: bool) returns (posts: nat)
    requires session.Valid() && session.intervalArmed && session.submissions == []
    modifies session
    ensures posts == if latched then 1 else 2
  {
    var now := 0;
    while session.state.timeLeft > 1
      invariant session.Valid() && session.intervalArmed && session.submissions == []
      decreases session.state.timeLeft
    {
      now := now + 1000;
      if latched {
        session.TickLatched(now);
      } else {
        session.Tick(now);
      }
    }
    now := now + 1000;
    if latched {
      session.TickLatched(now);
    } else {
      session.Tick(now);
    }
    posts := |session.submissions|;
  }

  /** A level-1 attempt left to run out: two posts as written, one with the
      latched effect. */
  method TimedOutAttempt(latched: bool) returns (posts: nat)
    ensures posts == if latched then 1 else 2
  {
    var session := new Session();
    var level := LevelsConfig()[0];
    ghost var quotas, order := session.Start(level, Banks([], [], [], [], []), (call: nat, i: nat) => 0, 0);
    posts := RunOut(session, latched);
  }
}
