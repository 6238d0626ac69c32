# Greenwoods_FD front-end logic, modelled in Dafny

Greenwoods_FD is a school learning platform. It has three audiences, each
with its own React pages: students, who take self-assessments and teacher
assignments; admins (teachers), who write questions, upload question banks
from spreadsheets, register students and follow class progress; and super
admins, who do the same across classes. This project models the logic
inside those pages, not the screens.

What the model covers:

- **The self-assessment engine.** This is the largest part.
  - The largest-remainder apportionment that splits a question count
    across cognitive levels (`Apportionment`).
  - How the question pool is assembled and shuffled (`Pool`, `Sorting`).
  - How answers are scored (`Scoring`).
  - The timed session as a state machine (`Assessment`), including the
    countdown effect and the submission it triggers.
  - What the review and result screens derive from a finished attempt
    (`AssessmentView`).
- **The question editors.**
  - The admin and super-admin add-question forms and their validation
    (`QuestionForms`, `AdminAddQuestion`, `SuperAddQuestion`).
  - The ongoing-assignment editor (`OngoingAddQuestion`).
- **The spreadsheet uploads.** Rows of a sheet become questions, options
  and comprehension passages (`Uploads`). Student rows become
  registrations (`AddStudent`).
- **The teacher assignment flow.**
  - The assignment time window and the form that creates an assignment
    (`Assignments`).
  - The student side: the check for an existing score, then one attempt
    (`ImmediateQuest`, `AssignmentQuestions`).
- **Progress views.**
  - Per-level latest scores and per-chapter history (`LevelDetails`,
    `ChapterProgress`).
  - The class progress modals of admins and super admins
    (`AdminClassProgress`, `SuperClassProgress`, `SuperClassModal`).
  - The student directory grouped by class (`HomePage`).
  - The subject editor (`ClassSubjects`).
  - The chapter question list and its PDF page layout (`ChapterQuestions`).
- **Shared helpers.** Small functions for time, strings and collections
  (`Clock`, `Dates`, `Strings`, `Collections`, `Outcomes`).

How the model treats what it cannot see:

- Every request to the server becomes a parameter: the reply it got, or
  its failure.
- The logged-in user's id, read from local storage, is a parameter.
- `Math.random` is an oracle function.
- The clock is an explicit `now`.
- A React effect or timer firing becomes an explicit method call, in the
  order the browser would run them.

Where a page keeps state that its handlers change step by step, the model
is a class with those fields. Each handler is a method with a `modifies`
clause and a contract that gives the new state. Pure helpers are functions,
and lemmas connect them.

## Model

| member | source | states |
|---|---|---|
| Apportionment.Fraction | Greenwoods_FD/src/components/Students/Assignments/AssignmentsAvailable.js:20-21 | the fractional part of percent / 100 * total, kept exactly in hundredths, lies in [0, 100) |
| Apportionment.DistributeQuestions | Greenwoods_FD/src/components/Students/Assignments/AssignmentsAvailable.js:12-39 | distributeQuestions: fails with the TypeError exactly when `remaining` exceeds the number of keys; otherwise the result lists every key once, in sorted order (key i has rank i), with its apportioned count, and the counts add up to `total` (or to total - remaining when remaining is negative) |
| Apportionment.Bump | Greenwoods_FD/src/components/Students/Assignments/AssignmentsAvailable.js:29-31 | the bump loop adds one to each of the first `remaining` sorted entries, changes nothing else, and reads past the array exactly when remaining exceeds its length |
| Apportionment.SortedQuotas | Greenwoods_FD/src/components/Students/Assignments/AssignmentsAvailable.js:27-36 | after the sort and the bump, the entry at sorted position p is the key of rank p with count QuotaOf, and the counts add up to the total |
| Apportionment.KeyOrder | Greenwoods_FD/src/components/Students/Assignments/AssignmentsAvailable.js:27 | the integer sort key orders two distinct keys exactly as the stable descending sort on fractional parts does (larger fraction first, ties in key order) |
| Apportionment.RankIsPosition | Greenwoods_FD/src/components/Students/Assignments/AssignmentsAvailable.js:27 | in any rearrangement of the entries that is sorted by that key, position p holds the key whose rank is p |
| Apportionment.RemainingInRange | Greenwoods_FD/src/components/Students/Assignments/AssignmentsAvailable.js:24-25 | when the percentages add up to 100, `remaining` is between 0 and the number of keys minus one, so the bump loop never fails |
| Apportionment.FractionSum | Greenwoods_FD/src/components/Students/Assignments/AssignmentsAvailable.js:13-24 | summed over the keys, the whole parts (in hundreds) and fractional parts (in hundredths) make up sum(percent) * total |
| Apportionment.FloorSumIsCurrentTotal | Greenwoods_FD/src/components/Students/Assignments/AssignmentsAvailable.js:24-25 | `remaining` equals total minus the sum of the whole parts (`currentTotal`) |
| Apportionment.QuotaIsFloorOrNext | Greenwoods_FD/src/components/Students/Assignments/AssignmentsAvailable.js:18-31 | every key gets its whole part or exactly one more, and one more exactly when its rank is below `remaining` |
| Apportionment.LargestRemaindersFirst | Greenwoods_FD/src/components/Students/Assignments/AssignmentsAvailable.js:27-31 | a key that got the extra question has a strictly larger fractional part than a key that did not |
| Apportionment.LevelsConfigWellFormed | Greenwoods_FD/src/components/Students/Assignments/AssignmentsAvailable.js:86-114 | getLevelsConfig has five levels numbered 1 to 5, each naming every category once with positive percentages that add up to 100 |
| Apportionment.LevelQuotas | Greenwoods_FD/src/components/Students/Assignments/AssignmentsAvailable.js:86-114 | the 45 questions of each level split as 18/9/7/7/4, 14/13/7/7/4, 9/9/9/9/9, 7/7/11/11/9 and 5/5/13/11/11 (Remembering to Evaluating) (see also line 148) |
| Apportionment.TableQuotas1 | Greenwoods_FD/src/components/Students/Assignments/AssignmentsAvailable.js:88-92 | level 1 (40/20/15/15/10) at 45 questions gives 18/9/7/7/4 (see also line 148) |
| Apportionment.TableQuotas2 | Greenwoods_FD/src/components/Students/Assignments/AssignmentsAvailable.js:93-97 | level 2 (30/30/15/15/10) at 45 questions gives 14/13/7/7/4 (see also line 148) |
| Apportionment.TableQuotas3 | Greenwoods_FD/src/components/Students/Assignments/AssignmentsAvailable.js:98-102 | level 3 (20 each) at 45 questions gives 9 each (see also line 148) |
| Apportionment.TableQuotas4 | Greenwoods_FD/src/components/Students/Assignments/AssignmentsAvailable.js:103-107 | level 4 (15/15/25/25/20) at 45 questions gives 7/7/11/11/9 (see also line 148) |
| Apportionment.TableQuotas5 | Greenwoods_FD/src/components/Students/Assignments/AssignmentsAvailable.js:108-112 | level 5 (10/10/30/25/25) at 45 questions gives 5/5/13/11/11 (see also line 148) |
| Sorting.SortDesc | Greenwoods_FD/src/components/Students/Assignments/AssignmentsAvailable.js:27 | Array.prototype.sort with a descending numeric comparator, in place: the array ends as the stable reference sort of its old contents, so it is sorted by descending key and holds the same elements |
| Sorting.InsertDown | Greenwoods_FD/src/components/Students/Assignments/AssignmentsAvailable.js:27 | one insertion step moves the next element left past strictly smaller keys only, leaving the rest of the array alone |
| Sorting.InsertionSortedFacts | Greenwoods_FD/src/components/Students/Home/ProgressChapterDetails.jsx:68-70 | the reference sort is ordered by descending key, is a rearrangement of its input, and is stable: for every key, the elements with that key appear in their input order |
| Sorting.SortedRunsUnique | Greenwoods_FD/src/components/Students/Home/ProgressChapterDetails.jsx:68-70 | two lists ordered by descending key with the same run of elements for every key are equal, so a stable sort's result is unique |
| Sorting.SortedCopyDesc | Greenwoods_FD/src/components/Students/Home/ProgressChapterDetails.jsx:68-70 | sorting a copy: the result is the stable reference sort of the input, sorted by descending key and a rearrangement of it |
| Pool.FlattenSize | Greenwoods_FD/src/components/Students/Assignments/AssignmentsAvailable.js:162-181 | the pool holds one entry per plain question plus one per sub-question of each Comprehension set |
| Pool.FlattenKeepsSubQuestions | Greenwoods_FD/src/components/Students/Assignments/AssignmentsAvailable.js:164-174 | each sub-question of a Comprehension set appears as a comprehension entry carrying its set's paragraph, main question and solution |
| Pool.FlattenKeepsMcq | Greenwoods_FD/src/components/Students/Assignments/AssignmentsAvailable.js:175-181 | each non-Comprehension question appears as one MCQ entry that is not drag-and-drop |
| Pool.CognitivePool | Greenwoods_FD/src/components/Students/Assignments/AssignmentsAvailable.js:162-181 | the forEach loop that fills `cognitivePool` builds exactly the flattened pool |
| Pool.ShuffledPermutes | Greenwoods_FD/src/components/Students/Assignments/AssignmentsAvailable.js:138-145 | shuffleArray returns a rearrangement of its input (same multiset, same length) |
| Pool.ShuffleKeepsOrder | Greenwoods_FD/src/components/Students/Assignments/AssignmentsAvailable.js:140-143 | with draws that always pick the position being filled, the Fisher-Yates loop leaves the order unchanged |
| Pool.ShuffleKeepsTail | Greenwoods_FD/src/components/Students/Assignments/AssignmentsAvailable.js:140-143 | the Fisher-Yates step for position i never touches a position above i |
| Pool.ShuffleArray | Greenwoods_FD/src/components/Students/Assignments/AssignmentsAvailable.js:138-145 | the loop over a copy computes Shuffled, with `Math.random` given as a sequence of draws |
| Pool.SliceTo | Greenwoods_FD/src/components/Students/Assignments/AssignmentsAvailable.js:183 | `slice(0, count)` is the prefix of length min(count, length), counted from the end for a negative count (see also line 189) |
| Pool.SelectQuestions | Greenwoods_FD/src/components/Students/Assignments/AssignmentsAvailable.js:151-186 | the forEach over `questionCounts` leaves `allQuestions` equal to the concatenation, in key order, of each category's shuffled and cut pool |
| Pool.ChooseFor | Greenwoods_FD/src/components/Students/Assignments/AssignmentsAvailable.js:152-184 | one key of the forEach contributes its category's pool, shuffled and cut to the quota |
| Pool.ChosenSize | Greenwoods_FD/src/components/Students/Assignments/AssignmentsAvailable.js:183 | a quota contributes min(quota, pool size) entries |
| Pool.ChosenCategory | Greenwoods_FD/src/components/Students/Assignments/AssignmentsAvailable.js:151-184 | every entry a quota contributes belongs to the quota's category |
| Pool.SelectedCategoryCount | Greenwoods_FD/src/components/Students/Assignments/AssignmentsAvailable.js:151-186 | when the quotas name each category once, category k contributes exactly min(quota, pool size) entries to `allQuestions` |
| Pool.SelectedSize | Greenwoods_FD/src/components/Students/Assignments/AssignmentsAvailable.js:151-186 | `allQuestions` has no more entries than the quotas add up to |
| Pool.UntaggedSelection | Greenwoods_FD/src/components/Students/Assignments/AssignmentsAvailable.js:151-186 | nothing in `allQuestions` is drag-and-drop before the tagging |
| Pool.McqIndices | Greenwoods_FD/src/components/Students/Assignments/AssignmentsAvailable.js:189 | the positions of the MCQ entries in order, increasing and all MCQs (`filter(q => q.type === 'mcq')` by position) |
| Pool.McqIndicesCount | Greenwoods_FD/src/components/Students/Assignments/AssignmentsAvailable.js:189 | there are as many such positions as MCQ entries |
| Pool.DragDropPicks | Greenwoods_FD/src/components/Students/Assignments/AssignmentsAvailable.js:189 | the shuffled-and-cut MCQ positions: min(5, number of MCQs) distinct positions, each an MCQ |
| Pool.MarkAllAt | Greenwoods_FD/src/components/Students/Assignments/AssignmentsAvailable.js:190 | tagging sets `isDragDrop` exactly on the picked entries and changes nothing else |
| Pool.MarkAllCount | Greenwoods_FD/src/components/Students/Assignments/AssignmentsAvailable.js:190 | on an untagged list with distinct picks, exactly the picked entries end up tagged |
| Pool.MarkDragDrop | Greenwoods_FD/src/components/Students/Assignments/AssignmentsAvailable.js:189-190 | the tagging loop computes MarkAll over the picked positions |
| Pool.DragDropFacts | Greenwoods_FD/src/components/Students/Assignments/AssignmentsAvailable.js:189-190 | after tagging, exactly min(5, number of MCQs) entries are drag-and-drop, all MCQs, and the entries are otherwise as they were |
| Pool.BuildQuestions | Greenwoods_FD/src/components/Students/Assignments/AssignmentsAvailable.js:147-196 | startAssignment's computation: fails exactly when distributeQuestions does; otherwise the stored list is the tagged selection shuffled, and the quotas are distributeQuestions' result |
| Pool.QuotasDistinct | Greenwoods_FD/src/components/Students/Assignments/AssignmentsAvailable.js:148-151 | distinct weight keys give quotas naming each category once |
| Pool.LevelQuotasWellFormed | Greenwoods_FD/src/components/Students/Assignments/AssignmentsAvailable.js:86-114 | for a level of the table distributeQuestions cannot fail, and its quotas name each category once, are non-negative and add up to 45 (see also line 148) |
| Pool.AssembledSize | Greenwoods_FD/src/components/Students/Assignments/AssignmentsAvailable.js:147-196 | the stored list has at most as many entries as the quotas add up to (at most 45 for a level of the table) |
| Pool.AssembledCategoryCount | Greenwoods_FD/src/components/Students/Assignments/AssignmentsAvailable.js:147-196 | in the stored list category k has exactly min(quota, pool size) entries |
| Pool.AssembledDragDrop | Greenwoods_FD/src/components/Students/Assignments/AssignmentsAvailable.js:189-196 | exactly min(5, number of MCQs) entries of the stored list are drag-and-drop, and all of them are MCQs |
| Pool.TaggedShuffleCount | Greenwoods_FD/src/components/Students/Assignments/AssignmentsAvailable.js:189-196 | tagging and shuffling keeps every count that ignores the drag-and-drop flag |
| Pool.TaggedAreMcq | Greenwoods_FD/src/components/Students/Assignments/AssignmentsAvailable.js:189-196 | a rearrangement keeps "every drag-and-drop entry is an MCQ" |
| Scoring.WithTally | Greenwoods_FD/src/components/Students/Assignments/AssignmentsAvailable.js:232-247 | incrementing one category's entry of `scoreByLevel` sets that entry and leaves every other category as it was |
| Scoring.CalculateScore | Greenwoods_FD/src/components/Students/Assignments/AssignmentsAvailable.js:218-253 | the forEach over the questions builds the table of Tabulate: per category, the number of its questions and of those judged correct |
| Scoring.ToBreakdown | Greenwoods_FD/src/components/Students/Assignments/AssignmentsAvailable.js:303-331 | `cognitiveBreakdown.progress`: analyse/apply/evaluate/remember/understand carry the Analyzing/Applying/Evaluating/Remembering/Understanding totals as `questionCount` and correct counts as `correctCount` |
| Scoring.TotalsCoverAll | Greenwoods_FD/src/components/Students/Assignments/AssignmentsAvailable.js:227-232 | every question adds one to exactly one category's total, so the totals add up to the number of questions |
| Scoring.CorrectAtMostTotal | Greenwoods_FD/src/components/Students/Assignments/AssignmentsAvailable.js:232-249 | no category has more correct answers than questions |
| Scoring.CorrectCoverAll | Greenwoods_FD/src/components/Students/Assignments/AssignmentsAvailable.js:232-249 | the per-category correct counts add up to the number of questions judged correct (see also line 271) |
| Scoring.TableFacts | Greenwoods_FD/src/components/Students/Assignments/AssignmentsAvailable.js:218-253 | over a whole list: totals add up to its length, correct never exceeds total, and the submitted score is the number of questions judged correct (at most the length) (see also line 271) |
| Scoring.MultiAnswerIsSetEquality | Greenwoods_FD/src/components/Students/Assignments/AssignmentsAvailable.js:242-248 | for repeat-free answer and key lists, a multi-answer question is correct exactly when both name the same set of keys |
| Scoring.MultiAnswerOrderFree | Greenwoods_FD/src/components/Students/Assignments/AssignmentsAvailable.js:242-248 | the order of the chosen keys does not change a multi-answer judgement |
| Scoring.EmptyKeyUnansweredIsCorrect | Greenwoods_FD/src/components/Students/Assignments/AssignmentsAvailable.js:228-248 | a question with no correct keys counts as correct when left unanswered |
| Scoring.UnansweredIsWrong | Greenwoods_FD/src/components/Students/Assignments/AssignmentsAvailable.js:228-248 | a question with at least one correct key counts as wrong when left unanswered |
| Assessment.SubmissionOf | Greenwoods_FD/src/components/Students/Assignments/AssignmentsAvailable.js:267-331 | what handleSubmit posts: the score is the number of questions judged correct (at most the number of questions), the totals cover every question, the level is the selected one and the breakdown is the table under the server's keys |
| Assessment.ScoreAnswers | Greenwoods_FD/src/components/Students/Assignments/AssignmentsAvailable.js:267-331 | the local computation of handleSubmit posts SubmissionOf of the current state |
| Assessment.SubmittedTwice | Greenwoods_FD/src/components/Students/Assignments/AssignmentsAvailable.js:353-361 | applying handleSubmit's state update twice is applying it once, and the second post equals the first, so a repeated submit shows only in the requests |
| Assessment.LevelNeverFails | Greenwoods_FD/src/components/Students/Assignments/AssignmentsAvailable.js:86-114 | for every level of the table distributeQuestions has distinct keys and cannot fail (see also line 148) |
| Assessment.LevelAssembly | Greenwoods_FD/src/components/Students/Assignments/AssignmentsAvailable.js:147-208 | for a level of the table, the stored list has at most 45 questions, exactly min(quota, pool size) from each category, and exactly min(5, number of MCQs) drag-and-drop questions, all MCQs |
| Assessment.Session.constructor | Greenwoods_FD/src/components/Students/Assignments/AssignmentsAvailable.js:64-79 | the first render: the initial state with no submission posted |
| Assessment.Session.HandleSubmit | Greenwoods_FD/src/components/Students/Assignments/AssignmentsAvailable.js:267-361 | handleSubmit appends one submission of the old state and sets score, `showScore` and the end time and clears `timerActive` |
| Assessment.Session.Commit | Greenwoods_FD/src/components/Students/Assignments/AssignmentsAvailable.js:116-129 | the timer effect after a state change: sets the interval while the timer runs with time left; when the time is up it submits once per pending run, which as written is twice (once with the timer on and once after handleSubmit switched it off), and once with the latch |
| Assessment.Session.Start | Greenwoods_FD/src/components/Students/Assignments/AssignmentsAvailable.js:147-208 | startAssignment stores the assembled list for the level's quotas (which add up to 45), empty answers, page 0, 300 seconds, timer on, no score and no solutions, then arms the interval |
| Assessment.Session.HandleAnswer | Greenwoods_FD/src/components/Students/Assignments/AssignmentsAvailable.js:211-216 | handleAnswer replaces only `answers[questionIndex]` and keeps everything else |
| Assessment.Session.HandlePageNavigation | Greenwoods_FD/src/components/Students/Assignments/AssignmentsAvailable.js:255-265 | handlePageNavigation sets the page to Navigate of the old page and changes nothing else |
| Assessment.Session.JumpToQuestion | Greenwoods_FD/src/components/Students/Assignments/AssignmentsAvailable.js:543-546 | a click on question i in the sidebar opens page floor(i / 5) |
| Assessment.Session.ToggleSolutions | Greenwoods_FD/src/components/Students/Assignments/AssignmentsAvailable.js:787 | "View Solutions" flips `showSolutions` and nothing else |
| Assessment.Session.Tick | Greenwoods_FD/src/components/Students/Assignments/AssignmentsAvailable.js:116-129 | one interval firing as written: takes one second off the clock; when that empties the clock the result is posted twice |
| Assessment.Session.TickLatched | Greenwoods_FD/src/components/Students/Assignments/AssignmentsAvailable.js:116-129 | the same firing with the effect latched on the score screen: the result is posted once |
| Assessment.Session.SubmitNow | Greenwoods_FD/src/components/Students/Assignments/AssignmentsAvailable.js:667 | "Submit Now" (and "next" on the last page) posts one submission, shows the score and leaves the interval cleared (see also lines 705-710) |
| Assessment.Session.HandleBack | Greenwoods_FD/src/components/Students/Assignments/AssignmentsAvailable.js:384-399 | handleBack: an attempt in progress is left only after confirmation and is then submitted; a refusal changes nothing; leaving closes the attempt and stops the timer |
| Assessment.Session.ChooseDifferentLevel | Greenwoods_FD/src/components/Students/Assignments/AssignmentsAvailable.js:401-409 | back to the level list: not active, no score, timer off, not full screen |
| Assessment.RunOut | Greenwoods_FD/src/components/Students/Assignments/AssignmentsAvailable.js:116-129 | an attempt left to run out posts its result twice as written and once with the latched effect (see also lines 353-361) |
| Assessment.TimedOutAttempt | Greenwoods_FD/src/components/Students/Assignments/AssignmentsAvailable.js:116-129 | a level-1 attempt that times out posts two results as written and one when latched (see also lines 147-208) |
| AssessmentView.CleanQuestionText | Greenwoods_FD/src/components/Students/Assignments/AssignmentsAvailable.js:41-50 | cleanQuestionText: the result contains none of `}` `\` `$` `(` `)` (and is `''` for a missing or empty text) |
| AssessmentView.CleanKeepsClean | Greenwoods_FD/src/components/Students/Assignments/AssignmentsAvailable.js:41-50 | a text free of the five removed characters comes back unchanged |
| AssessmentView.CleanIdempotent | Greenwoods_FD/src/components/Students/Assignments/AssignmentsAvailable.js:41-50 | cleaning twice is cleaning once |
| AssessmentView.FormatTimeReadsBack | Greenwoods_FD/src/components/Students/Assignments/AssignmentsAvailable.js:364-368 | formatTime(s) is digits, a colon and two digits, and 60 * minutes + seconds reads back as s, with the seconds below 60 |
| AssessmentView.Radix | Greenwoods_FD/src/components/Students/Assignments/AssignmentsAvailable.js:372-374 | seconds split into whole hours, minutes below 60 and seconds below 60 that add back up |
| AssessmentView.PartsOfCanonical | Greenwoods_FD/src/components/Students/Assignments/AssignmentsAvailable.js:376-378 | the printed parts go from hours to seconds, each unit at most once, with no zero part unless it is the only one |
| AssessmentView.PartsOfSum | Greenwoods_FD/src/components/Students/Assignments/AssignmentsAvailable.js:376-378 | the printed parts add up to 3600 h + 60 m + s |
| AssessmentView.DurationPartsSum | Greenwoods_FD/src/components/Students/Assignments/AssignmentsAvailable.js:370-382 | the parts formatTimeTaken prints add up to the duration and are well formed |
| AssessmentView.DurationPartsUnique | Greenwoods_FD/src/components/Students/Assignments/AssignmentsAvailable.js:370-382 | any well-formed list of parts adding up to the duration is the one formatTimeTaken prints |
| AssessmentView.FormatTimeTakenZero | Greenwoods_FD/src/components/Students/Assignments/AssignmentsAvailable.js:371 | the "0 seconds" shortcut prints what the general rule prints for zero |
| AssessmentView.FormatTimeTakenMinute | Greenwoods_FD/src/components/Students/Assignments/AssignmentsAvailable.js:370-382 | 61 seconds print as "1 minute 1 second" |
| AssessmentView.FormatTimeTakenHours | Greenwoods_FD/src/components/Students/Assignments/AssignmentsAvailable.js:370-382 | 7200 seconds print as "2 hours" |
| AssessmentView.Slice | Greenwoods_FD/src/components/Students/Assignments/AssignmentsAvailable.js:561 | Array.prototype.slice never returns more than the array |
| AssessmentView.QuestionOnItsPage | Greenwoods_FD/src/components/Students/Assignments/AssignmentsAvailable.js:536 | question i is on page floor(i / 5), that page exists, and it shows the question at position i mod 5 (see also lines 544, 557-562) |
| AssessmentView.PageSizes | Greenwoods_FD/src/components/Students/Assignments/AssignmentsAvailable.js:256 | every existing page shows one to five questions; pages past the end show none (see also lines 557-561) |
| AssessmentView.PagesCover | Greenwoods_FD/src/components/Students/Assignments/AssignmentsAvailable.js:557-561 | pages 0 .. k-1 read one after another are the first min(5k, n) questions |
| AssessmentView.AllPagesAreTheList | Greenwoods_FD/src/components/Students/Assignments/AssignmentsAvailable.js:256 | all ceil(n / 5) pages together show every question once, in order (see also lines 557-561) |
| AssessmentView.NavigateStaysOnPages | Greenwoods_FD/src/components/Students/Assignments/AssignmentsAvailable.js:255-259 | on a non-empty list navigation from a valid page lands on a valid page, moving by one unless it is at the end it moves towards |
| AssessmentView.NavigateOnEmptyList | Greenwoods_FD/src/components/Students/Assignments/AssignmentsAvailable.js:255-259 | with no questions, "next" moves to page -1, which shows nothing |
| AssessmentView.StatusAfterAnswer | Greenwoods_FD/src/components/Students/Assignments/AssignmentsAvailable.js:211-216 | after an answer to question i its status is attempted exactly when a key was chosen, and every other status is unchanged (see also lines 525-528) |
| AssessmentView.ReviewMarkDisagreesWithScorer | Greenwoods_FD/src/components/Students/Assignments/AssignmentsAvailable.js:610-611 | the review screen marks wrong a multi-answer question the scorer counts (right keys, other order), and an unanswered question with an empty key list (see also lines 242-248) |
| AssessmentView.CorrectedReviewMatchesScore | Greenwoods_FD/src/components/Students/Assignments/AssignmentsAvailable.js:610-611 | the corrected mark holds exactly when the question adds one to its category's correct count (see also lines 232-249) |
| AssessmentView.CorrectedReviewOrderFree | Greenwoods_FD/src/components/Students/Assignments/AssignmentsAvailable.js:610-611 | the corrected mark does not depend on the order of the chosen keys (see also lines 242-248) |
| Outcomes.FirstSomeSpec | Greenwoods_FD/src/components/Admins/AddQuestion.jsx/AddQuestionAndOptions.jsx:313-351 | a validation loop that returns on the first rejected element passes exactly when every element passes, and otherwise reports the problem of an element all of whose predecessors pass |
| Strings.TrimStartSpec | Greenwoods_FD/src/components/Admins/AddSubjectandclass/AddSubjectAndClass.jsx:21 | trimStart drops exactly the leading whitespace |
| Strings.TrimEndSpec | Greenwoods_FD/src/components/Admins/AddSubjectandclass/AddSubjectAndClass.jsx:21 | trimEnd drops exactly the trailing whitespace |
| Strings.TrimSpec | Greenwoods_FD/src/components/Admins/AddSubjectandclass/AddSubjectAndClass.jsx:21 | trim keeps a contiguous part of the input with no whitespace at either end and only whitespace around it, and is empty exactly when the input is all whitespace (see also line 25) |
| Strings.TrimEmpty | Greenwoods_FD/src/components/Admins/AddSubjectandclass/AddSubjectAndClass.jsx:21-22 | a trimmed string is empty (so `filter(Boolean)` drops it) exactly when the input is all whitespace |
| Strings.TrimKeepsAbsent | Greenwoods_FD/src/components/Admins/AddSubjectandclass/AddSubjectAndClass.jsx:21 | trimming never introduces a character |
| Strings.TrimIdempotent | Greenwoods_FD/src/components/Admins/AddSubjectandclass/AddSubjectAndClass.jsx:21 | trimming twice is trimming once |
| Strings.Split | Greenwoods_FD/src/components/Admins/AddSubjectandclass/AddSubjectAndClass.jsx:20 | split on one character gives at least one piece and no piece contains the separator |
| Strings.JoinSplit | Greenwoods_FD/src/components/Admins/AddSubjectandclass/AddSubjectAndClass.jsx:20 | splitting and joining back with the same separator restores the text |
| Strings.SplitJoin | Greenwoods_FD/src/components/Admins/AddSubjectandclass/AddSubjectAndClass.jsx:20 | joining separator-free pieces and splitting again gives back the pieces |
| Strings.SplitConcat | Greenwoods_FD/src/components/Admins/AddSubjectandclass/AddSubjectAndClass.jsx:20 | splitting at a separator occurrence splits the two sides independently |
| Strings.NonEmpty | Greenwoods_FD/src/components/Admins/AddSubjectandclass/AddSubjectAndClass.jsx:22 | `filter(Boolean)` keeps exactly the non-empty strings of the list |
| Strings.NonEmptyConcat | Greenwoods_FD/src/components/Admins/AddSubjectandclass/AddSubjectAndClass.jsx:22 | the filter of a concatenation is the concatenation of the filters (order kept) |
| Strings.TrimAll | Greenwoods_FD/src/components/Admins/AddSubjectandclass/AddSubjectAndClass.jsx:21 | `map(s => s.trim())` trims each element and keeps the length |
| Strings.TrimAllConcat | Greenwoods_FD/src/components/Admins/AddSubjectandclass/AddSubjectAndClass.jsx:21 | trimming each element commutes with concatenation |
| Strings.SplitTrim | Greenwoods_FD/src/components/Admins/AddQuestion.jsx/McqUpload.jsx:163 | the comma-separated list convention: at least one piece and no piece contains a comma |
| Strings.RemoveChar | Greenwoods_FD/src/components/Students/Assignments/AssignmentsAvailable.js:46-50 | removing every occurrence of a character leaves none, inserts nothing, and leaves a text without it unchanged |
| Strings.ReplaceAll | Greenwoods_FD/src/components/Students/Assignments/AssignmentsAvailable.js:45 | a global literal replace leaves a text shorter than the pattern unchanged |
| Strings.ReplaceAbsent | Greenwoods_FD/src/components/Students/Assignments/AssignmentsAvailable.js:45 | a text without the pattern's first character is left unchanged |
| Strings.CollapseSpaces | Greenwoods_FD/src/components/SuperAdmin/DownloadQuestions/ChapterQuestions.jsx:79 | `replace(/\s{2,}/g, ' ')` never lengthens the text |
| Strings.CollapseNoDoubleSpace | Greenwoods_FD/src/components/SuperAdmin/DownloadQuestions/ChapterQuestions.jsx:79 | after collapsing no two whitespace characters are adjacent |
| Strings.CollapseOfSingleSpaced | Greenwoods_FD/src/components/SuperAdmin/DownloadQuestions/ChapterQuestions.jsx:79 | collapsing a text without adjacent whitespace changes nothing |
| Strings.CollapseKeepsAbsent | Greenwoods_FD/src/components/SuperAdmin/DownloadQuestions/ChapterQuestions.jsx:79 | collapsing inserts nothing but spaces |
| Strings.TrimKeepsSingleSpaced | Greenwoods_FD/src/components/SuperAdmin/DownloadQuestions/ChapterQuestions.jsx:79-80 | trimming a text without adjacent whitespace keeps it so |
| Strings.NatToString | Greenwoods_FD/src/components/Students/Assignments/AssignmentsAvailable.js:367 | a rendered integer is digits with no leading zero |
| Strings.DecimalRoundTrip | Greenwoods_FD/src/components/Students/Assignments/AssignmentsAvailable.js:367 | rendering a number and reading it back gives the number |
| Strings.NatToStringLength | Greenwoods_FD/src/components/Students/Assignments/AssignmentsAvailable.js:367 | a number renders as one digit exactly when it is below ten |
| Strings.PadStart2 | Greenwoods_FD/src/components/Students/Assignments/AssignmentsAvailable.js:367 | `padStart(2, '0')` adds zeros in front up to length two and keeps the text as its suffix |
| Strings.PadStart2Value | Greenwoods_FD/src/components/Students/Assignments/AssignmentsAvailable.js:367 | a zero-padded number below 100 is exactly two digits and reads back as itself |
| Strings.ToLower | Greenwoods_FD/src/components/Admins/AddQuestion.jsx/McqUpload.jsx:196 | toLowerCase keeps the length and leaves no upper-case letter |
| Strings.ToLowerIdempotent | Greenwoods_FD/src/components/Admins/AddQuestion.jsx/McqUpload.jsx:196 | lower-casing twice is lower-casing once |
| Collections.Filter | Greenwoods_FD/src/components/Admins/Assigments/Assignments.jsx:89 | a filter never lengthens the list |
| Collections.FilterMembers | Greenwoods_FD/src/components/Admins/Assigments/Assignments.jsx:89 | an element survives the filter exactly when it is in the list and kept |
| Collections.FilterConcat | Greenwoods_FD/src/components/Admins/Assigments/Assignments.jsx:89 | filtering keeps order: the filter of a concatenation is the concatenation of the filters |
| Collections.FilterMultiset | Greenwoods_FD/src/components/Admins/Assigments/Assignments.jsx:89 | a filter keeps every copy of a kept element and none of the others |
| Collections.Dedupe | Greenwoods_FD/src/components/Admins/Assigments/Assignments.jsx:89 | `[...new Set(xs)]` is never longer than its input |
| Collections.DedupeSpec | Greenwoods_FD/src/components/Admins/Assigments/Assignments.jsx:89 | the deduplicated list has the same elements and no repetition |
| Collections.DedupeAppend | Greenwoods_FD/src/components/Admins/Assigments/Assignments.jsx:89 | order of first appearance: a new element goes to the end and a repeated one changes nothing |
| Collections.DedupeDistinct | Greenwoods_FD/src/components/Admins/Assigments/Assignments.jsx:89 | a list without repetitions is its own deduplication |
| Clock.PadReadsBack | Greenwoods_FD/src/components/Students/Home/LatestLevelDetails.jsx:18-22 | a padded number is at least two digits, exactly two below 100, and reads back as the number |
| Clock.ClockSplits | Greenwoods_FD/src/components/Students/Home/LatestLevelDetails.jsx:18-22 | splitting the "HH:MM:SS" rendering at the colons gives back the three fields |
| Clock.ClockReadsBack | Greenwoods_FD/src/components/Students/Home/LatestLevelDetails.jsx:13-23 | the rendering is three colon-separated digit fields h, m, s with 3600 h + 60 m + s equal to the input, m and s two digits below 60, h at least two digits |
| Clock.ClockArithmetic | Greenwoods_FD/src/components/Students/Home/LatestLevelDetails.jsx:14-16 | minutes and seconds are below 60 and 3600 h + 60 m + s is the input |
| Clock.ClockZero | Greenwoods_FD/src/components/Students/Home/LatestLevelDetails.jsx:13-23 | zero seconds render as "00:00:00" |
| QuestionForms.WithChoice | Greenwoods_FD/src/components/Admins/AddQuestion.jsx/AddQuestionAndOptions.jsx:134-139 | writing one option key sets that key and leaves the other three as they were |
| QuestionForms.Texts | Greenwoods_FD/src/components/Admins/AddQuestion.jsx/AddQuestionAndOptions.jsx:319-320 | the four option texts in key order: every key's text is among them |
| QuestionForms.AnyBlankLetters | Greenwoods_FD/src/components/Admins/AddQuestion.jsx/AddQuestionAndOptions.jsx:319-323 | the loop over the option keys finds a blank text exactly when some key's text is blank after trimming |
| QuestionForms.FindBlank | Greenwoods_FD/src/components/Admins/AddQuestion.jsx/AddQuestionAndOptions.jsx:319-323 | the `for ... in` over an options object reports a blank text exactly when there is one |
| QuestionForms.Wrapped | Greenwoods_FD/src/components/Admins/AddQuestion.jsx/AddQuestionAndOptions.jsx:154-164 | `Array.isArray(value) ? value : [value]`: a list is stored unchanged and a single value is wrapped as a one-element list |
| QuestionForms.FindChapter | Greenwoods_FD/src/components/Admins/AddQuestion.jsx/AddQuestionAndOptions.jsx:115-118 | handleChapterChange finds the first chapter with that id, and `undefined` exactly when no chapter has it |
| QuestionForms.SplicedSpec | Greenwoods_FD/src/components/Admins/AddQuestion.jsx/AddQuestionAndOptions.jsx:285-295 | `splice(i, 1)` removes exactly the element at i and keeps the rest in order; an index past the end changes nothing |
| QuestionForms.SetLaws | Greenwoods_FD/src/components/Admins/AddQuestion.jsx/AddQuestionAndOptions.jsx:256-279 | writing a field reads back, a second write replaces the first, writing back what was read changes nothing, and the rest of the question keeps its shape |
| QuestionForms.SetKeepsSubs | Greenwoods_FD/src/components/Admins/AddQuestion.jsx/AddQuestionAndOptions.jsx:256-279 | a write keeps the number of sub-questions and every answer |
| QuestionForms.Appended | Greenwoods_FD/src/components/Admins/AddQuestion.jsx/AddQuestionAndOptions.jsx:256-279 | an insertion fails (throws) exactly when the question, option key or sub-question is missing; otherwise only the targeted question changes |
| QuestionForms.AppendedField | Greenwoods_FD/src/components/Admins/AddQuestion.jsx/AddQuestionAndOptions.jsx:256-279 | after an insertion the targeted field reads as its old text (or `undefined`) followed by the piece |
| QuestionForms.EndpointInjective | Greenwoods_FD/src/components/Admins/AddQuestion.jsx/AddQuestionAndOptions.jsx:430-452 | two different question types never share an endpoint URL |
| QuestionForms.SendInOrder | Greenwoods_FD/src/components/Admins/AddQuestion.jsx/AddQuestionAndOptions.jsx:378-388 | the `for ... of` with an awaited fetch each: all requests succeed, or it stops at the first response that is not ok after all earlier ones were ok |
| AdminAddQuestion.BlankOf | Greenwoods_FD/src/components/Admins/AddQuestion.jsx/AddQuestionAndOptions.jsx:179-214 | the blank question handleAddQuestion appends has the sub-type's shape and tag, empty text and admin id, and sub-questions exactly for Comprehension |
| AdminAddQuestion.SubsProblemSpec | Greenwoods_FD/src/components/Admins/AddQuestion.jsx/AddQuestionAndOptions.jsx:335-350 | the sub-question loop passes exactly when every sub-question has text, an answer and four filled options, and otherwise reports a failing one |
| AdminAddQuestion.QuestionProblemSpec | Greenwoods_FD/src/components/Admins/AddQuestion.jsx/AddQuestionAndOptions.jsx:312-351 | one question passes exactly when it is complete for its sub-type (text; for MCQ filled options and an answer; for Comprehension a paragraph and complete sub-questions) |
| AdminAddQuestion.QuestionsProblemSpec | Greenwoods_FD/src/components/Admins/AddQuestion.jsx/AddQuestionAndOptions.jsx:312-351 | the question loop passes exactly when every question is complete, and otherwise stops at a failing question all of whose predecessors pass |
| AdminAddQuestion.ShapedNeverThrows | Greenwoods_FD/src/components/Admins/AddQuestion.jsx/AddQuestionAndOptions.jsx:312-351 | questions of the sub-type's shape never make the validation throw |
| AdminAddQuestion.SubsNeverThrow | Greenwoods_FD/src/components/Admins/AddQuestion.jsx/AddQuestionAndOptions.jsx:335-350 | the sub-question loop never throws |
| AdminAddQuestion.CheckSubs | Greenwoods_FD/src/components/Admins/AddQuestion.jsx/AddQuestionAndOptions.jsx:335-350 | the sub-question loop computes SubsProblem |
| AdminAddQuestion.CheckQuestion | Greenwoods_FD/src/components/Admins/AddQuestion.jsx/AddQuestionAndOptions.jsx:313-350 | the loop body for one question computes QuestionProblem |
| AdminAddQuestion.Validate | Greenwoods_FD/src/components/Admins/AddQuestion.jsx/AddQuestionAndOptions.jsx:297-352 | handleSubmit's validation rejects a missing chapter, then a missing type, then a missing sub-type, then the first failing question |
| AdminAddQuestion.FinalData | Greenwoods_FD/src/components/Admins/AddQuestion.jsx/AddQuestionAndOptions.jsx:354-371 | `finalData` has one record per question, in order |
| AdminAddQuestion.FinalDataSpec | Greenwoods_FD/src/components/Admins/AddQuestion.jsx/AddQuestionAndOptions.jsx:354-371 | each record carries its question's content under the chosen chapter and sub-type, the paragraph and sub-questions only for Comprehension, and an empty admin id becomes `undefined` |
| AdminAddQuestion.ApiUrl | Greenwoods_FD/src/components/Admins/AddQuestion.jsx/AddQuestionAndOptions.jsx:430-452 | getApiUrl gives a non-empty URL exactly for the five known types |
| AdminAddQuestion.RemeberUrl | Greenwoods_FD/src/components/Admins/AddQuestion.jsx/AddQuestionAndOptions.jsx:430-452 | the picker's `remeber` posts to `/api/remember/questions`, and the correct spelling `remember` gives `''` |
| AdminAddQuestion.ApiUrlSpec | Greenwoods_FD/src/components/Admins/AddQuestion.jsx/AddQuestionAndOptions.jsx:430-452 | the five types post to five different URLs |
| AdminAddQuestion.QuestionEditor.constructor | Greenwoods_FD/src/components/Admins/AddQuestion.jsx/AddQuestionAndOptions.jsx:14-45 | the form opens with one full blank question, no type, sub-type, chapter or focus |
| AdminAddQuestion.QuestionEditor.TypeChange | Greenwoods_FD/src/components/Admins/AddQuestion.jsx/AddQuestionAndOptions.jsx:47-75 | choosing a type sets it, clears the sub-type and starts over from the full blank |
| AdminAddQuestion.QuestionEditor.SubTypeChange | Greenwoods_FD/src/components/Admins/AddQuestion.jsx/AddQuestionAndOptions.jsx:77-113 | choosing a sub-type starts over from one blank of its shape and keeps the type and chapter |
| AdminAddQuestion.QuestionEditor.ChapterChange | Greenwoods_FD/src/components/Admins/AddQuestion.jsx/AddQuestionAndOptions.jsx:115-118 | choosing a chapter stores FindChapter's result and changes nothing else |
| AdminAddQuestion.QuestionEditor.InputFocus | Greenwoods_FD/src/components/Admins/AddQuestion.jsx/AddQuestionAndOptions.jsx:281-283 | focusing an input remembers its field for the symbol keyboard and changes nothing else |
| AdminAddQuestion.QuestionEditor.CorrectAnswerChange | Greenwoods_FD/src/components/Admins/AddQuestion.jsx/AddQuestionAndOptions.jsx:154-158 | stores the selection, wrapped as a list, as question i's answer only; a missing question throws and changes nothing |
| AdminAddQuestion.QuestionEditor.SubCorrectAnswerChange | Greenwoods_FD/src/components/Admins/AddQuestion.jsx/AddQuestionAndOptions.jsx:160-164 | the same for one sub-question's answer |
| AdminAddQuestion.QuestionEditor.AddQuestion | Greenwoods_FD/src/components/Admins/AddQuestion.jsx/AddQuestionAndOptions.jsx:179-214 | handleAddQuestion appends exactly one blank of the current sub-type |
| AdminAddQuestion.QuestionEditor.AddSubQuestion | Greenwoods_FD/src/components/Admins/AddQuestion.jsx/AddQuestionAndOptions.jsx:216-230 | appends one blank sub-question to question i only; a question without sub-questions throws and changes nothing |
| AdminAddQuestion.QuestionEditor.RemoveQuestion | Greenwoods_FD/src/components/Admins/AddQuestion.jsx/AddQuestionAndOptions.jsx:285-289 | handleRemoveQuestion removes exactly index i (`splice`) |
| AdminAddQuestion.QuestionEditor.RemoveSubQuestion | Greenwoods_FD/src/components/Admins/AddQuestion.jsx/AddQuestionAndOptions.jsx:291-295 | removes exactly sub-question j of question i and nothing else |
| AdminAddQuestion.QuestionEditor.InsertSymbol | Greenwoods_FD/src/components/Admins/AddQuestion.jsx/AddQuestionAndOptions.jsx:256-279 | handleInsertSymbol does nothing without a focus or for an unknown field name; otherwise appends " symbol " to exactly the focused field, and a path that throws changes nothing |
| AdminAddQuestion.QuestionEditor.Submit | Greenwoods_FD/src/components/Admins/AddQuestion.jsx/AddQuestionAndOptions.jsx:297-423 | rejected input posts nothing and changes nothing; otherwise `finalData` goes one record at a time to getApiUrl's URL, a failed request stops the run and keeps the form, and full success resets the form |
| AdminAddQuestion.EmptyListPasses | Greenwoods_FD/src/components/Admins/AddQuestion.jsx/AddQuestionAndOptions.jsx:312-371 | an empty question list passes validation and posts nothing |
| SuperAddQuestion.ComprehensionNeverAccepted | Greenwoods_FD/src/components/SuperAdmin/AddQuestion.jsx/AddQuestionAndOptions.jsx:43 | as written, validation rejects every Comprehension set the editor can hold: a sub-answer is either the initial `''` (unanswered) or a list, whose `trim` call throws (see also lines 98, 206-212) |
| SuperAddQuestion.FilledSubWitness | Greenwoods_FD/src/components/SuperAdmin/AddQuestion.jsx/AddQuestionAndOptions.jsx:207-212 | a filled-in sub-question with a chosen answer list throws under the check as written and passes the intended check |
| SuperAddQuestion.FilledSetWitness | Greenwoods_FD/src/components/SuperAdmin/AddQuestion.jsx/AddQuestionAndOptions.jsx:180-222 | a whole filled-in Comprehension set is rejected with a TypeError as written and accepted by the intended check |
| SuperAddQuestion.FixedSubsSpec | Greenwoods_FD/src/components/SuperAdmin/AddQuestion.jsx/AddQuestionAndOptions.jsx:206-221 | the intended sub-question loop passes exactly when every sub-question has text, an answer and filled options |
| SuperAddQuestion.FixedQuestionSpec | Greenwoods_FD/src/components/SuperAdmin/AddQuestion.jsx/AddQuestionAndOptions.jsx:180-222 | one question passes the intended check exactly when it is complete for its sub-type (text and answer except for Comprehension, filled options for MCQ, a paragraph and complete sub-questions for Comprehension) |
| SuperAddQuestion.FixedCheckSpec | Greenwoods_FD/src/components/SuperAdmin/AddQuestion.jsx/AddQuestionAndOptions.jsx:180-222 | the intended question loop passes exactly the complete questions, and otherwise stops at a failing question all of whose predecessors pass |
| SuperAddQuestion.CheckSubs | Greenwoods_FD/src/components/SuperAdmin/AddQuestion.jsx/AddQuestionAndOptions.jsx:206-221 | the sub-question loop computes SubsProblem, as written or intended |
| SuperAddQuestion.CheckQuestion | Greenwoods_FD/src/components/SuperAdmin/AddQuestion.jsx/AddQuestionAndOptions.jsx:181-222 | the loop body for one question computes QuestionProblem |
| SuperAddQuestion.Validate | Greenwoods_FD/src/components/SuperAdmin/AddQuestion.jsx/AddQuestionAndOptions.jsx:160-224 | handleSubmit's validation rejects a missing chapter, type or sub-type, in that order, then the first failing question |
| SuperAddQuestion.Bodies | Greenwoods_FD/src/components/SuperAdmin/AddQuestion.jsx/AddQuestionAndOptions.jsx:259-270 | one POST body per question of the raw `questions` state, in order, each with the admin id, chapter and sub-type |
| SuperAddQuestion.ApiUrl | Greenwoods_FD/src/components/SuperAdmin/AddQuestion.jsx/AddQuestionAndOptions.jsx:303-325 | getApiUrl gives a non-empty URL exactly for the five known types |
| SuperAddQuestion.RemeberUrl | Greenwoods_FD/src/components/SuperAdmin/AddQuestion.jsx/AddQuestionAndOptions.jsx:303-325 | `remeber` posts to `/api/remeber/questions`, spelt as in the picker, unlike the admin editor |
| SuperAddQuestion.ApiUrlSpec | Greenwoods_FD/src/components/SuperAdmin/AddQuestion.jsx/AddQuestionAndOptions.jsx:303-325 | every known type posts to the endpoint named after it, so the five URLs differ |
| SuperAddQuestion.KeyboardField | Greenwoods_FD/src/components/SuperAdmin/AddQuestion.jsx/AddQuestionAndOptions.jsx:381-400 | the symbol keyboard writes only to `question`, `paragraph`, `subQuestion`, `option` and `subOption`, never to a solution |
| SuperAddQuestion.QuestionEditor.constructor | Greenwoods_FD/src/components/SuperAdmin/AddQuestion.jsx/AddQuestionAndOptions.jsx:12-24 | the form opens with one blank question and no type, sub-type, chapter or focus |
| SuperAddQuestion.QuestionEditor.TypeChange | Greenwoods_FD/src/components/SuperAdmin/AddQuestion.jsx/AddQuestionAndOptions.jsx:25-35 | choosing a type sets it, clears the sub-type and starts over from the blank |
| SuperAddQuestion.QuestionEditor.SubTypeChange | Greenwoods_FD/src/components/SuperAdmin/AddQuestion.jsx/AddQuestionAndOptions.jsx:37-52 | choosing a sub-type starts over from one blank of its shape, whose Comprehension sub-answer is `''` |
| SuperAddQuestion.QuestionEditor.ChapterChange | Greenwoods_FD/src/components/SuperAdmin/AddQuestion.jsx/AddQuestionAndOptions.jsx:54-57 | choosing a chapter stores FindChapter's result and changes nothing else |
| SuperAddQuestion.QuestionEditor.InputFocus | Greenwoods_FD/src/components/SuperAdmin/AddQuestion.jsx/AddQuestionAndOptions.jsx:405-407 | focusing an input remembers its field and changes nothing else |
| SuperAddQuestion.QuestionEditor.CorrectAnswerChange | Greenwoods_FD/src/components/SuperAdmin/AddQuestion.jsx/AddQuestionAndOptions.jsx:90-94 | stores the selection as question i's answer list only; a missing question changes nothing |
| SuperAddQuestion.QuestionEditor.SubCorrectAnswerChange | Greenwoods_FD/src/components/SuperAdmin/AddQuestion.jsx/AddQuestionAndOptions.jsx:96-103 | after it the sub-question's answer is a list; nothing else changes |
| SuperAddQuestion.QuestionEditor.AddQuestion | Greenwoods_FD/src/components/SuperAdmin/AddQuestion.jsx/AddQuestionAndOptions.jsx:123-142 | handleAddQuestion appends exactly one blank whose sub-answer is a list |
| SuperAddQuestion.QuestionEditor.AddSubQuestion | Greenwoods_FD/src/components/SuperAdmin/AddQuestion.jsx/AddQuestionAndOptions.jsx:144-152 | appends one blank sub-question with answer `[]` to question i only |
| SuperAddQuestion.QuestionEditor.RemoveQuestion | Greenwoods_FD/src/components/SuperAdmin/AddQuestion.jsx/AddQuestionAndOptions.jsx:408-412 | handleRemoveQuestion removes exactly index i |
| SuperAddQuestion.QuestionEditor.InsertSymbol | Greenwoods_FD/src/components/SuperAdmin/AddQuestion.jsx/AddQuestionAndOptions.jsx:381-400 | handleInsertSymbol is a no-op without a focus or outside its five fields; otherwise appends " symbol " to exactly the focused field |
| SuperAddQuestion.QuestionEditor.Submit | Greenwoods_FD/src/components/SuperAdmin/AddQuestion.jsx/AddQuestionAndOptions.jsx:160-300 | rejected input posts nothing; a missing stored admin id aborts before any request; otherwise the raw questions go one body at a time, a failed request stops the run and keeps the form, and full success resets it; as written a Comprehension set never gets past validation |
| OngoingAddQuestion.OptionErrorsSpec | Greenwoods_FD/src/components/Admins/Assigments/OngoingAddQuestion.jsx:98-108 | the option rules report nothing exactly when every option is written, and report option X exactly when X is empty |
| OngoingAddQuestion.FormErrorsSpec | Greenwoods_FD/src/components/Admins/Assigments/OngoingAddQuestion.jsx:87-96 | validateFields passes exactly on an acceptable form (question text of at least 10 characters, every option, at least one answer), and each error is reported exactly when its rule fails (an empty text fails `required` only) (see also lines 98-108, 137-144) |
| OngoingAddQuestion.Payload | Greenwoods_FD/src/components/Admins/Assigments/OngoingAddQuestion.jsx:346-357 | the payload has one entry per selected question, each built from that question and the current pickers |
| OngoingAddQuestion.PayloadSpec | Greenwoods_FD/src/components/Admins/Assigments/OngoingAddQuestion.jsx:346-357 | every entry keeps its question's type, text, options and answers in list order, and shares the assignment id and the current subject, chapter and level |
| OngoingAddQuestion.PayloadIgnoresTags | Greenwoods_FD/src/components/Admins/Assigments/OngoingAddQuestion.jsx:307-316 | the tags a created question was given are not sent: lists with the same contents give the same payload (see also lines 346-357) |
| OngoingAddQuestion.AssignmentQuestions.constructor | Greenwoods_FD/src/components/Admins/Assigments/OngoingAddQuestion.jsx:164-184 | the screen opens with empty lists, no subject or chapter, level `remember`, nothing selected and the modal closed |
| OngoingAddQuestion.AssignmentQuestions.NoClass | Greenwoods_FD/src/components/Admins/Assigments/OngoingAddQuestion.jsx:253-267 | an assignment without a class resets every list and picker and keeps the selection and the modal |
| OngoingAddQuestion.AssignmentQuestions.SubjectsLoaded | Greenwoods_FD/src/components/Admins/Assigments/OngoingAddQuestion.jsx:187-206 | a subject reply replaces the subject list; a failed fetch changes nothing |
| OngoingAddQuestion.AssignmentQuestions.SubjectChange | Greenwoods_FD/src/components/Admins/Assigments/OngoingAddQuestion.jsx:442-446 | choosing a subject sets it and clears the chosen chapter |
| OngoingAddQuestion.AssignmentQuestions.ChaptersLoaded | Greenwoods_FD/src/components/Admins/Assigments/OngoingAddQuestion.jsx:208-229 | a chapter reply replaces the chapter list and clears the chosen chapter and the bank questions; a failed fetch changes nothing |
| OngoingAddQuestion.AssignmentQuestions.ChapterChange | Greenwoods_FD/src/components/Admins/Assigments/OngoingAddQuestion.jsx:462-464 | choosing a chapter sets it and nothing else |
| OngoingAddQuestion.AssignmentQuestions.LevelChange | Greenwoods_FD/src/components/Admins/Assigments/OngoingAddQuestion.jsx:480-482 | choosing a level sets it and nothing else |
| OngoingAddQuestion.AssignmentQuestions.QuestionsLoaded | Greenwoods_FD/src/components/Admins/Assigments/OngoingAddQuestion.jsx:231-250 | a question reply replaces the bank questions; a failed fetch changes nothing |
| OngoingAddQuestion.AssignmentQuestions.QuestionSelect | Greenwoods_FD/src/components/Admins/Assigments/OngoingAddQuestion.jsx:282-291 | selecting a bank question opens the preview modal on it |
| OngoingAddQuestion.AssignmentQuestions.OpenCreate | Greenwoods_FD/src/components/Admins/Assigments/OngoingAddQuestion.jsx:422-429 | the create button opens an empty create modal |
| OngoingAddQuestion.AssignmentQuestions.CancelModal | Greenwoods_FD/src/components/Admins/Assigments/OngoingAddQuestion.jsx:608-611 | cancelling hides the modal and keeps everything else (see also lines 664-668) |
| OngoingAddQuestion.AssignmentQuestions.AddQuestion | Greenwoods_FD/src/components/Admins/Assigments/OngoingAddQuestion.jsx:293-302 | the previewed question, when there is one, is appended and the modal hides; nothing checks for a duplicate; without one nothing changes |
| OngoingAddQuestion.AssignmentQuestions.CreateQuestion | Greenwoods_FD/src/components/Admins/Assigments/OngoingAddQuestion.jsx:304-329 | a form the rules accept becomes one appended question tagged with the assignment id and the current subject, chapter and level, and the modal hides; a rejected form changes nothing |
| OngoingAddQuestion.AssignmentQuestions.RemoveQuestion | Greenwoods_FD/src/components/Admins/Assigments/OngoingAddQuestion.jsx:331-336 | removes exactly the question at the index and keeps the rest in order |
| OngoingAddQuestion.AssignmentQuestions.SubmitQuestions | Greenwoods_FD/src/components/Admins/Assigments/OngoingAddQuestion.jsx:338-374 | an empty selection only warns and sends nothing; otherwise the payload goes in one request; on success the selection is emptied and the count reported, and on failure it is kept |
| OngoingAddQuestion.AddTwice | Greenwoods_FD/src/components/Admins/Assigments/OngoingAddQuestion.jsx:282-302 | the same bank question previewed and added twice is collected twice |
| OngoingAddQuestion.SentUnderCurrentChapter | Greenwoods_FD/src/components/Admins/Assigments/OngoingAddQuestion.jsx:304-316 | a question written under one chapter is sent under the chapter chosen when the list is submitted (see also lines 346-357) |
| ImmediateQuest.InSection | Greenwoods_FD/src/components/Students/ImmediateQuest/ImmediateQuest.jsx:89-100 | a tab never holds more assignments than were loaded |
| ImmediateQuest.Categorize | Greenwoods_FD/src/components/Students/ImmediateQuest/ImmediateQuest.jsx:81-103 | the single pass that pushes each assignment on its tab builds exactly the three filtered tabs, in input order |
| ImmediateQuest.SectionsPartition | Greenwoods_FD/src/components/Students/ImmediateQuest/ImmediateQuest.jsx:89-100 | the three tabs together hold every loaded assignment exactly as often as the input does |
| ImmediateQuest.SectionMembers | Greenwoods_FD/src/components/Students/ImmediateQuest/ImmediateQuest.jsx:89-100 | an assignment is on a tab exactly when it was loaded and its window puts it there |
| ImmediateQuest.SectionConcat | Greenwoods_FD/src/components/Students/ImmediateQuest/ImmediateQuest.jsx:89-100 | tabs keep input order: the tab of a concatenation is the concatenation of the tabs |
| ImmediateQuest.WindowEndpoints | Greenwoods_FD/src/components/Students/ImmediateQuest/ImmediateQuest.jsx:93-99 | both ends of a window count as ongoing, and an assignment whose dates are invalid is ongoing, because both comparisons with an invalid date are false |
| ImmediateQuest.ScoreStatus | Greenwoods_FD/src/components/Students/ImmediateQuest/ImmediateQuest.jsx:52-79 | a score exists exactly when the reply is a 200 with a readable body, and then its data is kept; a 404, any other status, an unreadable body or a failed request mean no score |
| ImmediateQuest.ScoreGate.constructor | Greenwoods_FD/src/components/Students/ImmediateQuest/ImmediateQuest.jsx:9-19 | nothing is selected, there is no score and the questions are closed |
| ImmediateQuest.ScoreGate.AssignmentClick | Greenwoods_FD/src/components/Students/ImmediateQuest/ImmediateQuest.jsx:110-114 | selecting an assignment forgets any earlier score |
| ImmediateQuest.ScoreGate.ScoreChecked | Greenwoods_FD/src/components/Students/ImmediateQuest/ImmediateQuest.jsx:46-79 | with a selection the score flag and data become those of the reply; without one nothing is asked or changed |
| ImmediateQuest.ScoreGate.StartAssignment | Greenwoods_FD/src/components/Students/ImmediateQuest/ImmediateQuest.jsx:116-120 | the questions open exactly when they were open or no score exists |
| ImmediateQuest.ScoreGate.BackFromQuestions | Greenwoods_FD/src/components/Students/ImmediateQuest/ImmediateQuest.jsx:122-125 | closes the questions and keeps the selection and the score |
| ImmediateQuest.ScoreGate.BackToAssignments | Greenwoods_FD/src/components/Students/ImmediateQuest/ImmediateQuest.jsx:127-129 | clears the selection and keeps the rest |
| ImmediateQuest.ScoredAssignmentStaysClosed | Greenwoods_FD/src/components/Students/ImmediateQuest/ImmediateQuest.jsx:110-120 | after a 200 reply the start button does nothing, and after a 404 it opens the questions |
| Assignments.ListsPartition | Greenwoods_FD/src/components/Admins/Assigments/Assignments.jsx:175-178 | with well-formed windows each assignment is in exactly one of the upcoming, ongoing and completed lists, as often as it was loaded |
| Assignments.InvertedWindowListedTwice | Greenwoods_FD/src/components/Admins/Assigments/Assignments.jsx:176-178 | a window whose start is after its end is listed both as upcoming and as completed between the two dates |
| Assignments.InvalidDateListedNowhere | Greenwoods_FD/src/components/Admins/Assigments/Assignments.jsx:176-178 | an assignment whose dates are invalid is in no list, since every comparison with an invalid date is false |
| Assignments.ModalMatchesList | Greenwoods_FD/src/components/Admins/Assigments/Assignments.jsx:149-162 | for a well-formed window the modal a click opens is the one of the list the assignment is shown in (see also lines 176-178) |
| Assignments.SectionsOfSpec | Greenwoods_FD/src/components/Admins/Assigments/Assignments.jsx:87-91 | after choosing a class a section is offered exactly when one of that class's students has it, and each only once |
| Assignments.WithFieldOnlyThat | Greenwoods_FD/src/components/Admins/Assigments/Assignments.jsx:93-95 | handleChange sets the named field and no other, and keeps the owner |
| Assignments.RecipientsSpec | Greenwoods_FD/src/components/Admins/Assigments/Assignments.jsx:110-115 | exactly the students of the chosen class and section receive the new assignment |
| Assignments.AssignmentForm.constructor | Greenwoods_FD/src/components/Admins/Assigments/Assignments.jsx:26 | the form starts blank and owned by the logged-in user, with no sections offered (see also lines 37-45) |
| Assignments.AssignmentForm.ClassChange | Greenwoods_FD/src/components/Admins/Assigments/Assignments.jsx:87-91 | sets the class, clears the section and offers that class's sections |
| Assignments.AssignmentForm.Change | Greenwoods_FD/src/components/Admins/Assigments/Assignments.jsx:93-95 | sets one field and keeps the section choices |
| Assignments.AssignmentForm.Submit | Greenwoods_FD/src/components/Admins/Assigments/Assignments.jsx:97-147 | a form with an empty field is refused; a failed creation sends nothing; otherwise the recipients of the class and section are sent, no recipients stops with a warning and keeps the form, and only after a bulk send is the form reset to a blank one |
| AddStudent.Columns | Greenwoods_FD/src/components/Admins/Addstudents/AddStudent.jsx:34 | the columns a row is walked in are its keys, one per field, in order |
| AddStudent.MappedKeyInjective | Greenwoods_FD/src/components/Admins/Addstudents/AddStudent.jsx:17-25 | the heading table sends distinct headings to distinct keys, and every key it produces is one of the seven record keys |
| AddStudent.FieldsKeys | Greenwoods_FD/src/components/Admins/Addstudents/AddStudent.jsx:30-38 | a record key is written exactly when some column of the row maps to it, so no other key can appear |
| AddStudent.FieldsValues | Greenwoods_FD/src/components/Admins/Addstudents/AddStudent.jsx:34-38 | in a row with distinct columns each mapped column's value is carried over unchanged under its new key |
| AddStudent.MapRow | Greenwoods_FD/src/components/Admins/Addstudents/AddStudent.jsx:31-38 | the column loop builds exactly the mapped fields of the row |
| AddStudent.MapToJsonFormat | Greenwoods_FD/src/components/Admins/Addstudents/AddStudent.jsx:28-45 | one record per row, in row order, each holding the row's mapped fields and the admin id |
| AddStudent.ExcelGate | Greenwoods_FD/src/components/Admins/Addstudents/AddStudent.jsx:168-174 | the upload gate accepts exactly the two Excel MIME types, compared exactly, so a CSV type, a differently cased type or an empty type is refused |
| AddStudent.StudentUpload.constructor | Greenwoods_FD/src/components/Admins/Addstudents/AddStudent.jsx:10-13 | no rows, no stored records, no file and an empty file name |
| AddStudent.StudentUpload.FileChange | Greenwoods_FD/src/components/Admins/Addstudents/AddStudent.jsx:77-81 | remembers the chosen file and its name, and keeps the data |
| AddStudent.StudentUpload.SheetLoaded | Greenwoods_FD/src/components/Admins/Addstudents/AddStudent.jsx:51-70 | an empty sheet is reported and changes nothing; otherwise the table and the stored records both become the formatted rows |
| AddStudent.StudentUpload.Submit | Greenwoods_FD/src/components/Admins/Addstudents/AddStudent.jsx:84-111 | without a file nothing is posted; otherwise the records already stored are posted, and only a successful reply clears the file and its name; the data is unchanged |
| AddStudent.StudentUpload.SubmitLoaded | Greenwoods_FD/src/components/Admins/Addstudents/AddStudent.jsx:48-111 | the corrected submit reads the sheet first, refuses an empty one and posts exactly the records just formatted |
| AddStudent.FirstSubmitPostsNothing | Greenwoods_FD/src/components/Admins/Addstudents/AddStudent.jsx:84-111 | the first submit after choosing a non-empty sheet posts an empty list |
| AddStudent.LoadedSubmitPostsRows | Greenwoods_FD/src/components/Admins/Addstudents/AddStudent.jsx:48-111 | reading first, the same submit posts one record per row |
| AdminClassProgress.LabelInjective | Greenwoods_FD/src/components/Admins/Home/ClassProgress.jsx:182-189 | month m of 1 to 12 is labelled with the m-th of JAN to DEC, and two marks of real months and non-negative years share a row label exactly when they share month and year |
| AdminClassProgress.Marks | Greenwoods_FD/src/components/Admins/Home/ClassProgress.jsx:186-189 | one labelled mark per entry, in order |
| AdminClassProgress.FindRow | Greenwoods_FD/src/components/Admins/Home/ClassProgress.jsx:195 | the row found carries the label, and no row carries it when none is found |
| AdminClassProgress.WriteNew | Greenwoods_FD/src/components/Admins/Home/ClassProgress.jsx:195-201 | a mark with a new label appends one row holding its level's score |
| AdminClassProgress.WriteOld | Greenwoods_FD/src/components/Admins/Home/ClassProgress.jsx:195-201 | a mark with a known label writes its level's score into the existing row |
| AdminClassProgress.ChartDescribes | Greenwoods_FD/src/components/Admins/Home/ClassProgress.jsx:186-202 | the chart holds one row per distinct label, in order of first appearance, and each row holds the values its label's marks wrote |
| AdminClassProgress.LevelScoresStep | Greenwoods_FD/src/components/Admins/Home/ClassProgress.jsx:180 | a mark of level 1 to 5 adds its score to that level's list, and any other level changes nothing (see also lines 191-193) |
| AdminClassProgress.WriteRow | Greenwoods_FD/src/components/Admins/Home/ClassProgress.jsx:195-201 | find, push a new row when there is none, then set the level's property: the chart one mark writes |
| AdminClassProgress.ProcessEntries | Greenwoods_FD/src/components/Admins/Home/ClassProgress.jsx:180-202 | the loop over the marks leaves exactly the per-level score lists and the chart the marks describe |
| AdminClassProgress.ComputeAverages | Greenwoods_FD/src/components/Admins/Home/ClassProgress.jsx:204-209 | the loop over the levels gives exactly the averages of the levels with at least one score |
| AdminClassProgress.AveragesUpToAll | Greenwoods_FD/src/components/Admins/Home/ClassProgress.jsx:204-209 | after all five levels the partial averages are the averages |
| AdminClassProgress.ProcessTopMarks | Greenwoods_FD/src/components/Admins/Home/ClassProgress.jsx:179-216 | the chart, the averages and the available levels shown are those of the marks |
| AdminClassProgress.RowPerLabel | Greenwoods_FD/src/components/Admins/Home/ClassProgress.jsx:186-202 | the rows are the distinct labels in order of first appearance, none twice, and a label has a row exactly when some mark carries it |
| AdminClassProgress.RowValuesKeys | Greenwoods_FD/src/components/Admins/Home/ClassProgress.jsx:201 | a row has a value for a level exactly when some mark with its label has that level, whether the level is 1 to 5 or not |
| AdminClassProgress.LastMarkWins | Greenwoods_FD/src/components/Admins/Home/ClassProgress.jsx:201 | the value a row holds for a level is the score of the last mark with that label and level |
| AdminClassProgress.ScoresAtMembers | Greenwoods_FD/src/components/Admins/Home/ClassProgress.jsx:191-193 | a level's score list is non-empty exactly when some mark has that level, and holds only those marks' scores |
| AdminClassProgress.AverageExists | Greenwoods_FD/src/components/Admins/Home/ClassProgress.jsx:204-215 | a level has an average exactly when it is one of 1 to 5 and some mark has it, and those are exactly the available levels |
| AdminClassProgress.AverageBounds | Greenwoods_FD/src/components/Admins/Home/ClassProgress.jsx:16 | with every top score between 0 and 45, as the chart's axis assumes, each average is too (see also lines 204-209) |
| AdminClassProgress.ClassProgressModal.constructor | Greenwoods_FD/src/components/Admins/Home/ClassProgress.jsx:87-96 | no options, no selection and nothing drawn |
| AdminClassProgress.ClassProgressModal.Reset | Greenwoods_FD/src/components/Admins/Home/ClassProgress.jsx:98-116 | hiding the modal clears every list, the selection and the chart |
| AdminClassProgress.ClassProgressModal.ClassChange | Greenwoods_FD/src/components/Admins/Home/ClassProgress.jsx:218-228 | the new class with no subject or chapter, empty subject and chapter lists, and nothing drawn |
| AdminClassProgress.ClassProgressModal.SubjectChange | Greenwoods_FD/src/components/Admins/Home/ClassProgress.jsx:230-237 | the new subject with no chapter and nothing drawn; the chapter list stays until the new one arrives |
| AdminClassProgress.ClassProgressModal.ChapterChange | Greenwoods_FD/src/components/Admins/Home/ClassProgress.jsx:161-177 | the chart is cleared and filled from the marks only when the reply carries `topMarksByMonth` (see also lines 239-245) |
| SuperClassProgress.CollectLevelScores | Greenwoods_FD/src/components/SuperAdmin/Home/ClassProgress.jsx:203-212 | the loop over the students leaves, for each of the five levels, the means pushed by every student's entries under that key, in order |
| SuperClassProgress.PushStudent | Greenwoods_FD/src/components/SuperAdmin/Home/ClassProgress.jsx:205-211 | one student's entries: a key `levelScores` has gets that entry's mean appended, any other key is skipped |
| SuperClassProgress.AveragesUpToAll | Greenwoods_FD/src/components/SuperAdmin/Home/ClassProgress.jsx:214-219 | after all five levels the partial averages are the averages |
| SuperClassProgress.ComputeAverages | Greenwoods_FD/src/components/SuperAdmin/Home/ClassProgress.jsx:214-219 | the loop over the levels gives exactly the class average of each level with at least one pushed mean |
| SuperClassProgress.EntryPoints | Greenwoods_FD/src/components/SuperAdmin/Home/ClassProgress.jsx:226-231 | one point per attempt of an entry, in order, carrying the attempt's time and score under the entry's key |
| SuperClassProgress.BuildChart | Greenwoods_FD/src/components/SuperAdmin/Home/ClassProgress.jsx:223-233 | the three nested loops build exactly the chart of every attempt of every entry of every student, in that order |
| SuperClassProgress.AppendStudent | Greenwoods_FD/src/components/SuperAdmin/Home/ClassProgress.jsx:225-232 | one student's points are appended after the earlier ones |
| SuperClassProgress.AppendEntry | Greenwoods_FD/src/components/SuperAdmin/Home/ClassProgress.jsx:226-231 | one entry's points are appended after the earlier ones |
| SuperClassProgress.PushedEmpty | Greenwoods_FD/src/components/SuperAdmin/Home/ClassProgress.jsx:204-212 | a level's list is non-empty exactly when some student lists that key |
| SuperClassProgress.AverageExists | Greenwoods_FD/src/components/SuperAdmin/Home/ClassProgress.jsx:214-219 | a level has a class average exactly when it is one of "1" to "5" and some student lists it, and those are exactly the available levels (see also line 237) |
| SuperClassProgress.PushedMembers | Greenwoods_FD/src/components/SuperAdmin/Home/ClassProgress.jsx:204-212 | every value pushed for a level is the mean of some student's entry under that key, and every such mean is pushed |
| SuperClassProgress.EmptyEntryMakesNaN | Greenwoods_FD/src/components/SuperAdmin/Home/ClassProgress.jsx:207-209 | a student listing a level with no attempts pushes NaN, and that level's class average is NaN (see also line 217) |
| SuperClassProgress.StudentMeanBounds | Greenwoods_FD/src/components/SuperAdmin/Home/ClassProgress.jsx:207-208 | a student's mean over a non-empty list of scores between 0 and 45 lies between them too |
| SuperClassProgress.AverageBounds | Greenwoods_FD/src/components/SuperAdmin/Home/ClassProgress.jsx:54 | when every entry listed under a level has attempts, all scoring between 0 and 45, the class average of that level is a number between 0 and 45 (see also lines 203-219) |
| SuperClassProgress.ChartMembers | Greenwoods_FD/src/components/SuperAdmin/Home/ClassProgress.jsx:223-233 | each chart point is one attempt of some student's entry, carrying that entry's key, and every attempt has its point, whatever the key |
| SuperClassProgress.ChartLength | Greenwoods_FD/src/components/SuperAdmin/Home/ClassProgress.jsx:223-233 | the chart has exactly one point per attempt of every student |
| SuperClassProgress.FailedFetchAddsNothing | Greenwoods_FD/src/components/SuperAdmin/Home/ClassProgress.jsx:188-200 | a failed request, or a body without `chapterProgress`, contributes nothing: the level lists and the chart are those of the other students |
| SuperClassModal.ClassSelection | Greenwoods_FD/src/components/SuperAdmin/Home/ClassProgress.jsx:255-258 | the students kept are exactly those of the roster whose class is strictly equal to the number the selection reads as, so a class stored as text never matches |
| SuperClassModal.TextClassSelectsSame | Greenwoods_FD/src/components/SuperAdmin/Home/ClassProgress.jsx:255-256 | a class chosen as its decimal text reads as the number itself and selects the same students |
| SuperClassModal.Ids | Greenwoods_FD/src/components/SuperAdmin/Home/ClassProgress.jsx:274 | the ids asked for are the selected students', in roster order |
| SuperClassModal.Results | Greenwoods_FD/src/components/SuperAdmin/Home/ClassProgress.jsx:188-200 | each settled request gives its student's progress, `{}` for a failure or a missing field |
| SuperClassModal.Aggregate | Greenwoods_FD/src/components/SuperAdmin/Home/ClassProgress.jsx:202-238 | the averages, the chart and the available levels shown are those of the settled results |
| SuperClassModal.ClassProgressModal.constructor | Greenwoods_FD/src/components/SuperAdmin/Home/ClassProgress.jsx:87-100 | every piece of state starts at its initial value |
| SuperClassModal.ClassProgressModal.Close | Greenwoods_FD/src/components/SuperAdmin/Home/ClassProgress.jsx:102-122 | closing the modal returns every piece of state to its initial value |
| SuperClassModal.ClassProgressModal.ClassChange | Greenwoods_FD/src/components/SuperAdmin/Home/ClassProgress.jsx:247-259 | selects the class's students and counts them, and clears subject, chapter, chapters and progress; the subject list and the chart are left as they were |
| SuperClassModal.ClassProgressModal.SubjectChange | Greenwoods_FD/src/components/SuperAdmin/Home/ClassProgress.jsx:262-267 | the new subject with no chapter and no progress; everything else is kept |
| SuperClassModal.ClassProgressModal.ChapterChange | Greenwoods_FD/src/components/SuperAdmin/Home/ClassProgress.jsx:185-244 | asks for the progress of exactly the selected students and shows what their settled replies give (see also lines 270-276) |
| LevelDetails.Keys | Greenwoods_FD/src/components/Students/Home/LatestLevelDetails.jsx:56 | one category key per entry of `progress`, in key order |
| LevelDetails.QuestionCounts | Greenwoods_FD/src/components/Students/Home/LatestLevelDetails.jsx:57 | one question count per category key |
| LevelDetails.CorrectCounts | Greenwoods_FD/src/components/Students/Home/LatestLevelDetails.jsx:58 | one correct count per category key |
| LevelDetails.LookupFinds | Greenwoods_FD/src/components/Students/Home/LatestLevelDetails.jsx:57-58 | under a key that occurs once, `progress[key]` finds that entry's counts |
| LevelDetails.SeriesAligned | Greenwoods_FD/src/components/Students/Home/LatestLevelDetails.jsx:56-58 | the two series are index-aligned with the category keys: position i of each holds the counts of the i-th key |
| LevelDetails.Chart | Greenwoods_FD/src/components/Students/Home/LatestLevelDetails.jsx:53-58 | there is no chart exactly when there is no progress data |
| LevelDetails.CategoryLabels | Greenwoods_FD/src/components/Students/Home/LatestLevelDetails.jsx:85 | one label per key, each the key with its first letter upper-cased |
| LevelDetails.CapitalizeFacts | Greenwoods_FD/src/components/Students/Home/LatestLevelDetails.jsx:85 | a label keeps its key's length and every character after the first, starts with no lower-case letter, leaves an already capitalized key alone, and capitalizing twice changes nothing more |
| LevelDetails.CapitalizeExample | Greenwoods_FD/src/components/Students/Home/LatestLevelDetails.jsx:85 | the category `remember` is shown as `Remember` |
| ClassSubjects.SubjectListElements | Greenwoods_FD/src/components/Admins/AddSubjectandclass/AddSubjectAndClass.jsx:20-22 | every subject sent is non-empty, trimmed and free of commas |
| ClassSubjects.SubjectListMembers | Greenwoods_FD/src/components/Admins/AddSubjectandclass/AddSubjectAndClass.jsx:20-22 | a string is sent as a subject exactly when it is a non-empty trimmed piece of the comma-split input |
| ClassSubjects.SubjectListConcat | Greenwoods_FD/src/components/Admins/AddSubjectandclass/AddSubjectAndClass.jsx:20-22 | subjects keep their input order: the list of a comma-joined input is the left part's list followed by the right part's |
| ClassSubjects.SubjectListRoundTrip | Greenwoods_FD/src/components/Admins/AddSubjectandclass/AddSubjectAndClass.jsx:20-22 | non-empty, trimmed, comma-free subjects joined with commas read back as themselves |
| ClassSubjects.NonEmptyKeepsAll | Greenwoods_FD/src/components/Admins/AddSubjectandclass/AddSubjectAndClass.jsx:22 | `filter(Boolean)` keeps a list without empty strings as it is |
| ClassSubjects.SubjectForm.constructor | Greenwoods_FD/src/components/Admins/AddSubjectandclass/AddSubjectAndClass.jsx:5-6 | both inputs start empty |
| ClassSubjects.SubjectForm.SetClass | Greenwoods_FD/src/components/Admins/AddSubjectandclass/AddSubjectAndClass.jsx:9-11 | sets the class input and keeps the subject input |
| ClassSubjects.SubjectForm.SetSubjects | Greenwoods_FD/src/components/Admins/AddSubjectandclass/AddSubjectAndClass.jsx:13-15 | sets the subject input and keeps the class input |
| ClassSubjects.RequestOf | Greenwoods_FD/src/components/Admins/AddSubjectandclass/AddSubjectAndClass.jsx:17-26 | nothing is sent exactly when the class or the subject input is empty, as the `required` inputs refuse the form; otherwise the class sent is trimmed and empty only for all-whitespace input, and every subject is non-empty, trimmed and comma-free (see also lines 66, 78) |
| ClassSubjects.SubjectForm.Submit | Greenwoods_FD/src/components/Admins/AddSubjectandclass/AddSubjectAndClass.jsx:17-51 | an empty input sends nothing and changes nothing; otherwise the request of the current inputs is sent, and the inputs are cleared only when the server answered OK |
| ClassSubjects.ClassNameTrimmed | Greenwoods_FD/src/components/Admins/AddSubjectandclass/AddSubjectAndClass.jsx:25 | the class name sent has no whitespace at either end and is empty exactly for an all-whitespace input |
| HomePage.GroupStudents | Greenwoods_FD/src/components/SuperAdmin/Home/HomePage.jsx:59-64 | the reduce leaves one key per class in order of first appearance, each holding that class's students in list order |
| HomePage.Push | Greenwoods_FD/src/components/SuperAdmin/Home/HomePage.jsx:60-63 | one step of the reduce keeps the accumulator right |
| HomePage.PushKeys | Greenwoods_FD/src/components/SuperAdmin/Home/HomePage.jsx:61 | a class gets its key the first time one of its students is seen, and only then |
| HomePage.GroupOfPush | Greenwoods_FD/src/components/SuperAdmin/Home/HomePage.jsx:62 | a student is added to its own class's group only |
| HomePage.AbsentClass | Greenwoods_FD/src/components/SuperAdmin/Home/HomePage.jsx:61 | a class no student has has an empty group |
| HomePage.EachStudentOnce | Greenwoods_FD/src/components/SuperAdmin/Home/HomePage.jsx:59-64 | a student appears in its own class's group exactly as often as in the list, and in no other group |
| HomePage.GroupsAreTheClasses | Greenwoods_FD/src/components/SuperAdmin/Home/HomePage.jsx:59-64 | the groups are exactly the classes that occur, each listed once, and every group holds at least one student (see also line 170) |
| HomePage.GroupKeepsOrder | Greenwoods_FD/src/components/SuperAdmin/Home/HomePage.jsx:59-64 | grouping a longer list extends each group by the new students of that class |
| HomePage.Directory.constructor | Greenwoods_FD/src/components/SuperAdmin/Home/HomePage.jsx:9-10 | no class and no student selected |
| HomePage.Directory.ClassClick | Greenwoods_FD/src/components/SuperAdmin/Home/HomePage.jsx:66-68 | selects the class and keeps the student |
| HomePage.Directory.StudentClick | Greenwoods_FD/src/components/SuperAdmin/Home/HomePage.jsx:74-76 | selects the student and keeps the class |
| HomePage.Directory.BackToStudents | Greenwoods_FD/src/components/SuperAdmin/Home/HomePage.jsx:78-80 | clears only the student |
| HomePage.Directory.BackToClasses | Greenwoods_FD/src/components/SuperAdmin/Home/HomePage.jsx:70-72 | clears only the class |
| HomePage.HeaderOf | Greenwoods_FD/src/components/SuperAdmin/Home/HomePage.jsx:95-100 | the student's details are shown exactly when a student is selected; the class's students exactly when no student but a non-empty class is selected; otherwise the directory |
| HomePage.BackAndForth | Greenwoods_FD/src/components/SuperAdmin/Home/HomePage.jsx:66-80 | going back from a student shows the class again, and going back from the class shows the directory (see also lines 95-100) |
| Uploads.OrEmpty | Greenwoods_FD/src/components/Admins/AddQuestion.jsx/McqUpload.jsx:164 | `cell \|\| ''` is empty exactly for a falsy cell and is the cell's text otherwise |
| Uploads.AnswerList | Greenwoods_FD/src/components/Admins/AddQuestion.jsx/McqUpload.jsx:163 | a falsy answer cell gives no keys and a truthy one at least one; every key is trimmed and free of commas |
| Uploads.AnswerListRoundTrip | Greenwoods_FD/src/components/Admins/AddQuestion.jsx/McqUpload.jsx:163 | keys written back as a comma-separated cell read back as the same keys |
| Uploads.McqOptionOf | Greenwoods_FD/src/components/Admins/AddQuestion.jsx/McqUpload.jsx:158-161 | an option keeps its text and has an image exactly when its image cell is truthy |
| Uploads.McqQuestionOf | Greenwoods_FD/src/components/Admins/AddQuestion.jsx/McqUpload.jsx:154-166 | one row becomes a question with the chapter, the question text, the four option texts, an image only where the image column has one, the answer keys (none for a falsy cell), the solution defaulting to '' and type MCQ |
| Uploads.McqSheet | Greenwoods_FD/src/components/Admins/AddQuestion.jsx/McqUpload.jsx:149-166 | one question per row, in sheet order |
| Uploads.McqSheetConcat | Greenwoods_FD/src/components/Admins/AddQuestion.jsx/McqUpload.jsx:154-166 | two sheets one after the other give their questions one after the other |
| Uploads.UploadUrl | Greenwoods_FD/src/components/Admins/AddQuestion.jsx/McqUpload.jsx:195-210 | the lower-cased type picks its endpoint; any other type gets the component's default (`''`, or the comprehension endpoint for the admin upload) (see also Greenwoods_FD/src/components/Admins/AddQuestion.jsx/ComprehensiveUpload.jsx:331-345, Greenwoods_FD/src/components/SuperAdmin/AddQuestion.jsx/ComprehensiveUpload.jsx:239-253) |
| Uploads.UploadUrlIgnoresCase | Greenwoods_FD/src/components/Admins/AddQuestion.jsx/McqUpload.jsx:196 | the endpoint does not depend on the letter case of the type |
| Uploads.SubOptionOf | Greenwoods_FD/src/components/Admins/AddQuestion.jsx/ComprehensiveUpload.jsx:267-286 | a sub-option keeps its text, its image is `cell \|\| ''`, and it has a file name exactly when its image cell is truthy (see also Greenwoods_FD/src/components/SuperAdmin/AddQuestion.jsx/ComprehensiveUpload.jsx:200-203) |
| Uploads.Entries | Greenwoods_FD/src/components/Admins/AddQuestion.jsx/ComprehensiveUpload.jsx:241-244 | one entry per row, with the question, paragraph and sub-question trimmed (see also Greenwoods_FD/src/components/SuperAdmin/AddQuestion.jsx/ComprehensiveUpload.jsx:174-177) |
| Uploads.FindSet | Greenwoods_FD/src/components/Admins/AddQuestion.jsx/ComprehensiveUpload.jsx:253 | the set found has the entry's key, and no set has it when none is found (see also Greenwoods_FD/src/components/SuperAdmin/AddQuestion.jsx/ComprehensiveUpload.jsx:187) |
| Uploads.GroupRows | Greenwoods_FD/src/components/Admins/AddQuestion.jsx/ComprehensiveUpload.jsx:241-293 | the reduce over the rows builds exactly the grouped sets (see also Greenwoods_FD/src/components/SuperAdmin/AddQuestion.jsx/ComprehensiveUpload.jsx:174-209) |
| Uploads.GroupedFacts | Greenwoods_FD/src/components/Admins/AddQuestion.jsx/ComprehensiveUpload.jsx:241-293 | for either key: distinct keys; each set has its question, paragraph and chapter and holds exactly the sub-questions of the complete rows with its key, in row order, and at least one; every complete row has its set; and there are as many sub-questions as complete rows (see also Greenwoods_FD/src/components/SuperAdmin/AddQuestion.jsx/ComprehensiveUpload.jsx:174-209) |
| Uploads.GroupedSkip | Greenwoods_FD/src/components/Admins/AddQuestion.jsx/ComprehensiveUpload.jsx:246-249 | an incomplete row changes nothing (see also Greenwoods_FD/src/components/SuperAdmin/AddQuestion.jsx/ComprehensiveUpload.jsx:180-183) |
| Uploads.GroupedJoin | Greenwoods_FD/src/components/Admins/AddQuestion.jsx/ComprehensiveUpload.jsx:253 | a complete row whose key has a set adds its sub-question to that set (see also lines 264-290, and SuperAdmin/AddQuestion.jsx/ComprehensiveUpload.jsx lines 187 and 197-206) |
| Uploads.GroupedOpen | Greenwoods_FD/src/components/Admins/AddQuestion.jsx/ComprehensiveUpload.jsx:253-262 | a complete row with a new key opens a set of its own at the end (see also Greenwoods_FD/src/components/SuperAdmin/AddQuestion.jsx/ComprehensiveUpload.jsx:187-195) |
| Uploads.NoEntryWithKey | Greenwoods_FD/src/components/Admins/AddQuestion.jsx/ComprehensiveUpload.jsx:241-293 | a key no complete row carries has no sub-questions |
| Uploads.ProcessComprehensionSheet | Greenwoods_FD/src/components/Admins/AddQuestion.jsx/ComprehensiveUpload.jsx:236-304 | the super-admin upload sends every grouped set; the admin upload fails with "No valid comprehension questions" exactly when no row is complete, and otherwise sends the grouped sets (see also Greenwoods_FD/src/components/SuperAdmin/AddQuestion.jsx/ComprehensiveUpload.jsx:168-215) |
| Uploads.AdminKept | Greenwoods_FD/src/components/Admins/AddQuestion.jsx/ComprehensiveUpload.jsx:295-297 | sets that all pass the filter are kept as they are, and every kept set passes it and was grouped |
| Uploads.GroupedSummary | Greenwoods_FD/src/components/Admins/AddQuestion.jsx/ComprehensiveUpload.jsx:295-297 | every grouped set passes the admin filter, and the sets hold one sub-question per complete row (see also line 320) |
| Uploads.PassageEntry | Greenwoods_FD/src/components/Admins/AddQuestion.jsx/ComprehensiveUpload.jsx:242-244 | a row whose cells are already trimmed carries them as they are |
| Uploads.JoinedKeyMerges | Greenwoods_FD/src/components/Admins/AddQuestion.jsx/ComprehensiveUpload.jsx:251-264 | under the joined key two complete rows whose texts join to the same key make one set, under the first row's question and paragraph (see also Greenwoods_FD/src/components/SuperAdmin/AddQuestion.jsx/ComprehensiveUpload.jsx:185-197) |
| Uploads.PairKeySeparates | Greenwoods_FD/src/components/Admins/AddQuestion.jsx/ComprehensiveUpload.jsx:251-264 | keyed by the pair, two complete rows with different paragraphs make two sets |
| Uploads.KeyCollision | Greenwoods_FD/src/components/Admins/AddQuestion.jsx/ComprehensiveUpload.jsx:251-264 | as written, the rows (`a_b`, `c`) and (`a`, `b_c`) share the key `a_b_c` and become one set whose second sub-question is sent under the first row's paragraph; keyed by the pair they make two sets (see also Greenwoods_FD/src/components/SuperAdmin/AddQuestion.jsx/ComprehensiveUpload.jsx:185-197) |
| Uploads.PairKeyGroupsByPassage | Greenwoods_FD/src/components/Admins/AddQuestion.jsx/ComprehensiveUpload.jsx:241-293 | keyed by the pair, a set holds exactly the sub-questions of the complete rows with its own trimmed question and paragraph, and no two sets share both |
| Uploads.SumOfSubs | Greenwoods_FD/src/components/Admins/AddQuestion.jsx/ComprehensiveUpload.jsx:320 | the total the message reports is the sum of the sets' sub-question counts |
| Uploads.AdminMessageCountsRows | Greenwoods_FD/src/components/Admins/AddQuestion.jsx/ComprehensiveUpload.jsx:319-320 | the admin success message reports the number of sets and one question per complete row |
| AssignmentQuestions.Step | Greenwoods_FD/src/components/Students/ImmediateQuest/AssignmentQuestions.jsx:50-56 | a tick never leaves a negative time, and above one second it takes exactly one second off |
| AssignmentQuestions.CountdownLength | Greenwoods_FD/src/components/Students/ImmediateQuest/AssignmentQuestions.jsx:46-60 | a countdown from t milliseconds runs for ceil(t/1000) ticks: positive before the last one and zero after it |
| AssignmentQuestions.StaysZero | Greenwoods_FD/src/components/Students/ImmediateQuest/AssignmentQuestions.jsx:47 | once the time is zero no tick changes it |
| AssignmentQuestions.FormatRemainingIsClock | Greenwoods_FD/src/components/Students/ImmediateQuest/AssignmentQuestions.jsx:75-86 | the remaining time is printed as the clock of its whole seconds, and the early return for no time left prints what the clock prints for zero |
| AssignmentQuestions.FormatRemainingReadsBack | Greenwoods_FD/src/components/Students/ImmediateQuest/AssignmentQuestions.jsx:75-86 | a positive time prints as three digit fields, minutes and seconds below 60, that read back as its whole seconds |
| AssignmentQuestions.CorrectCount | Greenwoods_FD/src/components/Students/ImmediateQuest/AssignmentQuestions.jsx:110-115 | the loop never counts more questions than there are |
| AssignmentQuestions.MarksNearest | Greenwoods_FD/src/components/Students/ImmediateQuest/AssignmentQuestions.jsx:116 | the mark is the percentage of correct answers rounded to the nearest whole number, half rounding up, between 0 and 100 |
| AssignmentQuestions.TimeTakenNearest | Greenwoods_FD/src/components/Students/ImmediateQuest/AssignmentQuestions.jsx:107 | the minutes taken are the elapsed time rounded to the nearest minute, half a minute rounding up |
| AssignmentQuestions.FormatMinutesOfWholeMinutes | Greenwoods_FD/src/components/Students/ImmediateQuest/AssignmentQuestions.jsx:88-92 | whole minutes print as "0 minutes", "1 minute" or "t minutes" (see also line 208) |
| AssignmentQuestions.ArrayKeysNeverScore | Greenwoods_FD/src/components/Students/ImmediateQuest/AssignmentQuestions.jsx:111-115 | as written, a question whose key is an array is never counted, so a sheet of array keys scores zero whatever is answered |
| AssignmentQuestions.ArrayKeyExample | Greenwoods_FD/src/components/Students/ImmediateQuest/AssignmentQuestions.jsx:111-116 | the one question answered with its only correct key `["A"]` counts zero correct and 0 marks |
| AssignmentQuestions.MatchCount | Greenwoods_FD/src/components/Students/ImmediateQuest/AssignmentQuestions.jsx:110-115 | the corrected count never exceeds the number of questions |
| AssignmentQuestions.AllRightAllCounted | Greenwoods_FD/src/components/Students/ImmediateQuest/AssignmentQuestions.jsx:110-115 | with the corrected comparison, answering every question with its correct key counts every question |
| AssignmentQuestions.AllRightFullMarks | Greenwoods_FD/src/components/Students/ImmediateQuest/AssignmentQuestions.jsx:110-116 | with the corrected comparison, answering every question right gives 100 marks |
| AssignmentQuestions.CorrectionAgreesOnTextKeys | Greenwoods_FD/src/components/Students/ImmediateQuest/AssignmentQuestions.jsx:112 | on questions whose keys are all text, the corrected count equals the count as written |
| AssignmentQuestions.PagesAsOnAssessment | Greenwoods_FD/src/components/Students/ImmediateQuest/AssignmentQuestions.jsx:17 | a 1-based page here shows what 0-based page `page - 1` of the self-assessment screen shows, and the page counts agree (see also lines 162-166) |
| AssignmentQuestions.IndicatorPage | Greenwoods_FD/src/components/Students/ImmediateQuest/AssignmentQuestions.jsx:255-256 | the indicator of question i jumps to a page in range that shows question i |
| AssignmentQuestions.Attempt.constructor | Greenwoods_FD/src/components/Students/ImmediateQuest/AssignmentQuestions.jsx:8-14 | once the questions arrive nothing is answered or visited, the page is one and the time left is `Math.max(0, end - now)` when there is an end time (see also lines 27-35) |
| AssignmentQuestions.Attempt.Tick | Greenwoods_FD/src/components/Students/ImmediateQuest/AssignmentQuestions.jsx:46-60 | a tick applies one step to the time left and changes nothing else |
| AssignmentQuestions.Attempt.SelectAnswer | Greenwoods_FD/src/components/Students/ImmediateQuest/AssignmentQuestions.jsx:62-73 | overwrites this question's answer, marks it visited and keeps the page and the time |
| AssignmentQuestions.Attempt.PreviousPage | Greenwoods_FD/src/components/Students/ImmediateQuest/AssignmentQuestions.jsx:303-307 | away from page one, goes back one page and changes nothing else |
| AssignmentQuestions.Attempt.NextPage | Greenwoods_FD/src/components/Students/ImmediateQuest/AssignmentQuestions.jsx:313-317 | unless on the last page, goes forward one page and changes nothing else |
| AssignmentQuestions.Attempt.JumpTo | Greenwoods_FD/src/components/Students/ImmediateQuest/AssignmentQuestions.jsx:255-256 | the indicator of question i goes to page `floor(i / 5) + 1` and changes nothing else |
| AssignmentQuestions.Attempt.Score | Greenwoods_FD/src/components/Students/ImmediateQuest/AssignmentQuestions.jsx:105-116 | the counter, the marks and the minutes are the count of strictly equal answers, the rounded percentage and the rounded minutes |
| AssignmentQuestions.StatusAfterSelect | Greenwoods_FD/src/components/Students/ImmediateQuest/AssignmentQuestions.jsx:62-73 | after a non-empty answer its question shows as answered and every other question keeps its status (see also lines 169-173) |
| AssignmentQuestions.AnsweredIsNotUnvisited | Greenwoods_FD/src/components/Students/ImmediateQuest/AssignmentQuestions.jsx:169-173 | while every answered question is visited, a question with an answer is never shown as unvisited |
| AssignmentQuestions.ButtonsKeepPageInRange | Greenwoods_FD/src/components/Students/ImmediateQuest/AssignmentQuestions.jsx:303-317 | on a non-empty list the two buttons keep the page between 1 and the page count |
| AssignmentQuestions.EmptyListNextNeverDisabled | Greenwoods_FD/src/components/Students/ImmediateQuest/AssignmentQuestions.jsx:162 | with no questions the page count is 0, so Next is never disabled and every page it reaches is empty (see also line 315) |
| ChapterProgress.Tagged | Greenwoods_FD/src/components/Students/Home/ProgressChapterDetails.jsx:35-45 | one attempt per listed attempt, in order, each carrying the level it was listed under |
| ChapterProgress.AttemptsUpToMembers | Greenwoods_FD/src/components/Students/Home/ProgressChapterDetails.jsx:34-47 | an attempt is counted exactly when it is listed under one of the keys "1" to "5", and it carries that level |
| ChapterProgress.OtherKeysIgnored | Greenwoods_FD/src/components/Students/Home/ProgressChapterDetails.jsx:26 | keys other than "1" to "5" contribute no attempts (see also lines 34-35) |
| ChapterProgress.OtherKeysKeepPoints | Greenwoods_FD/src/components/Students/Home/ProgressChapterDetails.jsx:51-55 | keys other than "1" to "5" add no level to any chart point |
| ChapterProgress.FirstScoreAt | Greenwoods_FD/src/components/Students/Home/ProgressChapterDetails.jsx:52 | `find` finds a score exactly when some attempt has that timestamp |
| ChapterProgress.FirstScoreAtIsFirst | Greenwoods_FD/src/components/Students/Home/ProgressChapterDetails.jsx:52 | the score found is that of an attempt at that timestamp with no earlier attempt at it |
| ChapterProgress.LevelsAtSpec | Greenwoods_FD/src/components/Students/Home/ProgressChapterDetails.jsx:50-56 | a point carries `level{n}` exactly when n is 1 to 5 and level n has an attempt at that time, with the first such attempt's score |
| ChapterProgress.ProcessData | Greenwoods_FD/src/components/Students/Home/ProgressChapterDetails.jsx:22-75 | the totals count and sum every attempt of levels 1 to 5; the attempts are all of them, newest first, with attempts of equal timestamp kept in their collected order (level 1 to 5, then list order); and there is one chart point per distinct timestamp, in ascending order (see also Greenwoods_FD/src/components/Admins/Home/ProgressChapterDetails.jsx:44-91) |
| ChapterProgress.NewestFirstIsStableSort | Greenwoods_FD/src/components/Students/Home/ProgressChapterDetails.jsx:68-70 | an attempts list is newest first with ties in collected order exactly when it is the stable sort of the collected attempts by descending timestamp |
| ChapterProgress.SortedStamps | Greenwoods_FD/src/components/Students/Home/ProgressChapterDetails.jsx:28-32 | each counted timestamp once, in ascending order |
| ChapterProgress.BuildChart | Greenwoods_FD/src/components/Students/Home/ProgressChapterDetails.jsx:49-58 | one point per timestamp, in the timestamps' order |
| ChapterProgress.CountAttempts | Greenwoods_FD/src/components/Students/Home/ProgressChapterDetails.jsx:34-47 | the nested loops collect every attempt of levels 1 to 5, level by level, and count and sum them |
| ChapterProgress.CountLevel | Greenwoods_FD/src/components/Students/Home/ProgressChapterDetails.jsx:36-46 | the inner loop appends one level's attempts, tagged with the level, and keeps the count and the sum right |
| ChapterProgress.BuildPoint | Greenwoods_FD/src/components/Students/Home/ProgressChapterDetails.jsx:50-57 | the loop over the levels with `find` builds exactly the point for that timestamp |
| ChapterProgress.AverageBounds | Greenwoods_FD/src/components/Students/Home/ProgressChapterDetails.jsx:19 | with every score between 0 and the maximum of 45, so is the average; with no attempts it is 0 (see also line 60) |
| ChapterProgress.ExtraLevelOnlyListed | Greenwoods_FD/src/components/Students/Home/ProgressChapterDetails.jsx:34-58 | data under keys other than "1" to "5" changes neither the totals nor the chart, though its key is listed as an available level (see also line 73) |
| ChapterProgress.LevelGraphPoints | Greenwoods_FD/src/components/Students/Home/ProgressChapterDetails.jsx:108-115 | for a level 1 to 5 present in the data the graph is drawn and has a point at a timestamp exactly when the level has an attempt then |
| ChapterProgress.StampCounted | Greenwoods_FD/src/components/Students/Home/ProgressChapterDetails.jsx:28-32 | a timestamp of a level 1 to 5 attempt is one of the chart's (see also line 52) |
| ChapterProgress.MissingLevelNoGraph | Greenwoods_FD/src/components/Students/Home/ProgressChapterDetails.jsx:110 | a level key absent from the data draws no graph |
| ChapterProgress.ProgressView.constructor | Greenwoods_FD/src/components/Students/Home/ProgressChapterDetails.jsx:9-17 | no attempts, a zero average, no chart, no levels and no error |
| ChapterProgress.ProgressView.StudentFetch | Greenwoods_FD/src/components/Students/Home/ProgressChapterDetails.jsx:77-98 | a failure records the error and keeps whatever was shown; a reply shows its processed progress, with the attempts in the stable newest-first order |
| ChapterProgress.ProgressView.AdminFetch | Greenwoods_FD/src/components/Admins/Home/ProgressChapterDetails.jsx:19-38 | the chart and the levels are cleared and the error reset first, so a failure leaves an empty chart; a reply shows its processed progress, with the attempts in the stable newest-first order |
| ChapterProgress.ProgressView.Show | Greenwoods_FD/src/components/Students/Home/ProgressChapterDetails.jsx:87-91 | the totals, the average, the attempts newest first (equal timestamps in collected order), the chart and the available levels are those of the data (see also Greenwoods_FD/src/components/Admins/Home/ProgressChapterDetails.jsx:40-49) |
| ChapterQuestions.QuestionsOf | Greenwoods_FD/src/components/SuperAdmin/DownloadQuestions/ChapterQuestions.jsx:44-57 | a failed request or a `null` body ends with no questions (see also lines 67-70) |
| ChapterQuestions.ResponsePrecedence | Greenwoods_FD/src/components/SuperAdmin/DownloadQuestions/ChapterQuestions.jsx:51-57 | a bare array is the list; otherwise `data` wins over `questions`, and an object with neither array gives no questions |
| ChapterQuestions.Normalize | Greenwoods_FD/src/components/SuperAdmin/DownloadQuestions/ChapterQuestions.jsx:60-64 | a question keeps its id and text, always has options (its own when it had some) and a truthy correct answer (its own when truthy, else `[]`) |
| ChapterQuestions.NormalizeIdempotent | Greenwoods_FD/src/components/SuperAdmin/DownloadQuestions/ChapterQuestions.jsx:60-64 | normalising a normalised question changes nothing |
| ChapterQuestions.NormalizeAll | Greenwoods_FD/src/components/SuperAdmin/DownloadQuestions/ChapterQuestions.jsx:60-64 | one normalised question per question, in the order the server sent them |
| ChapterQuestions.QuestionList.constructor | Greenwoods_FD/src/components/SuperAdmin/DownloadQuestions/ChapterQuestions.jsx:24-26 | no questions, not loading, type `remember` |
| ChapterQuestions.QuestionList.Fetch | Greenwoods_FD/src/components/SuperAdmin/DownloadQuestions/ChapterQuestions.jsx:37-74 | the list becomes the normalised questions of the response, or empty on any failure, and loading ends either way |
| ChapterQuestions.FetchedListIsNormal | Greenwoods_FD/src/components/SuperAdmin/DownloadQuestions/ChapterQuestions.jsx:60-66 | after a fetch every listed question has options and a truthy correct answer, in server order |
| ChapterQuestions.CleanLatexShape | Greenwoods_FD/src/components/SuperAdmin/DownloadQuestions/ChapterQuestions.jsx:76-79 | the cleaned text has no whitespace at its ends and no two whitespace characters in a row; a text without a backslash is only collapsed and trimmed |
| ChapterQuestions.RenderMathIffBackslash | Greenwoods_FD/src/components/SuperAdmin/DownloadQuestions/ChapterQuestions.jsx:81-91 | a text is shown as math exactly when a backslash survives cleaning, and a text without a backslash is always plain text |
| ChapterQuestions.CleanTextShape | Greenwoods_FD/src/components/SuperAdmin/DownloadQuestions/ChapterQuestions.jsx:147-150 | the PDF text has no backslash, no whitespace at its ends and no two whitespace characters in a row |
| ChapterQuestions.CleanTextIdempotent | Greenwoods_FD/src/components/SuperAdmin/DownloadQuestions/ChapterQuestions.jsx:147-150 | cleaning a cleaned PDF text changes nothing |
| ChapterQuestions.PdfLayout.constructor | Greenwoods_FD/src/components/SuperAdmin/DownloadQuestions/ChapterQuestions.jsx:139-145 | writing starts at the top margin of page one |
| ChapterQuestions.PdfLayout.AddTextBlock | Greenwoods_FD/src/components/SuperAdmin/DownloadQuestions/ChapterQuestions.jsx:152-164 | a block that would cross the bottom margin starts a new page at the top margin, the cursor then moves past the block and a 2-unit gap, and a block that fits on a page never crosses the bottom margin |
| ChapterQuestions.PdfLayout.Skip | Greenwoods_FD/src/components/SuperAdmin/DownloadQuestions/ChapterQuestions.jsx:208 | the fixed gaps move the cursor down and keep the page (see also lines 228, 237) |
| ChapterQuestions.BlocksDoNotOverlap | Greenwoods_FD/src/components/SuperAdmin/DownloadQuestions/ChapterQuestions.jsx:152-164 | two blocks that each fit on a page, written one after the other, never overlap |
| ChapterQuestions.Headings | Greenwoods_FD/src/components/SuperAdmin/DownloadQuestions/ChapterQuestions.jsx:189-199 | one heading per question, numbered from 1 in list order |
| ChapterQuestions.HeadingNumber | Greenwoods_FD/src/components/SuperAdmin/DownloadQuestions/ChapterQuestions.jsx:199 | the number in a heading reads back as the question's position plus one and is followed by ". " |
| ChapterQuestions.HeadingsDiffer | Greenwoods_FD/src/components/SuperAdmin/DownloadQuestions/ChapterQuestions.jsx:199 | questions at different positions get different headings |

## Left out

- Server traffic: every `fetch`/`axios` call is a parameter (the reply it got, or its failure), and the server's own behaviour is not part of this model; overlapping requests are applied in the order given, so races between replies are not modelled.
- Local storage: the logged-in user's id is a parameter.
- Rendering: markup, styling, charts, KaTeX rendering, toasts, loading spinners, error banners and modal visibility flags are not modelled, except where a flag decides what a handler does.
- Browser file reading: `FileReader` and the XLSX parsing are outside the model. Uploads start from parsed rows in which every cell is text or missing, and the McqUpload image conversion (which stores a Promise) is modelled only as an image being present or absent.
- Uploads.Entries, Uploads.GroupRows and Uploads.ProcessComprehensionSheet: every cell is assumed to be text. `sheet_to_json` returns numbers for numeric cells, and a numeric Question, Paragraph or SubQuestion cell makes `.trim()` throw, which aborts the whole comprehension upload (admin ComprehensiveUpload.jsx:242-244, super ComprehensiveUpload.jsx:175-177). The model does not capture that abort.
- Uploads.AnswerList: a numeric answer cell makes `.split(',')` throw and aborts the upload (admin ComprehensiveUpload.jsx:288, super ComprehensiveUpload.jsx:205, McqUpload.jsx:163). The model reads every answer cell as text.
- Uploads.McqSheet and Uploads.McqQuestionOf: numeric question or option cells are sent as JSON numbers (McqUpload.jsx:157-161). The model carries every cell as text, so it does not distinguish a number from its text.
- Drag and drop in the self-assessment: the `dragState` record and its reset effect (AssignmentsAvailable.js:131-136, 411-425) only feed the display; a drop is modelled as the `HandleAnswer` call it makes with the one dragged key.
- Plain text setters of the editors (question, option, paragraph, sub-question, sub-option and solution text changes) only copy an input's text into state, and the form `maxLength` caps are enforced by the input widgets; neither is modelled.
- Timestamps written into request bodies (the ISO time of ComprehensiveUpload.jsx:308-316 and of the score posts) are not modelled; times are integer milliseconds or seconds passed in.
- The super-admin question form's `finalData` (AddQuestionAndOptions.jsx:226-246) is only logged to the console and is not modelled.
- AddStudent's single-student form (`onFinish`, AddStudent.jsx:123-153) only posts the form values with the user id; it is not modelled.
- The class, subject, chapter and student list fetches of both class progress modals (admin ClassProgress.jsx:118-159, super ClassProgress.jsx:125-182) are not modelled; the lists are parameters of the handlers. The super modal fetches students with a fixed admin id (line 174), which the model does not reproduce.
- HomePage's add-student modal (`showModal`/`handleModalClose`, HomePage.jsx:82-88) and `getRandomColor` (line 90, a random card colour) are not modelled.
- ChapterQuestions: the type tab setter (`handleTypeChange`, lines 121-123) only triggers a new fetch, which `QuestionList.Fetch` models; option rendering, LaTeX-to-string rendering, image placement in the PDF (lines 166-187) and `doc.save` are not modelled, and every text block goes through `PdfLayout.AddTextBlock`.
- ImmediateQuest: the assignment fetch (lines 21-44) and `formatDate` (lines 105-108, a locale date string) are not modelled.
- AssignmentQuestions: the question fetch and the score post (lines 119-133) are not modelled beyond the body's marks and minutes.
- The admin LatestLevelDetails chart configuration is presentation only and is not modelled.
- Floating point: percentages and averages are exact rationals or integers, and `toFixed`/`toLocaleString` formatting is not modelled.
- AssignmentQuestions.Attempt.Score: `Math.round` of a floating-point quotient is modelled as exact rounding half up; floating-point ties that land just below one half are not reproduced.
- ChapterProgress.SortedStamps: the source sorts timestamps with the default `.sort()`, which compares them as strings; the model sorts them as numbers, which agrees for timestamps of the same number of digits.
- HomePage.GroupStudents: the class keys are kept in order of first appearance; the browser's `Object.keys` lists class names that look like array indices ("1", "12") first, in ascending numeric order, and the model does not reproduce that reordering.
- SuperClassModal.ClassSelection: `Number()` is modelled for numbers, blank text and plain decimal digits; signed, fractional, hexadecimal and exponent text is read as NaN.
- Object keys such as `__proto__` that JavaScript objects treat specially are modelled as ordinary keys.
- LevelDetails.CapitalizeFacts: upper-casing the first letter is modelled for ASCII letters only, while `toUpperCase` follows full Unicode case mapping (where 'ß' becomes "SS"); the keys it is applied to are fixed ASCII category names.
- OngoingAddQuestion.FormErrorsSpec: strings are sequences of Unicode characters, while JavaScript lengths count UTF-16 code units, so the 10-character minimum is counted differently for text with characters outside the Basic Multilingual Plane. The same holds for every length the model takes of a string.

## Findings

| source | as written | input that shows it | evidently intended | confidence | as-written member | corrected member |
|---|---|---|---|---|---|---|
| Greenwoods_FD/src/components/Students/Assignments/AssignmentsAvailable.js:116-129 | when the countdown reaches 0 the timer effect calls `handleSubmit`, which clears `timerActive`; that change re-runs the effect while `timeLeft` is still 0, so it submits a second time | any attempt left to run until its time is up | one submission when time runs out | not executed | Assessment.RunOut | Assessment.Session.TickLatched |
| Greenwoods_FD/src/components/SuperAdmin/AddQuestion.jsx/AddQuestionAndOptions.jsx:206-212 | the Comprehension check needs every sub-question's `correctAnswer` to be a non-blank string, but a sub-question starts with `''` (line 43), which reads as unanswered, and the answer setter (line 98) always stores an array, on which `.trim` throws | a Comprehension question whose sub-answers are all filled in | a filled sub-answer, string or non-empty array, passes | not executed | SuperAddQuestion.ComprehensionNeverAccepted | SuperAddQuestion.FixedCheckSpec |
| Greenwoods_FD/src/components/Students/ImmediateQuest/AssignmentQuestions.jsx:112 | an answer scores only when it is strictly equal to `correctAnswer`, which never holds when the key is an array | one question whose key is `["A"]`, answered "A": 0 marks | an answer counts when it matches the key | not executed | AssignmentQuestions.ArrayKeysNeverScore | AssignmentQuestions.AllRightFullMarks |
| Greenwoods_FD/src/components/Admins/Addstudents/AddStudent.jsx:84-111 | `jsonData` is set in the reader's `onload`, which runs after the submit handler has already posted the previous `jsonData` | choose a file and submit it at once: the body is empty | the rows of the chosen file are posted | not executed | AddStudent.FirstSubmitPostsNothing | AddStudent.LoadedSubmitPostsRows |
| Greenwoods_FD/src/components/Admins/AddQuestion.jsx/ComprehensiveUpload.jsx:251 | passages are grouped by the key `question + "_" + paragraph`, so two different pairs can share a key | rows ("a_b", "c") and ("a", "b_c") both give "a_b_c" | one group per (question, paragraph) pair | not executed | Uploads.KeyCollision | Uploads.PairKeyGroupsByPassage |
| Greenwoods_FD/src/components/Students/Assignments/AssignmentsAvailable.js:610-611 | the review screen marks an answer right when the joined strings are equal, which depends on order and marks wrong an unanswered question whose key list is empty, while the scorer (lines 242-248) ignores order and counts that question as right | key ["A","B"] answered ["B","A"]: scored right, shown wrong | the review mark agrees with the score | not executed | AssessmentView.ReviewMarkDisagreesWithScorer | AssessmentView.CorrectedReviewMatchesScore |
