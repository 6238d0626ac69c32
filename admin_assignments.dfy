// The admin's assignment screen: the three status lists, the modal a click
// opens, and the creation form with its section choices, required fields
// and recipient list.

module Assignments {
  import opened Dates
  import opened Outcomes
  import opened Collections

  datatype AdminAssignment = AdminAssignment(id: string, start: Instant, end: Instant)

  predicate IsUpcoming(now: Instant, a: AdminAssignment) {
    Before(now, a.start)
  }

  predicate IsOngoing(now: Instant, a: AdminAssignment) {
    NotAfter(a.start, now) && Before(now, a.end)
  }

  predicate IsCompleted(now: Instant, a: AdminAssignment) {
    NotAfter(a.end, now)
  }

  function Upcoming(xs: seq<AdminAssignment>, now: Instant): seq<AdminAssignment> {
    Filter(xs, (a: AdminAssignment) => IsUpcoming(now, a))
  }

  function Ongoing(xs: seq<AdminAssignment>, now: Instant): seq<AdminAssignment> {
    Filter(xs, (a: AdminAssignment) => IsOngoing(now, a))
  }

  function Completed(xs: seq<AdminAssignment>, now: Instant): seq<AdminAssignment> {
    Filter(xs, (a: AdminAssignment) => IsCompleted(now, a))
  }

  /** A well-formed window: two valid dates, the start not after the end. */
  predicate WellFormed(a: AdminAssignment) {
    NotAfter(a.start, a.end)
  }

  /** With well-formed windows the three lists split the assignments: each
      one is in exactly one list, as often as in the input. */
  lemma ListsPartition(xs: seq<AdminAssignment>, now: Instant, x: AdminAssignment)
    requires now.At? && forall i :: 0 <= i < |xs| ==> WellFormed(xs[i])
    ensures multiset(Upcoming(xs, now))[x] + multiset(Ongoing(xs, now))[x]
      + multiset(Completed(xs, now))[x] == multiset(xs)[x]
  {
    FilterMultiset(xs, (a: AdminAssignment) => IsUpcoming(now, a), x);
    FilterMultiset(xs, (a: AdminAssignment) => IsOngoing(now, a), x);
    FilterMultiset(xs, (a: AdminAssignment) => IsCompleted(now, a), x);
    if x in xs {
      var i :| 0 <= i < |xs| && xs[i] == x;
      assert WellFormed(x);
    }
  }

  /** A window whose start is after its end is listed twice between the two
      dates, as upcoming and as completed. */
  lemma InvertedWindowListedTwice(a: AdminAssignment, now: Instant)
    requires a.start.At? && a.end.At? && now.At? && a.end.ms <= now.ms < a.start.ms
    ensures a in Upcoming([a], now) && a in Completed([a], now) && a !in Ongoing([a], now)
  {
    FilterMembers([a], (x: AdminAssignment) => IsUpcoming(now, x), a);
    FilterMembers([a], (x: AdminAssignment) => IsOngoing(now, x), a);
    FilterMembers([a], (x: AdminAssignment) => IsCompleted(now, x), a);
  }

  /** An assignment with an invalid date is in no list. */
  lemma InvalidDateListedNowhere(a: AdminAssignment, now: Instant)
    requires a.start == InvalidDate && a.end == InvalidDate
    ensures Upcoming([a], now) == [] && Ongoing([a], now) == [] && Completed([a], now) == []
  {
    assert [a][..0] == [];
  }

  datatype Modal = UpcomingModal | OngoingModal | CompletedModal

  /** showAssignmentModal: completed is checked first, then upcoming. */
  function ModalFor(a: AdminAssignment, now: Instant): Modal {
    if NotAfter(a.end, now) then CompletedModal
    else if Before(now, a.start) then UpcomingModal
    else OngoingModal
  }

  /** For a well-formed window the modal opened is the list the assignment
      is shown in. */
  lemma ModalMatchesList(a: AdminAssignment, now: Instant)
    requires now.At? && WellFormed(a)
    ensures ModalFor(a, now) == CompletedModal <==> IsCompleted(now, a)
    ensures ModalFor(a, now) == UpcomingModal <==> IsUpcoming(now, a)
    ensures ModalFor(a, now) == OngoingModal <==> IsOngoing(now, a)
  {
  }

  /** A student as the screen loads it. */
  datatype Student = Student(id: string, class_: string, section: string)

  /** The section choices after choosing a class: the distinct sections of
      that class's students, in order of first appearance. */
  function SectionsOf(students: seq<Student>, cls: string): (r: seq<string>)
  {
    var inClass := Filter(students, (s: Student) => s.class_ == cls);
    Dedupe(seq(|inClass|, i requires 0 <= i < |inClass| => inClass[i].section))
  }

  /** A section is offered exactly when a student of the class has it, and
      is offered once. */
  lemma SectionsOfSpec(students: seq<Student>, cls: string, sec: string)
    ensures sec in SectionsOf(students, cls) <==>
      exists s :: s in students && s.class_ == cls && s.section == sec
    ensures NoDuplicates(SectionsOf(students, cls))
  {
    var inClass := Filter(students, (s: Student) => s.class_ == cls);
    var secs := seq(|inClass|, i requires 0 <= i < |inClass| => inClass[i].section);
    DedupeSpec(secs);
    if sec in SectionsOf(students, cls) {
      var i :| 0 <= i < |secs| && secs[i] == sec;
      FilterMembers(students, (s: Student) => s.class_ == cls, inClass[i]);
    }
    if exists s :: s in students && s.class_ == cls && s.section == sec {
      var s :| s in students && s.class_ == cls && s.section == sec;
      FilterMembers(students, (st: Student) => st.class_ == cls, s);
      var i :| 0 <= i < |inClass| && inClass[i] == s;
      assert secs[i] == sec;
    }
  }

  /** The creation form. The two times are `null` until a date is picked. */
  datatype FormData = FormData(title: string, description: string, class_: string, section: string,
                               startTime: Option<string>, endTime: Option<string>, createdBy: string)

  function BlankForm(userId: string): FormData {
    FormData("", "", "", "", None, None, userId)
  }

  datatype Field = Title | Description | ClassField | SectionField | StartTime | EndTime

  /** handleChange: the named field takes the value. */
  function WithField(f: FormData, field: Field, value: string): FormData {
    match field
    case Title => f.(title := value)
    case Description => f.(description := value)
    case ClassField => f.(class_ := value)
    case SectionField => f.(section := value)
    case StartTime => f.(startTime := Some(value))
    case EndTime => f.(endTime := Some(value))
  }

  function Get(f: FormData, field: Field): Option<string> {
    match field
    case Title => Some(f.title)
    case Description => Some(f.description)
    case ClassField => Some(f.class_)
    case SectionField => Some(f.section)
    case StartTime => f.startTime
    case EndTime => f.endTime
  }

  /** handleChange changes the named field and no other. */
  lemma WithFieldOnlyThat(f: FormData, field: Field, value: string, other: Field)
    ensures Get(WithField(f, field, value), field) == Some(value)
    ensures other != field ==> Get(WithField(f, field, value), other) == Get(f, other)
    ensures WithField(f, field, value).createdBy == f.createdBy
  {
  }

  predicate Truthy(v: Option<string>) {
    v.Some? && v.value != ""
  }

  /** The guard of handleSubmit: every one of the six fields is filled. */
  predicate Complete(f: FormData) {
    forall field: Field :: Truthy(Get(f, field))
  }

  /** What the bulk request assigns: one entry per student. */
  datatype Recipient = Recipient(studentId: string, assignmentId: string)

  /** The students of the chosen class and section, in list order. */
  function Recipients(students: seq<Student>, f: FormData, assignmentId: string): (r: seq<Recipient>)
  {
    var chosen := Filter(students, (s: Student) => s.class_ == f.class_ && s.section == f.section);
    seq(|chosen|, i requires 0 <= i < |chosen| => Recipient(chosen[i].id, assignmentId))
  }

  /** Exactly the students of the class and section receive the assignment. */
  lemma RecipientsSpec(students: seq<Student>, f: FormData, assignmentId: string, s: Student)
    ensures Recipient(s.id, assignmentId) in Recipients(students, f, assignmentId) <==>
      exists t :: t in students && t.id == s.id && t.class_ == f.class_ && t.section == f.section
  {
    var keep := (t: Student) => t.class_ == f.class_ && t.section == f.section;
    var chosen := Filter(students, keep);
    var r := Recipients(students, f, assignmentId);
    if Recipient(s.id, assignmentId) in r {
      var i :| 0 <= i < |r| && r[i] == Recipient(s.id, assignmentId);
      FilterMembers(students, keep, chosen[i]);
    }
    if exists t :: t in students && t.id == s.id && t.class_ == f.class_ && t.section == f.section {
      var t :| t in students && t.id == s.id && t.class_ == f.class_ && t.section == f.section;
      FilterMembers(students, keep, t);
      var i :| 0 <= i < |chosen| && chosen[i] == t;
      assert r[i] == Recipient(s.id, assignmentId);
    }
  }

  /** What one press of the create button ends in. */
  datatype SubmitOutcome =
    | MissingFields           // "Please fill in all fields": nothing sent
    | CreateFailed            // the assignment POST failed
    | NoRecipients            // created, but no student matches: form kept
    | Assigned(count: nat)    // created and the bulk request sent

  class AssignmentForm {
    var formData: FormData
    var sections: seq<string>

    constructor (userId: string)
      ensures formData == BlankForm(userId) && sections == []
    {
      formData := BlankForm(userId);
      sections := [];
    }

    /** handleClassChange: sets the class, clears the section and offers the
        class's sections. */
    method ClassChange(students: seq<Student>, value: string)
      modifies this
      ensures formData == old(formData).(class_ := value, section := "")
      ensures sections == SectionsOf(students, value)
    {
      formData := formData.(class_ := value, section := "");
      sections := SectionsOf(students, value);
    }

    method Change(field: Field, value: string)
      modifies this
      ensures formData == WithField(old(formData), field, value)
      ensures sections == old(sections)
    {
      formData := WithField(formData, field, value);
    }

    /** handleSubmit. `created` is the new assignment's id, or None when
        its POST failed; the bulk request's own failure only warns. The form
        is reset to a blank one owned by `userId` only after the bulk request
        was sent. */
    method Submit(students: seq<Student>, created: Option<string>, userId: string)
      returns (outcome: SubmitOutcome, bulk: seq<Recipient>)
      modifies this
      ensures !Complete(old(formData)) ==> outcome == MissingFields && bulk == []
      ensures Complete(old(formData)) && created.None? ==> outcome == CreateFailed && bulk == []
      ensures Complete(old(formData)) && created.Some? ==>
        bulk == Recipients(students, old(formData), created.value)
        && (bulk == [] ==> outcome == NoRecipients)
        && (bulk != [] ==> outcome == Assigned(|bulk|))
      ensures outcome.Assigned? ==> formData == BlankForm(userId)
      ensures !outcome.Assigned? ==> formData == old(formData)
      ensures sections == old(sections)
    {
      bulk := [];
      if !(Truthy(Some(formData.title)) && Truthy(Some(formData.description)) && Truthy(Some(formData.class_))
           && Truthy(Some(formData.section)) && Truthy(formData.startTime) && Truthy(formData.endTime)) {
        assert !Truthy(Get(formData, Title)) || !Truthy(Get(formData, Description)) || !Truthy(Get(formData, ClassField))
          || !Truthy(Get(formData, SectionField)) || !Truthy(Get(formData, StartTime)) || !Truthy(Get(formData, EndTime));
        return MissingFields, [];
      }
      assert forall field: Field :: Truthy(Get(formData, field)) by {
        forall field: Field ensures Truthy(Get(formData, field)) {
          match field
          case Title =>
          case Description =>
          case ClassField =>
          case SectionField =>
          case StartTime =>
          case EndTime =>
        }
      }
      if created.None? {
        return CreateFailed, [];
      }
      bulk := Recipients(students, formData, created.value);
      if |bulk| == 0 {
        return NoRecipients, bulk;
      }
      outcome := Assigned(|bulk|);
      formData := BlankForm(userId);
    }
  }
}
