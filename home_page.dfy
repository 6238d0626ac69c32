// The super-admin's student directory: students grouped by class into
// cards, and the class/student drill-down with its header.

module HomePage {
  import opened Outcomes
  import opened Collections

  /** A student as listed; the class is the grouping key as a string. */
  datatype Student = Student(name: string, class_: string)

  function Classes(students: seq<Student>): (r: seq<string>)
    ensures |r| == |students| && forall i :: 0 <= i < |students| ==> r[i] == students[i].class_
  {
    seq(|students|, i requires 0 <= i < |students| => students[i].class_)
  }

  /** The students of one class, in list order. */
  function GroupOf(students: seq<Student>, c: string): seq<Student> {
    Filter(students, (s: Student) => s.class_ == c)
  }

  /** The accumulator after the students `done`: one key per class in order
      of first appearance, and each class's students. */
  predicate Grouped(done: seq<Student>, keys: seq<string>, groups: map<string, seq<Student>>) {
    keys == Dedupe(Classes(done))
    && groups.Keys == set c | c in keys
    && forall c :: c in groups ==> groups[c] == GroupOf(done, c)
  }

  /** groupedStudents: the `reduce` that pushes each student onto its
      class's array, creating the array on the class's first student. */
  method GroupStudents(students: seq<Student>) returns (keys: seq<string>, groups: map<string, seq<Student>>)
    ensures Grouped(students, keys, groups)
  {
    keys, groups := [], map[];
    var i := 0;
    while i < |students|
      invariant 0 <= i <= |students|
      invariant Grouped(students[..i], keys, groups)
    {
      var s := students[i];
      PushPrefix(students, i, keys, groups);
      var current := if s.class_ in groups then groups[s.class_] else [];
      keys, groups := if s.class_ in keys then keys else keys + [s.class_], groups[s.class_ := current + [s]];
      i := i + 1;
    }
    assert students[..|students|] == students;
  }

  lemma PushPrefix(students: seq<Student>, i: nat, keys: seq<string>, groups: map<string, seq<Student>>)
    requires i < |students| && Grouped(students[..i], keys, groups)
    ensures var s := students[i];
      var current := if s.class_ in groups then groups[s.class_] else [];
      Grouped(students[..i + 1], if s.class_ in keys then keys else keys + [s.class_], groups[s.class_ := current + [s]])
  {
    assert students[..i + 1] == students[..i] + [students[i]];
    Push(students[..i], students[i], keys, groups);
  }

  /** One step of the reduce keeps the accumulator right. */
  lemma Push(done: seq<Student>, s: Student, keys: seq<string>, groups: map<string, seq<Student>>)
    requires Grouped(done, keys, groups)
    ensures var current := if s.class_ in groups then groups[s.class_] else [];
      Grouped(done + [s], if s.class_ in keys then keys else keys + [s.class_], groups[s.class_ := current + [s]])
  {
    PushKeys(done, s, keys);
    PushGroups(done, s, keys, groups);
  }

  lemma PushGroups(done: seq<Student>, s: Student, keys: seq<string>, groups: map<string, seq<Student>>)
    requires Grouped(done, keys, groups)
    ensures var current := if s.class_ in groups then groups[s.class_] else [];
      var groups' := groups[s.class_ := current + [s]];
      var keys' := if s.class_ in keys then keys else keys + [s.class_];
      && groups'.Keys == set c | c in keys'
      && forall c :: c in groups' ==> groups'[c] == GroupOf(done + [s], c)
  {
    PushGroupKeys(s, keys, groups);
    var current := if s.class_ in groups then groups[s.class_] else [];
    var groups' := groups[s.class_ := current + [s]];
    forall c | c in groups'
      ensures groups'[c] == GroupOf(done + [s], c)
    {
      GroupOfPush(done, s, c);
      if c == s.class_ && s.class_ !in groups {
        AbsentClass(done, c);
      }
    }
  }

  lemma PushGroupKeys(s: Student, keys: seq<string>, groups: map<string, seq<Student>>)
    requires groups.Keys == set c | c in keys
    ensures var current := if s.class_ in groups then groups[s.class_] else [];
      var keys' := if s.class_ in keys then keys else keys + [s.class_];
      groups[s.class_ := current + [s]].Keys == set c | c in keys'
  {
    var keys' := if s.class_ in keys then keys else keys + [s.class_];
    assert (set c | c in keys') == (set c | c in keys) + {s.class_};
  }

  /** The keys grow by the student's class the first time it is seen. */
  lemma PushKeys(done: seq<Student>, s: Student, keys: seq<string>)
    requires keys == Dedupe(Classes(done))
    ensures Dedupe(Classes(done + [s])) == if s.class_ in keys then keys else keys + [s.class_]
  {
    var cs := Classes(done);
    assert Classes(done + [s]) == cs + [s.class_];
    DedupeAppend(cs, s.class_);
    DedupeSpec(cs);
  }

  /** Grouping one more student adds it to its own class's group only. */
  lemma GroupOfPush(done: seq<Student>, s: Student, c: string)
    ensures GroupOf(done + [s], c) == GroupOf(done, c) + (if s.class_ == c then [s] else [])
  {
    assert (done + [s])[..|done + [s]| - 1] == done;
  }

  /** A class no student has has an empty group. */
  lemma AbsentClass(done: seq<Student>, c: string)
    requires c !in Dedupe(Classes(done))
    ensures GroupOf(done, c) == []
  {
    DedupeSpec(Classes(done));
    if GroupOf(done, c) != [] {
      var x := GroupOf(done, c)[0];
      FilterMembers(done, (t: Student) => t.class_ == c, x);
    }
  }

  /** A student appears in its own class's group exactly as often as in the
      list, and in no other group. */
  lemma EachStudentOnce(students: seq<Student>, c: string, s: Student)
    ensures multiset(GroupOf(students, c))[s] == if s.class_ == c then multiset(students)[s] else 0
  {
    FilterMultiset(students, (t: Student) => t.class_ == c, s);
  }

  /** The groups are exactly the classes that occur, each listed once, and
      every group is non-empty. */
  lemma GroupsAreTheClasses(students: seq<Student>, c: string)
    ensures c in Dedupe(Classes(students)) <==> exists s :: s in students && s.class_ == c
    ensures c in Dedupe(Classes(students)) ==> |GroupOf(students, c)| >= 1
    ensures NoDuplicates(Dedupe(Classes(students)))
  {
    DedupeSpec(Classes(students));
    var cs := Classes(students);
    if c in cs {
      var i :| 0 <= i < |cs| && cs[i] == c;
      FilterMembers(students, (t: Student) => t.class_ == c, students[i]);
    }
    if exists s :: s in students && s.class_ == c {
      var s :| s in students && s.class_ == c;
      var i :| 0 <= i < |students| && students[i] == s;
      assert cs[i] == c;
    }
  }

  /** Groups keep list order: grouping a longer list extends each group by
      the new students of that class. */
  lemma GroupKeepsOrder(xs: seq<Student>, ys: seq<Student>, c: string)
    ensures GroupOf(xs + ys, c) == GroupOf(xs, c) + GroupOf(ys, c)
  {
    FilterConcat(xs, ys, (t: Student) => t.class_ == c);
  }

  /** The drill-down state. */
  class Directory {
    var selectedClass: Option<string>
    var selectedStudent: Option<Student>

    constructor ()
      ensures selectedClass == None && selectedStudent == None
    {
      selectedClass := None;
      selectedStudent := None;
    }

    method ClassClick(c: string)
      modifies this
      ensures selectedClass == Some(c) && selectedStudent == old(selectedStudent)
    {
      selectedClass := Some(c);
    }

    method StudentClick(s: Student)
      modifies this
      ensures selectedStudent == Some(s) && selectedClass == old(selectedClass)
    {
      selectedStudent := Some(s);
    }

    /** handleBackToStudents clears only the student. */
    method BackToStudents()
      modifies this
      ensures selectedStudent == None && selectedClass == old(selectedClass)
    {
      selectedStudent := None;
    }

    /** handleBackToClasses clears only the class. */
    method BackToClasses()
      modifies this
      ensures selectedClass == None && selectedStudent == old(selectedStudent)
    {
      selectedClass := None;
    }
  }

  datatype Header = StudentDetails(name: string) | ClassStudents(c: string) | StudentDirectory

  /** The page title: the student first, then a (non-empty) class, then the
      directory. */
  function HeaderOf(selectedClass: Option<string>, selectedStudent: Option<Student>): (h: Header)
    ensures selectedStudent.Some? <==> h.StudentDetails?
    ensures h.ClassStudents? <==> selectedStudent.None? && selectedClass.Some? && selectedClass.value != ""
    ensures h.StudentDetails? ==> h.name == selectedStudent.value.name
    ensures h.ClassStudents? ==> h.c == selectedClass.value
  {
    if selectedStudent.Some? then StudentDetails(selectedStudent.value.name)
    else if selectedClass.Some? && selectedClass.value != "" then ClassStudents(selectedClass.value)
    else StudentDirectory
  }

  /** Going back from a student shows the class again; going back from the
      class shows the directory. */
  method BackAndForth(c: string, s: Student) returns (afterStudent: Header, afterClass: Header)
    requires c != ""
    ensures afterStudent == ClassStudents(c) && afterClass == StudentDirectory
  {
    var d := new Directory();
    d.ClassClick(c);
    d.StudentClick(s);
    d.BackToStudents();
    afterStudent := HeaderOf(d.selectedClass, d.selectedStudent);
    d.BackToClasses();
    afterClass := HeaderOf(d.selectedClass, d.selectedStudent);
  }
}
