// The admin's class progress modal: the chapter's monthly top marks become
// one chart row per month label, where a later mark for the same level and
// month overwrites an earlier one, and the marks of levels 1 to 5 are
// averaged.

module AdminClassProgress {
  import opened Outcomes
  import opened Strings
  import opened Collections
  import Sorting

  /** One entry of `topMarksByMonth`. */
  datatype TopMark = TopMark(level: int, topScore: int, month: int, year: int)

  const MonthNames: seq<string> := ["JAN", "FEB", "MAR", "APR", "MAY", "JUN", "JUL", "AUG", "SEP", "OCT", "NOV", "DEC"]

  /** `monthNames[month - 1]` inside a template literal: a month outside
      1 to 12 reads past the table and renders as "undefined". */
  function MonthName(month: int): string {
    if 1 <= month <= 12 then MonthNames[month - 1] else "undefined"
  }

  /** A template literal's rendering of an integer. */
  function IntToString(n: int): string {
    if n < 0 then "-" + NatToString(-n) else NatToString(n)
  }

  /** `${monthName}-${year}`. */
  function Label(e: TopMark): string {
    MonthName(e.month) + "-" + IntToString(e.year)
  }

  lemma {:induction false} DecimalInjective(a: nat, b: nat)
    requires NatToString(a) == NatToString(b)
    ensures a == b
  {
    DecimalRoundTrip(a);
    DecimalRoundTrip(b);
  }

  /** Month m of 1 to 12 is labelled with the m-th of JAN to DEC, and two
      marks of real months and non-negative years share a label exactly
      when they share month and year. */
  lemma LabelInjective(a: TopMark, b: TopMark)
    requires 1 <= a.month <= 12 && 1 <= b.month <= 12 && a.year >= 0 && b.year >= 0
    ensures Label(a)[..3] == MonthNames[a.month - 1]
    ensures Label(a) == Label(b) <==> a.month == b.month && a.year == b.year
  {
    var la, lb := Label(a), Label(b);
    assert la[..3] == MonthNames[a.month - 1];
    if la == lb {
      assert la[4..] == NatToString(a.year);
      assert lb[4..] == NatToString(b.year);
      DecimalInjective(a.year, b.year);
      assert la[..3] == lb[..3];
      assert MonthNames[a.month - 1] == MonthNames[b.month - 1];
    }
  }

  /** A chart row: its label and the `level<n>` values written to it, keyed
      by the level n. */
  datatype ChartRow<L> = ChartRow(timestamp: L, values: map<int, int>)

  /** What a mark writes to the chart: its label, level and top score. */
  datatype Mark<L> = Mark(timestamp: L, level: int, score: int)

  function MarkOf(e: TopMark): Mark<string> {
    Mark(Label(e), e.level, e.topScore)
  }

  function Marks(entries: seq<TopMark>): (r: seq<Mark<string>>)
    ensures |r| == |entries| && forall i :: 0 <= i < |entries| ==> r[i] == MarkOf(entries[i])
  {
    seq(|entries|, i requires 0 <= i < |entries| => MarkOf(entries[i]))
  }

  function Labels<L>(marks: seq<Mark<L>>): (r: seq<L>)
    ensures |r| == |marks| && forall i :: 0 <= i < |marks| ==> r[i] == marks[i].timestamp
  {
    seq(|marks|, i requires 0 <= i < |marks| => marks[i].timestamp)
  }

  /** The values written to the row labelled `t`, mark after mark. */
  function RowValues<L(==)>(marks: seq<Mark<L>>, t: L): map<int, int> {
    if marks == [] then map[]
    else
      var m := marks[|marks| - 1];
      var earlier := RowValues(marks[..|marks| - 1], t);
      if m.timestamp == t then earlier[m.level := m.score] else earlier
  }

  /** The scores pushed onto `levelScores[level]`: the top scores of that
      level's entries, in order. */
  function ScoresAt(entries: seq<TopMark>, level: int): seq<int> {
    if entries == [] then []
    else
      var e := entries[|entries| - 1];
      ScoresAt(entries[..|entries| - 1], level) + (if e.level == level then [e.topScore] else [])
  }

  /** The keys `levelScores` starts with, in `Object.keys` order. */
  const Levels: seq<int> := [1, 2, 3, 4, 5]

  const LevelSet: set<int> := {1, 2, 3, 4, 5}

  function LevelScores(entries: seq<TopMark>): map<int, seq<int>> {
    map l | l in LevelSet :: ScoresAt(entries, l)
  }

  function Id(x: int): int { x }

  /** The average of a non-empty list of scores. */
  function Mean(scores: seq<int>): real
    requires |scores| > 0
  {
    Sorting.SumOf(scores, Id) as real / |scores| as real
  }

  /** `averages`: a level with at least one score gets the mean of them. */
  function AveragesOf(levelScores: map<int, seq<int>>): map<int, real> {
    map l | l in levelScores && |levelScores[l]| > 0 :: Mean(levelScores[l])
  }

  /** `Object.keys(levelScores).filter(...)`: the levels with a score, as
      numbers (the keys themselves are their decimal strings). */
  function AvailableOf(levelScores: map<int, seq<int>>): seq<int> {
    Filter(Levels, l => l in levelScores && |levelScores[l]| > 0)
  }

  /** `chartData.find(data => data.timestamp === timestamp)`, as an index. */
  function FindRow<L(==)>(chart: seq<ChartRow<L>>, t: L): (r: Option<nat>)
    ensures r.Some? ==> (r.value < |chart| && chart[r.value].timestamp == t
      && forall k :: 0 <= k < r.value ==> chart[k].timestamp != t)
    ensures r.None? ==> forall k :: 0 <= k < |chart| ==> chart[k].timestamp != t
  {
    if chart == [] then None
    else if chart[0].timestamp == t then Some(0)
    else match FindRow(chart[1..], t)
      case None => None
      case Some(k) => Some(k + 1)
  }

  /** The timestamps of the rows. */
  function Stamps<L>(chart: seq<ChartRow<L>>): (r: seq<L>)
    ensures |r| == |chart| && forall k :: 0 <= k < |chart| ==> r[k] == chart[k].timestamp
  {
    seq(|chart|, k requires 0 <= k < |chart| => chart[k].timestamp)
  }

  /** One pass of the `forEach` body over the chart: find the row with the
      mark's label, or append one, and write the level's value into it. */
  function Write<L(==)>(chart: seq<ChartRow<L>>, m: Mark<L>): seq<ChartRow<L>> {
    match FindRow(chart, m.timestamp)
    case None => chart + [ChartRow(m.timestamp, map[m.level := m.score])]
    case Some(k) => chart[k := chart[k].(values := chart[k].values[m.level := m.score])]
  }

  /** The chart the `forEach` leaves. */
  function ChartOf<L(==)>(marks: seq<Mark<L>>): seq<ChartRow<L>> {
    if marks == [] then [] else Write(ChartOf(marks[..|marks| - 1]), marks[|marks| - 1])
  }

  /** The chart's rows in order, each with the values written under its
      label. */
  predicate Describes<L(==)>(chart: seq<ChartRow<L>>, marks: seq<Mark<L>>) {
    Stamps(chart) == Dedupe(Labels(marks))
    && forall k :: 0 <= k < |chart| ==> chart[k].values == RowValues(marks, chart[k].timestamp)
  }

  lemma WriteNew<L>(chart: seq<ChartRow<L>>, marks: seq<Mark<L>>, m: Mark<L>)
    requires Describes(chart, marks) && FindRow(chart, m.timestamp).None?
    ensures Describes(Write(chart, m), marks + [m])
  {
    var all := marks + [m];
    var t := m.timestamp;
    var written := chart + [ChartRow(t, map[m.level := m.score])];
    assert Write(chart, m) == written;
    assert t !in Labels(marks) by {
      assert t !in Stamps(chart);
      DedupeSpec(Labels(marks));
    }
    assert Stamps(written) == Dedupe(Labels(all)) by {
      assert Labels(all) == Labels(marks) + [t];
      DedupeAppend(Labels(marks), t);
      assert Stamps(written) == Stamps(chart) + [t];
    }
    forall k | 0 <= k < |written|
      ensures written[k].values == RowValues(all, written[k].timestamp)
    {
      assert all[..|all| - 1] == marks;
      if k < |chart| {
        assert written[k] == chart[k];
      } else {
          RowValuesAbsent(marks, t);
      }
    }
  }

  lemma WriteOld<L>(chart: seq<ChartRow<L>>, marks: seq<Mark<L>>, m: Mark<L>)
    requires Describes(chart, marks) && FindRow(chart, m.timestamp).Some?
    ensures Describes(Write(chart, m), marks + [m])
  {
    var all := marks + [m];
    var k := FindRow(chart, m.timestamp).value;
    assert all[..|all| - 1] == marks;
    assert Labels(all) == Labels(marks) + [m.timestamp];
    DedupeAppend(Labels(marks), m.timestamp);
    DedupeSpec(Labels(marks));
    assert Stamps(chart)[k] == m.timestamp;
    assert Stamps(Write(chart, m)) == Stamps(chart);
  }

  /** The chart holds one row per distinct label, in order of first
      appearance, and each row holds the values its label's marks wrote. */
  lemma {:induction false} ChartDescribes<L>(marks: seq<Mark<L>>)
    ensures Describes(ChartOf(marks), marks)
  {
    if marks != [] {
      var init := marks[..|marks| - 1];
      var m := marks[|marks| - 1];
      ChartDescribes(init);
      assert init + [m] == marks;
      if FindRow(ChartOf(init), m.timestamp).None? {
        WriteNew(ChartOf(init), init, m);
      } else {
        WriteOld(ChartOf(init), init, m);
      }
    }
  }

  /** A mark of level 1 to 5 adds its score to that level's list; any other
      level changes nothing. */
  lemma LevelScoresStep(entries: seq<TopMark>, e: TopMark)
    ensures var ls := LevelScores(entries);
      LevelScores(entries + [e]) == if e.level in ls then ls[e.level := ls[e.level] + [e.topScore]] else ls
  {
    var ls := LevelScores(entries);
    var after := LevelScores(entries + [e]);
    var expected := if e.level in ls then ls[e.level := ls[e.level] + [e.topScore]] else ls;
    forall l | l in LevelSet
      ensures after[l] == expected[l]
    {
      assert (entries + [e])[..|entries|] == entries;
    }
    assert after.Keys == expected.Keys;
  }

  /** A label no entry carries has no values. */
  lemma {:induction false} RowValuesAbsent<L>(marks: seq<Mark<L>>, t: L)
    requires t !in Labels(marks)
    ensures RowValues(marks, t) == map[]
  {
    if marks != [] {
      var init := marks[..|marks| - 1];
      assert Labels(init) == Labels(marks)[..|marks| - 1];
      RowValuesAbsent(init, t);
    }
  }

  /** `find`, then push a new `{ timestamp }` row when there is none, then
      set the level's property on the row found or pushed. */
  method WriteRow<L(==)>(before: seq<ChartRow<L>>, m: Mark<L>) returns (chart: seq<ChartRow<L>>)
    ensures chart == Write(before, m)
  {
    chart := before;
    var found := FindRow(chart, m.timestamp);
    var k: nat;
    if found.None? {
      chart := chart + [ChartRow(m.timestamp, map[])];
      k := |chart| - 1;
    } else {
      k := found.value;
    }
    chart := chart[k := chart[k].(values := chart[k].values[m.level := m.score])];
  }

  /** Taking one more mark: its score joins its level's list and it is
      written to the chart. */
  lemma PrefixStep(topMarks: seq<TopMark>, i: nat)
    requires i < |topMarks|
    ensures var ls := LevelScores(topMarks[..i]);
      var e := topMarks[i];
      LevelScores(topMarks[..i + 1]) == if e.level in ls then ls[e.level := ls[e.level] + [e.topScore]] else ls
    ensures ChartOf(Marks(topMarks[..i + 1])) == Write(ChartOf(Marks(topMarks[..i])), MarkOf(topMarks[i]))
  {
    assert topMarks[..i + 1] == topMarks[..i] + [topMarks[i]];
    LevelScoresStep(topMarks[..i], topMarks[i]);
    assert Marks(topMarks[..i + 1])[..i] == Marks(topMarks[..i]);
  }

  /** The `forEach` over the marks, pushing level scores and filling rows. */
  method ProcessEntries(topMarks: seq<TopMark>) returns (levelScores: map<int, seq<int>>, chart: seq<ChartRow<string>>)
    ensures levelScores == LevelScores(topMarks)
    ensures chart == ChartOf(Marks(topMarks))
  {
    levelScores := map[1 := [], 2 := [], 3 := [], 4 := [], 5 := []];
    chart := [];
    var i := 0;
    while i < |topMarks|
      invariant 0 <= i <= |topMarks|
      invariant levelScores == LevelScores(topMarks[..i])
      invariant chart == ChartOf(Marks(topMarks[..i]))
    {
      var e := topMarks[i];
      PrefixStep(topMarks, i);
      if e.level in levelScores {
        levelScores := levelScores[e.level := levelScores[e.level] + [e.topScore]];
      }
      chart := WriteRow(chart, MarkOf(e));
      i := i + 1;
    }
    assert topMarks[..|topMarks|] == topMarks;
  }

  /** The `forEach` over `Object.entries(levelScores)` filling `averages`. */
  method ComputeAverages(levelScores: map<int, seq<int>>) returns (averages: map<int, real>)
    requires levelScores.Keys == LevelSet
    ensures averages == AveragesOf(levelScores)
  {
    averages := map[];
    var i := 0;
    while i < |Levels|
      invariant 0 <= i <= |Levels|
      invariant averages == AveragesUpTo(levelScores, i)
    {
      var level := Levels[i];
      var scores := levelScores[level];
      if |scores| > 0 {
        averages := averages[level := Mean(scores)];
      }
      i := i + 1;
    }
    AveragesUpToAll(levelScores);
  }

  /** `averages` after the first `n` levels have been looked at. */
  function AveragesUpTo(levelScores: map<int, seq<int>>, n: nat): map<int, real>
    requires levelScores.Keys == LevelSet
    requires n <= |Levels|
  {
    if n == 0 then map[]
    else
      var level := Levels[n - 1];
      var earlier := AveragesUpTo(levelScores, n - 1);
      if |levelScores[level]| > 0 then earlier[level := Mean(levelScores[level])] else earlier
  }

  lemma {:induction false} AveragesUpToSpec(levelScores: map<int, seq<int>>, n: nat, l: int)
    requires levelScores.Keys == LevelSet
    requires n <= |Levels|
    ensures l in AveragesUpTo(levelScores, n) <==> l in Levels[..n] && |levelScores[l]| > 0
    ensures l in AveragesUpTo(levelScores, n) ==> AveragesUpTo(levelScores, n)[l] == Mean(levelScores[l])
  {
    if n > 0 {
      AveragesUpToSpec(levelScores, n - 1, l);
      assert Levels[..n] == Levels[..n - 1] + [Levels[n - 1]];
    }
  }

  lemma AveragesUpToAll(levelScores: map<int, seq<int>>)
    requires levelScores.Keys == LevelSet
    ensures AveragesUpTo(levelScores, |Levels|) == AveragesOf(levelScores)
  {
    var m := AveragesUpTo(levelScores, |Levels|);
    assert Levels[..|Levels|] == Levels;
    forall l | true
      ensures l in m <==> l in AveragesOf(levelScores)
      ensures l in m ==> m[l] == AveragesOf(levelScores)[l]
    {
      AveragesUpToSpec(levelScores, |Levels|, l);
    }
  }

  /** What the modal draws. */
  datatype Shown = Shown(chartData: seq<ChartRow<string>>, averageScores: map<int, real>, availableLevels: seq<int>)

  /** What processTopMarksData shows for the given marks. */
  function ShownFor(topMarks: seq<TopMark>): Shown {
    Shown(ChartOf(Marks(topMarks)), AveragesOf(LevelScores(topMarks)), AvailableOf(LevelScores(topMarks)))
  }

  /** processTopMarksData. */
  method ProcessTopMarks(topMarks: seq<TopMark>) returns (shown: Shown)
    ensures shown == ShownFor(topMarks)
  {
    var levelScores, chart := ProcessEntries(topMarks);
    var averages := ComputeAverages(levelScores);
    shown := Shown(chart, averages, AvailableOf(levelScores));
  }

  // ---- What the processing means ----

  /** There is one row per distinct label, each label once, in order of
      first appearance. */
  lemma RowPerLabel(entries: seq<TopMark>, t: string)
    ensures Stamps(ChartOf(Marks(entries))) == Dedupe(Labels(Marks(entries)))
    ensures NoDuplicates(Stamps(ChartOf(Marks(entries))))
    ensures t in Stamps(ChartOf(Marks(entries))) <==> exists i :: 0 <= i < |entries| && Label(entries[i]) == t
  {
    var marks := Marks(entries);
    DedupeSpec(Labels(marks));
    ChartDescribes(marks);
    if t in Labels(marks) {
      var i :| 0 <= i < |marks| && Labels(marks)[i] == t;
      assert Label(entries[i]) == t;
    }
  }

  /** A row has a value for a level exactly when some mark with its label
      has that level, whichever the level, 1 to 5 or not. */
  lemma {:induction false} RowValuesKeys<L>(marks: seq<Mark<L>>, t: L, level: int)
    ensures level in RowValues(marks, t)
      <==> exists i :: 0 <= i < |marks| && marks[i].timestamp == t && marks[i].level == level
  {
    if marks != [] {
      var init := marks[..|marks| - 1];
      RowValuesKeys(init, t, level);
      if exists i :: 0 <= i < |init| && init[i].timestamp == t && init[i].level == level {
        var i :| 0 <= i < |init| && init[i].timestamp == t && init[i].level == level;
        assert marks[i] == init[i];
      }
      if exists i :: 0 <= i < |marks| && marks[i].timestamp == t && marks[i].level == level {
        var i :| 0 <= i < |marks| && marks[i].timestamp == t && marks[i].level == level;
        if i < |init| {
          assert init[i] == marks[i];
        }
      }
    }
  }

  /** The value a row holds for a level is the score of the last mark with
      that label and level: later marks overwrite earlier ones. */
  lemma {:induction false} LastMarkWins<L>(marks: seq<Mark<L>>, i: nat)
    requires i < |marks|
    requires forall j :: i < j < |marks| ==> marks[j].timestamp != marks[i].timestamp || marks[j].level != marks[i].level
    ensures marks[i].level in RowValues(marks, marks[i].timestamp)
    ensures RowValues(marks, marks[i].timestamp)[marks[i].level] == marks[i].score
  {
    if i < |marks| - 1 {
      var init := marks[..|marks| - 1];
      assert init[i] == marks[i];
      LastMarkWins(init, i);
    }
  }

  lemma {:induction false} ScoresAtMembers(entries: seq<TopMark>, level: int)
    ensures |ScoresAt(entries, level)| > 0 <==> exists i :: 0 <= i < |entries| && entries[i].level == level
    ensures forall k :: 0 <= k < |ScoresAt(entries, level)| ==>
      exists i :: 0 <= i < |entries| && entries[i].level == level && entries[i].topScore == ScoresAt(entries, level)[k]
  {
    if entries != [] {
      var init := entries[..|entries| - 1];
      ScoresAtMembers(init, level);
      forall k | 0 <= k < |ScoresAt(init, level)|
        ensures exists i :: 0 <= i < |entries| && entries[i].level == level && entries[i].topScore == ScoresAt(init, level)[k]
      {
        var i :| 0 <= i < |init| && init[i].level == level && init[i].topScore == ScoresAt(init, level)[k];
        assert entries[i] == init[i];
      }
      if exists i :: 0 <= i < |init| && init[i].level == level {
        var i :| 0 <= i < |init| && init[i].level == level;
        assert entries[i] == init[i];
      }
      if exists i :: 0 <= i < |entries| && entries[i].level == level {
        var i :| 0 <= i < |entries| && entries[i].level == level;
        if i < |init| {
          assert init[i] == entries[i];
        }
      }
    }
  }

  /** A level has an average exactly when it is one of 1 to 5 and some mark
      is of that level, and those levels are the available ones. */
  lemma AverageExists(entries: seq<TopMark>, level: int)
    ensures level in AveragesOf(LevelScores(entries))
      <==> 1 <= level <= 5 && exists i :: 0 <= i < |entries| && entries[i].level == level
    ensures level in AvailableOf(LevelScores(entries)) <==> level in AveragesOf(LevelScores(entries))
  {
    ScoresAtMembers(entries, level);
    FilterMembers(Levels, l => l in LevelScores(entries) && |LevelScores(entries)[l]| > 0, level);
  }

  lemma {:induction false} SumBounds(xs: seq<int>)
    requires forall k :: 0 <= k < |xs| ==> 0 <= xs[k] <= 45
    ensures 0 <= Sorting.SumOf(xs, Id) <= 45 * |xs|
  {
    if xs != [] {
      SumBounds(xs[1..]);
    }
  }

  lemma DivideBelow(s: real, n: real, m: real)
    requires n > 0.0 && 0.0 <= s <= m * n
    ensures 0.0 <= s / n <= m
  {
  }

  lemma {:induction false} ScoresAtBounds(entries: seq<TopMark>, level: int)
    requires forall i :: 0 <= i < |entries| ==> 0 <= entries[i].topScore <= 45
    ensures forall k :: 0 <= k < |ScoresAt(entries, level)| ==> 0 <= ScoresAt(entries, level)[k] <= 45
  {
    if entries != [] {
      ScoresAtBounds(entries[..|entries| - 1], level);
    }
  }

  /** With every top score between 0 and 45, so is each level's average. */
  lemma AverageBounds(entries: seq<TopMark>, level: int)
    requires level in AveragesOf(LevelScores(entries))
    requires forall i :: 0 <= i < |entries| ==> 0 <= entries[i].topScore <= 45
    ensures 0.0 <= AveragesOf(LevelScores(entries))[level] <= 45.0
  {
    var xs := ScoresAt(entries, level);
    ScoresAtBounds(entries, level);
    SumBounds(xs);
    DivideBelow(Sorting.SumOf(xs, Id) as real, |xs| as real, 45.0);
  }

  // ---- The modal ----

  datatype Subject = Subject(id: string, name: string)

  /** The three option lists of the selects. */
  datatype Options = Options(classes: seq<string>, subjects: seq<Subject>, chapters: seq<string>)

  /** The three selections. */
  datatype Selection = Selection(selectedClass: Option<string>, selectedSubject: Option<string>, selectedChapter: Option<string>)

  /** What the top-marks request came back with: a thrown request, or a body
      whose `topMarksByMonth` may be missing. */
  datatype Reply = Failed | Loaded(topMarksByMonth: Option<seq<TopMark>>)

  const Nothing: Shown := Shown([], map[], [])

  /** The modal's state hooks, the option lists, the selections and the
      drawn results each grouped in one value. */
  class ClassProgressModal {
    var options: Options
    var selection: Selection
    var shown: Shown

    constructor ()
      ensures options == Options([], [], []) && selection == Selection(None, None, None) && shown == Nothing
    {
      options := Options([], [], []);
      selection := Selection(None, None, None);
      shown := Nothing;
    }

    /** resetState, run when the modal is hidden. */
    method Reset()
      modifies this
      ensures options == Options([], [], []) && selection == Selection(None, None, None) && shown == Nothing
    {
      options := Options([], [], []);
      selection := Selection(None, None, None);
      shown := Nothing;
    }

    /** handleClassChange: the new class with no subject or chapter, empty
        subject and chapter lists, and nothing drawn. */
    method ClassChange(value: string)
      modifies this
      ensures selection == Selection(Some(value), None, None)
      ensures options == old(options).(subjects := [], chapters := [])
      ensures shown == Nothing
    {
      selection := Selection(Some(value), None, None);
      options := options.(subjects := [], chapters := []);
      shown := Nothing;
    }

    /** handleSubjectChange: the new subject with no chapter and nothing
        drawn; the chapter list is kept until the new one arrives. */
    method SubjectChange(value: string)
      modifies this
      ensures selection == old(selection).(selectedSubject := Some(value), selectedChapter := None)
      ensures options == old(options) && shown == Nothing
    {
      selection := selection.(selectedSubject := Some(value), selectedChapter := None);
      shown := Nothing;
    }

    /** handleChapterChange followed by fetchTopMarks: the chart is cleared,
        and filled only when the body carries `topMarksByMonth`. */
    method ChapterChange(value: string, reply: Reply)
      modifies this
      ensures selection == old(selection).(selectedChapter := Some(value)) && options == old(options)
      ensures reply.Loaded? && reply.topMarksByMonth.Some? ==> shown == ShownFor(reply.topMarksByMonth.value)
      ensures !(reply.Loaded? && reply.topMarksByMonth.Some?) ==> shown == Nothing
    {
      selection := selection.(selectedChapter := Some(value));
      shown := Nothing;
      if reply.Loaded? && reply.topMarksByMonth.Some? {
        shown := ProcessTopMarks(reply.topMarksByMonth.value);
      }
    }
  }
}
