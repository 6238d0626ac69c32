// The super-admin's class progress modal: the students of the chosen class
// are each asked for their progress in the chosen chapter, their per-level
// means are averaged level by level over the class, and every attempt
// becomes one point of the combined chart.

module SuperClassProgress {
  import opened Outcomes
  import opened Strings
  import opened Collections
  import Sorting

  datatype Attempt = Attempt(timestamp: int, score: int)

  function Score(a: Attempt): int { a.score }

  /** One student's `chapterProgress` as `Object.entries` lists it: each
      level key with its attempts. */
  type Progress = seq<(string, seq<Attempt>)>

  /** What a per-student request came back with: a thrown request, or a
      body whose `chapterProgress` may be missing. */
  datatype Reply = Failed | Loaded(chapterProgress: Option<Progress>)

  /** `data.chapterProgress || {}`, with the `.catch` giving `{}` too. */
  function ProgressOf(r: Reply): Progress {
    match r
    case Loaded(Some(p)) => p
    case _ => []
  }

  /** The keys `levelScores` starts with; `Object.keys` lists them in this
      order. */
  const LevelKeys: seq<string> := ["1", "2", "3", "4", "5"]
  const LevelKeySet: set<string> := {"1", "2", "3", "4", "5"}

  /** `totalScore / scores.length` for one student and one level; None
      stands for the NaN of an empty list. */
  function StudentMean(scores: seq<Attempt>): Option<real> {
    if scores == [] then None else Some(Sorting.SumOf(scores, Score) as real / |scores| as real)
  }

  /** The means one student pushes onto `levelScores[level]`, entry by
      entry. */
  function EntryMeans(p: Progress, level: string): seq<Option<real>> {
    if p == [] then []
    else
      var (key, scores) := p[|p| - 1];
      EntryMeans(p[..|p| - 1], level) + (if key == level then [StudentMean(scores)] else [])
  }

  /** `levelScores[level]` after every student has been visited in order. */
  function Pushed(results: seq<Progress>, level: string): seq<Option<real>> {
    if results == [] then []
    else Pushed(results[..|results| - 1], level) + EntryMeans(results[|results| - 1], level)
  }

  function LevelScores(results: seq<Progress>): map<string, seq<Option<real>>> {
    map k | k in LevelKeySet :: Pushed(results, k)
  }

  /** `xs.reduce((sum, score) => sum + score, 0)`, where one NaN makes the
      whole sum NaN. */
  function SumMeans(xs: seq<Option<real>>): Option<real> {
    if xs == [] then Some(0.0)
    else
      match SumMeans(xs[..|xs| - 1])
      case None => None
      case Some(s) => if xs[|xs| - 1].None? then None else Some(s + xs[|xs| - 1].value)
  }

  /** A level's class average: the sum divided by the number of students. */
  function LevelAverage(xs: seq<Option<real>>): Option<real>
    requires |xs| > 0
  {
    match SumMeans(xs)
    case None => None
    case Some(s) => Some(s / |xs| as real)
  }

  /** `averages`: an entry for each level with at least one pushed mean. */
  function AveragesOf(levelScores: map<string, seq<Option<real>>>): map<string, Option<real>> {
    map k | k in levelScores && |levelScores[k]| > 0 :: LevelAverage(levelScores[k])
  }

  /** `Object.keys(levelScores).filter(level => levelScores[level].length > 0)`. */
  function AvailableOf(levelScores: map<string, seq<Option<real>>>): seq<string> {
    Filter(LevelKeys, k => k in levelScores && |levelScores[k]| > 0)
  }

  /** The outer `forEach` over the students' results. */
  method CollectLevelScores(results: seq<Progress>) returns (levelScores: map<string, seq<Option<real>>>)
    ensures levelScores == LevelScores(results)
  {
    levelScores := map["1" := [], "2" := [], "3" := [], "4" := [], "5" := []];
    var i := 0;
    while i < |results|
      invariant 0 <= i <= |results|
      invariant levelScores == LevelScores(results[..i])
    {
      assert results[..i + 1][..i] == results[..i];
      levelScores := PushStudent(levelScores, results[i]);
      i := i + 1;
    }
    assert results[..|results|] == results;
  }

  /** The inner `forEach` over one student's entries: a key that
      `levelScores` has gets that entry's mean, any other key is skipped. */
  method PushStudent(before: map<string, seq<Option<real>>>, p: Progress) returns (after: map<string, seq<Option<real>>>)
    requires before.Keys == LevelKeySet
    ensures after.Keys == LevelKeySet
    ensures forall k :: k in after ==> after[k] == before[k] + EntryMeans(p, k)
  {
    after := before;
    var j := 0;
    while j < |p|
      invariant 0 <= j <= |p|
      invariant after.Keys == LevelKeySet
      invariant forall k :: k in after ==> after[k] == before[k] + EntryMeans(p[..j], k)
    {
      var (level, scores) := p[j];
      assert p[..j + 1][..j] == p[..j];
      if level in after {
        after := after[level := after[level] + [StudentMean(scores)]];
      }
      j := j + 1;
    }
    assert p[..|p|] == p;
  }

  /** `averages` after the first `n` levels have been looked at. */
  function AveragesUpTo(levelScores: map<string, seq<Option<real>>>, n: nat): map<string, Option<real>>
    requires levelScores.Keys == LevelKeySet && n <= |LevelKeys|
  {
    if n == 0 then map[]
    else
      var level := LevelKeys[n - 1];
      var earlier := AveragesUpTo(levelScores, n - 1);
      if |levelScores[level]| > 0 then earlier[level := LevelAverage(levelScores[level])] else earlier
  }

  lemma {:induction false} AveragesUpToSpec(levelScores: map<string, seq<Option<real>>>, n: nat, k: string)
    requires levelScores.Keys == LevelKeySet && n <= |LevelKeys|
    ensures k in AveragesUpTo(levelScores, n) <==> k in LevelKeys[..n] && |levelScores[k]| > 0
    ensures k in AveragesUpTo(levelScores, n) ==> AveragesUpTo(levelScores, n)[k] == LevelAverage(levelScores[k])
  {
    if n > 0 {
      AveragesUpToSpec(levelScores, n - 1, k);
      assert LevelKeys[..n] == LevelKeys[..n - 1] + [LevelKeys[n - 1]];
    }
  }

  lemma AveragesUpToAll(levelScores: map<string, seq<Option<real>>>)
    requires levelScores.Keys == LevelKeySet
    ensures AveragesUpTo(levelScores, |LevelKeys|) == AveragesOf(levelScores)
  {
    var m := AveragesUpTo(levelScores, |LevelKeys|);
    assert LevelKeys[..|LevelKeys|] == LevelKeys;
    forall k | true
      ensures k in m <==> k in AveragesOf(levelScores)
      ensures k in m ==> m[k] == AveragesOf(levelScores)[k]
    {
      AveragesUpToSpec(levelScores, |LevelKeys|, k);
    }
  }

  /** The `forEach` over `Object.entries(levelScores)` filling `averages`. */
  method ComputeAverages(levelScores: map<string, seq<Option<real>>>) returns (averages: map<string, Option<real>>)
    requires levelScores.Keys == LevelKeySet
    ensures averages == AveragesOf(levelScores)
  {
    averages := map[];
    var i := 0;
    while i < |LevelKeys|
      invariant 0 <= i <= |LevelKeys|
      invariant averages == AveragesUpTo(levelScores, i)
    {
      var level := LevelKeys[i];
      var scores := levelScores[level];
      if |scores| > 0 {
        averages := averages[level := LevelAverage(scores)];
      }
      i := i + 1;
    }
    AveragesUpToAll(levelScores);
  }

  /** One chart point: the attempt's (locally formatted) time and its score
      under `level<key>`. */
  datatype ChartPoint = ChartPoint(timestamp: int, level: string, score: int)

  function EntryPoints(level: string, scores: seq<Attempt>): (r: seq<ChartPoint>)
    ensures |r| == |scores|
    ensures forall k :: 0 <= k < |scores| ==> r[k] == ChartPoint(scores[k].timestamp, level, scores[k].score)
  {
    seq(|scores|, k requires 0 <= k < |scores| => ChartPoint(scores[k].timestamp, level, scores[k].score))
  }

  function StudentPoints(p: Progress): seq<ChartPoint> {
    if p == [] then [] else StudentPoints(p[..|p| - 1]) + EntryPoints(p[|p| - 1].0, p[|p| - 1].1)
  }

  function ChartOf(results: seq<Progress>): seq<ChartPoint> {
    if results == [] then [] else ChartOf(results[..|results| - 1]) + StudentPoints(results[|results| - 1])
  }

  /** The three nested `forEach` loops that fill `chartData`. */
  method BuildChart(results: seq<Progress>) returns (chart: seq<ChartPoint>)
    ensures chart == ChartOf(results)
  {
    chart := [];
    var i := 0;
    while i < |results|
      invariant 0 <= i <= |results|
      invariant chart == ChartOf(results[..i])
    {
      assert results[..i + 1][..i] == results[..i];
      chart := AppendStudent(chart, results[i]);
      i := i + 1;
    }
    assert results[..|results|] == results;
  }

  method AppendStudent(before: seq<ChartPoint>, p: Progress) returns (chart: seq<ChartPoint>)
    ensures chart == before + StudentPoints(p)
  {
    chart := before;
    var j := 0;
    while j < |p|
      invariant 0 <= j <= |p|
      invariant chart == before + StudentPoints(p[..j])
    {
      assert p[..j + 1][..j] == p[..j];
      chart := AppendEntry(chart, p[j].0, p[j].1);
      j := j + 1;
    }
    assert p[..|p|] == p;
  }

  method AppendEntry(before: seq<ChartPoint>, level: string, scores: seq<Attempt>) returns (chart: seq<ChartPoint>)
    ensures chart == before + EntryPoints(level, scores)
  {
    chart := before;
    var k := 0;
    while k < |scores|
      invariant 0 <= k <= |scores|
      invariant chart == before + EntryPoints(level, scores[..k])
    {
      chart := chart + [ChartPoint(scores[k].timestamp, level, scores[k].score)];
      k := k + 1;
    }
    assert scores[..|scores|] == scores;
  }

  // ---- What the aggregation means ----

  /** A student lists a level when one of their entries has that key. */
  predicate Lists(p: Progress, level: string) {
    exists j :: 0 <= j < |p| && p[j].0 == level
  }

  lemma {:induction false} EntryMeansEmpty(p: Progress, level: string)
    ensures |EntryMeans(p, level)| > 0 <==> Lists(p, level)
  {
    if p != [] {
      var init := p[..|p| - 1];
      EntryMeansEmpty(init, level);
      if Lists(init, level) {
        var j :| 0 <= j < |init| && init[j].0 == level;
        assert p[j] == init[j];
      }
      if Lists(p, level) && p[|p| - 1].0 != level {
        var j :| 0 <= j < |p| && p[j].0 == level;
        assert init[j] == p[j];
      }
    }
  }

  lemma {:induction false} PushedEmpty(results: seq<Progress>, level: string)
    ensures |Pushed(results, level)| > 0 <==> exists i :: 0 <= i < |results| && Lists(results[i], level)
  {
    if results != [] {
      var init := results[..|results| - 1];
      PushedEmpty(init, level);
      EntryMeansEmpty(results[|results| - 1], level);
      if exists i :: 0 <= i < |init| && Lists(init[i], level) {
        var i :| 0 <= i < |init| && Lists(init[i], level);
        assert results[i] == init[i];
      }
      if exists i :: 0 <= i < |results| && Lists(results[i], level) {
        var i :| 0 <= i < |results| && Lists(results[i], level);
        if i < |init| {
          assert init[i] == results[i];
        }
      }
    }
  }

  /** A level has a class average exactly when it is one of "1" to "5" and
      some student lists it, and those levels are the available ones. */
  lemma AverageExists(results: seq<Progress>, level: string)
    ensures level in AveragesOf(LevelScores(results))
      <==> level in LevelKeySet && exists i :: 0 <= i < |results| && Lists(results[i], level)
    ensures level in AvailableOf(LevelScores(results)) <==> level in AveragesOf(LevelScores(results))
  {
    PushedEmpty(results, level);
    FilterMembers(LevelKeys, k => k in LevelScores(results) && |LevelScores(results)[k]| > 0, level);
  }

  lemma {:induction false} EntryMeansMembers(p: Progress, level: string, m: Option<real>)
    ensures m in EntryMeans(p, level) <==> exists j :: 0 <= j < |p| && p[j].0 == level && m == StudentMean(p[j].1)
  {
    if p != [] {
      var init := p[..|p| - 1];
      EntryMeansMembers(init, level, m);
      if exists j :: 0 <= j < |init| && init[j].0 == level && m == StudentMean(init[j].1) {
        var j :| 0 <= j < |init| && init[j].0 == level && m == StudentMean(init[j].1);
        assert p[j] == init[j];
      }
      if exists j :: 0 <= j < |p| && p[j].0 == level && m == StudentMean(p[j].1) {
        var j :| 0 <= j < |p| && p[j].0 == level && m == StudentMean(p[j].1);
        if j < |init| {
          assert init[j] == p[j];
        }
      }
    }
  }

  lemma {:induction false} PushedFromEntry(results: seq<Progress>, level: string, i: nat, m: Option<real>)
    requires i < |results| && m in EntryMeans(results[i], level)
    ensures m in Pushed(results, level)
  {
    var init := results[..|results| - 1];
    if i < |init| {
      assert init[i] == results[i];
      PushedFromEntry(init, level, i, m);
    }
  }

  lemma {:induction false} PushedSource(results: seq<Progress>, level: string, m: Option<real>) returns (i: nat)
    requires m in Pushed(results, level)
    ensures i < |results| && m in EntryMeans(results[i], level)
  {
    var init := results[..|results| - 1];
    if m in Pushed(init, level) {
      i := PushedSource(init, level, m);
      assert init[i] == results[i];
    } else {
      i := |results| - 1;
    }
  }

  /** Every value pushed for a level is the mean of some student's entry
      under that key. */
  lemma PushedMembers(results: seq<Progress>, level: string, m: Option<real>)
    ensures m in Pushed(results, level)
      <==> exists i, j :: 0 <= i < |results| && 0 <= j < |results[i]| && results[i][j].0 == level && m == StudentMean(results[i][j].1)
  {
    if m in Pushed(results, level) {
      var i := PushedSource(results, level, m);
      EntryMeansMembers(results[i], level, m);
    }
    if exists i, j :: 0 <= i < |results| && 0 <= j < |results[i]| && results[i][j].0 == level && m == StudentMean(results[i][j].1) {
      var i, j :| 0 <= i < |results| && 0 <= j < |results[i]| && results[i][j].0 == level && m == StudentMean(results[i][j].1);
      EntryMeansMembers(results[i], level, m);
      PushedFromEntry(results, level, i, m);
    }
  }

  lemma {:induction false} SumMeansNaN(xs: seq<Option<real>>)
    requires None in xs
    ensures SumMeans(xs) == None
  {
    var init := xs[..|xs| - 1];
    if xs[|xs| - 1] != None {
      assert None in init by {
        assert xs == init + [xs[|xs| - 1]];
      }
      SumMeansNaN(init);
    }
  }

  /** A student listing a level with no attempts makes that level's class
      average NaN. */
  lemma EmptyEntryMakesNaN(results: seq<Progress>, i: nat, j: nat)
    requires i < |results| && j < |results[i]| && results[i][j].0 in LevelKeySet && results[i][j].1 == []
    ensures var level := results[i][j].0;
      level in AveragesOf(LevelScores(results)) && AveragesOf(LevelScores(results))[level] == None
  {
    var level := results[i][j].0;
    PushedMembers(results, level, None);
    SumMeansNaN(Pushed(results, level));
  }

  lemma {:induction false} ScoreSumBounds(xs: seq<Attempt>)
    requires forall k :: 0 <= k < |xs| ==> 0 <= xs[k].score <= 45
    ensures 0 <= Sorting.SumOf(xs, Score) <= 45 * |xs|
  {
    if xs != [] {
      ScoreSumBounds(xs[1..]);
    }
  }

  /** With scores between 0 and 45, a student's mean over a non-empty list
      lies between them too. */
  lemma StudentMeanBounds(xs: seq<Attempt>)
    requires xs != [] && forall k :: 0 <= k < |xs| ==> 0 <= xs[k].score <= 45
    ensures StudentMean(xs).Some? && 0.0 <= StudentMean(xs).value <= 45.0
  {
    ScoreSumBounds(xs);
    var n := |xs| as real;
    var s := Sorting.SumOf(xs, Score) as real;
    assert s <= 45.0 * n;
    DivideBelow(s, n, 45.0);
  }

  lemma DivideBelow(s: real, n: real, m: real)
    requires n > 0.0 && 0.0 <= s <= m * n
    ensures 0.0 <= s / n <= m
  {
  }

  lemma {:induction false} SumMeansBounds(xs: seq<Option<real>>)
    requires forall k :: 0 <= k < |xs| ==> xs[k].Some? && 0.0 <= xs[k].value <= 45.0
    ensures SumMeans(xs).Some? && 0.0 <= SumMeans(xs).value <= 45.0 * |xs| as real
  {
    if xs != [] {
      SumMeansBounds(xs[..|xs| - 1]);
    }
  }

  /** When every entry a student lists under a level has attempts, all
      scoring between 0 and 45, the class average of that level is a number
      between 0 and 45. */
  lemma AverageBounds(results: seq<Progress>, level: string)
    requires level in AveragesOf(LevelScores(results))
    requires forall i, j :: 0 <= i < |results| && 0 <= j < |results[i]| && results[i][j].0 == level ==>
      (results[i][j].1 != [] && forall k :: 0 <= k < |results[i][j].1| ==> 0 <= results[i][j].1[k].score <= 45)
    ensures AveragesOf(LevelScores(results))[level].Some?
    ensures 0.0 <= AveragesOf(LevelScores(results))[level].value <= 45.0
  {
    var xs := Pushed(results, level);
    forall k | 0 <= k < |xs|
      ensures xs[k].Some? && 0.0 <= xs[k].value <= 45.0
    {
      PushedMembers(results, level, xs[k]);
      var i, j :| 0 <= i < |results| && 0 <= j < |results[i]| && results[i][j].0 == level && xs[k] == StudentMean(results[i][j].1);
      StudentMeanBounds(results[i][j].1);
    }
    SumMeansBounds(xs);
    DivideBelow(SumMeans(xs).value, |xs| as real, 45.0);
  }

  /** The point stands for one attempt of one of the student's entries, and
      carries that entry's key. */
  predicate FromEntry(p: Progress, pt: ChartPoint) {
    exists j :: 0 <= j < |p| && pt.level == p[j].0 && Attempt(pt.timestamp, pt.score) in p[j].1
  }

  lemma EntryPointsMembers(key: string, scores: seq<Attempt>, pt: ChartPoint)
    ensures pt in EntryPoints(key, scores) <==> pt.level == key && Attempt(pt.timestamp, pt.score) in scores
  {
    if pt in EntryPoints(key, scores) {
      var k :| 0 <= k < |scores| && EntryPoints(key, scores)[k] == pt;
      assert scores[k] == Attempt(pt.timestamp, pt.score);
    }
    if pt.level == key && Attempt(pt.timestamp, pt.score) in scores {
      var k :| 0 <= k < |scores| && scores[k] == Attempt(pt.timestamp, pt.score);
      assert EntryPoints(key, scores)[k] == pt;
    }
  }

  lemma {:induction false} StudentPointsMembers(p: Progress, pt: ChartPoint)
    ensures pt in StudentPoints(p) <==> FromEntry(p, pt)
  {
    if p != [] {
      var init := p[..|p| - 1];
      StudentPointsMembers(init, pt);
      EntryPointsMembers(p[|p| - 1].0, p[|p| - 1].1, pt);
      if FromEntry(init, pt) {
        var j :| 0 <= j < |init| && pt.level == init[j].0 && Attempt(pt.timestamp, pt.score) in init[j].1;
        assert p[j] == init[j];
      }
      if FromEntry(p, pt) {
        var j :| 0 <= j < |p| && pt.level == p[j].0 && Attempt(pt.timestamp, pt.score) in p[j].1;
        if j < |init| {
          assert init[j] == p[j];
        }
      }
    }
  }

  /** Each chart point is one attempt of some student's entry, carrying that
      entry's key, and every attempt has its point, under any key. */
  lemma {:induction false} ChartMembers(results: seq<Progress>, pt: ChartPoint)
    ensures pt in ChartOf(results) <==> exists i :: 0 <= i < |results| && FromEntry(results[i], pt)
  {
    if results != [] {
      var init := results[..|results| - 1];
      ChartMembers(init, pt);
      StudentPointsMembers(results[|results| - 1], pt);
      if exists i :: 0 <= i < |init| && FromEntry(init[i], pt) {
        var i :| 0 <= i < |init| && FromEntry(init[i], pt);
        assert results[i] == init[i];
      }
      if exists i :: 0 <= i < |results| && FromEntry(results[i], pt) {
        var i :| 0 <= i < |results| && FromEntry(results[i], pt);
        if i < |init| {
          assert init[i] == results[i];
        }
      }
    }
  }

  function EntrySize(e: (string, seq<Attempt>)): int { |e.1| }

  function StudentSize(p: Progress): int { Sorting.SumOf(p, EntrySize) }

  lemma {:induction false} StudentPointsLength(p: Progress)
    ensures |StudentPoints(p)| == StudentSize(p)
  {
    if p != [] {
      var init := p[..|p| - 1];
      StudentPointsLength(init);
      Sorting.SumOfAppend(init, [p[|p| - 1]], EntrySize);
      assert init + [p[|p| - 1]] == p;
    }
  }

  /** The chart has exactly one point per attempt of every student. */
  lemma {:induction false} ChartLength(results: seq<Progress>)
    ensures |ChartOf(results)| == Sorting.SumOf(results, StudentSize)
  {
    if results != [] {
      var init := results[..|results| - 1];
      ChartLength(init);
      StudentPointsLength(results[|results| - 1]);
      Sorting.SumOfAppend(init, [results[|results| - 1]], StudentSize);
      assert init + [results[|results| - 1]] == results;
    }
  }

  /** A failed request, or a body without `chapterProgress`, adds nothing:
      the averages and the chart are those of the other students. */
  lemma FailedFetchAddsNothing(results: seq<Progress>, r: Reply)
    requires r.Failed? || r == Loaded(None)
    ensures LevelScores(results + [ProgressOf(r)]) == LevelScores(results)
    ensures ChartOf(results + [ProgressOf(r)]) == ChartOf(results)
  {
    var rs := results + [ProgressOf(r)];
    assert rs[..|rs| - 1] == results;
    assert forall k :: Pushed(rs, k) == Pushed(results, k);
  }

  // ---- The modal ----
}

// The modal's selection state and what each handler does to it.

module SuperClassModal {
  import opened Outcomes
  import Strings
  import Collections
  import opened SuperClassProgress

  /** A class as the API gives it: a number or a string. */
  datatype ClassValue = Num(n: int) | Text(s: string)

  datatype Student = Student(id: string, studentClass: ClassValue)

  datatype Subject = Subject(id: string, name: string)

  /** `Number(value)`, with None for NaN: a number is itself; a string is
      read after trimming, blank giving 0 and decimal digits their value. */
  function NumberOf(v: ClassValue): Option<int> {
    match v
    case Num(n) => Some(n)
    case Text(s) =>
      var t := Strings.Trim(s);
      if t == [] then Some(0) else if Strings.IsDigits(t) then Some(Strings.DecimalValue(t)) else None
  }

  /** `student.class === Number(value)`: strict, so a student whose class is
      stored as a string never matches, and NaN matches nothing. */
  predicate InClass(s: Student, value: ClassValue) {
    NumberOf(value).Some? && s.studentClass == Num(NumberOf(value).value)
  }

  function ClassMembers(students: seq<Student>, value: ClassValue): seq<Student> {
    Collections.Filter(students, s => InClass(s, value))
  }

  /** The students kept are exactly those of the roster whose class is the
      number the selection reads as. */
  lemma ClassSelection(students: seq<Student>, value: ClassValue, s: Student)
    ensures s in ClassMembers(students, value)
      <==> s in students && NumberOf(value).Some? && s.studentClass == Num(NumberOf(value).value)
  {
    Collections.FilterMembers(students, x => InClass(x, value), s);
  }

  /** A class chosen as its decimal text reads as the number itself, so it
      selects the same students. */
  lemma TextClassSelectsSame(n: nat)
    ensures NumberOf(Text(Strings.NatToString(n))) == Some(n)
    ensures forall s: Student :: InClass(s, Text(Strings.NatToString(n))) <==> InClass(s, Num(n))
  {
    Strings.TrimOfTrimmed(Strings.NatToString(n));
    Strings.DecimalRoundTrip(n);
  }

  /** The ids the chapter's progress is asked for, in roster order. */
  function Ids(students: seq<Student>): (r: seq<string>)
    ensures |r| == |students| && forall i :: 0 <= i < |students| ==> r[i] == students[i].id
  {
    seq(|students|, i requires 0 <= i < |students| => students[i].id)
  }

  /** `Promise.all` over the per-student requests, each settled to its
      progress. */
  function Results(replies: seq<Reply>): (r: seq<Progress>)
    ensures |r| == |replies| && forall i :: 0 <= i < |replies| ==> r[i] == ProgressOf(replies[i])
  {
    seq(|replies|, i requires 0 <= i < |replies| => ProgressOf(replies[i]))
  }

  /** The three option lists of the selects. */
  datatype Options = Options(classes: seq<ClassValue>, subjects: seq<Subject>, chapters: seq<string>)

  /** The three selections. */
  datatype Selection = Selection(selectedClass: Option<ClassValue>, selectedSubject: Option<string>, selectedChapter: Option<string>)

  /** What the modal draws: the per-level averages, the chart and the levels
      with a line. */
  datatype Shown = Shown(averageScores: map<string, Option<real>>, chartData: seq<ChartPoint>, availableLevels: seq<string>)

  /** What fetchProgressDetails shows for the given per-student results. */
  function ShownFor(results: seq<Progress>): Shown {
    Shown(AveragesOf(LevelScores(results)), ChartOf(results), AvailableOf(LevelScores(results)))
  }

  /** The body of fetchProgressDetails once every request has settled. */
  method Aggregate(results: seq<Progress>) returns (shown: Shown)
    ensures shown == ShownFor(results)
  {
    var levelScores := CollectLevelScores(results);
    var averages := ComputeAverages(levelScores);
    var chart := BuildChart(results);
    shown := Shown(averages, chart, AvailableOf(levelScores));
  }

  /** The modal's state hooks, the option lists, the selections and the
      drawn results each grouped in one value. */
  class ClassProgressModal {
    var options: Options
    var students: seq<Student>
    var filteredStudents: seq<Student>
    var studentCount: nat
    var selection: Selection
    var progressDetails: seq<Progress>
    var shown: Shown

    /** Every piece of state at its initial value. */
    predicate Cleared()
      reads this
    {
      options == Options([], [], []) && students == [] && filteredStudents == [] && studentCount == 0
      && selection == Selection(None, None, None) && progressDetails == [] && shown == Shown(map[], [], [])
    }

    constructor ()
      ensures Cleared()
    {
      options := Options([], [], []);
      students, filteredStudents, studentCount := [], [], 0;
      selection := Selection(None, None, None);
      progressDetails := [];
      shown := Shown(map[], [], []);
    }

    /** The effect of `visible` turning false. */
    method Close()
      modifies this
      ensures Cleared()
    {
      options := Options([], [], []);
      students, filteredStudents, studentCount := [], [], 0;
      selection := Selection(None, None, None);
      progressDetails := [];
      shown := Shown(map[], [], []);
    }

    /** handleClassChange: selects the class's students and counts them, and
        clears subject, chapter, chapters and progress. The subject list and
        what is drawn are left as they were. */
    method ClassChange(value: ClassValue)
      modifies this
      ensures selection == Selection(Some(value), None, None)
      ensures options == old(options).(chapters := []) && progressDetails == []
      ensures filteredStudents == ClassMembers(old(students), value) && studentCount == |filteredStudents|
      ensures students == old(students) && shown == old(shown)
    {
      selection := Selection(Some(value), None, None);
      options := options.(chapters := []);
      progressDetails := [];
      filteredStudents := ClassMembers(students, value);
      studentCount := |filteredStudents|;
    }

    /** handleSubjectChange. */
    method SubjectChange(value: string)
      modifies this
      ensures selection == old(selection).(selectedSubject := Some(value), selectedChapter := None)
      ensures progressDetails == []
      ensures options == old(options) && students == old(students) && filteredStudents == old(filteredStudents)
      ensures studentCount == old(studentCount) && shown == old(shown)
    {
      selection := selection.(selectedSubject := Some(value), selectedChapter := None);
      progressDetails := [];
    }

    /** handleChapterChange followed by fetchProgressDetails: `replies[i]` is
        what the request for the i-th selected student came back with. */
    method ChapterChange(value: string, replies: seq<Reply>) returns (requested: seq<string>)
      requires |replies| == |filteredStudents|
      modifies this
      ensures requested == Ids(filteredStudents)
      ensures selection == old(selection).(selectedChapter := Some(value)) && progressDetails == []
      ensures shown == ShownFor(Results(replies))
      ensures options == old(options) && students == old(students)
      ensures filteredStudents == old(filteredStudents) && studentCount == old(studentCount)
    {
      selection := selection.(selectedChapter := Some(value));
      progressDetails := [];
      requested := Ids(filteredStudents);
      shown := Aggregate(Results(replies));
    }
  }
}
