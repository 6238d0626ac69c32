// A student's progress in one chapter, as both the student's page and the
// admin's student view compute it from the server's per-level attempt
// lists: attempt totals and the average over levels 1 to 5, one chart
// point per distinct timestamp, the attempts newest first, and the
// per-level graphs.

module ChapterProgress {
  import opened Outcomes
  import opened Strings
  import opened Collections
  import Sorting

  /** One attempt as stored; timestamps are compared as numbers. */
  datatype Attempt = Attempt(timestamp: int, score: int)

  /** `chapterProgress`: attempt lists under level keys such as "1". */
  type RawData = map<string, seq<Attempt>>

  /** `rawData[level] || []`. */
  function LevelAttempts(raw: RawData, level: nat): seq<Attempt> {
    var key := NatToString(level);
    if key in raw then raw[key] else []
  }

  /** An attempt in the combined list, tagged with its level. */
  datatype LevelAttempt = LevelAttempt(timestamp: int, score: int, level: nat)

  function Tagged(xs: seq<Attempt>, level: nat): (r: seq<LevelAttempt>)
    ensures |r| == |xs|
    ensures forall i :: 0 <= i < |xs| ==> r[i] == LevelAttempt(xs[i].timestamp, xs[i].score, level)
  {
    seq(|xs|, i requires 0 <= i < |xs| => LevelAttempt(xs[i].timestamp, xs[i].score, level))
  }

  /** The attempts of levels 1 to k, level by level, in list order. */
  function AttemptsUpTo(raw: RawData, k: nat): seq<LevelAttempt> {
    if k == 0 then [] else AttemptsUpTo(raw, k - 1) + Tagged(LevelAttempts(raw, k), k)
  }

  /** Every attempt counted: those of levels 1 to 5. */
  function AllAttempts(raw: RawData): seq<LevelAttempt> {
    AttemptsUpTo(raw, 5)
  }

  function Score(a: LevelAttempt): int { a.score }

  function Stamp(a: LevelAttempt): int { a.timestamp }

  /** An attempt is counted exactly when it is listed under one of the keys
      "1" to "5", and it carries that level. */
  lemma {:induction false} AttemptsUpToMembers(raw: RawData, k: nat, a: LevelAttempt)
    ensures a in AttemptsUpTo(raw, k) <==>
      1 <= a.level <= k && Attempt(a.timestamp, a.score) in LevelAttempts(raw, a.level)
  {
    if k > 0 {
      AttemptsUpToMembers(raw, k - 1, a);
      var tagged := Tagged(LevelAttempts(raw, k), k);
      if a in tagged {
        var i :| 0 <= i < |tagged| && tagged[i] == a;
        assert LevelAttempts(raw, k)[i] == Attempt(a.timestamp, a.score);
      }
      if a.level == k && Attempt(a.timestamp, a.score) in LevelAttempts(raw, k) {
        var xs := LevelAttempts(raw, k);
        var i :| 0 <= i < |xs| && xs[i] == Attempt(a.timestamp, a.score);
        assert tagged[i] == a;
      }
    }
  }

  /** Keys other than "1" to "5" contribute no attempts. */
  lemma {:induction false} OtherKeysIgnored(raw: RawData, key: string, xs: seq<Attempt>, k: nat)
    requires k <= 5 && key !in {"1", "2", "3", "4", "5"}
    ensures AttemptsUpTo(raw[key := xs], k) == AttemptsUpTo(raw, k)
  {
    if k > 0 {
      OtherKeysIgnored(raw, key, xs, k - 1);
      NatToStringOfLevel(k);
    }
  }

  /** Nor do they add a level to any chart point. */
  lemma {:induction false} OtherKeysKeepPoints(raw: RawData, key: string, xs: seq<Attempt>, t: int, k: nat)
    requires k <= 5 && key !in {"1", "2", "3", "4", "5"}
    ensures LevelsAt(raw[key := xs], t, k) == LevelsAt(raw, t, k)
  {
    if k > 0 {
      OtherKeysKeepPoints(raw, key, xs, t, k - 1);
      NatToStringOfLevel(k);
    }
  }

  /** The timestamps of the counted attempts, as `new Set` holds them. */
  function StampSet(raw: RawData): set<int> {
    set a | a in AllAttempts(raw) :: a.timestamp
  }

  /** `find`: the score of the first attempt at that timestamp. */
  function FirstScoreAt(xs: seq<Attempt>, t: int): (r: Option<int>)
    ensures r.Some? <==> exists i :: 0 <= i < |xs| && xs[i].timestamp == t
  {
    if xs == [] then None
    else if xs[0].timestamp == t then Some(xs[0].score)
    else
      var rest := FirstScoreAt(xs[1..], t);
      assert forall i :: 0 < i < |xs| ==> xs[i] == xs[1..][i - 1];
      rest
  }

  /** The first matching attempt: no earlier attempt has that timestamp. */
  lemma {:induction false} FirstScoreAtIsFirst(xs: seq<Attempt>, t: int)
    requires FirstScoreAt(xs, t).Some?
    ensures exists i :: 0 <= i < |xs| && xs[i].timestamp == t && xs[i].score == FirstScoreAt(xs, t).value
                     && forall j :: 0 <= j < i ==> xs[j].timestamp != t
  {
    if xs[0].timestamp != t {
      FirstScoreAtIsFirst(xs[1..], t);
      var i :| 0 <= i < |xs[1..]| && xs[1..][i].timestamp == t && xs[1..][i].score == FirstScoreAt(xs[1..], t).value
               && forall j :: 0 <= j < i ==> xs[1..][j].timestamp != t;
      assert forall j :: 0 < j < i + 1 ==> xs[j] == xs[1..][j - 1];
      assert xs[i + 1] == xs[1..][i];
    }
  }

  /** A chart point: its timestamp and, per level, the score at that time. */
  datatype ChartPoint = ChartPoint(timestamp: int, levels: map<nat, int>)

  const Levels: set<nat> := {1, 2, 3, 4, 5}

  /** The `level{n}` entries of the point at t, for levels 1 to k: each
      level with an attempt at that time, from the first such attempt. */
  function LevelsAt(raw: RawData, t: int, k: nat): map<nat, int> {
    if k == 0 then map[]
    else
      var earlier := LevelsAt(raw, t, k - 1);
      var found := FirstScoreAt(LevelAttempts(raw, k), t);
      if found.Some? then earlier[k := found.value] else earlier
  }

  /** The point for one timestamp. */
  function PointAt(raw: RawData, t: int): ChartPoint {
    ChartPoint(t, LevelsAt(raw, t, 5))
  }

  /** A point carries `level{n}` exactly when n is 1 to 5 and level n has
      an attempt at that time, with the first such attempt's score. */
  lemma {:induction false} LevelsAtSpec(raw: RawData, t: int, k: nat, n: nat)
    ensures n in LevelsAt(raw, t, k) <==> 1 <= n <= k && FirstScoreAt(LevelAttempts(raw, n), t).Some?
    ensures n in LevelsAt(raw, t, k) ==> LevelsAt(raw, t, k)[n] == FirstScoreAt(LevelAttempts(raw, n), t).value
  {
    if k > 0 {
      LevelsAtSpec(raw, t, k - 1, n);
    }
  }

  /** The results of processData / processProgressData. */
  datatype Processed = Processed(totalAttempts: nat, totalScore: int, attempts: seq<LevelAttempt>,
                                 timestamps: seq<int>, chart: seq<ChartPoint>)

  function PointStamps(chart: seq<ChartPoint>): (r: seq<int>)
    ensures |r| == |chart| && forall i :: 0 <= i < |chart| ==> r[i] == chart[i].timestamp
  {
    seq(|chart|, i requires 0 <= i < |chart| => chart[i].timestamp)
  }

  /** The specification of the timestamps: each counted timestamp once, in
      ascending order. */
  ghost predicate AscendingStamps(ts: seq<int>, raw: RawData) {
    (forall i, j :: 0 <= i < j < |ts| ==> ts[i] < ts[j])
    && forall t :: t in ts <==> t in StampSet(raw)
  }

  /** The attempts list: every counted attempt, newest first; attempts
      with the same timestamp keep their collected order (level 1 to 5,
      then list order), as the stable sort leaves them. */
  ghost predicate NewestFirst(attempts: seq<LevelAttempt>, raw: RawData) {
    && Sorting.SortedDesc(attempts, Stamp)
    && multiset(attempts) == multiset(AllAttempts(raw))
    && forall t :: Sorting.KeyRun(attempts, Stamp, t) == Sorting.KeyRun(AllAttempts(raw), Stamp, t)
  }

  /** The newest-first list is exactly the stable sort of the collected
      attempts: no other order meets the description. */
  lemma NewestFirstIsStableSort(attempts: seq<LevelAttempt>, raw: RawData)
    ensures NewestFirst(attempts, raw) <==> attempts == Sorting.InsertionSorted(AllAttempts(raw), Stamp)
  {
    var sorted := Sorting.InsertionSorted(AllAttempts(raw), Stamp);
    Sorting.InsertionSortedFacts(AllAttempts(raw), Stamp);
    if NewestFirst(attempts, raw) {
      Sorting.SortedRunsUnique(attempts, sorted, Stamp);
    }
  }

  /** processData: the totals, the attempts newest first, and one chart
      point per distinct timestamp in ascending order. */
  method ProcessData(raw: RawData) returns (p: Processed)
    ensures p.totalAttempts == |AllAttempts(raw)|
    ensures p.totalScore == Sorting.SumOf(AllAttempts(raw), Score)
    ensures NewestFirst(p.attempts, raw)
    ensures AscendingStamps(p.timestamps, raw)
    ensures |p.chart| == |p.timestamps|
    ensures forall i :: 0 <= i < |p.chart| ==> p.chart[i] == PointAt(raw, p.timestamps[i])
  {
    var totalAttempts, totalScore, all := CountAttempts(raw);
    var timestamps := SortedStamps(all);
    var chart := BuildChart(raw, timestamps);
    var attempts := Sorting.SortedCopyDesc(all, Stamp);
    Sorting.InsertionSortedFacts(all, Stamp);
    p := Processed(totalAttempts, totalScore, attempts, timestamps, chart);
  }

  /** `Array.from(new Set(timestamps)).sort()`: each timestamp once, in
      ascending order. */
  method SortedStamps(all: seq<LevelAttempt>) returns (timestamps: seq<int>)
    ensures forall i, j :: 0 <= i < j < |timestamps| ==> timestamps[i] < timestamps[j]
    ensures forall t :: t in timestamps <==> t in (set a | a in all :: a.timestamp)
  {
    var stamps := seq(|all|, i requires 0 <= i < |all| => all[i].timestamp);
    var distinct := Dedupe(stamps);
    timestamps := Sorting.SortedCopyDesc(distinct, (t: int) => -t);
    StampsAscending(all, stamps, distinct, timestamps);
  }

  lemma StampsAscending(all: seq<LevelAttempt>, stamps: seq<int>, distinct: seq<int>, timestamps: seq<int>)
    requires stamps == seq(|all|, i requires 0 <= i < |all| => all[i].timestamp)
    requires distinct == Dedupe(stamps)
    requires Sorting.SortedDesc(timestamps, (t: int) => -t) && multiset(timestamps) == multiset(distinct)
    ensures forall i, j :: 0 <= i < j < |timestamps| ==> timestamps[i] < timestamps[j]
    ensures forall t :: t in timestamps <==> t in (set a | a in all :: a.timestamp)
  {
    DedupeSpec(stamps);
    Sorting.DistinctPermutation(distinct, timestamps);
    forall t ensures t in timestamps <==> t in (set a | a in all :: a.timestamp) {
      assert t in timestamps <==> t in multiset(timestamps);
      assert t in distinct <==> t in multiset(distinct);
      if t in (set a | a in all :: a.timestamp) {
        var a :| a in all && a.timestamp == t;
        var i :| 0 <= i < |all| && all[i] == a;
        assert stamps[i] == t;
      }
    }
  }


  /** The `forEach` over the timestamps, one point each. */
  method BuildChart(raw: RawData, timestamps: seq<int>) returns (chart: seq<ChartPoint>)
    ensures |chart| == |timestamps|
    ensures forall i :: 0 <= i < |chart| ==> chart[i] == PointAt(raw, timestamps[i])
  {
    chart := [];
    var i := 0;
    while i < |timestamps|
      invariant 0 <= i <= |timestamps| && |chart| == i
      invariant forall k :: 0 <= k < i ==> chart[k] == PointAt(raw, timestamps[k])
    {
      var point := BuildPoint(raw, timestamps[i]);
      chart := chart + [point];
      i := i + 1;
    }
  }

  /** The nested `forEach` over levels 1 to 5 and their attempts. */
  method CountAttempts(raw: RawData) returns (totalAttempts: nat, totalScore: int, all: seq<LevelAttempt>)
    ensures all == AllAttempts(raw)
    ensures totalAttempts == |all| && totalScore == Sorting.SumOf(all, Score)
  {
    totalAttempts, totalScore, all := 0, 0, [];
    var level := 1;
    while level <= 5
      invariant 1 <= level <= 6
      invariant all == AttemptsUpTo(raw, level - 1)
      invariant totalAttempts == |all| && totalScore == Sorting.SumOf(all, Score)
    {
      var levelAttempts := LevelAttempts(raw, level);
      totalAttempts, totalScore, all := CountLevel(levelAttempts, level, totalAttempts, totalScore, all);
      assert all == AttemptsUpTo(raw, level);
      level := level + 1;
    }
    assert level == 6;
  }

  /** The inner `forEach` over one level's attempts. */
  method CountLevel(levelAttempts: seq<Attempt>, level: nat, count: nat, sum: int, before: seq<LevelAttempt>)
    returns (totalAttempts: nat, totalScore: int, all: seq<LevelAttempt>)
    requires count == |before| && sum == Sorting.SumOf(before, Score)
    ensures all == before + Tagged(levelAttempts, level)
    ensures totalAttempts == |all| && totalScore == Sorting.SumOf(all, Score)
  {
    totalAttempts, totalScore, all := count, sum, before;
    var j := 0;
    while j < |levelAttempts|
      invariant 0 <= j <= |levelAttempts|
      invariant all == before + Tagged(levelAttempts[..j], level)
      invariant totalAttempts == |all| && totalScore == Sorting.SumOf(all, Score)
    {
      var attempt := levelAttempts[j];
      var entry := LevelAttempt(attempt.timestamp, attempt.score, level);
      TaggedStep(levelAttempts, j, level);
      SumStep(all, entry);
      totalAttempts := totalAttempts + 1;
      totalScore := totalScore + attempt.score;
      all := all + [entry];
      j := j + 1;
    }
    assert levelAttempts[..j] == levelAttempts;
  }

  lemma TaggedStep(xs: seq<Attempt>, j: nat, level: nat)
    requires j < |xs|
    ensures Tagged(xs[..j + 1], level) == Tagged(xs[..j], level) + [LevelAttempt(xs[j].timestamp, xs[j].score, level)]
  {
  }

  lemma SumStep(all: seq<LevelAttempt>, entry: LevelAttempt)
    ensures Sorting.SumOf(all + [entry], Score) == Sorting.SumOf(all, Score) + entry.score
  {
    Sorting.SumOfAppend(all, [entry], Score);
  }

  /** One chart point: the `forEach` over the levels with `find`. */
  method BuildPoint(raw: RawData, t: int) returns (point: ChartPoint)
    ensures point == PointAt(raw, t)
  {
    var levels: map<nat, int> := map[];
    var level := 1;
    while level <= 5
      invariant 1 <= level <= 6
      invariant levels == LevelsAt(raw, t, level - 1)
    {
      var attempt := FirstScoreAt(LevelAttempts(raw, level), t);
      if attempt.Some? {
        levels := levels[level := attempt.value];
      }
      level := level + 1;
    }
    point := ChartPoint(t, levels);
  }

  /** `totalAttempts > 0 ? totalScore / totalAttempts : 0`. */
  function Average(totalAttempts: nat, totalScore: int): real {
    if totalAttempts > 0 then totalScore as real / totalAttempts as real else 0.0
  }

  /** With every score between 0 and the maximum of 45, so is the average;
      with no attempts it is 0. */
  lemma AverageBounds(xs: seq<LevelAttempt>)
    requires forall i :: 0 <= i < |xs| ==> 0 <= xs[i].score <= 45
    ensures 0.0 <= Average(|xs|, Sorting.SumOf(xs, Score)) <= 45.0
    ensures xs == [] ==> Average(|xs|, Sorting.SumOf(xs, Score)) == 0.0
  {
    SumBounds(xs);
    if |xs| > 0 {
      var n := |xs| as real;
      var s := Sorting.SumOf(xs, Score) as real;
      assert s <= 45.0 * n;
      DivideBelow(s, n, 45.0);
    }
  }

  lemma {:induction false} SumBounds(xs: seq<LevelAttempt>)
    requires forall i :: 0 <= i < |xs| ==> 0 <= xs[i].score <= 45
    ensures 0 <= Sorting.SumOf(xs, Score) <= 45 * |xs|
  {
    if xs != [] {
      SumBounds(xs[1..]);
    }
  }

  lemma DivideBelow(s: real, n: real, m: real)
    requires n > 0.0 && 0.0 <= s <= m * n
    ensures 0.0 <= s / n <= m
  {
  }

  /** Data under keys other than "1" to "5" changes neither the totals nor
      the chart, though its key is listed as an available level. */
  lemma ExtraLevelOnlyListed(raw: RawData, key: string, xs: seq<Attempt>)
    requires key !in {"1", "2", "3", "4", "5"}
    ensures AllAttempts(raw[key := xs]) == AllAttempts(raw)
    ensures forall t :: PointAt(raw[key := xs], t) == PointAt(raw, t)
    ensures key in raw[key := xs].Keys
  {
    OtherKeysIgnored(raw, key, xs, 5);
    forall t ensures PointAt(raw[key := xs], t) == PointAt(raw, t) {
      OtherKeysKeepPoints(raw, key, xs, t, 5);
    }
  }

  lemma NatToStringOfLevel(n: nat)
    requires 1 <= n <= 5
    ensures NatToString(n) in {"1", "2", "3", "4", "5"}
  {
    assert NatToString(n) == [DigitChar(n)];
  }

  // ---- per-level graphs ----------------------------------------------------------

  /** renderLevelGraph: nothing unless the level's key was in the data,
      otherwise the points that carry that level. */
  function LevelGraph(availableLevels: set<string>, chart: seq<ChartPoint>, n: nat): Option<seq<ChartPoint>> {
    if NatToString(n) !in availableLevels then None
    else Some(Filter(chart, (p: ChartPoint) => n in p.levels))
  }

  /** For a level 1 to 5 present in the data, the graph has a point at a
      timestamp exactly when the level has an attempt then, and the points
      keep the chart's ascending order. */
  lemma LevelGraphPoints(raw: RawData, ts: seq<int>, chart: seq<ChartPoint>, n: nat, t: int)
    requires n in Levels && NatToString(n) in raw
    requires AscendingStamps(ts, raw)
    requires |chart| == |ts| && forall i :: 0 <= i < |ts| ==> chart[i] == PointAt(raw, ts[i])
    ensures LevelGraph(raw.Keys, chart, n).Some?
    ensures PointAt(raw, t) in LevelGraph(raw.Keys, chart, n).value <==>
      exists i :: 0 <= i < |LevelAttempts(raw, n)| && LevelAttempts(raw, n)[i].timestamp == t
  {
    FilterMembers(chart, (p: ChartPoint) => n in p.levels, PointAt(raw, t));
    LevelsAtSpec(raw, t, 5, n);
    if FirstScoreAt(LevelAttempts(raw, n), t).Some? {
      StampCounted(raw, n, t);
      var k :| 0 <= k < |ts| && ts[k] == t;
      assert chart[k] == PointAt(raw, t);
    }
  }

  /** A timestamp of a level 1 to 5 attempt is one of the chart's. */
  lemma StampCounted(raw: RawData, n: nat, t: int)
    requires n in Levels && FirstScoreAt(LevelAttempts(raw, n), t).Some?
    ensures t in StampSet(raw)
  {
    var xs := LevelAttempts(raw, n);
    var i :| 0 <= i < |xs| && xs[i].timestamp == t;
    var a := LevelAttempt(t, xs[i].score, n);
    AttemptsUpToMembers(raw, 5, a);
  }

  /** A level key absent from the data draws no graph. */
  lemma MissingLevelNoGraph(raw: RawData, chart: seq<ChartPoint>, n: nat)
    requires NatToString(n) !in raw
    ensures LevelGraph(raw.Keys, chart, n) == None
  {
  }

  // ---- the two screens ------------------------------------------------------------

  /** The server's answer: a failure, or a body whose `chapterProgress`
      may be missing. */
  datatype Response = Failed | Loaded(chapterProgress: Option<RawData>)

  function ProgressOf(r: Response): RawData
    requires r.Loaded?
  {
    if r.chapterProgress.Some? then r.chapterProgress.value else map[]
  }

  /** The state both screens keep. */
  class ProgressView {
    var totalAttempts: nat
    var averageScore: real
    var attempts: seq<LevelAttempt>
    var chartData: seq<ChartPoint>
    var availableLevels: set<string>
    var error: Option<string>

    constructor ()
      ensures totalAttempts == 0 && averageScore == 0.0 && attempts == [] && chartData == []
      ensures availableLevels == {} && error == None
    {
      totalAttempts, averageScore, attempts, chartData, availableLevels, error := 0, 0.0, [], [], {}, None;
    }

    /** The student page's fetch: a failure records the error and keeps
        whatever was shown before. */
    method StudentFetch(r: Response)
      modifies this
      ensures r.Failed? ==> (error.Some? && totalAttempts == old(totalAttempts) && attempts == old(attempts)
                             && chartData == old(chartData) && availableLevels == old(availableLevels))
      ensures r.Loaded? ==> Shows(ProgressOf(r)) && error == old(error)
    {
      if r.Failed? {
        error := Some("Failed to fetch data");
        return;
      }
      Show(ProgressOf(r));
    }

    /** The admin view's fetch: the chart and the levels are cleared and the
        error reset first, so a failure leaves an empty chart. */
    method AdminFetch(r: Response)
      modifies this
      ensures r.Failed? ==> (error.Some? && chartData == [] && availableLevels == {}
                             && totalAttempts == old(totalAttempts) && attempts == old(attempts))
      ensures r.Loaded? ==> Shows(ProgressOf(r)) && error == None
    {
      error := None;
      chartData := [];
      availableLevels := {};
      if r.Failed? {
        error := Some("Failed to fetch progress");
        return;
      }
      Show(ProgressOf(r));
    }

    /** The state shows the processed data of `raw`. */
    ghost predicate Shows(raw: RawData)
      reads this
    {
      totalAttempts == |AllAttempts(raw)|
      && averageScore == Average(|AllAttempts(raw)|, Sorting.SumOf(AllAttempts(raw), Score))
      && NewestFirst(attempts, raw)
      && availableLevels == raw.Keys
      && AscendingStamps(PointStamps(chartData), raw)
      && forall i :: 0 <= i < |chartData| ==> chartData[i] == PointAt(raw, chartData[i].timestamp)
    }

    method Show(raw: RawData)
      modifies this
      ensures Shows(raw) && error == old(error)
    {
      var p := ProcessData(raw);
      totalAttempts := p.totalAttempts;
      averageScore := Average(p.totalAttempts, p.totalScore);
      attempts := p.attempts;
      chartData := p.chart;
      availableLevels := raw.Keys;
      assert PointStamps(chartData) == p.timestamps;
    }
  }
}
