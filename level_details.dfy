// The per-category bar chart of the student's latest-level cards, whose two
// series are read off the `progress` object key by key. The card's time
// ("HH:MM:SS") is Clock.FormatClock.

module LevelDetails {
  import opened Strings
  import opened Outcomes

  /** One entry of `progress`: a cognitive category and its counts. */
  datatype CategoryCounts = CategoryCounts(questionCount: int, correctCount: int)

  /** The `progress` object as its entries, in key order. */
  type Progress = seq<(string, CategoryCounts)>

  function Keys(p: Progress): (r: seq<string>)
    ensures |r| == |p| && forall i :: 0 <= i < |p| ==> r[i] == p[i].0
  {
    seq(|p|, i requires 0 <= i < |p| => p[i].0)
  }

  /** `progress[key]`: the value stored under a key of the object. */
  function Lookup(p: Progress, key: string): (c: CategoryCounts)
    requires key in Keys(p)
  {
    if p[0].0 == key then p[0].1 else Lookup(p[1..], key)
  }

  /** `cognitiveLevels.map(level => progress[level].questionCount)`. */
  function QuestionCounts(p: Progress): (r: seq<int>)
    ensures |r| == |p|
  {
    var keys := Keys(p);
    seq(|keys|, i requires 0 <= i < |keys| => Lookup(p, keys[i]).questionCount)
  }

  /** `cognitiveLevels.map(level => progress[level].correctCount)`. */
  function CorrectCounts(p: Progress): (r: seq<int>)
    ensures |r| == |p|
  {
    var keys := Keys(p);
    seq(|keys|, i requires 0 <= i < |keys| => Lookup(p, keys[i]).correctCount)
  }

  predicate DistinctKeys(p: Progress) {
    forall i, j :: 0 <= i < j < |p| ==> p[i].0 != p[j].0
  }

  /** Under a key that occurs once, the lookup finds that entry's counts. */
  lemma {:induction false} LookupFinds(p: Progress, i: nat)
    requires DistinctKeys(p) && i < |p|
    ensures p[i].0 in Keys(p) && Lookup(p, p[i].0) == p[i].1
  {
    assert Keys(p)[i] == p[i].0;
    if i > 0 {
      assert p[0].0 != p[i].0;
      assert p[1..][i - 1] == p[i];
      LookupFinds(p[1..], i - 1);
    }
  }

  /** The two series are index-aligned with the category keys: position i of
      each holds the counts of the i-th key. */
  lemma SeriesAligned(p: Progress, i: nat)
    requires DistinctKeys(p) && i < |p|
    ensures Keys(p)[i] == p[i].0
    ensures QuestionCounts(p)[i] == p[i].1.questionCount
    ensures CorrectCounts(p)[i] == p[i].1.correctCount
  {
    LookupFinds(p, i);
  }

  /** `renderCognitiveBreakdownChart`: no chart without progress data. */
  function Chart(progress: Option<Progress>): (r: Option<(seq<string>, seq<int>, seq<int>)>)
    ensures r.None? <==> progress.None?
  {
    match progress
    case None => None
    case Some(p) => Some((CategoryLabels(Keys(p)), QuestionCounts(p), CorrectCounts(p)))
  }

  function UpperChar(c: char): char {
    if 'a' <= c <= 'z' then (c as int - 32) as char else c
  }

  /** `level.charAt(0).toUpperCase() + level.slice(1)`; the empty string
      stays empty. */
  function Capitalize(s: string): (r: string)
  {
    if s == [] then [] else [UpperChar(s[0])] + s[1..]
  }

  function CategoryLabels(keys: seq<string>): (r: seq<string>)
    ensures |r| == |keys| && forall i :: 0 <= i < |keys| ==> r[i] == Capitalize(keys[i])
  {
    seq(|keys|, i requires 0 <= i < |keys| => Capitalize(keys[i]))
  }

  /** A label keeps its key's length and every character after the first, and
      starts with no lower-case letter; capitalizing a label changes nothing. */
  lemma CapitalizeFacts(s: string)
    ensures |Capitalize(s)| == |s|
    ensures s != [] ==> Capitalize(s)[1..] == s[1..]
    ensures s != [] ==> !('a' <= Capitalize(s)[0] <= 'z')
    ensures s != [] && !('a' <= s[0] <= 'z') ==> Capitalize(s) == s
    ensures Capitalize(Capitalize(s)) == Capitalize(s)
  {
  }

  lemma CapitalizeExample()
    ensures Capitalize("remember") == "Remember"
  {
  }
}
