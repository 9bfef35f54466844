/** A panel of judges: median scores, disagreement and the panel's verdict, in exact arithmetic. */
module Ensemble {
  import opened Common
  import opened Reals

  datatype Verdict = Pass | Fail | Review

  datatype Reason = InjectionDetected | DisagreementExceeded | LowConfidence | ThresholdsPassed | ThresholdFailed

  datatype Dimension = Dimension(name: string, threshold: real, weight: real)

  datatype Rubric = Rubric(dimensions: seq<Dimension>, minimumConfidence: real) {
    /** What the rubric's own validation guarantees. */
    ghost predicate Valid() {
      && dimensions != []
      && (forall d :: d in dimensions ==> d.weight > 0.0)
      && (forall i, j :: 0 <= i < j < |dimensions| ==> dimensions[i].name != dimensions[j].name)
    }
  }

  datatype JudgeResult = JudgeResult(scores: map<string, real>, confidence: real, injectionDetected: bool)

  /** MissingScore is the KeyError for a dimension some judge did not score. */
  datatype Outcome =
    | MissingScore
    | Decided(verdict: Verdict, reason: Reason, scores: map<string, real>, weighted: real, confidence: real,
        disagreement: real)

  // ---- The statistics the panel uses -----------------------------------------------------------------

  ghost predicate Sorted(s: seq<real>) {
    forall i, j :: 0 <= i < j < |s| ==> s[i] <= s[j]
  }

  function Insert(x: real, s: seq<real>): seq<real> {
    if s == [] then [x] else if x <= s[0] then [x] + s else [s[0]] + Insert(x, s[1..])
  }

  function Sort(s: seq<real>): (r: seq<real>)
    ensures |r| == |s|
  {
    if s == [] then []
    else
      InsertMultiset(s[|s| - 1], Sort(s[..|s| - 1]));
      Insert(s[|s| - 1], Sort(s[..|s| - 1]))
  }

  lemma {:induction false} InsertMultiset(x: real, s: seq<real>)
    ensures multiset(Insert(x, s)) == multiset(s) + multiset{x} && |Insert(x, s)| == |s| + 1
  {
    if s != [] && x > s[0] {
      InsertMultiset(x, s[1..]);
      assert s == [s[0]] + s[1..];
    }
  }

  lemma {:induction false} InsertSorted(x: real, s: seq<real>)
    requires Sorted(s)
    ensures Sorted(Insert(x, s))
  {
    if s != [] && x > s[0] {
      var rest := Insert(x, s[1..]);
      InsertSorted(x, s[1..]);
      InsertMultiset(x, s[1..]);
      forall k | 0 <= k < |rest|
        ensures s[0] <= rest[k]
      {
        assert rest[k] in multiset(rest);
        assert rest[k] == x || rest[k] in s[1..];
      }
    }
  }

  /** Sorting keeps the values and puts them in order. */
  lemma {:induction false} SortSorts(s: seq<real>)
    ensures Sorted(Sort(s)) && multiset(Sort(s)) == multiset(s)
  {
    if s != [] {
      var init := s[..|s| - 1];
      SortSorts(init);
      InsertSorted(s[|s| - 1], Sort(init));
      InsertMultiset(s[|s| - 1], Sort(init));
      assert s == init + [s[|s| - 1]];
    }
  }

  /** The middle of the sorted values, or the mean of the two in the middle. */
  function Median(s: seq<real>): real
    requires s != []
  {
    var r, n := Sort(s), |s|;
    if n % 2 == 1 then r[n / 2] else (r[n / 2 - 1] + r[n / 2]) / 2.0
  }

  function Maximum(s: seq<real>): real
    requires s != []
  {
    if |s| == 1 then s[0]
    else
      var m := Maximum(s[..|s| - 1]);
      if s[|s| - 1] > m then s[|s| - 1] else m
  }

  function Minimum(s: seq<real>): real
    requires s != []
  {
    if |s| == 1 then s[0]
    else
      var m := Minimum(s[..|s| - 1]);
      if s[|s| - 1] < m then s[|s| - 1] else m
  }

  lemma {:induction false} Extremes(s: seq<real>)
    requires s != []
    ensures Maximum(s) in s && Minimum(s) in s
    ensures forall i :: 0 <= i < |s| ==> Minimum(s) <= s[i] <= Maximum(s)
  {
    if |s| > 1 {
      Extremes(s[..|s| - 1]);
      assert s == s[..|s| - 1] + [s[|s| - 1]];
    }
  }

  function Spread(s: seq<real>): real
    requires s != []
  {
    Maximum(s) - Minimum(s)
  }

  // ---- Evaluation ---------------------------------------------------------------------------------------

  predicate ScoresAll(results: seq<JudgeResult>, name: string) {
    forall i :: 0 <= i < |results| ==> name in results[i].scores
  }

  predicate Complete(results: seq<JudgeResult>, rubric: Rubric) {
    CompleteTo(results, rubric, |rubric.dimensions|)
  }

  predicate CompleteTo(results: seq<JudgeResult>, rubric: Rubric, n: nat)
    requires n <= |rubric.dimensions|
  {
    forall k :: 0 <= k < n ==> ScoresAll(results, rubric.dimensions[k].name)
  }

  function Values(results: seq<JudgeResult>, name: string): (s: seq<real>)
    requires ScoresAll(results, name)
    ensures |s| == |results|
  {
    seq(|results|, i requires 0 <= i < |results| && name in results[i].scores => results[i].scores[name])
  }

  function Confidences(results: seq<JudgeResult>): (s: seq<real>)
    ensures |s| == |results|
  {
    seq(|results|, i requires 0 <= i < |results| => results[i].confidence)
  }

  function MedianScore(results: seq<JudgeResult>, name: string): real
    requires results != [] && ScoresAll(results, name)
  {
    Median(Values(results, name))
  }

  /** The widest spread over the first n dimensions, and zero if there are none. */
  function Disagreement(results: seq<JudgeResult>, rubric: Rubric, n: nat): real
    requires results != [] && n <= |rubric.dimensions| && CompleteTo(results, rubric, n)
  {
    if n == 0 then 0.0
    else
      var before, here := Disagreement(results, rubric, n - 1), Spread(Values(results, rubric.dimensions[n - 1].name));
      if before >= here then before else here
  }

  function TotalWeight(rubric: Rubric, n: nat): real
    requires n <= |rubric.dimensions|
  {
    if n == 0 then 0.0 else TotalWeight(rubric, n - 1) + rubric.dimensions[n - 1].weight
  }

  function Contribution(median: real, d: Dimension): real {
    median * d.weight
  }

  function WeightedSum(results: seq<JudgeResult>, rubric: Rubric, n: nat): real
    requires results != [] && n <= |rubric.dimensions| && CompleteTo(results, rubric, n)
  {
    if n == 0 then 0.0
    else
      var d := rubric.dimensions[n - 1];
      WeightedSum(results, rubric, n - 1) + Contribution(MedianScore(results, d.name), d)
  }

  predicate Injected(results: seq<JudgeResult>) {
    exists r :: r in results && r.injectionDetected
  }

  predicate ThresholdsMet(results: seq<JudgeResult>, rubric: Rubric)
    requires results != [] && Complete(results, rubric)
  {
    forall k :: 0 <= k < |rubric.dimensions| ==> MedianScore(results, rubric.dimensions[k].name)
                                                 >= rubric.dimensions[k].threshold
  }

  /** The first of these grounds that applies decides. */
  function ReasonOf(injected: bool, disagreement: real, limit: real, confidence: real, minimum: real,
      met: bool): Reason {
    if injected then InjectionDetected
    else if disagreement > limit then DisagreementExceeded
    else if confidence < minimum then LowConfidence
    else if met then ThresholdsPassed
    else ThresholdFailed
  }

  function VerdictFor(reason: Reason): Verdict {
    match reason
    case ThresholdsPassed => Pass
    case ThresholdFailed => Fail
    case _ => Review
  }

  /** The panel's reason, in terms of medians and spreads. */
  function PanelReason(results: seq<JudgeResult>, rubric: Rubric, limit: real): Reason
    requires results != [] && Complete(results, rubric)
  {
    ReasonOf(Injected(results), Disagreement(results, rubric, |rubric.dimensions|), limit, Median(Confidences(results)),
             rubric.minimumConfidence, ThresholdsMet(results, rubric))
  }

  function PanelVerdict(results: seq<JudgeResult>, rubric: Rubric, limit: real): Verdict
    requires results != [] && Complete(results, rubric)
  {
    VerdictFor(PanelReason(results, rubric, limit))
  }

  /** The median of each of the first n dimensions, by name. */
  function MedianScores(results: seq<JudgeResult>, rubric: Rubric, n: nat): map<string, real>
    requires results != [] && n <= |rubric.dimensions| && CompleteTo(results, rubric, n)
  {
    if n == 0 then map[]
    else
      var name := rubric.dimensions[n - 1].name;
      MedianScores(results, rubric, n - 1)[name := MedianScore(results, name)]
  }

  /** One pass of the dimension loop; the KeyError for a missing score is None. */
  method ScoreDimension(results: seq<JudgeResult>, name: string) returns (figures: Option<(real, real)>)
    requires results != []
    ensures figures.Some? <==> ScoresAll(results, name)
    ensures figures.Some? ==> figures.value == (MedianScore(results, name), Spread(Values(results, name)))
  {
    if !ScoresAll(results, name) {
      return None;
    }
    var values := Values(results, name);
    return Some((Median(values), Spread(values)));
  }

  /** The loop's variables once the first k dimensions are done. */
  ghost predicate ScoredTo(results: seq<JudgeResult>, rubric: Rubric, k: nat, scores: map<string, real>,
      disagreement: real) {
    && results != [] && k <= |rubric.dimensions| && CompleteTo(results, rubric, k)
    && scores == MedianScores(results, rubric, k) && disagreement == Disagreement(results, rubric, k)
  }

  lemma ScoredStep(results: seq<JudgeResult>, rubric: Rubric, k: nat, scores: map<string, real>, disagreement: real)
    requires ScoredTo(results, rubric, k, scores, disagreement) && k < |rubric.dimensions|
             && ScoresAll(results, rubric.dimensions[k].name)
    ensures var name := rubric.dimensions[k].name;
            var spread := Spread(Values(results, name));
            ScoredTo(results, rubric, k + 1, scores[name := MedianScore(results, name)], if spread > disagreement
                then spread else disagreement)
  {
    assert CompleteTo(results, rubric, k + 1);
  }

  /** The dimension loop: a missing score stops it. */
  method ScoreDimensions(results: seq<JudgeResult>, rubric: Rubric)
      returns (ok: bool, scores: map<string, real>, disagreement: real)
    requires results != []
    ensures ok <==> CompleteTo(results, rubric, |rubric.dimensions|)
    ensures ok ==> ScoredTo(results, rubric, |rubric.dimensions|, scores, disagreement)
  {
    scores, disagreement, ok := map[], 0.0, true;
    for k := 0 to |rubric.dimensions|
      invariant ok && ScoredTo(results, rubric, k, scores, disagreement)
    {
      var figures := ScoreDimension(results, rubric.dimensions[k].name);
      if figures.None? {
        return false, scores, disagreement;
      }
      ScoredStep(results, rubric, k, scores, disagreement);
      var (median, spread) := figures.value;
      scores := scores[rubric.dimensions[k].name := median];
      if spread > disagreement {
        disagreement := spread;
      }
    }
  }

  method Evaluate(results: seq<JudgeResult>, rubric: Rubric, limit: real) returns (o: Outcome)
    requires results != [] && rubric.Valid()
    ensures o.MissingScore? <==> !Complete(results, rubric)
    ensures o.Decided? ==>
              && o.verdict == PanelVerdict(results, rubric, limit) && o.reason == PanelReason(results, rubric, limit)
              && o.scores == MedianScores(results, rubric, |rubric.dimensions|)
              && o.weighted == WeightedMean(results, rubric)
              && o.confidence == Median(Confidences(results))
              && o.disagreement == Disagreement(results, rubric, |rubric.dimensions|)
  {
    var ok, scores, disagreement := ScoreDimensions(results, rubric);
    if !ok {
      return MissingScore;
    }
    var weighted, confidence := WeightedMean(results, rubric), Median(Confidences(results));
    if Injected(results) {
      return Decided(Review, InjectionDetected, scores, weighted, confidence, disagreement);
    } else if disagreement > limit {
      return Decided(Review, DisagreementExceeded, scores, weighted, confidence, disagreement);
    } else if confidence < rubric.minimumConfidence {
      return Decided(Review, LowConfidence, scores, weighted, confidence, disagreement);
    } else if ThresholdsMet(results, rubric) {
      return Decided(Pass, ThresholdsPassed, scores, weighted, confidence, disagreement);
    }
    return Decided(Fail, ThresholdFailed, scores, weighted, confidence, disagreement);
  }

  function WeightedMean(results: seq<JudgeResult>, rubric: Rubric): real
    requires results != [] && rubric.Valid() && Complete(results, rubric)
  {
    WeightsArePositive(rubric, |rubric.dimensions|);
    WeightedSum(results, rubric, |rubric.dimensions|) / TotalWeight(rubric, |rubric.dimensions|)
  }

  /** Each name is scored by the median of what the judges said of it. */
  lemma {:induction false} ScoresAreMedians(results: seq<JudgeResult>, rubric: Rubric, n: nat, k: nat)
    requires results != [] && rubric.Valid() && k < n <= |rubric.dimensions| && CompleteTo(results, rubric, n)
    ensures var name := rubric.dimensions[k].name;
            name in MedianScores(results, rubric, n) && MedianScores(results, rubric, n)[name]
                == MedianScore(results, name)
  {
    if k < n - 1 {
      ScoresAreMedians(results, rubric, n - 1, k);
    }
  }

  lemma {:induction false} WeightsArePositive(rubric: Rubric, n: nat)
    requires n <= |rubric.dimensions| && rubric.Valid()
    ensures TotalWeight(rubric, n) >= 0.0 && (n > 0 ==> TotalWeight(rubric, n) > 0.0)
  {
    if n != 0 {
      assert rubric.dimensions[n - 1] in rubric.dimensions;
      WeightsArePositive(rubric, n - 1);
    }
  }

  // ---- Medians ----------------------------------------------------------------------------------------------

  /** Sorting is determined by the multiset of values. */
  lemma {:induction false} SortedUnique(a: seq<real>, b: seq<real>)
    requires Sorted(a) && Sorted(b) && multiset(a) == multiset(b)
    ensures a == b
  {
    assert |a| == |multiset(a)| == |multiset(b)| == |b|;
    if a != [] {
      assert a[0] in multiset(b) && b[0] in multiset(a);
      assert a[0] == b[0];
      assert a == [a[0]] + a[1..] && b == [b[0]] + b[1..];
      assert multiset(a[1..]) == multiset(a) - multiset{a[0]};
      assert multiset(b[1..]) == multiset(b) - multiset{b[0]};
      SortedUnique(a[1..], b[1..]);
    }
  }

  lemma MedianByMultiset(a: seq<real>, b: seq<real>)
    requires a != [] && b != [] && multiset(a) == multiset(b)
    ensures Median(a) == Median(b)
  {
    assert |a| == |multiset(a)| == |multiset(b)| == |b|;
    SortSorts(a);
    SortSorts(b);
    SortedUnique(Sort(a), Sort(b));
  }

  lemma SpreadByMultiset(a: seq<real>, b: seq<real>)
    requires a != [] && b != [] && multiset(a) == multiset(b)
    ensures Spread(a) == Spread(b)
  {
    Extremes(a);
    Extremes(b);
    assert Maximum(a) in multiset(b) && Minimum(a) in multiset(b);
    assert Maximum(b) in multiset(a) && Minimum(b) in multiset(a);
  }

  lemma MedianWithinRange(s: seq<real>)
    requires s != []
    ensures Minimum(s) <= Median(s) <= Maximum(s)
  {
    var r, n := Sort(s), |s|;
    SortSorts(s);
    Extremes(s);
    assert r[n / 2] in multiset(s);
    if n % 2 == 0 {
      assert r[n / 2 - 1] in multiset(s);
    }
  }

  ghost function CountBelow(s: seq<real>, t: real): nat {
    if s == [] then 0 else CountBelow(s[..|s| - 1], t) + (if s[|s| - 1] < t then 1 else 0)
  }

  lemma {:induction false} CountBelowInsert(x: real, s: seq<real>, t: real)
    requires Sorted(s)
    ensures CountBelow(Insert(x, s), t) == CountBelow(s, t) + (if x < t then 1 else 0)
  {
    if s != [] {
      CountBelowFirst([x] + s, t);
      CountBelowFirst(s, t);
      if x > s[0] {
        CountBelowInsert(x, s[1..], t);
        CountBelowFirst(Insert(x, s), t);
      }
    } else {
      CountBelowFirst([x], t);
    }
  }

  lemma {:induction false} CountBelowFirst(s: seq<real>, t: real)
    requires s != []
    ensures CountBelow(s, t) == (if s[0] < t then 1 else 0) + CountBelow(s[1..], t)
  {
    if |s| > 1 {
      var init := s[..|s| - 1];
      CountBelowFirst(init, t);
      assert init[1..] == s[1..][..|s| - 2];
    } else {
      assert s[..0] == [] && s[1..] == [];
    }
  }

  lemma {:induction false} CountBelowSort(s: seq<real>, t: real)
    ensures CountBelow(Sort(s), t) == CountBelow(s, t)
  {
    if s != [] {
      CountBelowSort(s[..|s| - 1], t);
      SortSorts(s[..|s| - 1]);
      CountBelowInsert(s[|s| - 1], Sort(s[..|s| - 1]), t);
    }
  }

  /** In a sorted sequence the values below t come first, as many as there are. */
  lemma {:induction false} SortedBelow(s: seq<real>, t: real, i: nat)
    requires Sorted(s) && i < CountBelow(s, t)
    ensures i < |s| && s[i] < t
  {
    if s != [] {
      var n := |s| - 1;
      if s[n] < t {
        CountAtMostLength(s[..n], t);
        assert i <= n;
      } else {
        SortedBelow(s[..n], t, i);
      }
    }
  }

  lemma {:induction false} CountAtMostLength(s: seq<real>, t: real)
    ensures CountBelow(s, t) <= |s|
  {
    if s != [] {
      CountAtMostLength(s[..|s| - 1], t);
    }
  }

  /** A strict majority below a value puts the median below it. */
  lemma MajorityBelow(s: seq<real>, t: real)
    requires s != [] && 2 * CountBelow(s, t) > |s|
    ensures Median(s) < t
  {
    CountBelowSort(s, t);
    SortSorts(s);
    SortedBelow(Sort(s), t, |s| / 2);
  }

  // ---- Order independence -------------------------------------------------------------------------------------

  function Project(results: seq<JudgeResult>, f: JudgeResult -> real): seq<real> {
    if results == [] then [] else Project(results[..|results| - 1], f) + [f(results[|results| - 1])]
  }

  lemma {:induction false} ProjectAt(results: seq<JudgeResult>, f: JudgeResult -> real)
    ensures |Project(results, f)| == |results| && forall i :: 0 <= i < |results| ==>
              Project(results, f)[i] == f(results[i])
  {
    if results != [] {
      ProjectAt(results[..|results| - 1], f);
    }
  }

  lemma ProjectConcat(a: seq<JudgeResult>, b: seq<JudgeResult>, f: JudgeResult -> real)
    ensures Project(a + b, f) == Project(a, f) + Project(b, f)
  {
    ProjectAt(a, f);
    ProjectAt(b, f);
    ProjectAt(a + b, f);
  }

  lemma ProjectSplit(front: seq<JudgeResult>, r: JudgeResult, back: seq<JudgeResult>, f: JudgeResult -> real)
    ensures Project(front + [r] + back, f) == Project(front, f) + [f(r)] + Project(back, f)
  {
    ProjectConcat(front + [r], back, f);
    ProjectConcat(front, [r], f);
    ProjectAt([r], f);
  }

  lemma {:induction false} ProjectByMultiset(a: seq<JudgeResult>, b: seq<JudgeResult>, f: JudgeResult -> real)
    requires multiset(a) == multiset(b)
    ensures multiset(Project(a, f)) == multiset(Project(b, f))
  {
    if a == [] {
      assert |multiset(b)| == 0;
      assert b == [];
    } else {
      var front, back := RemoveLast(a, b);
      ProjectByMultiset(a[..|a| - 1], front + back, f);
      ProjectSplit(front, a[|a| - 1], back, f);
      ProjectConcat(front, back, f);
    }
  }

  function ScoreOf(name: string): JudgeResult -> real {
    (r: JudgeResult) => if name in r.scores then r.scores[name] else 0.0
  }

  lemma ValuesByMultiset(a: seq<JudgeResult>, b: seq<JudgeResult>, name: string)
    requires multiset(a) == multiset(b) && ScoresAll(a, name) && ScoresAll(b, name)
    ensures multiset(Values(a, name)) == multiset(Values(b, name))
  {
    ProjectAt(a, ScoreOf(name));
    ProjectAt(b, ScoreOf(name));
    assert Values(a, name) == Project(a, ScoreOf(name)) && Values(b, name) == Project(b, ScoreOf(name));
    ProjectByMultiset(a, b, ScoreOf(name));
  }

  lemma ConfidencesByMultiset(a: seq<JudgeResult>, b: seq<JudgeResult>)
    requires multiset(a) == multiset(b)
    ensures multiset(Confidences(a)) == multiset(Confidences(b))
  {
    var f := (r: JudgeResult) => r.confidence;
    ProjectAt(a, f);
    ProjectAt(b, f);
    assert Confidences(a) == Project(a, f) && Confidences(b) == Project(b, f);
    ProjectByMultiset(a, b, f);
  }

  lemma SameMembers(a: seq<JudgeResult>, b: seq<JudgeResult>, rubric: Rubric)
    requires multiset(a) == multiset(b)
    ensures |a| == |b| && Injected(a) == Injected(b) && Complete(a, rubric) == Complete(b, rubric)
  {
    assert |a| == |multiset(a)| == |multiset(b)| == |b|;
    assert forall i :: 0 <= i < |a| ==> a[i] in multiset(b);
    assert forall i :: 0 <= i < |b| ==> b[i] in multiset(a);
    forall k | 0 <= k < |rubric.dimensions|
      ensures ScoresAll(a, rubric.dimensions[k].name) == ScoresAll(b, rubric.dimensions[k].name)
    {
      ScoresAllByMembers(a, b, rubric.dimensions[k].name);
      ScoresAllByMembers(b, a, rubric.dimensions[k].name);
    }
  }

  lemma ScoresAllByMembers(a: seq<JudgeResult>, b: seq<JudgeResult>, name: string)
    requires forall i :: 0 <= i < |b| ==> b[i] in multiset(a)
    ensures ScoresAll(a, name) ==> ScoresAll(b, name)
  {
    forall i | 0 <= i < |b| && ScoresAll(a, name)
      ensures name in b[i].scores
    {
      var j :| 0 <= j < |a| && a[j] == b[i];
    }
  }

  lemma DimensionByMultiset(a: seq<JudgeResult>, b: seq<JudgeResult>, name: string)
    requires multiset(a) == multiset(b) && a != [] && b != [] && ScoresAll(a, name) && ScoresAll(b, name)
    ensures MedianScore(a, name) == MedianScore(b, name) && Spread(Values(a, name)) == Spread(Values(b, name))
  {
    ValuesByMultiset(a, b, name);
    MedianByMultiset(Values(a, name), Values(b, name));
    SpreadByMultiset(Values(a, name), Values(b, name));
  }

  /** Two panels agree on the medians and spreads of the first n dimensions. */
  ghost predicate SameFigures(a: seq<JudgeResult>, b: seq<JudgeResult>, rubric: Rubric, n: nat)
    requires a != [] && b != [] && n <= |rubric.dimensions| && CompleteTo(a, rubric, n) && CompleteTo(b, rubric, n)
  {
    forall k :: 0 <= k < n ==>
      && MedianScore(a, rubric.dimensions[k].name) == MedianScore(b, rubric.dimensions[k].name)
      && Spread(Values(a, rubric.dimensions[k].name)) == Spread(Values(b, rubric.dimensions[k].name))
  }

  lemma {:induction false} DisagreementAgrees(a: seq<JudgeResult>, b: seq<JudgeResult>, rubric: Rubric, n: nat)
    requires a != [] && b != [] && n <= |rubric.dimensions| && CompleteTo(a, rubric, n) && CompleteTo(b, rubric, n)
             && SameFigures(a, b, rubric, n)
    ensures Disagreement(a, rubric, n) == Disagreement(b, rubric, n)
  {
    if n != 0 {
      DisagreementAgrees(a, b, rubric, n - 1);
    }
  }

  lemma {:induction false} MedianScoresAgree(a: seq<JudgeResult>, b: seq<JudgeResult>, rubric: Rubric, n: nat)
    requires a != [] && b != [] && n <= |rubric.dimensions| && CompleteTo(a, rubric, n) && CompleteTo(b, rubric, n)
             && SameFigures(a, b, rubric, n)
    ensures MedianScores(a, rubric, n) == MedianScores(b, rubric, n)
  {
    if n != 0 {
      MedianScoresAgree(a, b, rubric, n - 1);
    }
  }

  lemma {:induction false} WeightedSumAgrees(a: seq<JudgeResult>, b: seq<JudgeResult>, rubric: Rubric, n: nat)
    requires a != [] && b != [] && n <= |rubric.dimensions| && CompleteTo(a, rubric, n) && CompleteTo(b, rubric, n)
             && SameFigures(a, b, rubric, n)
    ensures WeightedSum(a, rubric, n) == WeightedSum(b, rubric, n)
  {
    if n != 0 {
      WeightedSumAgrees(a, b, rubric, n - 1);
      assert MedianScore(a, rubric.dimensions[n - 1].name) == MedianScore(b, rubric.dimensions[n - 1].name);
    }
  }

  /** Scores, weighted mean, confidence, disagreement and verdict do not depend on the order of the judges. */
  lemma PanelIgnoresOrder(a: seq<JudgeResult>, b: seq<JudgeResult>, rubric: Rubric, limit: real)
    requires multiset(a) == multiset(b) && a != [] && rubric.Valid()
    ensures b != [] && (Complete(a, rubric) <==> Complete(b, rubric))
    ensures Complete(a, rubric) ==>
            && PanelVerdict(a, rubric, limit) == PanelVerdict(b, rubric, limit)
               && PanelReason(a, rubric, limit) == PanelReason(b, rubric, limit)
            && MedianScores(a, rubric, |rubric.dimensions|) == MedianScores(b, rubric, |rubric.dimensions|)
            && WeightedMean(a, rubric) == WeightedMean(b, rubric)
            && Median(Confidences(a)) == Median(Confidences(b))
            && Disagreement(a, rubric, |rubric.dimensions|) == Disagreement(b, rubric, |rubric.dimensions|)
  {
    SameMembers(a, b, rubric);
    if Complete(a, rubric) {
      forall k | 0 <= k < |rubric.dimensions| {
        DimensionByMultiset(a, b, rubric.dimensions[k].name);
      }
      DisagreementAgrees(a, b, rubric, |rubric.dimensions|);
      MedianScoresAgree(a, b, rubric, |rubric.dimensions|);
      WeightedSumAgrees(a, b, rubric, |rubric.dimensions|);
      ConfidencesByMultiset(a, b);
      MedianByMultiset(Confidences(a), Confidences(b));
    }
  }

  // ---- What a verdict guarantees --------------------------------------------------------------------------------

  lemma {:induction false} DisagreementCoversSpread(results: seq<JudgeResult>, rubric: Rubric, n: nat, k: nat)
    requires results != [] && k < n <= |rubric.dimensions| && CompleteTo(results, rubric, n)
    ensures Spread(Values(results, rubric.dimensions[k].name)) <= Disagreement(results, rubric, n)
  {
    if k < n - 1 {
      DisagreementCoversSpread(results, rubric, n - 1, k);
    }
  }

  /** A pass means no judge scored any dimension further below its threshold than the allowed disagreement. */
  lemma PassBoundsEveryJudge(results: seq<JudgeResult>, rubric: Rubric, limit: real, k: nat, i: nat)
    requires results != [] && Complete(results, rubric) && PanelVerdict(results, rubric, limit) == Pass
    requires k < |rubric.dimensions| && i < |results|
    ensures results[i].scores[rubric.dimensions[k].name] >= rubric.dimensions[k].threshold - limit
  {
    var values := Values(results, rubric.dimensions[k].name);
    DisagreementCoversSpread(results, rubric, |rubric.dimensions|, k);
    MedianWithinRange(values);
    Extremes(values);
    assert values[i] == results[i].scores[rubric.dimensions[k].name];
    assert MedianScore(results, rubric.dimensions[k].name) >= rubric.dimensions[k].threshold;
  }

  /** A strict majority below the threshold of any dimension rules a pass out. */
  lemma MajorityBelowPreventsPass(results: seq<JudgeResult>, rubric: Rubric, limit: real, k: nat)
    requires results != [] && Complete(results, rubric) && k < |rubric.dimensions|
    requires 2 * CountBelow(Values(results, rubric.dimensions[k].name), rubric.dimensions[k].threshold) > |results|
    ensures PanelVerdict(results, rubric, limit) != Pass
  {
    MajorityBelow(Values(results, rubric.dimensions[k].name), rubric.dimensions[k].threshold);
    assert MedianScore(results, rubric.dimensions[k].name) < rubric.dimensions[k].threshold;
  }

  ghost function WeightedThresholds(rubric: Rubric, n: nat): real
    requires n <= |rubric.dimensions|
  {
    if n == 0 then 0.0 else WeightedThresholds(rubric, n - 1)
                            + Contribution(rubric.dimensions[n - 1].threshold, rubric.dimensions[n - 1])
  }

  /** What the weighted sum would be if every median were x. */
  ghost function LevelSum(rubric: Rubric, n: nat, x: real): real
    requires n <= |rubric.dimensions|
  {
    if n == 0 then 0.0 else LevelSum(rubric, n - 1, x) + Contribution(x, rubric.dimensions[n - 1])
  }

  lemma {:induction false} LevelSumIsScaled(rubric: Rubric, n: nat, x: real)
    requires n <= |rubric.dimensions|
    ensures LevelSum(rubric, n, x) == x * TotalWeight(rubric, n)
  {
    if n != 0 {
      LevelSumIsScaled(rubric, n - 1, x);
      Distribute(x, TotalWeight(rubric, n - 1), rubric.dimensions[n - 1].weight);
    }
  }

  lemma ContributionMonotone(x: real, y: real, d: Dimension)
    requires x <= y && d.weight > 0.0
    ensures Contribution(x, d) <= Contribution(y, d)
  {
    ScaleMonotone(x, y, d.weight);
  }

  lemma {:induction false} WeightedSumBetween(results: seq<JudgeResult>, rubric: Rubric, n: nat, low: real, high: real)
    requires results != [] && rubric.Valid() && n <= |rubric.dimensions| && CompleteTo(results, rubric, n)
    requires forall k :: 0 <= k < n ==> low <= MedianScore(results, rubric.dimensions[k].name) <= high
    ensures LevelSum(rubric, n, low) <= WeightedSum(results, rubric, n) <= LevelSum(rubric, n, high)
  {
    if n != 0 {
      var d := rubric.dimensions[n - 1];
      assert d in rubric.dimensions;
      WeightedSumBetween(results, rubric, n - 1, low, high);
      ContributionMonotone(low, MedianScore(results, d.name), d);
      ContributionMonotone(MedianScore(results, d.name), high, d);
    }
  }

  lemma LevelMean(rubric: Rubric, x: real)
    requires rubric.Valid()
    ensures var total := TotalWeight(rubric, |rubric.dimensions|);
            total > 0.0 && LevelSum(rubric, |rubric.dimensions|, x) / total == x
  {
    WeightsArePositive(rubric, |rubric.dimensions|);
    LevelSumIsScaled(rubric, |rubric.dimensions|, x);
  }

  /** The weighted mean lies between the smallest and the largest median. */
  lemma WeightedMeanBetween(results: seq<JudgeResult>, rubric: Rubric, low: real, high: real)
    requires results != [] && rubric.Valid() && Complete(results, rubric)
    requires forall k :: 0 <= k < |rubric.dimensions| ==> low <= MedianScore(results, rubric.dimensions[k].name) <= high
    ensures low <= WeightedMean(results, rubric) <= high
  {
    var n := |rubric.dimensions|;
    WeightedSumBetween(results, rubric, n, low, high);
    LevelMean(rubric, low);
    LevelMean(rubric, high);
    DivideMonotone(LevelSum(rubric, n, low), WeightedSum(results, rubric, n), TotalWeight(rubric, n));
    DivideMonotone(WeightedSum(results, rubric, n), LevelSum(rubric, n, high), TotalWeight(rubric, n));
  }

  lemma {:induction false} WeightedSumReaches(results: seq<JudgeResult>, rubric: Rubric, n: nat)
    requires results != [] && rubric.Valid() && n <= |rubric.dimensions| && CompleteTo(results, rubric, n)
    requires forall k :: 0 <= k < n ==> MedianScore(results, rubric.dimensions[k].name)
                                        >= rubric.dimensions[k].threshold
    ensures WeightedThresholds(rubric, n) <= WeightedSum(results, rubric, n)
  {
    if n != 0 {
      var d := rubric.dimensions[n - 1];
      assert d in rubric.dimensions;
      WeightedSumReaches(results, rubric, n - 1);
      ContributionMonotone(d.threshold, MedianScore(results, d.name), d);
    }
  }

  /** On a pass the weighted mean reaches the weighted mean of the thresholds. */
  lemma PassReachesWeightedThreshold(results: seq<JudgeResult>, rubric: Rubric, limit: real)
    requires results != [] && rubric.Valid() && Complete(results, rubric)
             && PanelVerdict(results, rubric, limit) == Pass
    ensures TotalWeight(rubric, |rubric.dimensions|) > 0.0
    ensures WeightedThresholds(rubric, |rubric.dimensions|) / TotalWeight(rubric, |rubric.dimensions|)
            <= WeightedMean(results, rubric)
  {
    WeightsArePositive(rubric, |rubric.dimensions|);
    WeightedSumReaches(results, rubric, |rubric.dimensions|);
    var n := |rubric.dimensions|;
    DivideMonotone(WeightedThresholds(rubric, n), WeightedSum(results, rubric, n), TotalWeight(rubric, n));
  }
}
