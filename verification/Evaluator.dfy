/**
 The evaluator as the source writes it: search loops over candidates, a growing set of consumed
 indices and growing lists of scores (eventweave/evaluation/evaluator.py).
 */
module Evaluator {
  import opened Common
  import opened Matching
  import opened Scoring

  /** What the loop over expected findings has accumulated. */
  datatype Tally = Tally(
    consumed: set<nat>,
    matched: seq<(Finding, Finding)>,
    missed: seq<Finding>,
    entityRecalls: seq<real>,
    entityPrecisions: seq<real>,
    eventRecalls: seq<real>,
    eventPrecisions: seq<real>,
    staged: nat,
    stagedMatched: nat)

  datatype Report = Report(
    metrics: Metrics,
    matched: seq<(Finding, Finding)>,
    missed: seq<Finding>,
    extra: seq<Finding>,
    missedStages: seq<Stage>,
    extraStages: seq<Stage>)

  /** The matched pairs among the first `n` expectations. */
  function Pairs<T>(expected: seq<T>, actual: seq<T>, a: Assignment, n: nat): seq<(T, T)>
    requires n <= |expected| == |a| && InRange(a, |actual|)
  {
    if n == 0 then []
    else Pairs(expected, actual, a, n - 1) + if a[n - 1].Some? then [(expected[n - 1], actual[a[n - 1].value])] else []
  }

  /** The tally after `n` expectations, under the assignment `a`. */
  function TallyOf(expected: seq<Finding>, actual: seq<Finding>, a: Assignment, n: nat): Tally
    requires n <= |expected| == |a| && InRange(a, |actual|)
  {
    Tally(Used(a[..n]), Pairs(expected, actual, a, n), Pick(expected, Unmet(a), n),
      Measured(ENTITY_RECALL, expected, actual, a, n), Measured(ENTITY_PRECISION, expected, actual, a, n),
      Measured(EVENT_RECALL, expected, actual, a, n), Measured(EVENT_PRECISION, expected, actual, a, n),
      StagedCount(expected, n), StagedMet(expected, a, n))
  }

  lemma {:induction false} UsedSnoc(a: Assignment, n: nat)
    requires n < |a|
    ensures Used(a[..n + 1]) == Used(a[..n]) + if a[n].Some? then {a[n].value} else {}
  {
    var b := a[..n + 1];
    forall x | x in Used(b) ensures x in Used(a[..n]) + if a[n].Some? then {a[n].value} else {} {
      var i :| 0 <= i < |b| && b[i].Some? && b[i].value == x;
      if i < n {
        assert a[..n][i] == Some(x);
      }
    }
    forall x | x in Used(a[..n]) ensures x in Used(b) {
      var i :| 0 <= i < n && a[..n][i].Some? && a[..n][i].value == x;
      assert b[i] == Some(x);
    }
    if a[n].Some? {
      assert b[n] == a[n];
    }
  }

  /** The tally of one more expectation, met by finding `f` or missed. */
  function Extended(t: Tally, e: Finding, index: Option<nat>, f: Finding): Tally {
    var u := if index.None? then t.(missed := t.missed + [e]) else
      t.(consumed := t.consumed + {index.value}, matched := t.matched + [(e, f)],
         entityRecalls := t.entityRecalls + [Recall(e.entities, f.entities)],
         entityPrecisions := t.entityPrecisions + [Precision(e.entities, f.entities)],
         eventRecalls := t.eventRecalls + [Recall(e.events, f.events)],
         eventPrecisions := t.eventPrecisions + [Precision(e.events, f.events)]);
    u.(staged := u.staged + (if e.stage.Some? then 1 else 0),
       stagedMatched := u.stagedMatched + (if e.stage.Some? && index.Some? then 1 else 0))
  }

  lemma {:induction false} TallySnoc(expected: seq<Finding>, actual: seq<Finding>, a: Assignment, i: nat, f: Finding)
    requires i < |expected| == |a| && InRange(a, |actual|) && (a[i].Some? ==> f == actual[a[i].value])
    ensures TallyOf(expected, actual, a, i + 1) == Extended(TallyOf(expected, actual, a, i), expected[i], a[i], f)
  {
    hide Used, Recall, Precision;
    UsedSnoc(a, i);
    if a[i].None? {
      assert Used(a[..i]) + {} == Used(a[..i]);
      NothingAdded(TallyOf(expected, actual, a, i));
    } else {
      assert Pick(expected, Unmet(a), i + 1) == Pick(expected, Unmet(a), i) + [];
    }
  }

  lemma {:induction false} NothingAdded(t: Tally)
    ensures t.matched + [] == t.matched && t.entityRecalls + [] == t.entityRecalls
      && t.entityPrecisions + [] == t.entityPrecisions
    ensures t.eventRecalls + [] == t.eventRecalls && t.eventPrecisions + [] == t.eventPrecisions
  {
  }

  lemma {:induction false} PairsCount(expected: seq<Finding>, actual: seq<Finding>, a: Assignment, n: nat)
    requires n <= |expected| == |a| && InRange(a, |actual|)
    ensures |Pairs(expected, actual, a, n)| == |Met(a[..n])|
    ensures |Measured(ENTITY_RECALL, expected, actual, a, n)| == |Met(a[..n])|
  {
    if n > 0 {
      PairsCount(expected, actual, a, n - 1);
      assert a[..n][..n - 1] == a[..n - 1];
      MetSnoc(a[..n]);
    } else {
      assert Met(a[..0]) == {};
    }
  }

  /** `_match_finding`: the first unconsumed finding of the expected type and, if one is expected, stage. */
  method MatchFinding(expected: Finding, candidates: seq<Finding>, consumed: set<nat>) returns (index: Option<nat>)
    ensures index == FirstFree(LabelOf(expected), Labels(candidates), consumed, 0)
  {
    hide Normalize;
    var expectedType := Normalize(expected.kind);
    var expectedStage := if expected.stage.Some? then Some(Normalize(expected.stage.value)) else None;
    ghost var e := LabelOf(expected);
    for i := 0 to |candidates|
      invariant FirstFree(e, Labels(candidates), consumed, i) == FirstFree(e, Labels(candidates), consumed, 0)
    {
      var candidate := candidates[i];
      if i in consumed {
        continue;
      }
      if Normalize(candidate.kind) != expectedType {
        continue;
      }
      if expectedStage.Some? {
        var candidateStage := if candidate.stage.Some? then Some(Normalize(candidate.stage.value)) else None;
        if candidateStage != expectedStage {
          continue;
        }
      }
      return Some(i);
    }
    index := None;
  }

  /** `_match_timeline_stage` */
  method MatchTimelineStage(expected: Stage, candidates: seq<Stage>, consumed: set<nat>) returns (index: Option<nat>)
    ensures index == FirstFree(StageLabel(expected), StageLabels(candidates), consumed, 0)
  {
    hide Normalize;
    ghost var e := StageLabel(expected);
    for i := 0 to |candidates|
      invariant FirstFree(e, StageLabels(candidates), consumed, i) == FirstFree(e, StageLabels(candidates), consumed, 0)
    {
      if i in consumed {
        continue;
      }
      if Normalize(candidates[i].name) == Normalize(expected.name) {
        return Some(i);
      }
    }
    index := None;
  }

  class Evaluator {
    const expected: seq<Finding>
    const expectedStages: seq<Stage>
    const actual: seq<Finding>
    const actualStages: seq<Stage>

    constructor (expected: seq<Finding>, expectedStages: seq<Stage>, actual: seq<Finding>, actualStages: seq<Stage>)
      ensures this.expected == expected && this.expectedStages == expectedStages
      ensures this.actual == actual && this.actualStages == actualStages
    {
      this.expected := expected;
      this.expectedStages := expectedStages;
      this.actual := actual;
      this.actualStages := actualStages;
    }

    /** The report: the specified metrics, and lists that split both sides into matched and unmatched. */
    method Evaluate() returns (report: Report)
      ensures report.metrics == Score(expected, actual, expectedStages, actualStages)
      ensures report.matched == Pairs(expected, actual, Match(expected, actual), |expected|)
      ensures report.missed == Pick(expected, Unmet(Match(expected, actual)), |expected|)
      ensures report.extra == Pick(actual, NotUsed(Match(expected, actual)), |actual|)
      ensures |report.matched| + |report.missed| == |expected| && |report.matched| + |report.extra| == |actual|
      ensures var a := MatchStages(expectedStages, actualStages);
        report.missedStages == Pick(expectedStages, Unmet(a), |expectedStages|)
        && report.extraStages
           == if expectedStages == [] then actualStages else Pick(actualStages, NotUsed(a), |actualStages|)
    {
      hide Match, ScoreStages, Met, Mean, Measured, Pick, Used;
      var tally := TallyFindings();
      ghost var a := Match(expected, actual);
      assert a[..|expected|] == a;
      PairsCount(expected, actual, a, |expected|);
      FindingsPartition(expected, actual);
      var extra := Rest(actual, tally.consumed, a);
      var stages, missedStages, extraStages := EvaluateTimelineStages();
      var f := Averages(tally, a);
      var metrics := Metrics(f, stages,
        (f.typeRecall + f.entityRecall + f.eventRecall + f.stageAccuracy) / 4.0,
        (f.typeRecall + f.entityRecall + f.eventRecall + f.stageAccuracy + f.typePrecision + f.entityPrecision
          + f.eventPrecision) / 7.0);
      report := Report(metrics, tally.matched, tally.missed, extra, missedStages, extraStages);
    }

    /** The loop over expected findings. */
    method TallyFindings() returns (tally: Tally)
      ensures tally == TallyOf(expected, actual, Match(expected, actual), |expected|)
    {
      hide Match, TallyOf;
      ghost var a := Match(expected, actual);
      EmptyTally(expected, actual, a);
      tally := Tally({}, [], [], [], [], [], [], 0, 0);
      for i := 0 to |expected|
        invariant tally == TallyOf(expected, actual, a, i)
      {
        tally := Assess(i, tally);
      }
    }

    /** One expectation: matched and scored, or missed. */
    method Assess(i: nat, tally: Tally) returns (tally': Tally)
      requires i < |expected| && tally == TallyOf(expected, actual, Match(expected, actual), i)
      ensures tally' == TallyOf(expected, actual, Match(expected, actual), i + 1)
    {
      hide Match, FirstFree, Recall, Precision;
      ghost var a := Match(expected, actual);
      var e := expected[i];
      var index := MatchFinding(e, actual, tally.consumed);
      Found(expected, actual, i);
      TallySnoc(expected, actual, a, i, if index.Some? then actual[index.value] else e);
      hide TallyOf, Labels;
      tally' := tally;
      if index.Some? {
        var f := actual[index.value];
        tally' := tally'.(
          consumed := tally'.consumed + {index.value},
          matched := tally'.matched + [(e, f)],
          entityRecalls := tally'.entityRecalls + [Recall(e.entities, f.entities)],
          entityPrecisions := tally'.entityPrecisions + [Precision(e.entities, f.entities)],
          eventRecalls := tally'.eventRecalls + [Recall(e.events, f.events)],
          eventPrecisions := tally'.eventPrecisions + [Precision(e.events, f.events)]);
      } else {
        tally' := tally'.(missed := tally'.missed + [e]);
      }
      if e.stage.Some? {
        tally' := tally'.(staged := tally'.staged + 1);
        if index.Some? && StageMatches(e, actual[index.value]) {
          tally' := tally'.(stagedMatched := tally'.stagedMatched + 1);
        }
      }
    }

    method Averages(tally: Tally, ghost a: Assignment) returns (f: FindingScores)
      requires a == Match(expected, actual) && tally == TallyOf(expected, actual, a, |expected|)
      requires |tally.matched| == |Met(a)|
      ensures f == ScoreFindings(expected, actual)
    {
      hide Match, Met, Measured, Mean, Used, Pick, Pairs, Ratio, StagedCount, StagedMet;
      if expected == [] {
        return FindingScores(1.0, 1.0, 1.0, 1.0, 1.0, 1.0, 1.0);
      }
      var n, m := |tally.matched|, |actual|;
      f := FindingScores(
        Ratio(n, |expected|),
        Mean(tally.entityRecalls),
        Mean(tally.eventRecalls),
        if tally.staged == 0 then 1.0 else Ratio(tally.stagedMatched, tally.staged),
        if m == 0 then 1.0 else Ratio(n, m),
        Mean(tally.entityPrecisions),
        Mean(tally.eventPrecisions));
    }

    /** `_evaluate_timeline_stages` */
    method EvaluateTimelineStages() returns (scores: StageScores, missed: seq<Stage>, extra: seq<Stage>)
      ensures scores == ScoreStages(expectedStages, actualStages)
      ensures extra == if expectedStages == [] then actualStages
        else Pick(actualStages, NotUsed(MatchStages(expectedStages, actualStages)), |actualStages|)
      ensures missed == Pick(expectedStages, Unmet(MatchStages(expectedStages, actualStages)), |expectedStages|)
    {
      hide MatchStages, Met, Measured, Pick, Used, Sum;
      ghost var a := MatchStages(expectedStages, actualStages);
      NothingPicked(expectedStages, Unmet(a));
      if expectedStages == [] {
        if actualStages == [] {
          return StageScores(1.0, 1.0, 1.0, 1.0), [], [];
        }
        return StageScores(0.0, 0.0, 0.0, 0.0), [], actualStages;
      }
      var consumed, recalls, precisions;
      consumed, missed, recalls, precisions := TallyStages();
      assert a[..|expectedStages|] == a;
      extra := Rest(actualStages, consumed, a);
      StagesPartition(expectedStages, actualStages);
      var n, matched := |expectedStages|, |expectedStages| - |missed|;
      scores := StageScores(
        Ratio(matched, n),
        if actualStages == [] then 0.0 else Ratio(matched, |actualStages|),
        Sum(recalls) / n as real,
        Mean(precisions));
    }

    method TallyStages() returns (consumed: set<nat>, missed: seq<Stage>, recalls: seq<real>, precisions: seq<real>)
      ensures var a, n := MatchStages(expectedStages, actualStages), |expectedStages|;
        consumed == Used(a[..n]) && missed == Pick(expectedStages, Unmet(a), n)
        && recalls == Measured(STAGE_RECALL, expectedStages, actualStages, a, n)
        && precisions == Measured(STAGE_PRECISION, expectedStages, actualStages, a, n)
    {
      hide MatchStages, Used, Greedy, FirstFree;
      ghost var a := MatchStages(expectedStages, actualStages);
      NothingUsed(a[..0]);
      consumed, missed, recalls, precisions := {}, [], [], [];
      for i := 0 to |expectedStages|
        invariant consumed == Used(a[..i]) && missed == Pick(expectedStages, Unmet(a), i)
        invariant recalls == Measured(STAGE_RECALL, expectedStages, actualStages, a, i)
        invariant precisions == Measured(STAGE_PRECISION, expectedStages, actualStages, a, i)
      {
        var e := expectedStages[i];
        var index := MatchTimelineStage(e, actualStages, consumed);
        StageFound(expectedStages, actualStages, i);
        UsedSnoc(a, i);
        if index.Some? {
          var s := actualStages[index.value];
          consumed := consumed + {index.value};
          recalls := recalls + [Recall(e.events, s.events)];
          precisions := precisions + [Precision(e.events, s.events)];
        } else {
          missed := missed + [e];
        }
      }
    }
  }

  /** `_stage_matches` */
  predicate StageMatches(expected: Finding, matched: Finding) {
    expected.stage.None? || (matched.stage.Some? && Normalize(matched.stage.value) == Normalize(expected.stage.value))
  }

  /** The list comprehension over the indices that were not consumed. */
  method Rest<T>(items: seq<T>, consumed: set<nat>, ghost a: Assignment) returns (rest: seq<T>)
    requires consumed == Used(a)
    ensures rest == Pick(items, NotUsed(a), |items|)
  {
    hide Used;
    rest := [];
    for i := 0 to |items|
      invariant rest == Pick(items, NotUsed(a), i)
    {
      if i !in consumed {
        rest := rest + [items[i]];
      }
    }
  }

  lemma {:induction false} NothingUsed(a: Assignment)
    requires a == []
    ensures Used(a) == {}
  {
  }

  lemma {:induction false} NothingPicked<T>(items: seq<T>, keep: nat -> bool)
    ensures Pick(items, keep, 0) == []
  {
  }

  lemma {:induction false} EmptyTally(expected: seq<Finding>, actual: seq<Finding>, a: Assignment)
    requires |expected| == |a| && InRange(a, |actual|)
    ensures TallyOf(expected, actual, a, 0) == Tally({}, [], [], [], [], [], [], 0, 0)
  {
    NothingUsed(a[..0]);
  }

  /**
   The search with the consumed indices of the first `i` expectations finds what the assignment
   says, of the right stage.
   */
  lemma {:induction false} Found(expected: seq<Finding>, actual: seq<Finding>, i: nat)
    requires i < |expected|
    ensures var a := Match(expected, actual);
      a[i] == FirstFree(LabelOf(expected[i]), Labels(actual), Used(a[..i]), 0)
      && (a[i].Some? ==> a[i].value < |actual| && StageMatches(expected[i], actual[a[i].value]))
  {
    hide Greedy, Used, Normalize, FirstFree;
    GreedyAt(Labels(expected), Labels(actual), i);
  }

  lemma {:induction false} StageFound(expected: seq<Stage>, actual: seq<Stage>, i: nat)
    requires i < |expected|
    ensures var a := MatchStages(expected, actual);
      a[i] == FirstFree(StageLabel(expected[i]), StageLabels(actual), Used(a[..i]), 0)
  {
    hide Greedy, Used, Normalize, FirstFree;
    GreedyAt(StageLabels(expected), StageLabels(actual), i);
  }

  /** Timeline stages split the same way. */
  lemma {:induction false} StagesPartition(expected: seq<Stage>, actual: seq<Stage>)
    ensures var a := MatchStages(expected, actual);
      |Met(a)| + |Pick(expected, Unmet(a), |expected|)| == |expected|
      && |Met(a)| + |Pick(actual, NotUsed(a), |actual|)| == |actual|
  {
    hide Greedy, Pick;
    var a := MatchStages(expected, actual);
    MatchingSizes(StageLabels(expected), StageLabels(actual));
    PickCount(expected, Unmet(a), |expected|, Met(a));
    PickCount(actual, NotUsed(a), |actual|, Used(a));
  }
}
