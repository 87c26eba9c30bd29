/**
 The evaluator's report as a function of the ground truth and an agent's output
 (eventweave/evaluation/evaluator.py). Scores are exact fractions.
 */
module Scoring {
  import opened Common
  import opened Matching

  datatype Finding = Finding(kind: string, stage: Option<string>, entities: seq<string>, events: seq<string>)

  datatype Stage = Stage(name: string, events: seq<string>)

  function Lower(c: char): char { if 'A' <= c <= 'Z' then (c as int + 32) as char else c }

  function TrimLeft(s: string): string { if s != "" && IsSpace(s[0]) then TrimLeft(s[1..]) else s }

  function TrimRight(s: string): string { if s != "" && IsSpace(s[|s| - 1]) then TrimRight(s[..|s| - 1]) else s }

  /** `value.strip().lower()` */
  function Normalize(s: string): string { MapSeq(Lower, TrimRight(TrimLeft(s))) }

  function LabelOf(f: Finding): Label {
    Label(Normalize(f.kind), if f.stage.None? then None else Some(Normalize(f.stage.value)))
  }

  function StageLabel(s: Stage): Label { Label(Normalize(s.name), None) }

  function Labels(findings: seq<Finding>): seq<Label> { MapSeq(LabelOf, findings) }

  function StageLabels(stages: seq<Stage>): seq<Label> { MapSeq(StageLabel, stages) }

  // ---------------------------------------------------------------- recall and precision

  function NormalSet(items: seq<string>): set<string> { set i | 0 <= i < |items| :: Normalize(items[i]) }

  function Ratio(a: nat, b: nat): real
    requires b > 0
  {
    a as real / b as real
  }

  lemma {:induction false} RatioUnit(a: nat, b: nat)
    requires a <= b && b > 0
    ensures 0.0 <= Ratio(a, b) <= 1.0
    ensures a == b <==> Ratio(a, b) == 1.0
  {
    var q := Ratio(a, b);
    assert q * b as real == a as real;
    if q == 1.0 {
      assert a as real == b as real;
    }
  }

  lemma {:induction false} NormalSetEmpty(items: seq<string>)
    ensures items == [] <==> |NormalSet(items)| == 0
  {
    hide Normalize;
    if items != [] {
      assert Normalize(items[0]) in NormalSet(items);
    }
  }

  function Recall(expected: seq<string>, actual: seq<string>): real {
    NormalSetEmpty(expected);
    if expected == [] then 1.0 else Ratio(|NormalSet(expected) * NormalSet(actual)|, |NormalSet(expected)|)
  }

  function Precision(expected: seq<string>, actual: seq<string>): real {
    NormalSetEmpty(actual);
    if actual == [] then 1.0 else Ratio(|NormalSet(expected) * NormalSet(actual)|, |NormalSet(actual)|)
  }

  /** Recall is a fraction, 1 exactly when nothing expected is missing. */
  lemma {:induction false} RecallUnit(expected: seq<string>, actual: seq<string>)
    ensures 0.0 <= Recall(expected, actual) <= 1.0
    ensures Recall(expected, actual) == 1.0 <==> NormalSet(expected) <= NormalSet(actual)
  {
    hide Ratio, NormalSet;
    NormalSetEmpty(expected);
    var e, a := NormalSet(expected), NormalSet(actual);
    SubsetSize(e * a, e);
    if expected != [] {
      RatioUnit(|e * a|, |e|);
      if |e * a| == |e| {
        SubsetEqual(e * a, e);
        assert e <= a;
      }
      if e <= a {
        assert e * a == e;
      }
    } else {
      assert e == {};
    }
  }

  /** Precision is recall with the roles exchanged. */
  lemma {:induction false} PrecisionIsRecall(expected: seq<string>, actual: seq<string>)
    ensures Precision(expected, actual) == Recall(actual, expected)
  {
    hide Ratio, NormalSet;
    assert NormalSet(expected) * NormalSet(actual) == NormalSet(actual) * NormalSet(expected);
  }

  // ---------------------------------------------------------------- averages

  function Sum(xs: seq<real>): real { if xs == [] then 0.0 else Sum(xs[..|xs| - 1]) + xs[|xs| - 1] }

  predicate Units(xs: seq<real>) { forall i :: 0 <= i < |xs| ==> 0.0 <= xs[i] <= 1.0 }

  predicate Ones(xs: seq<real>) { forall i :: 0 <= i < |xs| ==> xs[i] == 1.0 }

  lemma {:induction false} SumBounds(xs: seq<real>)
    requires Units(xs)
    ensures 0.0 <= Sum(xs) <= |xs| as real
    ensures Ones(xs) ==> Sum(xs) == |xs| as real
  {
    if xs != [] {
      SumBounds(xs[..|xs| - 1]);
    }
  }

  /** The average, or 0 when nothing was matched. */
  function Mean(xs: seq<real>): real { if xs == [] then 0.0 else Sum(xs) / |xs| as real }

  lemma {:induction false} FractionUnit(x: real, n: nat)
    requires 0.0 <= x <= n as real && n > 0
    ensures 0.0 <= x / n as real <= 1.0
    ensures x == n as real ==> x / n as real == 1.0
  {
  }

  lemma {:induction false} MeanUnit(xs: seq<real>)
    requires Units(xs)
    ensures 0.0 <= Mean(xs) <= 1.0
    ensures xs != [] && Ones(xs) ==> Mean(xs) == 1.0
  {
    hide Sum;
    SumBounds(xs);
    if xs != [] {
      FractionUnit(Sum(xs), |xs|);
    }
  }

  // ---------------------------------------------------------------- the report on findings

  /** How one matched pair is measured. */
  type Measure<!T> = (T, T) -> real

  /** The measurements of the pairs among the first `n` expectations, in order. */
  function Measured<T>(measure: Measure<T>, expected: seq<T>, actual: seq<T>, a: Assignment, n: nat): seq<real>
    requires n <= |expected| == |a| && InRange(a, |actual|)
  {
    if n == 0 then []
    else
      Measured(measure, expected, actual, a, n - 1)
      + if a[n - 1].Some? then [measure(expected[n - 1], actual[a[n - 1].value])] else []
  }

  predicate InRange(a: Assignment, n: nat) { forall i :: 0 <= i < |a| && a[i].Some? ==> a[i].value < n }

  const ENTITY_RECALL: Measure<Finding> := (e: Finding, f: Finding) => Recall(e.entities, f.entities)
  const ENTITY_PRECISION: Measure<Finding> := (e: Finding, f: Finding) => Precision(e.entities, f.entities)
  const EVENT_RECALL: Measure<Finding> := (e: Finding, f: Finding) => Recall(e.events, f.events)
  const EVENT_PRECISION: Measure<Finding> := (e: Finding, f: Finding) => Precision(e.events, f.events)
  const STAGE_RECALL: Measure<Stage> := (e: Stage, s: Stage) => Recall(e.events, s.events)
  const STAGE_PRECISION: Measure<Stage> := (e: Stage, s: Stage) => Precision(e.events, s.events)

  /** The elements at the positions that satisfy the test, in order. */
  function Pick<T>(items: seq<T>, keep: nat -> bool, n: nat): seq<T>
    requires n <= |items|
  {
    if n == 0 then [] else Pick(items, keep, n - 1) + if keep(n - 1) then [items[n - 1]] else []
  }

  function Unmet(a: Assignment): nat -> bool { (i: nat) => i < |a| && a[i].None? }

  function NotUsed(a: Assignment): nat -> bool { (i: nat) => i !in Used(a) }

  /** How many of the first `n` expectations have a stage. */
  function StagedCount(expected: seq<Finding>, n: nat): nat
    requires n <= |expected|
  {
    if n == 0 then 0 else StagedCount(expected, n - 1) + if expected[n - 1].stage.Some? then 1 else 0
  }

  function StagedMet(expected: seq<Finding>, a: Assignment, n: nat): nat
    requires n <= |expected| == |a|
  {
    if n == 0 then 0
    else StagedMet(expected, a, n - 1) + if expected[n - 1].stage.Some? && a[n - 1].Some? then 1 else 0
  }

  datatype FindingScores = FindingScores(
    typeRecall: real, entityRecall: real, eventRecall: real, stageAccuracy: real,
    typePrecision: real, entityPrecision: real, eventPrecision: real)

  function Match(expected: seq<Finding>, actual: seq<Finding>): (a: Assignment)
    ensures |a| == |expected| && InRange(a, |actual|)
  {
    GreedyValid(Labels(expected), Labels(actual));
    Greedy(Labels(expected), Labels(actual))
  }

  function ScoreFindings(expected: seq<Finding>, actual: seq<Finding>): FindingScores {
    if expected == [] then FindingScores(1.0, 1.0, 1.0, 1.0, 1.0, 1.0, 1.0)
    else
      var a, n := Match(expected, actual), |expected|;
      var staged := StagedCount(expected, n);
      FindingScores(
        Ratio(|Met(a)|, n),
        Mean(Measured(ENTITY_RECALL, expected, actual, a, n)),
        Mean(Measured(EVENT_RECALL, expected, actual, a, n)),
        if staged == 0 then 1.0 else Ratio(StagedMet(expected, a, n), staged),
        if actual == [] then 1.0 else Ratio(|Met(a)|, |actual|),
        Mean(Measured(ENTITY_PRECISION, expected, actual, a, n)),
        Mean(Measured(EVENT_PRECISION, expected, actual, a, n)))
  }

  datatype StageScores = StageScores(stageRecall: real, stagePrecision: real, eventRecall: real, eventPrecision: real)

  function MatchStages(expected: seq<Stage>, actual: seq<Stage>): (a: Assignment)
    ensures |a| == |expected| && InRange(a, |actual|)
  {
    GreedyValid(StageLabels(expected), StageLabels(actual));
    Greedy(StageLabels(expected), StageLabels(actual))
  }

  function ScoreStages(expected: seq<Stage>, actual: seq<Stage>): StageScores {
    if expected == [] then
      if actual == [] then StageScores(1.0, 1.0, 1.0, 1.0) else StageScores(0.0, 0.0, 0.0, 0.0)
    else
      var a, n := MatchStages(expected, actual), |expected|;
      StageScores(
        Ratio(|Met(a)|, n),
        if actual == [] then 0.0 else Ratio(|Met(a)|, |actual|),
        Sum(Measured(STAGE_RECALL, expected, actual, a, n)) / n as real,
        Mean(Measured(STAGE_PRECISION, expected, actual, a, n)))
  }

  /** The thirteen metrics of the report. */
  datatype Metrics = Metrics(findings: FindingScores, stages: StageScores, overall: real, balanced: real)

  function Score(
      expected: seq<Finding>, actual: seq<Finding>, expectedStages: seq<Stage>, actualStages: seq<Stage>): Metrics
  {
    var f := ScoreFindings(expected, actual);
    Metrics(f, ScoreStages(expectedStages, actualStages),
      (f.typeRecall + f.entityRecall + f.eventRecall + f.stageAccuracy) / 4.0,
      (f.typeRecall + f.entityRecall + f.eventRecall + f.stageAccuracy + f.typePrecision + f.entityPrecision
        + f.eventPrecision) / 7.0)
  }

  predicate Unit(x: real) { 0.0 <= x <= 1.0 }

  predicate AllUnit(m: Metrics) {
    Unit(m.findings.typeRecall) && Unit(m.findings.entityRecall) && Unit(m.findings.eventRecall)
    && Unit(m.findings.stageAccuracy)
    && Unit(m.findings.typePrecision) && Unit(m.findings.entityPrecision) && Unit(m.findings.eventPrecision)
    && Unit(m.stages.stageRecall) && Unit(m.stages.stagePrecision) && Unit(m.stages.eventRecall)
    && Unit(m.stages.eventPrecision)
    && Unit(m.overall) && Unit(m.balanced)
  }

  const PERFECT: Metrics :=
    Metrics(FindingScores(1.0, 1.0, 1.0, 1.0, 1.0, 1.0, 1.0), StageScores(1.0, 1.0, 1.0, 1.0), 1.0, 1.0)

  // ---------------------------------------------------------------- sizes

  /** Matched and missed make up the expectations; matched and extra make up the report. */
  lemma {:induction false} MatchingSizes(expected: seq<Label>, candidates: seq<Label>)
    ensures var a := Greedy(expected, candidates);
      |Met(a)| <= |expected| && |Met(a)| <= |candidates| && |Used(a)| == |Met(a)| && Used(a) <= Below(|candidates|)
  {
    hide Greedy, Matches;
    GreedyValid(expected, candidates);
    var a := Greedy(expected, candidates);
    SubsetSize(Met(a), Below(|expected|));
    InjectionBound(a, Met(a), Used(a));
    forall j | j in Used(a) ensures exists i :: i in Met(a) && i < |a| && a[i] == Some(j) {
      var i :| 0 <= i < |a| && a[i].Some? && a[i].value == j;
      assert i in Met(a);
    }
    SurjectionBound(a, Met(a), Used(a));
    SubsetSize(Used(a), Below(|candidates|));
  }

  lemma {:induction false} PickCount<T>(items: seq<T>, keep: nat -> bool, n: nat, dropped: set<nat>)
    requires n <= |items|
    requires forall i: nat :: i in dropped <==> i < n && !keep(i)
    ensures |Pick(items, keep, n)| + |dropped| == n
  {
    if n > 0 {
      if keep(n - 1) {
        PickCount(items, keep, n - 1, dropped);
      } else {
        PickCount(items, keep, n - 1, dropped - {n - 1});
      }
    } else {
      assert dropped == {};
    }
  }

  lemma {:induction false} FindingsPartition(expected: seq<Finding>, actual: seq<Finding>)
    ensures var a := Match(expected, actual);
      |Met(a)| + |Pick(expected, Unmet(a), |expected|)| == |expected|
      && |Met(a)| + |Pick(actual, NotUsed(a), |actual|)| == |actual|
  {
    hide Greedy, Pick;
    var a := Match(expected, actual);
    MatchingSizes(Labels(expected), Labels(actual));
    PickCount(expected, Unmet(a), |expected|, Met(a));
    PickCount(actual, NotUsed(a), |actual|, Used(a));
  }

  // ---------------------------------------------------------------- every metric is a fraction

  lemma {:induction false} MeasuredUnits<T>(
      measure: Measure<T>, expected: seq<T>, actual: seq<T>, a: Assignment, n: nat)
    requires n <= |expected| == |a| && InRange(a, |actual|)
    requires forall e, f :: Unit(measure(e, f))
    ensures Units(Measured(measure, expected, actual, a, n)) && |Measured(measure, expected, actual, a, n)| <= n
  {
    if n > 0 {
      MeasuredUnits(measure, expected, actual, a, n - 1);
    }
  }

  lemma {:induction false} FindingMeasures()
    ensures forall e, f :: Unit(ENTITY_RECALL(e, f)) && Unit(ENTITY_PRECISION(e, f))
    ensures forall e, f :: Unit(EVENT_RECALL(e, f)) && Unit(EVENT_PRECISION(e, f))
  {
    hide Recall, Precision;
    forall e, f
      ensures Unit(ENTITY_RECALL(e, f)) && Unit(ENTITY_PRECISION(e, f))
      ensures Unit(EVENT_RECALL(e, f)) && Unit(EVENT_PRECISION(e, f))
    {
      RecallUnit(e.entities, f.entities);
      RecallUnit(f.entities, e.entities);
      RecallUnit(e.events, f.events);
      RecallUnit(f.events, e.events);
      PrecisionIsRecall(e.entities, f.entities);
      PrecisionIsRecall(e.events, f.events);
    }
  }

  lemma {:induction false} StageMeasures()
    ensures forall e, s :: Unit(STAGE_RECALL(e, s)) && Unit(STAGE_PRECISION(e, s))
  {
    hide Recall, Precision;
    forall e, s ensures Unit(STAGE_RECALL(e, s)) && Unit(STAGE_PRECISION(e, s)) {
      RecallUnit(e.events, s.events);
      RecallUnit(s.events, e.events);
      PrecisionIsRecall(e.events, s.events);
    }
  }

  lemma {:induction false} StagedMetBound(expected: seq<Finding>, a: Assignment, n: nat)
    requires n <= |expected| == |a|
    ensures StagedMet(expected, a, n) <= StagedCount(expected, n)
    ensures (forall i :: 0 <= i < n ==> a[i].Some?) ==> StagedMet(expected, a, n) == StagedCount(expected, n)
  {
    if n > 0 {
      StagedMetBound(expected, a, n - 1);
    }
  }

  predicate FindingsUnit(f: FindingScores) {
    Unit(f.typeRecall) && Unit(f.entityRecall) && Unit(f.eventRecall) && Unit(f.stageAccuracy)
    && Unit(f.typePrecision) && Unit(f.entityPrecision) && Unit(f.eventPrecision)
  }

  lemma {:induction false} FindingScoresUnit(expected: seq<Finding>, actual: seq<Finding>)
    ensures FindingsUnit(ScoreFindings(expected, actual))
  {
    hide Ratio, Mean, Measured, StagedMet, StagedCount, Match, Met;
    if expected != [] {
      var a, n := Match(expected, actual), |expected|;
      FindingMeans(expected, actual, a);
      FindingRatios(expected, actual);
    }
  }

  lemma {:induction false} FindingRatios(expected: seq<Finding>, actual: seq<Finding>)
    requires expected != []
    ensures var a, n := Match(expected, actual), |expected|;
      Unit(Ratio(|Met(a)|, n)) && (actual != [] ==> Unit(Ratio(|Met(a)|, |actual|)))
      && (StagedCount(expected, n) > 0 ==> Unit(Ratio(StagedMet(expected, a, n), StagedCount(expected, n))))
  {
    hide Ratio, StagedMet, StagedCount, Greedy, Match, Met;
    var a, n := Match(expected, actual), |expected|;
    MatchIsGreedy(expected, actual);
    MatchingSizes(Labels(expected), Labels(actual));
    StagedMetBound(expected, a, n);
    RatioUnit(|Met(a)|, n);
    if actual != [] {
      RatioUnit(|Met(a)|, |actual|);
    }
    if StagedCount(expected, n) > 0 {
      RatioUnit(StagedMet(expected, a, n), StagedCount(expected, n));
    }
  }

  lemma {:induction false} MatchIsGreedy(expected: seq<Finding>, actual: seq<Finding>)
    ensures Match(expected, actual) == Greedy(Labels(expected), Labels(actual))
    ensures |Labels(expected)| == |expected| && |Labels(actual)| == |actual|
  {
    hide Greedy;
  }

  lemma {:induction false} FindingMeans(expected: seq<Finding>, actual: seq<Finding>, a: Assignment)
    requires |a| == |expected| && InRange(a, |actual|)
    ensures Unit(Mean(Measured(ENTITY_RECALL, expected, actual, a, |a|)))
      && Unit(Mean(Measured(ENTITY_PRECISION, expected, actual, a, |a|)))
    ensures Unit(Mean(Measured(EVENT_RECALL, expected, actual, a, |a|)))
      && Unit(Mean(Measured(EVENT_PRECISION, expected, actual, a, |a|)))
  {
    hide Mean, Measured;
    FindingMeasures();
    MeasuredUnits(ENTITY_RECALL, expected, actual, a, |a|);
    MeasuredUnits(ENTITY_PRECISION, expected, actual, a, |a|);
    MeasuredUnits(EVENT_RECALL, expected, actual, a, |a|);
    MeasuredUnits(EVENT_PRECISION, expected, actual, a, |a|);
    MeanUnit(Measured(ENTITY_RECALL, expected, actual, a, |a|));
    MeanUnit(Measured(ENTITY_PRECISION, expected, actual, a, |a|));
    MeanUnit(Measured(EVENT_RECALL, expected, actual, a, |a|));
    MeanUnit(Measured(EVENT_PRECISION, expected, actual, a, |a|));
  }

  predicate StagesUnit(s: StageScores) {
    Unit(s.stageRecall) && Unit(s.stagePrecision) && Unit(s.eventRecall) && Unit(s.eventPrecision)
  }

  lemma {:induction false} StageScoresUnit(expected: seq<Stage>, actual: seq<Stage>)
    ensures StagesUnit(ScoreStages(expected, actual))
  {
    hide Ratio, Mean, Measured, MatchStages, Sum, Met;
    if expected != [] {
      StageRatios(expected, actual);
      StageMeans(expected, actual, MatchStages(expected, actual));
    }
  }

  lemma {:induction false} StageRatios(expected: seq<Stage>, actual: seq<Stage>)
    requires expected != []
    ensures var a := MatchStages(expected, actual);
      Unit(Ratio(|Met(a)|, |expected|)) && (actual != [] ==> Unit(Ratio(|Met(a)|, |actual|)))
  {
    hide Ratio, Greedy, Met;
    var a := MatchStages(expected, actual);
    MatchingSizes(StageLabels(expected), StageLabels(actual));
    RatioUnit(|Met(a)|, |expected|);
    if actual != [] {
      RatioUnit(|Met(a)|, |actual|);
    }
  }

  lemma {:induction false} StageMeans(expected: seq<Stage>, actual: seq<Stage>, a: Assignment)
    requires expected != [] && |a| == |expected| && InRange(a, |actual|)
    ensures Unit(Sum(Measured(STAGE_RECALL, expected, actual, a, |a|)) / |a| as real)
    ensures Unit(Mean(Measured(STAGE_PRECISION, expected, actual, a, |a|)))
  {
    hide Mean, Measured, Sum;
    StageMeasures();
    MeasuredUnits(STAGE_RECALL, expected, actual, a, |a|);
    MeasuredUnits(STAGE_PRECISION, expected, actual, a, |a|);
    SumBounds(Measured(STAGE_RECALL, expected, actual, a, |a|));
    FractionUnit(Sum(Measured(STAGE_RECALL, expected, actual, a, |a|)), |a|);
    MeanUnit(Measured(STAGE_PRECISION, expected, actual, a, |a|));
  }

  /** All thirteen metrics lie between 0 and 1, for every ground truth and every output. */
  lemma {:induction false} MetricsAreFractions(
      expected: seq<Finding>, actual: seq<Finding>, expectedStages: seq<Stage>, actualStages: seq<Stage>)
    ensures AllUnit(Score(expected, actual, expectedStages, actualStages))
  {
    hide ScoreFindings, ScoreStages;
    FindingScoresUnit(expected, actual);
    StageScoresUnit(expectedStages, actualStages);
  }

  // ---------------------------------------------------------------- a perfect copy

  lemma {:induction false} CopyMatches(labels: seq<Label>)
    ensures forall i :: 0 <= i < |labels| ==> Greedy(labels, labels)[i] == Some(i)
    ensures |Met(Greedy(labels, labels))| == |labels|
  {
    hide Greedy, Met;
    GreedyIdentity(labels, labels, |labels|);
    AllMet(Greedy(labels, labels));
  }

  lemma {:induction false} MeasuredCopy<T>(measure: Measure<T>, items: seq<T>, a: Assignment, n: nat)
    requires n <= |items| == |a| && InRange(a, |items|)
    requires forall i :: 0 <= i < |a| ==> a[i] == Some(i)
    requires forall x :: measure(x, x) == 1.0
    ensures Ones(Measured(measure, items, items, a, n)) && |Measured(measure, items, items, a, n)| == n
  {
    if n > 0 {
      MeasuredCopy(measure, items, a, n - 1);
    }
  }

  lemma {:induction false} MeanOfCopy<T>(measure: Measure<T>, items: seq<T>, a: Assignment)
    requires items != [] && |items| == |a| && InRange(a, |items|)
    requires forall i :: 0 <= i < |a| ==> a[i] == Some(i)
    requires forall x :: measure(x, x) == 1.0
    ensures Mean(Measured(measure, items, items, a, |a|)) == 1.0
    ensures Sum(Measured(measure, items, items, a, |a|)) / |a| as real == 1.0
  {
    hide Mean, Measured, Sum;
    MeasuredCopy(measure, items, a, |a|);
    var xs := Measured(measure, items, items, a, |a|);
    MeanUnit(xs);
    SumBounds(xs);
    FractionUnit(Sum(xs), |a|);
  }

  lemma {:induction false} SelfMeasures()
    ensures forall f :: ENTITY_RECALL(f, f) == 1.0 && ENTITY_PRECISION(f, f) == 1.0
    ensures forall f :: EVENT_RECALL(f, f) == 1.0 && EVENT_PRECISION(f, f) == 1.0
    ensures forall s :: STAGE_RECALL(s, s) == 1.0 && STAGE_PRECISION(s, s) == 1.0
  {
    hide Recall, Precision;
    forall items: seq<string> ensures Recall(items, items) == 1.0 && Precision(items, items) == 1.0 {
      RecallUnit(items, items);
      PrecisionIsRecall(items, items);
    }
  }

  lemma {:induction false} CopiedFindings(findings: seq<Finding>)
    ensures ScoreFindings(findings, findings) == PERFECT.findings
  {
    hide Ratio, Mean, Measured, StagedMet, StagedCount, Greedy, Match, Met;
    if findings != [] {
      var a, n := Match(findings, findings), |findings|;
      MatchIsGreedy(findings, findings);
      CopyMatches(Labels(findings));
      SelfMeasures();
      RatioUnit(|Met(a)|, n);
      StagedMetBound(findings, a, n);
      if StagedCount(findings, n) > 0 {
        RatioUnit(StagedMet(findings, a, n), StagedCount(findings, n));
      }
      MeanOfCopy(ENTITY_RECALL, findings, a);
      MeanOfCopy(ENTITY_PRECISION, findings, a);
      MeanOfCopy(EVENT_RECALL, findings, a);
      MeanOfCopy(EVENT_PRECISION, findings, a);
    }
  }

  lemma {:induction false} CopiedStages(stages: seq<Stage>)
    ensures ScoreStages(stages, stages) == PERFECT.stages
  {
    hide Ratio, Mean, Measured, Greedy, Sum, Met;
    if stages != [] {
      var a, n := MatchStages(stages, stages), |stages|;
      CopyMatches(StageLabels(stages));
      SelfMeasures();
      RatioUnit(|Met(a)|, n);
      MeanOfCopy(STAGE_RECALL, stages, a);
      MeanOfCopy(STAGE_PRECISION, stages, a);
    }
  }

  /** An output that copies the ground truth's findings and stages scores 1 on every metric. */
  lemma {:induction false} PerfectCopy(findings: seq<Finding>, stages: seq<Stage>)
    ensures Score(findings, findings, stages, stages) == PERFECT
  {
    hide ScoreFindings, ScoreStages;
    CopiedFindings(findings);
    CopiedStages(stages);
  }

  // ---------------------------------------------------------------- more findings

  /** Appending findings to an output rebinds no expectation that was matched, and never lowers the type recall. */
  lemma {:induction false} MoreFindings(expected: seq<Finding>, actual: seq<Finding>, more: seq<Finding>)
    ensures var a, a' := Match(expected, actual), Match(expected, actual + more);
      forall i :: 0 <= i < |expected| && a[i].Some? ==> a'[i] == a[i]
    ensures ScoreFindings(expected, actual + more).typeRecall >= ScoreFindings(expected, actual).typeRecall
  {
    hide Greedy, Mean, Measured, StagedMet, StagedCount, Match;
    MatchIsGreedy(expected, actual);
    MatchIsGreedy(expected, actual + more);
    MapAppend(LabelOf, actual, more);
    AppendKeepsMet(Labels(expected), Labels(actual), Labels(more), |expected|);
    var a, a' := Match(expected, actual), Match(expected, actual + more);
    assert Met(a) <= Met(a');
    SubsetSize(Met(a), Met(a'));
    if expected != [] {
      RatioMonotone(|Met(a)|, |Met(a')|, |expected|);
    }
  }

  lemma {:induction false} RatioMonotone(a: nat, b: nat, n: nat)
    requires a <= b && n > 0
    ensures Ratio(a, n) <= Ratio(b, n)
  {
  }

  // ---------------------------------------------------------------- optimality and order

  /** Timeline stages: no matching of stage names beats the greedy one. */
  lemma {:induction false} StagesAreMaximum(expected: seq<Stage>, actual: seq<Stage>, b: Assignment)
    requires Valid(b, StageLabels(expected), StageLabels(actual))
    ensures |Met(b)| <= |Met(MatchStages(expected, actual))|
  {
    hide Greedy, Valid, Met;
    GreedyIsMaximum(StageLabels(expected), StageLabels(actual), b);
  }

  /** Findings: the same when every expected finding has a stage. */
  lemma {:induction false} FindingsAreMaximum(expected: seq<Finding>, actual: seq<Finding>, b: Assignment)
    requires forall i :: 0 <= i < |expected| ==> expected[i].stage.Some?
    requires Valid(b, Labels(expected), Labels(actual))
    ensures |Met(b)| <= |Met(Match(expected, actual))|
  {
    hide Greedy, Valid, Met;
    GreedyIsMaximum(Labels(expected), Labels(actual), b);
  }

  function StageNames(stages: seq<Stage>): (r: seq<string>)
    ensures |r| == |stages| && forall i :: 0 <= i < |r| ==> r[i] == Normalize(stages[i].name)
  {
    MapSeq((s: Stage) => Normalize(s.name), stages)
  }

  /** The stages met: summed over the names, the smaller of expected and reported. */
  lemma {:induction false} StagesMet(expected: seq<Stage>, actual: seq<Stage>)
    ensures |Met(MatchStages(expected, actual))| == |multiset(StageNames(expected)) * multiset(StageNames(actual))|
  {
    hide Greedy, Met, Normalize;
    GreedyCount(StageLabels(expected), StageLabels(actual), StageNames(expected), StageNames(actual));
  }

  /** The findings met, when every expected finding has a stage: the same over (type, stage). */
  lemma {:induction false} FindingsMet(expected: seq<Finding>, actual: seq<Finding>)
    requires forall i :: 0 <= i < |expected| ==> expected[i].stage.Some?
    ensures |Met(Match(expected, actual))| == |multiset(Labels(expected)) * multiset(Labels(actual))|
  {
    hide Greedy, Met, Normalize;
    GreedyCount(Labels(expected), Labels(actual), Labels(expected), Labels(actual));
  }

  /** Permuting the stages on either side changes neither stage recall nor stage precision. */
  lemma {:induction false} StageOrderIrrelevant(
      expected: seq<Stage>, actual: seq<Stage>, expected': seq<Stage>, actual': seq<Stage>)
    requires multiset(expected) == multiset(expected') && multiset(actual) == multiset(actual')
    ensures ScoreStages(expected, actual).stageRecall == ScoreStages(expected', actual').stageRecall
    ensures ScoreStages(expected, actual).stagePrecision == ScoreStages(expected', actual').stagePrecision
  {
    hide Greedy, Met, Normalize, Measured, Sum, Mean, MatchStages;
    assert |expected| == |multiset(expected)| == |expected'| && |actual| == |multiset(actual)| == |actual'|;
    StagesMet(expected, actual);
    StagesMet(expected', actual');
    MapPermuted((s: Stage) => Normalize(s.name), expected, expected');
    MapPermuted((s: Stage) => Normalize(s.name), actual, actual');
  }

  /** With a stage on every expected finding, permuting the findings changes neither type recall nor type precision. */
  lemma {:induction false} FindingOrderIrrelevant(
      expected: seq<Finding>, actual: seq<Finding>, expected': seq<Finding>, actual': seq<Finding>)
    requires multiset(expected) == multiset(expected') && multiset(actual) == multiset(actual')
    requires forall f :: f in expected ==> f.stage.Some?
    ensures ScoreFindings(expected, actual).typeRecall == ScoreFindings(expected', actual').typeRecall
    ensures ScoreFindings(expected, actual).typePrecision == ScoreFindings(expected', actual').typePrecision
  {
    hide Greedy, Met, Normalize, Measured, Sum, Mean, Match, StagedMet, StagedCount;
    assert |expected| == |multiset(expected)| == |expected'| && |actual| == |multiset(actual)| == |actual'|;
    forall i | 0 <= i < |expected'| ensures expected'[i].stage.Some? {
      assert expected'[i] in multiset(expected);
    }
    FindingsMet(expected, actual);
    FindingsMet(expected', actual');
    MapPermuted(LabelOf, expected, expected');
    MapPermuted(LabelOf, actual, actual');
  }
}
