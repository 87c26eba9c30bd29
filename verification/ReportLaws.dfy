/**
 What the numbers and lists of an evaluation report are, counted and added up over the matched
 pairs (eventweave/evaluation/evaluator.py:94-329).
 */
module ReportLaws {
  import opened Common
  import opened Matching
  import opened Scoring
  import opened Evaluator

  // ---------------------------------------------------------------- names

  /** The ten ASCII characters that `strip` removes. */
  lemma {:induction false} SpaceIs(c: char)
    ensures IsSpace(c) <==> c in "\t\n\U{0B}\U{0C}\r\U{1C}\U{1D}\U{1E}\U{1F} "
  {
    var n := c as int;
    assert 9 <= n <= 13 ==> n == 9 || n == 10 || n == 11 || n == 12 || n == 13;
    assert 28 <= n <= 32 ==> n == 28 || n == 29 || n == 30 || n == 31 || n == 32;
    var s := "\t\n\U{0B}\U{0C}\r\U{1C}\U{1D}\U{1E}\U{1F} ";
    assert s[0] as int == 9 && s[1] as int == 10 && s[2] as int == 11 && s[3] as int == 12 && s[4] as int == 13;
    assert s[5] as int == 28 && s[6] as int == 29 && s[7] as int == 30 && s[8] as int == 31 && s[9] as int == 32;
  }

  predicate Spaces(s: string) { forall i :: 0 <= i < |s| ==> IsSpace(s[i]) }

  lemma {:induction false} TrimLeftSkips(a: string, s: string)
    requires Spaces(a)
    ensures TrimLeft(a + s) == TrimLeft(s)
  {
    if a == "" {
      assert a + s == s;
    } else {
      assert (a + s)[1..] == a[1..] + s;
      TrimLeftSkips(a[1..], s);
    }
  }

  lemma {:induction false} TrimRightSkips(s: string, b: string)
    requires Spaces(b)
    ensures TrimRight(s + b) == TrimRight(s)
  {
    if b == "" {
      assert s + b == s;
    } else {
      var n := |b| - 1;
      assert (s + b)[..|s + b| - 1] == s + b[..n];
      TrimRightSkips(s, b[..n]);
    }
  }

  lemma {:induction false} TrimLeftStops(s: string, b: string)
    ensures Spaces(s) ==> TrimLeft(s) == "" && TrimLeft(s + b) == TrimLeft(b)
    ensures !Spaces(s) ==> TrimLeft(s + b) == TrimLeft(s) + b
  {
    if s == "" {
      assert s + b == b;
    } else {
      assert (s + b)[1..] == s[1..] + b;
      TrimLeftStops(s[1..], b);
      assert Spaces(s) <==> IsSpace(s[0]) && Spaces(s[1..]) by {
        assert forall i :: 0 < i < |s| ==> s[i] == s[1..][i - 1];
      }
    }
  }

  /** White space around a name does not matter. */
  lemma {:induction false} NormalizeTrims(a: string, s: string, b: string)
    requires Spaces(a) && Spaces(b)
    ensures Normalize(a + s + b) == Normalize(s)
  {
    assert a + s + b == a + (s + b);
    TrimLeftSkips(a, s + b);
    TrimLeftStops(s, b);
    if Spaces(s) {
      TrimLeftStops(b, "");
    } else {
      TrimRightSkips(TrimLeft(s), b);
    }
  }

  /** The same letter, in upper or lower case. */
  predicate SameLetter(c: char, d: char) {
    c == d || ('A' <= c <= 'Z' && d as int == c as int + 32) || ('A' <= d <= 'Z' && c as int == d as int + 32)
  }

  predicate SameLetters(s: string, t: string) { |s| == |t| && forall i :: 0 <= i < |s| ==> SameLetter(s[i], t[i]) }

  lemma {:induction false} TrimAlike(s: string, t: string)
    requires SameLetters(s, t)
    ensures SameLetters(TrimLeft(s), TrimLeft(t)) && SameLetters(TrimRight(s), TrimRight(t))
  {
    if s != "" {
      assert SameLetters(s[1..], t[1..]) && SameLetters(s[..|s| - 1], t[..|t| - 1]);
      TrimAlike(s[1..], t[1..]);
      TrimAlike(s[..|s| - 1], t[..|t| - 1]);
    }
  }

  /** Nor does the case of its letters. */
  lemma {:induction false} NormalizeCase(s: string, t: string)
    requires SameLetters(s, t)
    ensures Normalize(s) == Normalize(t)
  {
    TrimAlike(s, t);
    TrimAlike(TrimLeft(s), TrimLeft(t));
  }

  /** A name in lower case without white space around it stands for itself. */
  lemma {:induction false} NormalizeFixes(s: string)
    requires forall i :: 0 <= i < |s| ==> !('A' <= s[i] <= 'Z')
    requires s != "" ==> !IsSpace(s[0]) && !IsSpace(s[|s| - 1])
    ensures Normalize(s) == s
  {
  }

  // ---------------------------------------------------------------- one pair

  /** Recall, in counts: the distinct expected items that were reported. */
  lemma {:induction false} RecallCounts(expected: seq<string>, actual: seq<string>)
    ensures expected == [] ==> Recall(expected, actual) == 1.0
    ensures var e, a := NormalSet(expected), NormalSet(actual);
      expected != [] ==> |e| >= 1 && Recall(expected, actual) * |e| as real == |e * a| as real
  {
    hide Normalize;
    NormalSetEmpty(expected);
  }

  // ---------------------------------------------------------------- sums over pairs

  /** The measurements of all pairs, added up. */
  function Total<T>(measure: Measure<T>, pairs: seq<(T, T)>): real {
    if pairs == [] then 0.0 else measure(pairs[0].0, pairs[0].1) + Total(measure, pairs[1..])
  }

  lemma {:induction false} TotalSnoc<T>(measure: Measure<T>, pairs: seq<(T, T)>, p: (T, T))
    ensures Total(measure, pairs + [p]) == Total(measure, pairs) + measure(p.0, p.1)
  {
    if pairs == [] {
      assert pairs + [p] == [p] && [p][1..] == [];
    } else {
      assert (pairs + [p])[1..] == pairs[1..] + [p];
      TotalSnoc(measure, pairs[1..], p);
    }
  }

  lemma {:induction false} MeasuredTotal<T>(
      measure: Measure<T>, same: Measure<T>, expected: seq<T>, actual: seq<T>, a: Assignment, n: nat)
    requires n <= |expected| == |a| && InRange(a, |actual|)
    requires forall x, y :: measure(x, y) == same(x, y)
    ensures Sum(Measured(measure, expected, actual, a, n)) == Total(same, Pairs(expected, actual, a, n))
    ensures |Measured(measure, expected, actual, a, n)| == |Pairs(expected, actual, a, n)|
  {
    if n > 0 {
      MeasuredTotal(measure, same, expected, actual, a, n - 1);
      var xs, ps := Measured(measure, expected, actual, a, n - 1), Pairs(expected, actual, a, n - 1);
      if a[n - 1].Some? {
        var p := (expected[n - 1], actual[a[n - 1].value]);
        TotalSnoc(same, ps, p);
        assert (xs + [measure(p.0, p.1)])[..|xs|] == xs;
      } else {
        assert xs + [] == xs && ps + [] == ps;
      }
    }
  }

  /** An average of one measurement per pair: 0 without pairs, else their total over their number. */
  predicate Averages<T>(x: real, measure: Measure<T>, pairs: seq<(T, T)>) {
    if pairs == [] then x == 0.0 else x * |pairs| as real == Total(measure, pairs)
  }

  lemma {:induction false} MeanAverages<T>(
      measure: Measure<T>, same: Measure<T>, expected: seq<T>, actual: seq<T>, a: Assignment)
    requires |expected| == |a| && InRange(a, |actual|)
    requires forall x, y :: measure(x, y) == same(x, y)
    ensures Averages(Mean(Measured(measure, expected, actual, a, |a|)), same, Pairs(expected, actual, a, |a|))
  {
    hide Sum, Total, Measured, Pairs;
    MeasuredTotal(measure, same, expected, actual, a, |a|);
  }

  // ---------------------------------------------------------------- counts of pairs

  lemma {:induction false} PairsMet<T>(expected: seq<T>, actual: seq<T>, a: Assignment, n: nat)
    requires n <= |expected| == |a| && InRange(a, |actual|)
    ensures |Pairs(expected, actual, a, n)| == |Met(a[..n])|
  {
    if n > 0 {
      PairsMet(expected, actual, a, n - 1);
      assert a[..n][..n - 1] == a[..n - 1];
      MetSnoc(a[..n]);
    } else {
      assert Met(a[..0]) == {};
    }
  }

  function Staged(f: Finding): bool { f.stage.Some? }

  function StagedPair(p: (Finding, Finding)): bool { p.0.stage.Some? }

  lemma {:induction false} StagedCounts(expected: seq<Finding>, actual: seq<Finding>, a: Assignment, n: nat)
    requires n <= |expected| == |a| && InRange(a, |actual|)
    ensures StagedCount(expected, n) == |Filter(Staged, expected[..n])|
    ensures StagedMet(expected, a, n) == |Filter(StagedPair, Pairs(expected, actual, a, n))|
  {
    if n > 0 {
      StagedCounts(expected, actual, a, n - 1);
      assert expected[..n] == expected[..n - 1] + [expected[n - 1]];
      FilterAppend(Staged, expected[..n - 1], [expected[n - 1]]);
      FilterOne(Staged, expected[n - 1]);
      if a[n - 1].Some? {
        var p := (expected[n - 1], actual[a[n - 1].value]);
        FilterAppend(StagedPair, Pairs(expected, actual, a, n - 1), [p]);
        FilterOne(StagedPair, p);
      } else {
        var ps := Pairs(expected, actual, a, n - 1);
        assert ps + [] == ps;
      }
    }
  }

  lemma {:induction false} FilterOne<T>(p: T -> bool, x: T)
    ensures Filter(p, [x]) == if p(x) then [x] else []
  {
    assert [x][1..] == [];
  }

  lemma {:induction false} RatioTimes(a: nat, b: nat)
    requires b > 0
    ensures Ratio(a, b) * b as real == a as real
  {
  }

  // ---------------------------------------------------------------- the scores of findings

  /** A share of a list, or `none` when the list is empty. */
  predicate Share(x: real, part: nat, whole: nat, none: real) {
    if whole == 0 then x == none else x * whole as real == part as real
  }

  /** The seven scores of findings against the matched pairs. */
  predicate FindingsAddUp(
      f: FindingScores, expected: seq<Finding>, actual: seq<Finding>, pairs: seq<(Finding, Finding)>)
  {
    Share(f.typeRecall, |pairs|, |expected|, 1.0)
    && Share(f.typePrecision, |pairs|, |actual|, 1.0)
    && Share(f.stageAccuracy, |Filter(StagedPair, pairs)|, |Filter(Staged, expected)|, 1.0)
    && Averages(f.entityRecall, (e: Finding, g: Finding) => Recall(e.entities, g.entities), pairs)
    && Averages(f.eventRecall, (e: Finding, g: Finding) => Recall(e.events, g.events), pairs)
    && Averages(f.entityPrecision, (e: Finding, g: Finding) => Recall(g.entities, e.entities), pairs)
    && Averages(f.eventPrecision, (e: Finding, g: Finding) => Recall(g.events, e.events), pairs)
  }

  lemma {:induction false} FindingsAdded(expected: seq<Finding>, actual: seq<Finding>)
    ensures expected == [] ==> ScoreFindings(expected, actual) == FindingScores(1.0, 1.0, 1.0, 1.0, 1.0, 1.0, 1.0)
    ensures expected != [] ==>
      FindingsAddUp(ScoreFindings(expected, actual), expected, actual,
                    Pairs(expected, actual, Match(expected, actual), |expected|))
  {
    hide Match, Met, Measured, Mean, Pairs, Recall, Precision, Ratio, StagedCount, StagedMet, Filter, Averages;
    if expected != [] {
      var a, n := Match(expected, actual), |expected|;
      FindingShares(expected, actual, a);
      FindingAverages(expected, actual, a);
    }
  }

  lemma {:induction false} FindingShares(expected: seq<Finding>, actual: seq<Finding>, a: Assignment)
    requires a == Match(expected, actual) && expected != []
    ensures var f, pairs := ScoreFindings(expected, actual), Pairs(expected, actual, a, |expected|);
      Share(f.typeRecall, |pairs|, |expected|, 1.0) && Share(f.typePrecision, |pairs|, |actual|, 1.0)
      && Share(f.stageAccuracy, |Filter(StagedPair, pairs)|, |Filter(Staged, expected)|, 1.0)
  {
    hide Match, Met, Measured, Mean, Pairs, Recall, Precision, Ratio, StagedCount, StagedMet, Filter;
    var n := |expected|;
    PairsMet(expected, actual, a, n);
    StagedCounts(expected, actual, a, n);
    assert a[..n] == a && expected[..n] == expected;
    RatioTimes(|Met(a)|, n);
    if actual != [] {
      RatioTimes(|Met(a)|, |actual|);
    }
    if StagedCount(expected, n) > 0 {
      RatioTimes(StagedMet(expected, a, n), StagedCount(expected, n));
    }
  }

  lemma {:induction false} FindingAverages(expected: seq<Finding>, actual: seq<Finding>, a: Assignment)
    requires a == Match(expected, actual) && expected != []
    ensures var f, pairs := ScoreFindings(expected, actual), Pairs(expected, actual, a, |expected|);
      Averages(f.entityRecall, (e: Finding, g: Finding) => Recall(e.entities, g.entities), pairs)
      && Averages(f.eventRecall, (e: Finding, g: Finding) => Recall(e.events, g.events), pairs)
      && Averages(f.entityPrecision, (e: Finding, g: Finding) => Recall(g.entities, e.entities), pairs)
      && Averages(f.eventPrecision, (e: Finding, g: Finding) => Recall(g.events, e.events), pairs)
  {
    hide Match, Met, Measured, Mean, Pairs, Recall, Precision, Ratio, StagedCount, StagedMet, Averages;
    forall x: seq<string>, y: seq<string> ensures Precision(x, y) == Recall(y, x) {
      PrecisionIsRecall(x, y);
    }
    MeanAverages(ENTITY_RECALL, (e: Finding, g: Finding) => Recall(e.entities, g.entities), expected, actual, a);
    MeanAverages(EVENT_RECALL, (e: Finding, g: Finding) => Recall(e.events, g.events), expected, actual, a);
    MeanAverages(ENTITY_PRECISION, (e: Finding, g: Finding) => Recall(g.entities, e.entities), expected, actual, a);
    MeanAverages(EVENT_PRECISION, (e: Finding, g: Finding) => Recall(g.events, e.events), expected, actual, a);
  }

  // ---------------------------------------------------------------- the scores of stages

  /** The four scores of timeline stages; a missed stage counts as recall 0. */
  predicate StagesAddUp(s: StageScores, expected: seq<Stage>, actual: seq<Stage>, pairs: seq<(Stage, Stage)>)
  {
    Share(s.stageRecall, |pairs|, |expected|, 1.0)
    && Share(s.stagePrecision, |pairs|, |actual|, 0.0)
    && s.eventRecall * |expected| as real == Total((e: Stage, g: Stage) => Recall(e.events, g.events), pairs)
    && Averages(s.eventPrecision, (e: Stage, g: Stage) => Recall(g.events, e.events), pairs)
  }

  lemma {:induction false} StagesAdded(expected: seq<Stage>, actual: seq<Stage>)
    ensures expected == [] && actual == [] ==> ScoreStages(expected, actual) == StageScores(1.0, 1.0, 1.0, 1.0)
    ensures expected == [] && actual != [] ==> ScoreStages(expected, actual) == StageScores(0.0, 0.0, 0.0, 0.0)
    ensures expected != [] ==>
      StagesAddUp(ScoreStages(expected, actual), expected, actual,
                  Pairs(expected, actual, MatchStages(expected, actual), |expected|))
  {
    hide MatchStages, Met, Measured, Mean, Pairs, Recall, Precision, Ratio, Sum, Total, Averages;
    if expected != [] {
      var a, n := MatchStages(expected, actual), |expected|;
      PairsMet(expected, actual, a, n);
      assert a[..n] == a;
      RatioTimes(|Met(a)|, n);
      if actual != [] {
        RatioTimes(|Met(a)|, |actual|);
      }
      forall x: seq<string>, y: seq<string> ensures Precision(x, y) == Recall(y, x) {
        PrecisionIsRecall(x, y);
      }
      MeasuredTotal(STAGE_RECALL, (e: Stage, g: Stage) => Recall(e.events, g.events), expected, actual, a, n);
      MeanAverages(STAGE_PRECISION, (e: Stage, g: Stage) => Recall(g.events, e.events), expected, actual, a);
    }
  }

  // ---------------------------------------------------------------- the report

  /**
   The thirteen metrics in numbers: shares of the lists, averages over exactly the matched pairs,
   and the two overall scores as the mean of the four recall scores and of all seven finding scores.
   */
  lemma {:induction false} ReportAddsUp(
      expected: seq<Finding>, actual: seq<Finding>, expectedStages: seq<Stage>, actualStages: seq<Stage>)
    ensures var m := Score(expected, actual, expectedStages, actualStages);
      var f := m.findings;
      (expected == [] ==> f == FindingScores(1.0, 1.0, 1.0, 1.0, 1.0, 1.0, 1.0))
      && (expectedStages == [] ==>
            var x := if actualStages == [] then 1.0 else 0.0; m.stages == StageScores(x, x, x, x))
      && (expected != [] ==>
            FindingsAddUp(f, expected, actual, Pairs(expected, actual, Match(expected, actual), |expected|)))
      && (expectedStages != [] ==>
            var matched := MatchStages(expectedStages, actualStages);
            StagesAddUp(m.stages, expectedStages, actualStages,
                        Pairs(expectedStages, actualStages, matched, |expectedStages|)))
      && 4.0 * m.overall == f.typeRecall + f.entityRecall + f.eventRecall + f.stageAccuracy
      && 7.0 * m.balanced == 4.0 * m.overall + f.typePrecision + f.entityPrecision + f.eventPrecision
  {
    hide ScoreFindings, ScoreStages, FindingsAddUp, StagesAddUp, Pairs, Match, MatchStages;
    FindingsAdded(expected, actual);
    StagesAdded(expectedStages, actualStages);
  }

  // ---------------------------------------------------------------- the lists

  /** The expected sides of the pairs. */
  function Firsts<T>(pairs: seq<(T, T)>): seq<T> {
    if pairs == [] then [] else Firsts(pairs[..|pairs| - 1]) + [pairs[|pairs| - 1].0]
  }

  /** The reported sides of the pairs. */
  function Seconds<T>(pairs: seq<(T, T)>): seq<T> {
    if pairs == [] then [] else Seconds(pairs[..|pairs| - 1]) + [pairs[|pairs| - 1].1]
  }

  lemma {:induction false} PairsSnoc<T>(pairs: seq<(T, T)>, p: (T, T))
    ensures multiset(Firsts(pairs + [p])) == multiset(Firsts(pairs)) + multiset{p.0}
    ensures multiset(Seconds(pairs + [p])) == multiset(Seconds(pairs)) + multiset{p.1}
  {
    assert (pairs + [p])[..|pairs|] == pairs;
    assert Firsts(pairs + [p]) == Firsts(pairs) + [p.0] && Seconds(pairs + [p]) == Seconds(pairs) + [p.1];
  }

  lemma {:induction false} NoPairs<T>()
    ensures Firsts<T>([]) == [] && Seconds<T>([]) == []
  {
  }

  lemma {:induction false} PickSnoc<T>(items: seq<T>, keep: nat -> bool, n: nat)
    requires 1 <= n <= |items|
    ensures multiset(Pick(items, keep, n))
         == multiset(Pick(items, keep, n - 1)) + if keep(n - 1) then multiset{items[n - 1]} else multiset{}
  {
    var ps := Pick(items, keep, n - 1);
    assert ps + [] == ps;
  }

  lemma {:induction false} Snoc<T>(s: seq<T>, n: nat)
    requires 1 <= n <= |s|
    ensures multiset(s[..n]) == multiset(s[..n - 1]) + multiset{s[n - 1]}
  {
    assert s[..n] == s[..n - 1] + [s[n - 1]];
  }

  /** Matched and missed expectations are the expectations, each once. */
  lemma {:induction false} ExpectedSplit<T>(expected: seq<T>, actual: seq<T>, a: Assignment, n: nat)
    requires n <= |expected| == |a| && InRange(a, |actual|)
    ensures multiset(Firsts(Pairs(expected, actual, a, n))) + multiset(Pick(expected, Unmet(a), n))
         == multiset(expected[..n])
  {
    hide Firsts, Pairs, Pick;
    if n > 0 {
      ExpectedSplit(expected, actual, a, n - 1);
      Snoc(expected, n);
      PairsNext(expected, actual, a, n);
      PickSnoc(expected, Unmet(a), n);
    } else {
      NothingYet(expected, actual, a);
      NothingPicked(expected, Unmet(a));
    }
  }

  lemma {:induction false} NothingYet<T>(expected: seq<T>, actual: seq<T>, a: Assignment)
    requires |expected| == |a| && InRange(a, |actual|)
    ensures Firsts(Pairs(expected, actual, a, 0)) == [] && expected[..0] == []
  {
  }

  /** One more expectation, matched or not. */
  lemma {:induction false} PairsNext<T>(expected: seq<T>, actual: seq<T>, a: Assignment, n: nat)
    requires 1 <= n <= |expected| == |a| && InRange(a, |actual|)
    ensures multiset(Firsts(Pairs(expected, actual, a, n)))
         == multiset(Firsts(Pairs(expected, actual, a, n - 1)))
            + if a[n - 1].Some? then multiset{expected[n - 1]} else multiset{}
  {
    hide Firsts;
    var ps := Pairs(expected, actual, a, n - 1);
    if a[n - 1].Some? {
      PairsSnoc(ps, (expected[n - 1], actual[a[n - 1].value]));
    } else {
      assert ps + [] == ps;
    }
  }

  function In(s: set<nat>): nat -> bool { (i: nat) => i in s }

  /** Picked and not picked elements are all elements. */
  lemma {:induction false} PickSplit<T>(items: seq<T>, s: set<nat>, rest: nat -> bool, n: nat)
    requires n <= |items| && forall i :: rest(i) <==> i !in s
    ensures multiset(Pick(items, In(s), n)) + multiset(Pick(items, rest, n)) == multiset(items[..n])
  {
    if n > 0 {
      PickSplit(items, s, rest, n - 1);
      Snoc(items, n);
      var ps, qs := Pick(items, In(s), n - 1), Pick(items, rest, n - 1);
      if n - 1 in s {
        assert Pick(items, rest, n) == qs;
        assert multiset(Pick(items, In(s), n)) == multiset(ps) + multiset{items[n - 1]};
      } else {
        assert Pick(items, In(s), n) == ps;
        assert multiset(Pick(items, rest, n)) == multiset(qs) + multiset{items[n - 1]};
      }
    } else {
      assert items[..0] == [];
    }
  }

  lemma {:induction false} PickOneMore<T>(items: seq<T>, s: set<nat>, j: nat, n: nat)
    requires n <= |items| && j < |items| && j !in s
    ensures multiset(Pick(items, In(s + {j}), n))
         == multiset(Pick(items, In(s), n)) + if j < n then multiset{items[j]} else multiset{}
  {
    hide Pick;
    if n > 0 {
      PickOneMore(items, s, j, n - 1);
      PickSnoc(items, In(s), n);
      PickSnoc(items, In(s + {j}), n);
    } else {
      NothingPicked(items, In(s));
      NothingPicked(items, In(s + {j}));
    }
  }

  lemma {:induction false} NothingPickedFrom<T>(items: seq<T>, n: nat)
    requires n <= |items|
    ensures Pick(items, In({}), n) == []
  {
    if n > 0 {
      NothingPickedFrom(items, n - 1);
    }
  }

  /** The reported sides of the pairs are the used elements of the report. */
  lemma {:induction false} UsedPicked<T>(expected: seq<T>, actual: seq<T>, a: Assignment, n: nat)
    requires n <= |expected| == |a| && InRange(a, |actual|) && Injective(a)
    ensures multiset(Seconds(Pairs(expected, actual, a, n))) == multiset(Pick(actual, In(Used(a[..n])), |actual|))
  {
    hide Used, Seconds, Pick, In, Pairs, Injective;
    if n > 0 {
      UsedPicked(expected, actual, a, n - 1);
      SecondsNext(expected, actual, a, n);
      PickedNext(actual, a, n);
    } else {
      NothingUsed(a[..0]);
      NothingPickedFrom(actual, |actual|);
      NothingPaired(expected, actual, a);
      NoPairs<T>();
    }
  }

  lemma {:induction false} NothingPaired<T>(expected: seq<T>, actual: seq<T>, a: Assignment)
    requires |expected| == |a| && InRange(a, |actual|)
    ensures Pairs(expected, actual, a, 0) == []
  {
  }

  lemma {:induction false} SecondsNext<T>(expected: seq<T>, actual: seq<T>, a: Assignment, n: nat)
    requires 1 <= n <= |expected| == |a| && InRange(a, |actual|)
    ensures multiset(Seconds(Pairs(expected, actual, a, n)))
         == multiset(Seconds(Pairs(expected, actual, a, n - 1)))
            + if a[n - 1].Some? then multiset{actual[a[n - 1].value]} else multiset{}
  {
    hide Seconds;
    var ps := Pairs(expected, actual, a, n - 1);
    if a[n - 1].Some? {
      PairsSnoc(ps, (expected[n - 1], actual[a[n - 1].value]));
    } else {
      assert ps + [] == ps;
    }
  }

  lemma {:induction false} PickedNext<T>(actual: seq<T>, a: Assignment, n: nat)
    requires 1 <= n <= |a| && InRange(a, |actual|) && Injective(a)
    ensures multiset(Pick(actual, In(Used(a[..n])), |actual|))
         == multiset(Pick(actual, In(Used(a[..n - 1])), |actual|))
            + if a[n - 1].Some? then multiset{actual[a[n - 1].value]} else multiset{}
  {
    hide Used, Pick, In, Injective;
    UsedSnoc(a, n - 1);
    var s := Used(a[..n - 1]);
    if a[n - 1].Some? {
      FreshIndex(a, n - 1);
      PickOneMore(actual, s, a[n - 1].value, |actual|);
    } else {
      assert s + {} == s;
    }
  }

  predicate Injective(a: Assignment) {
    forall i, j :: 0 <= i < j < |a| && a[i].Some? && a[j].Some? ==> a[i].value != a[j].value
  }

  lemma {:induction false} FreshIndex(a: Assignment, n: nat)
    requires n < |a| && Injective(a) && a[n].Some?
    ensures a[n].value !in Used(a[..n])
  {
  }

  /** Matched and extra elements are the whole report, each once. */
  lemma {:induction false} ActualSplit<T>(expected: seq<T>, actual: seq<T>, a: Assignment)
    requires |expected| == |a| && InRange(a, |actual|) && Injective(a)
    ensures multiset(Seconds(Pairs(expected, actual, a, |a|))) + multiset(Pick(actual, NotUsed(a), |actual|))
         == multiset(actual)
  {
    hide Used, Seconds, Pick, Pairs;
    UsedPicked(expected, actual, a, |a|);
    assert a[..|a|] == a && actual[..|actual|] == actual;
    PickSplit(actual, Used(a), NotUsed(a), |actual|);
  }

  /**
   The lists of the report lose and invent nothing: matched and missed findings are those expected,
   matched and extra ones those reported, and only findings that fit are matched.
   */
  lemma {:induction false} ReportSplits(expected: seq<Finding>, actual: seq<Finding>)
    ensures var a := Match(expected, actual);
      var pairs := Pairs(expected, actual, a, |expected|);
      multiset(Firsts(pairs)) + multiset(Pick(expected, Unmet(a), |expected|)) == multiset(expected)
      && multiset(Seconds(pairs)) + multiset(Pick(actual, NotUsed(a), |actual|)) == multiset(actual)
      && forall p :: p in pairs ==>
           Normalize(p.0.kind) == Normalize(p.1.kind)
           && (p.0.stage.Some? ==> p.1.stage.Some? && Normalize(p.0.stage.value) == Normalize(p.1.stage.value))
  {
    hide Match, Firsts, Seconds, Pick, Normalize, Greedy;
    var a := Match(expected, actual);
    MatchIsGreedy(expected, actual);
    GreedyValid(Labels(expected), Labels(actual));
    assert expected[..|expected|] == expected;
    ExpectedSplit(expected, actual, a, |expected|);
    ActualSplit(expected, actual, a);
    PairsFit(expected, actual, a, |expected|);
  }

  lemma {:induction false} PairsFit(expected: seq<Finding>, actual: seq<Finding>, a: Assignment, n: nat)
    requires n <= |expected| == |a| && Valid(a, Labels(expected), Labels(actual)) && InRange(a, |actual|)
    ensures forall p :: p in Pairs(expected, actual, a, n) ==>
      Normalize(p.0.kind) == Normalize(p.1.kind)
      && (p.0.stage.Some? ==> p.1.stage.Some? && Normalize(p.0.stage.value) == Normalize(p.1.stage.value))
  {
    hide Normalize;
    if n > 0 {
      PairsFit(expected, actual, a, n - 1);
    }
  }
}
