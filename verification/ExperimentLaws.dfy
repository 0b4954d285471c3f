/** What scores, evaluations, phases and judgments of experiments mean. */
module ExperimentLaws {
  import opened Wrappers
  import opened StringOrder
  import opened ExperimentModel
  import opened Experiments
  import opened ExperimentInvariant
  import opened ExperimentRuns

  // ---------------------------------------------------------------------- scores

  predicate IsFirstScore(scores: seq<Score>, id: string, i: nat) {
    i < |scores| && scores[i].criterionId == id && forall j :: 0 <= j < i ==> scores[j].criterionId != id
  }

  /** A criterion counts with the first score given for it, and with none as 0. */
  lemma {:induction false} FirstScoreCounts(scores: seq<Score>, id: string)
    ensures forall i: nat :: IsFirstScore(scores, id, i) ==> ScoreFor(scores, id) == scores[i].score
    ensures (forall i :: 0 <= i < |scores| ==> scores[i].criterionId != id) ==> ScoreFor(scores, id) == 0.0
  {
    if scores != [] && scores[0].criterionId != id {
      FirstScoreCounts(scores[1..], id);
      forall i: nat | IsFirstScore(scores, id, i)
        ensures ScoreFor(scores, id) == scores[i].score
      {
        assert IsFirstScore(scores[1..], id, i - 1);
      }
    }
  }

  /** Weights add up. */
  lemma {:induction false} WeightsAddUp(a: seq<RubricCriterion>, b: seq<RubricCriterion>)
    ensures TotalWeight(a + b) == TotalWeight(a) + TotalWeight(b)
    ensures |a| == 1 ==> TotalWeight(a) == a[0].weight
    decreases |b|
  {
    if b == [] {
      assert a + b == a;
    } else {
      WeightsAddUp(a, b[..|b| - 1]);
      assert (a + b)[..|a + b| - 1] == a + b[..|b| - 1];
    }
    if |a| == 1 {
      assert a[..0] == [];
    }
  }

  lemma {:induction false} WeightedWhenSame(criteria: seq<RubricCriterion>, scores: seq<Score>, s: real)
    requires forall i :: 0 <= i < |criteria| ==> ScoreFor(scores, criteria[i].id) == s
    ensures Weighted(criteria, scores) == s * TotalWeight(criteria)
  {
    if criteria != [] {
      WeightedWhenSame(criteria[..|criteria| - 1], scores, s);
    }
  }

  lemma {:induction false} Divided(a: real, s: real, w: real)
    requires w > 0.0 && a == s * w
    ensures a / w == s
  {
  }

  /** The same score for every criterion is the weighted score. */
  lemma {:induction false} SameScoresGiveIt(criteria: seq<RubricCriterion>, scores: seq<Score>, s: real)
    requires TotalWeight(criteria) > 0.0
    requires forall i :: 0 <= i < |criteria| ==> ScoreFor(scores, criteria[i].id) == s
    ensures WeightedScore(criteria, scores) == s
  {
    WeightedWhenSame(criteria, scores, s);
    Divided(Weighted(criteria, scores), s, TotalWeight(criteria));
  }

  predicate DistinctCriteria(criteria: seq<RubricCriterion>) {
    forall i, j :: 0 <= i < j < |criteria| ==> criteria[i].id != criteria[j].id
  }

  /** Of two lists of scores one gives one criterion so much more, and every other the same. */
  predicate RaisedAt(criteria: seq<RubricCriterion>, scores: seq<Score>, more: seq<Score>, k: nat, d: real) {
    && k < |criteria|
    && forall i :: 0 <= i < |criteria| ==>
         ScoreFor(more, criteria[i].id) == ScoreFor(scores, criteria[i].id) + (if i == k then d else 0.0)
  }

  /** A score that is raised is that of its criterion alone, if no two criteria share an id. */
  lemma {:induction false} ScoreIsOfOneCriterion(
    criteria: seq<RubricCriterion>, scores: seq<Score>, k: nat, i: nat, d: real)
    requires DistinctCriteria(criteria) && k < |criteria| && IsFirstScore(scores, criteria[k].id, i)
    ensures RaisedAt(criteria, scores, scores[i := Score(criteria[k].id, scores[i].score + d)], k, d)
  {
    var more := scores[i := Score(criteria[k].id, scores[i].score + d)];
    forall j | 0 <= j < |criteria|
      ensures ScoreFor(more, criteria[j].id) == ScoreFor(scores, criteria[j].id) + (if j == k then d else 0.0)
    {
      if j == k {
        assert IsFirstScore(more, criteria[k].id, i);
        FirstScoreCounts(more, criteria[k].id);
        FirstScoreCounts(scores, criteria[k].id);
      } else {
        assert criteria[j].id != criteria[k].id;
        OtherScoreUnchanged(scores, more, criteria[j].id, i);
      }
    }
  }

  lemma {:induction false} OtherScoreUnchanged(scores: seq<Score>, more: seq<Score>, id: string, i: nat)
    requires |scores| == |more| && i < |scores| && scores[i].criterionId == more[i].criterionId != id
    requires forall j :: 0 <= j < |scores| && j != i ==> more[j] == scores[j]
    ensures ScoreFor(more, id) == ScoreFor(scores, id)
  {
    if i > 0 && scores[0].criterionId != id {
      OtherScoreUnchanged(scores[1..], more[1..], id, i - 1);
    } else if i == 0 {
      assert more[1..] == scores[1..];
    }
  }

  // The sum is taken over what each criterion contributes.

  function Contributions(criteria: seq<RubricCriterion>, scores: seq<Score>): (cs: seq<real>)
    ensures |cs| == |criteria|
    ensures forall i :: 0 <= i < |cs| ==> cs[i] == ScoreFor(scores, criteria[i].id) * criteria[i].weight
  {
    seq(|criteria|, i requires 0 <= i < |criteria| => ScoreFor(scores, criteria[i].id) * criteria[i].weight)
  }

  /** A multiple of each weight. */
  function Multiples(criteria: seq<RubricCriterion>, c: real): (cs: seq<real>)
    ensures |cs| == |criteria| && forall i :: 0 <= i < |cs| ==> cs[i] == c * criteria[i].weight
  {
    seq(|criteria|, i requires 0 <= i < |criteria| => c * criteria[i].weight)
  }

  function Sum(cs: seq<real>): real {
    if cs == [] then 0.0 else Sum(cs[..|cs| - 1]) + cs[|cs| - 1]
  }

  lemma {:induction false} WeightedIsSum(criteria: seq<RubricCriterion>, scores: seq<Score>)
    ensures Weighted(criteria, scores) == Sum(Contributions(criteria, scores))
  {
    if criteria != [] {
      var n := |criteria| - 1;
      WeightedIsSum(criteria[..n], scores);
      var cs, front := Contributions(criteria, scores), Contributions(criteria[..n], scores);
      forall i | 0 <= i < n
        ensures front[i] == cs[i]
      {
        assert criteria[..n][i] == criteria[i];
      }
      assert cs[..n] == front;
    }
  }

  lemma {:induction false} MultiplesSum(criteria: seq<RubricCriterion>, c: real)
    ensures Sum(Multiples(criteria, c)) == c * TotalWeight(criteria)
  {
    if criteria != [] {
      var n := |criteria| - 1;
      MultiplesSum(criteria[..n], c);
      var cs, front := Multiples(criteria, c), Multiples(criteria[..n], c);
      forall i | 0 <= i < n
        ensures front[i] == cs[i]
      {
        assert criteria[..n][i] == criteria[i];
      }
      assert cs[..n] == front;
      Scales(c, TotalWeight(criteria[..n]), criteria[n].weight);
    }
  }

  lemma {:induction false} Scales(a: real, v: real, w: real)
    ensures a * (v + w) == a * v + a * w
  {
  }

  lemma {:induction false} SumRises(cs: seq<real>, more: seq<real>, k: nat, x: real)
    requires k < |cs| == |more| && more[k] == cs[k] + x && forall i :: 0 <= i < |cs| && i != k ==> more[i] == cs[i]
    ensures Sum(more) == Sum(cs) + x
  {
    if k == |cs| - 1 {
      assert more[..k] == cs[..k];
    } else {
      SumRises(cs[..|cs| - 1], more[..|cs| - 1], k, x);
    }
  }

  lemma {:induction false} SumsAreOrdered(cs: seq<real>, ds: seq<real>)
    requires |cs| == |ds| && forall i :: 0 <= i < |cs| ==> cs[i] <= ds[i]
    ensures Sum(cs) <= Sum(ds)
  {
    if cs != [] {
      SumsAreOrdered(cs[..|cs| - 1], ds[..|ds| - 1]);
    }
  }

  lemma {:induction false} ContributionsRise(
    criteria: seq<RubricCriterion>, scores: seq<Score>, more: seq<Score>, k: nat, d: real, i: nat)
    requires RaisedAt(criteria, scores, more, k, d) && i < |criteria|
    ensures Contributions(criteria, more)[i] ==
      Contributions(criteria, scores)[i] + (if i == k then d * criteria[k].weight else 0.0)
  {
    assert ScoreFor(more, criteria[i].id) == ScoreFor(scores, criteria[i].id) + (if i == k then d else 0.0);
    Distributes(ScoreFor(scores, criteria[i].id), if i == k then d else 0.0, criteria[i].weight);
  }

  lemma {:induction false} WeightedRises(
    criteria: seq<RubricCriterion>, scores: seq<Score>, more: seq<Score>, k: nat, d: real, raise: real)
    requires RaisedAt(criteria, scores, more, k, d) && raise == d * criteria[k].weight
    ensures Weighted(criteria, more) == Weighted(criteria, scores) + raise
  {
    WeightedIsSum(criteria, scores);
    WeightedIsSum(criteria, more);
    var cs, ds := Contributions(criteria, scores), Contributions(criteria, more);
    forall i | 0 <= i < |criteria|
      ensures ds[i] == cs[i] + (if i == k then raise else 0.0)
    {
      ContributionsRise(criteria, scores, more, k, d, i);
    }
    SumRises(cs, ds, k, raise);
  }

  lemma {:induction false} Distributes(a: real, b: real, w: real)
    ensures (a + b) * w == a * w + b * w
  {
  }

  lemma {:induction false} DividesSum(a: real, b: real, w: real)
    requires w != 0.0
    ensures (a + b) / w == a / w + b / w
  {
  }

  /** Raising one criterion's score raises the result by its share of the weight. */
  lemma {:induction false} RaisingRaisesByWeight(
    criteria: seq<RubricCriterion>, scores: seq<Score>, more: seq<Score>, k: nat, d: real)
    requires TotalWeight(criteria) > 0.0 && RaisedAt(criteria, scores, more, k, d)
    ensures WeightedScore(criteria, more) ==
      WeightedScore(criteria, scores) + d * criteria[k].weight / TotalWeight(criteria)
  {
    WeightedRises(criteria, scores, more, k, d, d * criteria[k].weight);
    DividesSum(Weighted(criteria, scores), d * criteria[k].weight, TotalWeight(criteria));
  }

  lemma {:induction false} WeightedBetween(criteria: seq<RubricCriterion>, scores: seq<Score>, least: real, greatest: real)
    requires forall i :: 0 <= i < |criteria| ==>
      criteria[i].weight >= 0.0 && least <= ScoreFor(scores, criteria[i].id) <= greatest
    ensures least * TotalWeight(criteria) <= Weighted(criteria, scores) <= greatest * TotalWeight(criteria)
  {
    var cs := Contributions(criteria, scores);
    forall i | 0 <= i < |criteria|
      ensures Multiples(criteria, least)[i] <= cs[i] <= Multiples(criteria, greatest)[i]
    {
      ScaledBetween(least, ScoreFor(scores, criteria[i].id), greatest, criteria[i].weight);
    }
    SumsAreOrdered(Multiples(criteria, least), cs);
    SumsAreOrdered(cs, Multiples(criteria, greatest));
    MultiplesSum(criteria, least);
    MultiplesSum(criteria, greatest);
    WeightedIsSum(criteria, scores);
  }

  lemma {:induction false} ScaledBetween(a: real, b: real, c: real, w: real)
    requires a <= b <= c && w >= 0.0
    ensures a * w <= b * w <= c * w
  {
  }

  lemma {:induction false} DividedBetween(a: real, b: real, c: real, w: real)
    requires w > 0.0 && a * w <= b <= c * w
    ensures a <= b / w <= c
  {
    assert b / w * w == b;
  }

  /** With weights that are not negative the result lies between the scores; without weight it is 0. */
  lemma {:induction false} ResultIsBetweenScores(
    criteria: seq<RubricCriterion>, scores: seq<Score>, least: real, greatest: real)
    requires forall i :: 0 <= i < |criteria| ==>
      criteria[i].weight >= 0.0 && least <= ScoreFor(scores, criteria[i].id) <= greatest
    ensures TotalWeight(criteria) > 0.0 ==> least <= WeightedScore(criteria, scores) <= greatest
    ensures TotalWeight(criteria) == 0.0 ==> WeightedScore(criteria, scores) == 0.0
  {
    WeightedBetween(criteria, scores, least, greatest);
    if TotalWeight(criteria) > 0.0 {
      DividedBetween(least, Weighted(criteria, scores), greatest, TotalWeight(criteria));
    }
  }

  // ------------------------------------------------------------------ evaluation

  /** The kill expression was evaluated, and came to that. */
  predicate ComesTo(verdicts: seq<Option<bool>>, k: nat, matched: bool) {
    k < |verdicts| && verdicts[k] == Some(matched)
  }

  /** The first kill expression that matches, all before it not matching. */
  predicate IsFirstMatch(kills: seq<KillCriterion>, verdicts: seq<Option<bool>>, k: nat) {
    && k < |kills| && kills[k].hasExpression && ComesTo(verdicts, k, true)
    && forall i: nat :: i < k && kills[i].hasExpression ==> ComesTo(verdicts, i, false)
  }

  predicate NoMatch(kills: seq<KillCriterion>, verdicts: seq<Option<bool>>) {
    forall i: nat :: i < |kills| && kills[i].hasExpression ==> ComesTo(verdicts, i, false)
  }

  /** The first report of a criterion that has no expression. */
  predicate IsFirstReport(kills: seq<KillCriterion>, reported: seq<string>, k: nat) {
    && k < |reported| && KillCriterion(reported[k], false) in kills
    && forall i: nat :: i < k ==> KillCriterion(reported[i], false) !in kills
  }

  predicate NoReport(kills: seq<KillCriterion>, reported: seq<string>) {
    forall i: nat :: i < |reported| ==> KillCriterion(reported[i], false) !in kills
  }

  lemma {:induction false} ExpressionsDecideInOrder(kills: seq<KillCriterion>, verdicts: seq<Option<bool>>, k: nat, m: nat)
    requires k <= m && IsFirstMatch(kills, verdicts, m)
    ensures ExpressionVerdict(kills, verdicts, k) == Kill(Criterion(kills[m].id))
    decreases m - k
  {
    if k < m {
      ExpressionsDecideInOrder(kills, verdicts, k + 1, m);
    }
  }

  lemma {:induction false} ReportsDecideInOrder(kills: seq<KillCriterion>, reported: seq<string>, m: nat)
    requires IsFirstReport(kills, reported, m)
    ensures ReportedVerdict(kills, reported) == Kill(Criterion(reported[m]))
  {
    if m > 0 {
      ReportsDecideInOrder(kills, reported[1..], m - 1);
    }
  }

  /**
   * Why a candidate is killed: by the first kill expression that matches, else by the first report of
   * a criterion that is the evaluator's, else for scoring below the threshold.
   */
  lemma {:induction false} KilledFor(rubric: Rubric, c: Candidate, e: Evaluation)
    requires e.scores.Some? && KnownScores(rubric, e.scores.value)
    ensures var r := Evaluate(rubric, c, e);
      var low := WeightedScore(rubric.criteria, e.scores.value) < rubric.threshold;
      && (forall k: nat :: IsFirstMatch(rubric.killCriteria, e.verdicts, k) ==>
            r.Some? && r.value.status == Killed && r.value.killedBy == Some(Criterion(rubric.killCriteria[k].id)))
      && (NoMatch(rubric.killCriteria, e.verdicts) ==>
            && (forall k: nat :: IsFirstReport(rubric.killCriteria, e.reported, k) ==>
                  r.Some? && r.value.status == Killed && r.value.killedBy == Some(Criterion(e.reported[k])))
            && (NoReport(rubric.killCriteria, e.reported) && low ==>
                  r.Some? && r.value.status == Killed && r.value.killedBy == Some(BelowThreshold)))
  {
    NoExpressionKill(rubric.killCriteria, e.verdicts, 0);
    NoReportedKill(rubric.killCriteria, e.reported);
    forall k: nat | IsFirstMatch(rubric.killCriteria, e.verdicts, k)
      ensures ExpressionVerdict(rubric.killCriteria, e.verdicts, 0) == Kill(Criterion(rubric.killCriteria[k].id))
    {
      ExpressionsDecideInOrder(rubric.killCriteria, e.verdicts, 0, k);
    }
    forall k: nat | IsFirstReport(rubric.killCriteria, e.reported, k)
      ensures ReportedVerdict(rubric.killCriteria, e.reported) == Kill(Criterion(e.reported[k]))
    {
      ReportsDecideInOrder(rubric.killCriteria, e.reported, k);
    }
  }

  /** A kill expression that throws, from some point on, all before it not matching. */
  predicate ThrowsAt(kills: seq<KillCriterion>, verdicts: seq<Option<bool>>, k: nat, m: nat) {
    && k <= m < |kills| && kills[m].hasExpression && (m < |verdicts| ==> verdicts[m].None?)
    && forall i :: k <= i < m && kills[i].hasExpression ==> ComesTo(verdicts, i, false)
  }

  lemma {:induction false} BadExpressionIff(kills: seq<KillCriterion>, verdicts: seq<Option<bool>>, k: nat)
    requires k <= |kills|
    ensures ExpressionVerdict(kills, verdicts, k) == BadExpression <==> exists m: nat :: ThrowsAt(kills, verdicts, k, m)
    decreases |kills| - k
  {
    if k < |kills| {
      BadExpressionIff(kills, verdicts, k + 1);
      if kills[k].hasExpression && (k < |verdicts| ==> verdicts[k].None?) {
        assert ThrowsAt(kills, verdicts, k, k);
      } else if !kills[k].hasExpression || ComesTo(verdicts, k, false) {
        var next := k + 1;
        if m: nat :| ThrowsAt(kills, verdicts, next, m) {
          assert ThrowsAt(kills, verdicts, k, m);
        }
        if m: nat :| ThrowsAt(kills, verdicts, k, m) {
          assert ThrowsAt(kills, verdicts, k + 1, m);
        }
      } else {
        assert forall m: nat :: ThrowsAt(kills, verdicts, k, m) ==> m == k;
      }
    }
  }

  /** A score for a criterion that the rubric does not have. */
  predicate ScoresUnknown(rubric: Rubric, scores: seq<Score>) {
    exists s :: s in scores && forall r :: r in rubric.criteria ==> r.id != s.criterionId
  }

  /**
   * An evaluation is rejected exactly if it has no scores, scores a criterion that there is not, or a
   * kill expression throws before one matches.
   */
  lemma {:induction false} RejectedIff(rubric: Rubric, c: Candidate, e: Evaluation)
    ensures Evaluate(rubric, c, e).None? <==>
      || e.scores.None? || ScoresUnknown(rubric, e.scores.value)
      || exists m: nat :: ThrowsAt(rubric.killCriteria, e.verdicts, 0, m)
  {
    BadExpressionIff(rubric.killCriteria, e.verdicts, 0);
    if e.scores.Some? {
      UnknownIff(rubric, e.scores.value);
    }
  }

  lemma {:induction false} UnknownIff(rubric: Rubric, scores: seq<Score>)
    ensures KnownScores(rubric, scores) <==> !ScoresUnknown(rubric, scores)
  {
    if !KnownScores(rubric, scores) {
      var i :| 0 <= i < |scores|
        && !exists k :: 0 <= k < |rubric.criteria| && rubric.criteria[k].id == scores[i].criterionId;
      assert scores[i] in scores;
    }
  }

  /** Whatever becomes of it, an evaluated candidate carries its scores, their weighted score, and all evidence. */
  lemma {:induction false} EvaluationIsRecorded(rubric: Rubric, c: Candidate, e: Evaluation)
    requires Evaluate(rubric, c, e).Some?
    ensures var d := Evaluate(rubric, c, e).value;
      && e.scores == Some(d.scores) && d.weightedScore == Some(WeightedScore(rubric.criteria, d.scores))
      && d.evidence == c.evidence + e.evidence && d.title == c.title
  {
  }

  // --------------------------------------------------------------------- ranking

  /** The ranking goes down in score, and among equal scores up in id. */
  lemma {:induction false} RankingOrder(cs: seq<Candidate>, i: nat, j: nat)
    requires i < j < |cs| && forall c :: c in cs ==> c.weightedScore.Some?
    ensures var a, b := Ranked(cs)[i], Ranked(cs)[j];
      && a in cs && b in cs && a.weightedScore.value >= b.weightedScore.value
      && (a.weightedScore == b.weightedScore ==> AtMost(a.id, b.id))
  {
    RankedIsRanked(cs);
    assert Ranked(cs)[i] in Ranked(cs) && Ranked(cs)[j] in Ranked(cs);
  }

  /** Who has no score ranks like one who has 0. */
  lemma {:induction false} UnscoredRankAsZero(a: Candidate, b: Candidate)
    requires a.weightedScore.None?
    ensures RanksBefore(a, b) <==> RanksBefore(a.(weightedScore := Some(0.0)), b)
    ensures RanksBefore(b, a) <==> RanksBefore(b, a.(weightedScore := Some(0.0)))
    ensures b.weightedScore.Some? && b.weightedScore.value > 0.0 ==> !RanksBefore(a, b)
    ensures b.weightedScore.Some? && b.weightedScore.value < 0.0 ==> RanksBefore(a, b)
  {
  }

  /** As many survivors are kept as allowed and there; with a negative number, all but so many. */
  lemma {:induction false} KeptAreSoMany(cfg: Config, r: Record)
    ensures cfg.survivorCount >= |Survivors(r)| ==> |Kept(cfg, r)| == |Survivors(r)|
    ensures 0 <= cfg.survivorCount <= |Survivors(r)| ==> |Kept(cfg, r)| == cfg.survivorCount
    ensures cfg.survivorCount < 0 && |Survivors(r)| >= -cfg.survivorCount ==>
      |Kept(cfg, r)| == |Survivors(r)| + cfg.survivorCount
    ensures Kept(cfg, r) + Dropped(cfg, r) == Ranked(Survivors(r))
  {
  }

  /** Who is not kept is killed for it, and everybody else is left as he was. */
  lemma {:induction false} DroppedAreKilled(cfg: Config, r: Record, i: nat)
    requires DistinctIds(r.candidates) && i < |r.candidates|
    ensures var c, d := r.candidates[i], DropRest(cfg, r).candidates[i];
      if c in Dropped(cfg, r) then d.status == Killed && d.killedBy == Some(NotSelected) && d.id == c.id else d == c
  {
  }

  // ---------------------------------------------------------------------- phases

  predicate SomeIs(r: Record, status: CandidateStatus) {
    exists i :: 0 <= i < |r.candidates| && Is(r.candidates[i], r.iteration, status)
  }

  lemma {:induction false} HavingIffSome(r: Record, status: CandidateStatus)
    ensures Having(r.candidates, r.iteration, status) != [] <==> SomeIs(r, status)
    ensures SomeIs(r, status) ==> SomeCurrent(r)
  {
    var having := Having(r.candidates, r.iteration, status);
    if SomeIs(r, status) {
      var i :| 0 <= i < |r.candidates| && Is(r.candidates[i], r.iteration, status);
      assert r.candidates[i] in having;
    } else {
      NoneLeft(r.candidates, r.iteration, status);
    }
  }

  /** The step a running record takes, while it has time, is the phase that its iteration has come to. */
  lemma {:induction false} PhasesInOrder(cfg: Config, r: Record, a: Answers)
    requires r.status == Running && !(cfg.timeLimited && a.expired)
    ensures var result := Step(cfg, Some(r), None, a);
      && (!SomeCurrent(r) ==> result == Generate(cfg, r, a))
      && (SomeIs(r, Generated) && cfg.prototype ==> result == PrototypePhase(r, a))
      && (SomeIs(r, Generated) && !cfg.prototype ==> result == EvaluatePhase(cfg, r, Generated, a))
      && (!SomeIs(r, Generated) && SomeIs(r, Prototyped) ==> result == EvaluatePhase(cfg, r, Prototyped, a))
      && (SomeCurrent(r) && !SomeIs(r, Generated) && !SomeIs(r, Prototyped) ==> result == Select(cfg, r))
  {
    HavingIffSome(r, Generated);
    HavingIffSome(r, Prototyped);
  }

  lemma {:induction false} PhasesMean(cfg: Config, r: Record, status: CandidateStatus, a: Answers)
    ensures Generates(cfg, r, a, Generate(cfg, r, a))
    ensures Prototypes(r, a, PrototypePhase(r, a))
    ensures Evaluates(cfg, r, status, a, EvaluatePhase(cfg, r, status, a))
  {
    GenerationMeans(cfg, r, a);
    EvaluationMeans(cfg, r, status, a);
  }

  lemma {:induction false} GenerationMeans(cfg: Config, r: Record, a: Answers)
    ensures Generates(cfg, r, a, Generate(cfg, r, a))
  {
  }

  lemma {:induction false} EvaluationMeans(cfg: Config, r: Record, status: CandidateStatus, a: Answers)
    ensures Evaluates(cfg, r, status, a, EvaluatePhase(cfg, r, status, a))
  {
    var pending := Having(r.candidates, r.iteration, status);
    assert forall c :: c in pending <==> c in r.candidates && Is(c, r.iteration, status);
    if AllEvaluate(cfg, pending, a) {
      forall c | c in r.candidates && Is(c, r.iteration, status)
        ensures c.id in a.evaluations && Evaluate(cfg.rubric, c, a.evaluations[c.id]).Some?
      {
        assert c in pending;
        var k :| 0 <= k < |pending| && pending[k] == c;
      }
    } else {
      var k :| 0 <= k < |pending| && EvaluateOne(cfg, pending[k], a).None?;
      assert pending[k] in pending;
    }
  }

  /** Selecting with someone kept awaits a judgment; with nobody the next iteration starts, or it is over. */
  lemma {:induction false} SelectionMeans(cfg: Config, r: Record)
    ensures var result := Select(cfg, r);
      && (Kept(cfg, r) != [] ==> result.Awaits? && result.record.status == AwaitingJudgment && result.record.iteration == r.iteration)
      && (Kept(cfg, r) == [] && r.iteration < cfg.maxIterations ==>
            result.Continues? && result.record.iteration == r.iteration + 1 && result.record.status == r.status)
      && (Kept(cfg, r) == [] && r.iteration >= cfg.maxIterations ==>
            result.Concludes? && result.record.conclusion == Some(Exhausted))
      && (Saved(result).Some? ==> Saved(result).value.candidates == DropRest(cfg, r).candidates)
  {
  }

  /** The first so many entries of the generator become candidates of the iteration; a malformed one spoils all. */
  ghost predicate Generates(cfg: Config, r: Record, a: Answers, result: StepResult) {
    match a.generated
    case None => result == AgentThrows
    case Some(all) =>
      cfg.candidateCount >= 0 ==>
        var n := if cfg.candidateCount < |all| then cfg.candidateCount else |all|;
        if n == 0 || exists i :: 0 <= i < n && all[i].title.None? then result == AgentThrows
        else
          && result.Continues? && |result.record.candidates| == |r.candidates| + n
          && r.candidates <= result.record.candidates && result.record.lessons == r.lessons
          && forall i :: 0 <= i < n ==>
               var c := result.record.candidates[|r.candidates| + i];
               c.id == all[i].id && Some(c.title) == all[i].title && Is(c, r.iteration, Generated) && c.killedBy == None
  }

  /** Every generated candidate of the iteration is prototyped with its evidence, or killed if that failed. */
  ghost predicate Prototypes(r: Record, a: Answers, result: StepResult) {
    && result.Continues? && |result.record.candidates| == |r.candidates|
    && forall i :: 0 <= i < |r.candidates| ==>
         var c, d := r.candidates[i], result.record.candidates[i];
         if !Is(c, r.iteration, Generated) then d == c
         else if c.id in a.prototypes then
           d.status == Prototyped && d.evidence == c.evidence + a.prototypes[c.id] && d.id == c.id
         else d.status == Killed && d.killedBy == Some(PrototypeFailure) && d.id == c.id
  }

  /** Every candidate of the iteration in that state is evaluated, all of them or none. */
  ghost predicate Evaluates(cfg: Config, r: Record, status: CandidateStatus, a: Answers, result: StepResult) {
    if forall c :: c in r.candidates && Is(c, r.iteration, status) ==>
         c.id in a.evaluations && Evaluate(cfg.rubric, c, a.evaluations[c.id]).Some?
    then
      && result.Continues? && |result.record.candidates| == |r.candidates|
      && forall i :: 0 <= i < |r.candidates| ==>
           var c := r.candidates[i];
           Some(result.record.candidates[i]) ==
             if Is(c, r.iteration, status) then Evaluate(cfg.rubric, c, a.evaluations[c.id]) else Some(c)
    else result == AgentThrows
  }

  /** Each failed prototype leaves its lesson, and nothing else does. */
  lemma {:induction false} FailedPrototypesTeach(pending: seq<Candidate>, iteration: nat, a: Answers)
    ensures forall l :: l in PrototypeLessons(pending, iteration, a) <==>
      exists c :: c in pending && c.id !in a.prototypes && l == PrototypeFailed(iteration, c.title)
  {
    if pending != [] {
      var front, last := pending[..|pending| - 1], pending[|pending| - 1];
      FailedPrototypesTeach(front, iteration, a);
      assert forall c :: c in pending <==> c in front || c == last;
    }
  }

  /** Each candidate that evaluation kills leaves its lesson with the cause, and nothing else does. */
  lemma {:induction false} KillsTeach(cfg: Config, pending: seq<Candidate>, iteration: nat, a: Answers)
    requires AllEvaluate(cfg, pending, a)
    ensures forall l :: l in EvaluateLessons(cfg, pending, iteration, a) <==>
      exists c :: c in pending && c.id in a.evaluations && TaughtBy(cfg, c, a.evaluations[c.id], iteration, l)
  {
    if pending != [] {
      var front, last := pending[..|pending| - 1], pending[|pending| - 1];
      assert forall i :: 0 <= i < |front| ==> EvaluateOne(cfg, pending[i], a).Some?;
      KillsTeach(cfg, front, iteration, a);
      assert forall c :: c in pending <==> c in front || c == last;
      assert EvaluateOne(cfg, pending[|pending| - 1], a).Some?;
    }
  }

  predicate TaughtBy(cfg: Config, c: Candidate, e: Evaluation, iteration: nat, l: Lesson) {
    var d := Evaluate(cfg.rubric, c, e);
    d.Some? && d.value.status == Killed && l == KilledBy(iteration, c.title, d.value.killedBy)
  }

  // -------------------------------------------------------------------- judgments

  /** What each judgment makes of a record that awaits one, but for asking more evidence. */
  ghost predicate JudgedAs(cfg: Config, r: Record, j: Judgment, result: StepResult) {
    match j.decision
    case Advance(selected) =>
      if Survivors(r) == [] || (selected.Some? && forall c :: c in Survivors(r) ==> c.id != selected.value)
      then result == InvalidInput
      else
        && result.Concludes? && result.record.conclusion == Some(AdvancedOne)
        && (exists k: nat :: IsWinner(result.record, k) && (selected.Some? ==> result.record.candidates[k].id == selected.value))
    case KillAll =>
      && result.Concludes? && result.record.conclusion == Some(KilledAll)
      && |result.record.candidates| == |r.candidates|
      && forall i :: 0 <= i < |r.candidates| ==>
           var c, d := r.candidates[i], result.record.candidates[i];
           if Is(c, r.iteration, Evaluated) then d.status == Killed && d.killedBy == Some(HumanJudgment) else d == c
    case Iterate =>
      if r.iteration < cfg.maxIterations then
        && result.Continues? && result.record.iteration == r.iteration + 1
        && result.record.candidates == r.candidates && result.record.status == Running
      else
        result.Concludes? && result.record.conclusion == Some(Exhausted) && result.record.candidates == r.candidates
    case NeedMoreEvidence => result.Awaits? || result == AgentThrows
  }

  lemma {:induction false} JudgmentsDecide(cfg: Config, r: Record, j: Judgment, a: Answers)
    requires Inv(cfg, r) && r.status == AwaitingJudgment
    ensures JudgedAs(cfg, r, j, Step(cfg, Some(r), Some(j), a))
  {
    match j.decision
    case Advance(selected) =>
      var ranked := Ranked(Survivors(r));
      assert forall c :: c in ranked <==> c in Survivors(r);
      if Chosen(r, selected).Some? {
        var chosen := Chosen(r, selected).value;
        var k := AdvanceWins(r, chosen, j.feedback);
        assert chosen in Survivors(r);
        assert AdvanceOne(r, chosen, j.feedback).candidates[k].id == chosen.id;
      } else {
        assert selected.None? ==> ranked == [];
      }
    case KillAll =>
    case Iterate =>
    case NeedMoreEvidence =>
  }

  /** Evidence for the iteration has been gathered before. */
  predicate Passed(r: Record) {
    exists i :: 0 <= i < |r.lessons| && r.lessons[i].EvidencePass? && r.lessons[i].iteration == r.iteration
  }

  /** The evaluator has answered for every survivor, and its new scores, if any, are for criteria there are. */
  predicate AllGiven(cfg: Config, r: Record, a: Answers) {
    forall i :: 0 <= i < |r.candidates| && Is(r.candidates[i], r.iteration, Evaluated) ==>
      IsGiven(cfg, r.candidates[i], a)
  }

  predicate IsGiven(cfg: Config, c: Candidate, a: Answers) {
    && c.id in a.extra && !a.extra[c.id].scores.CorruptScores?
    && (a.extra[c.id].scores.NewScores? ==> !ScoresUnknown(cfg.rubric, a.extra[c.id].scores.scores))
  }

  lemma {:induction false} GivenIff(cfg: Config, c: Candidate, a: Answers)
    ensures AddEvidence(cfg, c, a).Some? <==> IsGiven(cfg, c, a)
  {
    if c.id in a.extra && a.extra[c.id].scores.NewScores? {
      UnknownIff(cfg.rubric, a.extra[c.id].scores.scores);
    }
  }

  lemma {:induction false} AllGivenIff(cfg: Config, r: Record, a: Answers)
    ensures AllGiveEvidence(cfg, Ranked(Survivors(r)), a) <==> AllGiven(cfg, r, a)
  {
    var ranked := Ranked(Survivors(r));
    assert forall c :: c in ranked <==> c in r.candidates && Is(c, r.iteration, Evaluated);
    if AllGiveEvidence(cfg, ranked, a) {
      forall i | 0 <= i < |r.candidates| && Is(r.candidates[i], r.iteration, Evaluated)
        ensures IsGiven(cfg, r.candidates[i], a)
      {
        assert r.candidates[i] in ranked;
        var k :| 0 <= k < |ranked| && ranked[k] == r.candidates[i];
        GivenIff(cfg, r.candidates[i], a);
      }
    } else {
      var k :| 0 <= k < |ranked| && AddEvidence(cfg, ranked[k], a).None?;
      assert ranked[k] in ranked;
      var i :| 0 <= i < |r.candidates| && r.candidates[i] == ranked[k];
      GivenIff(cfg, r.candidates[i], a);
    }
  }

  /** The first request for evidence in an iteration re-scores every survivor, or throws; a later one changes nobody. */
  lemma {:induction false} EvidenceIsGatheredOnce(cfg: Config, r: Record, feedback: string, a: Answers)
    requires Inv(cfg, r) && r.status == AwaitingJudgment
    ensures var result := Step(cfg, Some(r), Some(Judgment(NeedMoreEvidence, feedback)), a);
      if Passed(r) then
        && result.Awaits? && result.record.candidates == r.candidates
        && result.record.lessons == r.lessons +
             (if EvidenceDeclined(r.iteration) in r.lessons then [] else [EvidenceDeclined(r.iteration)])
      else if !AllGiven(cfg, r, a) then result == AgentThrows
      else
        && result.Awaits? && EvidencePass(r.iteration, feedback) in result.record.lessons
        && |result.record.candidates| == |r.candidates|
        && forall i :: 0 <= i < |r.candidates| ==>
             EvidenceAdded(cfg, r, r.candidates[i], result.record.candidates[i], a)
  {
    PassDoneIffPassed(r);
    AllGivenIff(cfg, r, a);
  }

  /** A survivor has its new scores, if there are any, their weighted score, and more evidence; nobody else changes. */
  ghost predicate EvidenceAdded(cfg: Config, r: Record, c: Candidate, d: Candidate, a: Answers) {
    if !Is(c, r.iteration, Evaluated) then d == c
    else
      && c.id in a.extra
      && d.scores == (if a.extra[c.id].scores.NewScores? then a.extra[c.id].scores.scores else c.scores)
      && d.weightedScore == Some(WeightedScore(cfg.rubric.criteria, d.scores))
      && d.evidence == c.evidence + a.extra[c.id].evidence && d.status == Evaluated && d.id == c.id
  }

  /** An exhausted clock ends a running experiment, whatever phase it is in; ended or waiting ones do not move. */
  lemma {:induction false} WhatEndsAndWhatStays(cfg: Config, r: Record, a: Answers)
    ensures r.status == Running && cfg.timeLimited && a.expired ==>
      var result := Step(cfg, Some(r), None, a);
      result.Concludes? && result.record.conclusion == Some(Exhausted) && result.record.candidates == r.candidates
    ensures r.status == Concluded ==> forall j :: Step(cfg, Some(r), j, a) == Concludes(r)
    ensures r.status == AwaitingJudgment ==> Step(cfg, Some(r), None, a) == Awaits(r)
  {
  }
}
