/** Experiments: candidates, rubrics, evaluation, and the ranking of survivors. */
module ExperimentModel {
  import opened Wrappers
  import opened StringOrder

  datatype CandidateStatus = Generated | Prototyped | Evaluated | Killed | Advanced

  datatype KillCause =
    | PrototypeFailure
    | Criterion(id: string)
    | BelowThreshold
    | NotSelected
    | NotAdvanced
    | HumanJudgment

  datatype Candidate = Candidate(
    id: string,
    iteration: nat,
    title: string,
    status: CandidateStatus,
    scores: seq<Score>,
    weightedScore: Option<real>,
    evidence: seq<string>,
    killedBy: Option<KillCause>)

  datatype Score = Score(criterionId: string, score: real)

  datatype RubricCriterion = RubricCriterion(id: string, weight: real)

  /** A kill criterion is decided by an expression, or else reported by the evaluator. */
  datatype KillCriterion = KillCriterion(id: string, hasExpression: bool)

  datatype Rubric = Rubric(criteria: seq<RubricCriterion>, killCriteria: seq<KillCriterion>, threshold: real)

  // -------------------------------------------------------------- evaluation

  /**
   * What an evaluator returns for a candidate: scores, unless missing or malformed; new evidence,
   * risks among it; the criteria it reports as violated; and what each kill expression comes to
   * over it, throwing where there is no verdict.
   */
  datatype Evaluation = Evaluation(
    scores: Option<seq<Score>>, evidence: seq<string>, reported: seq<string>, verdicts: seq<Option<bool>>)

  function TotalWeight(criteria: seq<RubricCriterion>): real {
    if criteria == [] then 0.0 else TotalWeight(criteria[..|criteria| - 1]) + criteria[|criteria| - 1].weight
  }

  function ScoreFor(scores: seq<Score>, id: string): real {
    if scores == [] then 0.0
    else if scores[0].criterionId == id then scores[0].score
    else ScoreFor(scores[1..], id)
  }

  function Weighted(criteria: seq<RubricCriterion>, scores: seq<Score>): real {
    if criteria == [] then 0.0
    else
      var last := criteria[|criteria| - 1];
      Weighted(criteria[..|criteria| - 1], scores) + ScoreFor(scores, last.id) * last.weight
  }

  function WeightedScore(criteria: seq<RubricCriterion>, scores: seq<Score>): real {
    if TotalWeight(criteria) == 0.0 then 0.0 else Weighted(criteria, scores) / TotalWeight(criteria)
  }

  predicate KnownScores(rubric: Rubric, scores: seq<Score>) {
    forall i :: 0 <= i < |scores| ==> exists k :: 0 <= k < |rubric.criteria| && rubric.criteria[k].id == scores[i].criterionId
  }

  datatype Verdict = NoKill | Kill(cause: KillCause) | BadExpression

  function VerdictAt(verdicts: seq<Option<bool>>, k: nat): Option<bool> {
    if k < |verdicts| then verdicts[k] else None
  }

  /** The kill expressions in order, up to the first that matches or throws. */
  function ExpressionVerdict(kills: seq<KillCriterion>, verdicts: seq<Option<bool>>, k: nat): Verdict
    requires k <= |kills|
    decreases |kills| - k
  {
    if k == |kills| then NoKill
    else if !kills[k].hasExpression then ExpressionVerdict(kills, verdicts, k + 1)
    else
      match VerdictAt(verdicts, k)
      case None => BadExpression
      case Some(matched) =>
        if matched then Kill(Criterion(kills[k].id)) else ExpressionVerdict(kills, verdicts, k + 1)
  }

  predicate Reportable(kills: seq<KillCriterion>, id: string) {
    KillCriterion(id, false) in kills
  }

  /** The first reported criterion that is the evaluator's to report. */
  function ReportedVerdict(kills: seq<KillCriterion>, reported: seq<string>): (v: Verdict)
    ensures v != BadExpression
  {
    if reported == [] then NoKill
    else if Reportable(kills, reported[0]) then Kill(Criterion(reported[0]))
    else ReportedVerdict(kills, reported[1..])
  }

  function Slain(c: Candidate, cause: KillCause): Candidate {
    c.(status := Killed, killedBy := Some(cause))
  }

  /** The candidate as evaluated, or nothing when the answer is corrupt or an expression throws. */
  function Evaluate(rubric: Rubric, c: Candidate, e: Evaluation): Option<Candidate> {
    if e.scores.None? || !KnownScores(rubric, e.scores.value) then None
    else
      var weighted := WeightedScore(rubric.criteria, e.scores.value);
      var evaluated := c.(
        status := Evaluated,
        scores := e.scores.value,
        weightedScore := Some(weighted),
        evidence := c.evidence + e.evidence);
      match ExpressionVerdict(rubric.killCriteria, e.verdicts, 0)
      case BadExpression => None
      case Kill(cause) => Some(Slain(evaluated, cause))
      case NoKill =>
        match ReportedVerdict(rubric.killCriteria, e.reported)
        case Kill(cause) => Some(Slain(evaluated, cause))
        case _ => if weighted < rubric.threshold then Some(Slain(evaluated, BelowThreshold)) else Some(evaluated)
  }

  /** No kill criterion speaks against the candidate, and it scores high enough. */
  ghost predicate Survives(rubric: Rubric, e: Evaluation) {
    && e.scores.Some? && KnownScores(rubric, e.scores.value)
    && (forall k :: 0 <= k < |rubric.killCriteria| && rubric.killCriteria[k].hasExpression ==>
          VerdictAt(e.verdicts, k) == Some(false))
    && (forall i :: 0 <= i < |e.reported| ==> !Reportable(rubric.killCriteria, e.reported[i]))
    && WeightedScore(rubric.criteria, e.scores.value) >= rubric.threshold
  }

  lemma {:induction false} NoExpressionKill(kills: seq<KillCriterion>, verdicts: seq<Option<bool>>, k: nat)
    requires k <= |kills|
    ensures ExpressionVerdict(kills, verdicts, k) == NoKill <==>
      forall i :: k <= i < |kills| && kills[i].hasExpression ==> VerdictAt(verdicts, i) == Some(false)
    decreases |kills| - k
  {
    if k < |kills| {
      NoExpressionKill(kills, verdicts, k + 1);
    }
  }

  lemma {:induction false} NoReportedKill(kills: seq<KillCriterion>, reported: seq<string>)
    ensures ReportedVerdict(kills, reported) == NoKill <==>
      forall i :: 0 <= i < |reported| ==> !Reportable(kills, reported[i])
  {
    if reported != [] {
      NoReportedKill(kills, reported[1..]);
      assert forall i :: 1 <= i < |reported| ==> reported[i] == reported[1..][i - 1];
      if Reportable(kills, reported[0]) {
        assert ReportedVerdict(kills, reported) != NoKill;
      }
    }
  }

  /** Evaluation keeps a candidate alive exactly if no criterion kills it and it reaches the threshold. */
  lemma {:induction false} EvaluatedIffSurvives(rubric: Rubric, c: Candidate, e: Evaluation)
    ensures var r := Evaluate(rubric, c, e);
      && (r.Some? && r.value.status == Evaluated <==> Survives(rubric, e))
      && (r.Some? ==> r.value.status in {Evaluated, Killed} && (r.value.status == Killed <==> !Survives(rubric, e)))
      && (r.Some? ==> r.value.id == c.id && r.value.iteration == c.iteration && c.evidence <= r.value.evidence)
  {
    NoExpressionKill(rubric.killCriteria, e.verdicts, 0);
    NoReportedKill(rubric.killCriteria, e.reported);
  }

  // ----------------------------------------------------------------- ranking

  function ScoreOf(c: Candidate): real {
    if c.weightedScore.Some? then c.weightedScore.value else 0.0
  }

  /** Higher scores first, and the smaller id first of two with the same score. */
  predicate RanksBefore(a: Candidate, b: Candidate) {
    ScoreOf(a) > ScoreOf(b) || (ScoreOf(a) == ScoreOf(b) && AtMost(a.id, b.id))
  }

  function Insert(c: Candidate, ranked: seq<Candidate>): (r: seq<Candidate>)
    ensures |r| == |ranked| + 1 && forall x :: x in r <==> x == c || x in ranked
  {
    if ranked == [] || RanksBefore(c, ranked[0]) then [c] + ranked
    else [ranked[0]] + Insert(c, ranked[1..])
  }

  function Ranked(cs: seq<Candidate>): (r: seq<Candidate>)
    ensures |r| == |cs| && forall x :: x in r <==> x in cs
  {
    if cs == [] then [] else Insert(cs[0], Ranked(cs[1..]))
  }

  predicate IsRanked(cs: seq<Candidate>) {
    forall i, j :: 0 <= i < j < |cs| ==> RanksBefore(cs[i], cs[j])
  }

  lemma {:induction false} RankedAhead(a: Candidate, b: Candidate, c: Candidate)
    ensures RanksBefore(a, b) || RanksBefore(b, a)
    ensures RanksBefore(a, b) && RanksBefore(b, c) ==> RanksBefore(a, c)
  {
    AtMostIsTotal(a.id, b.id);
    if AtMost(a.id, b.id) && AtMost(b.id, c.id) {
      AtMostIsTransitive(a.id, b.id, c.id);
    }
  }

  lemma {:induction false} InsertRanks(c: Candidate, ranked: seq<Candidate>)
    requires IsRanked(ranked)
    ensures IsRanked(Insert(c, ranked)) && multiset(Insert(c, ranked)) == multiset(ranked) + multiset{c}
  {
    if ranked == [] {
    } else if RanksBefore(c, ranked[0]) {
      forall j | 0 <= j < |ranked|
        ensures RanksBefore(c, ranked[j])
      {
        RankedAhead(c, ranked[0], ranked[j]);
      }
    } else {
      InsertRanks(c, ranked[1..]);
      var rest := Insert(c, ranked[1..]);
      RankedAhead(c, ranked[0], c);
      forall j | 0 <= j < |rest|
        ensures RanksBefore(ranked[0], rest[j])
      {
        assert rest[j] in rest;
        if rest[j] != c {
          var k :| 0 <= k < |ranked[1..]| && ranked[1..][k] == rest[j];
          assert ranked[k + 1] == rest[j];
        }
      }
      assert ranked == [ranked[0]] + ranked[1..];
    }
  }

  /** The ranking is a permutation in rank order. */
  lemma {:induction false} RankedIsRanked(cs: seq<Candidate>)
    ensures IsRanked(Ranked(cs)) && multiset(Ranked(cs)) == multiset(cs)
  {
    if cs != [] {
      RankedIsRanked(cs[1..]);
      InsertRanks(cs[0], Ranked(cs[1..]));
      assert cs == [cs[0]] + cs[1..];
    }
  }
}
