/** Judgments, whole steps, and every record an experiment can come to. */
module ExperimentRuns {
  import opened Wrappers
  import opened ExperimentModel
  import opened Experiments
  import opened ExperimentInvariant

  // ---------------------------------------------------------------- judgments

  lemma {:induction false} SurvivorAt(r: Record, c: Candidate) returns (k: nat)
    requires c in Survivors(r)
    ensures k < |r.candidates| && r.candidates[k] == c && Is(c, r.iteration, Evaluated)
  {
    k :| 0 <= k < |r.candidates| && r.candidates[k] == c;
  }

  lemma {:induction false} AdvanceAt(r: Record, k: nat, feedback: string, i: nat)
    requires CandidatesOk(r) && r.status == AwaitingJudgment && r.conclusion.None?
    requires k < |r.candidates| && Is(r.candidates[k], r.iteration, Evaluated) && i < |r.candidates|
    ensures var d := AdvanceOne(r, r.candidates[k], feedback).candidates[i];
      && Evolves(r.candidates[i], d)
      && (i == k ==> Is(d, r.iteration, Advanced))
      && (i != k ==> d.status != Advanced && (d.iteration == r.iteration ==> d.status == Killed))
  {
    assert CandidateOk(r, r.candidates[i]);
    assert i != k ==> r.candidates[i].id != r.candidates[k].id;
  }

  /** Advancing without a selection chooses the survivor that ranks before all others, selecting one by id that one. */
  lemma {:induction false} BestOrSelectedIsChosen(r: Record, selected: Option<string>)
    requires DistinctIds(r.candidates)
    ensures selected.None? ==>
      match Chosen(r, None)
      case None => Survivors(r) == []
      case Some(best) => forall c :: c in Survivors(r) && c != best ==> RanksBefore(best, c)
    ensures selected.Some? ==>
      forall c :: c in Survivors(r) && c.id == selected.value ==> Chosen(r, selected) == Some(c)
    ensures selected.Some? && Chosen(r, selected).None? ==> forall c :: c in Survivors(r) ==> c.id != selected.value
  {
    var ranked := Ranked(Survivors(r));
    RankedIsRanked(Survivors(r));
    HavingDistinct(r.candidates, r.iteration, Evaluated);
    RankedDistinct(Survivors(r));
    forall c | c in Survivors(r)
      ensures c in ranked && c != ranked[0] ==> RanksBefore(ranked[0], c)
    {
      assert c in ranked;
      var k :| 0 <= k < |ranked| && ranked[k] == c;
    }
    if selected.Some? {
      FindByIdFinds(ranked, selected.value);
    }
  }

  lemma {:induction false} FindByIdFinds(cs: seq<Candidate>, id: string)
    requires DistinctIds(cs)
    ensures forall c :: c in cs && c.id == id ==> FindById(cs, id) == Some(c)
  {
    if cs != [] {
      FindByIdFinds(cs[1..], id);
      forall c | c in cs[1..]
        ensures c.id != cs[0].id
      {
        var k :| 0 <= k < |cs[1..]| && cs[1..][k] == c;
        assert cs[k + 1] == c;
      }
      assert forall c :: c in cs ==> c == cs[0] || c in cs[1..];
    }
  }

  /** Advancing a survivor makes it the only advanced candidate. */
  lemma {:induction false} AdvanceWins(r: Record, chosen: Candidate, feedback: string) returns (k: nat)
    requires CandidatesOk(r) && r.status == AwaitingJudgment && r.conclusion.None? && chosen in Survivors(r)
    ensures k < |r.candidates| && IsWinner(AdvanceOne(r, chosen, feedback), k) && r.candidates[k] == chosen
    ensures InPlace(r, AdvanceOne(r, chosen, feedback))
  {
    k := SurvivorAt(r, chosen);
    forall i | 0 <= i < |r.candidates|
      ensures var d := AdvanceOne(r, chosen, feedback).candidates[i];
        && Evolves(r.candidates[i], d)
        && (i == k ==> Is(d, r.iteration, Advanced))
        && (i != k ==> d.status != Advanced && (d.iteration == r.iteration ==> d.status == Killed))
    {
      AdvanceAt(r, k, feedback, i);
    }
  }

  lemma {:induction false} AdvanceKeeps(cfg: Config, r: Record, chosen: Candidate, feedback: string)
    requires Inv(cfg, r) && r.status == AwaitingJudgment && chosen in Survivors(r)
    ensures Keeps(cfg, r, AdvanceOne(r, chosen, feedback))
  {
    var s := AdvanceOne(r, chosen, feedback);
    var k := AdvanceWins(r, chosen, feedback);
    InPlaceKeepsDistinct(r, s);
    InPlaceKeepsLessons(r, s);
    forall i | 0 <= i < |s.candidates|
      ensures CandidateOk(s, s.candidates[i])
    {
      assert CandidateOk(r, r.candidates[i]) && Evolves(r.candidates[i], s.candidates[i]);
    }
  }

  lemma {:induction false} KillKeeps(cfg: Config, r: Record, feedback: string)
    requires Inv(cfg, r) && r.status == AwaitingJudgment
    ensures Keeps(cfg, r, KillRest(r, feedback))
  {
    var s := KillRest(r, feedback);
    forall i | 0 <= i < |r.candidates|
      ensures CandidateOk(s, s.candidates[i]) && Evolves(r.candidates[i], s.candidates[i])
    {
      assert CandidateOk(r, r.candidates[i]);
    }
    InPlaceKeepsDistinct(r, s);
    InPlaceKeepsLessons(r, s);
  }

  lemma {:induction false} IterateKeeps(cfg: Config, r: Record, feedback: string)
    requires Inv(cfg, r) && r.status == AwaitingJudgment
    ensures !IterateAgain(cfg, r, feedback).Awaits? && Keeps(cfg, r, IterateAgain(cfg, r, feedback).record)
  {
    if r.iteration >= cfg.maxIterations {
      ConcludeOk(cfg, r, Exhausted, [NoIterationLeft(r.iteration, feedback)]);
    } else {
      forall i | 0 <= i < |r.candidates|
        ensures Decided(r.candidates[i]) && Evolves(r.candidates[i], r.candidates[i])
      {
        assert CandidateOk(r, r.candidates[i]);
      }
      NextIterationOk(cfg, r, IterateAgain(cfg, r, feedback).record);
    }
  }

  // ----------------------------------------------- recognising an evidence pass

  lemma {:induction false} DecimalIsInjective(m: nat, n: nat)
    requires Decimal(m) == Decimal(n)
    ensures m == n
  {
    assert |Decimal(m)| > 1 <==> m >= 10;
    assert |Decimal(n)| > 1 <==> n >= 10;
    var s := Decimal(m);
    assert s[|s| - 1] == ('0' as int + m % 10) as char == ('0' as int + n % 10) as char;
    if m >= 10 {
      assert s[..|s| - 1] == Decimal(m / 10) == Decimal(n / 10);
      DecimalIsInjective(m / 10, n / 10);
    }
  }

  /** A number's digits start with those of another only if that one is no larger. */
  lemma {:induction false} PrefixIsNoLarger(m: nat, n: nat)
    requires Decimal(m) <= Decimal(n)
    ensures m <= n
  {
    if |Decimal(m)| == |Decimal(n)| {
      DecimalIsInjective(m, n);
    } else if n >= 10 {
      assert Decimal(m) <= Decimal(n / 10);
      PrefixIsNoLarger(m, n / 10);
    }
  }

  /**
   * The marker of iteration 1 also starts the lesson of iteration 10. As no lesson is of an
   * iteration to come, the check still finds exactly the pass of the current one.
   */
  lemma {:induction false} PassDoneIffPassed(r: Record)
    requires LessonsOk(r)
    ensures PassDone(r) <==>
      exists i :: 0 <= i < |r.lessons| && r.lessons[i].EvidencePass? && r.lessons[i].iteration == r.iteration
  {
    forall i | 0 <= i < |r.lessons| && StartsWithMarker(r.lessons[i], r.iteration)
      ensures r.lessons[i].iteration == r.iteration
    {
      PrefixIsNoLarger(r.iteration, r.lessons[i].iteration);
    }
    forall i | 0 <= i < |r.lessons| && r.lessons[i].EvidencePass? && r.lessons[i].iteration == r.iteration
      ensures StartsWithMarker(r.lessons[i], r.iteration)
    {
    }
  }

  lemma {:induction false} LaterMarkerMisleads()
    ensures StartsWithMarker(EvidencePass(10, ""), 1)
  {
    assert Decimal(1) == "1" && Decimal(10) == "1" + "0";
  }

  lemma {:induction false} EvidenceLessonOk(r: Record, s: Record, feedback: string)
    requires LessonsOk(r) && !PassDone(r) && r.iteration >= 1
    requires s.lessons == r.lessons + [EvidencePass(r.iteration, feedback)] && s.iteration == r.iteration
    ensures LessonsOk(s)
  {
    PassDoneIffPassed(r);
    assert forall i :: 0 <= i < |r.lessons| ==> s.lessons[i] == r.lessons[i];
  }

  lemma {:induction false} AddEvidenceEvolves(cfg: Config, c: Candidate, a: Answers)
    requires c.status == Evaluated
    ensures Evolves(c, AddEvidenceOr(cfg, c, a)) && AddEvidenceOr(cfg, c, a).status == Evaluated
  {
  }

  /** An evidence pass rewrites scores and evidence, and nothing that decides who survives. */
  lemma {:induction false} EvidencePassKeeps(cfg: Config, r: Record, feedback: string, a: Answers)
    requires Inv(cfg, r) && r.status == AwaitingJudgment && !PassDone(r) && MoreEvidence(cfg, r, feedback, a).Awaits?
    ensures Keeps(cfg, r, MoreEvidence(cfg, r, feedback, a).record)
  {
    var s := MoreEvidence(cfg, r, feedback, a).record;
    EvidenceLessonOk(r, s, feedback);
    forall i | 0 <= i < |r.candidates|
      ensures CandidateOk(s, s.candidates[i]) && Evolves(r.candidates[i], s.candidates[i])
      ensures Is(r.candidates[i], r.iteration, Evaluated) <==> Is(s.candidates[i], r.iteration, Evaluated)
    {
      assert CandidateOk(r, r.candidates[i]);
      if Is(r.candidates[i], r.iteration, Evaluated) {
        AddEvidenceEvolves(cfg, r.candidates[i], a);
      }
    }
    HavingSameLength(r.candidates, s.candidates, r.iteration, Evaluated);
    assert DistinctIds(s.candidates);
  }

  lemma {:induction false} DeclineKeeps(cfg: Config, r: Record, feedback: string, a: Answers)
    requires Inv(cfg, r) && r.status == AwaitingJudgment && PassDone(r)
    ensures Keeps(cfg, r, MoreEvidence(cfg, r, feedback, a).record)
  {
    var s := MoreEvidence(cfg, r, feedback, a).record;
    forall i | 0 <= i < |r.candidates|
      ensures CandidateOk(s, s.candidates[i]) && Evolves(r.candidates[i], s.candidates[i])
    {
      assert CandidateOk(r, r.candidates[i]);
    }
    InPlaceKeepsLessons(r, s);
  }

  // -------------------------------------------------------------- whole steps

  function Saved(result: StepResult): Option<Record> {
    match result
    case Continues(s) => Some(s)
    case Awaits(s) => Some(s)
    case Concludes(s) => Some(s)
    case _ => None
  }

  function StatusOf(result: StepResult): RecordStatus
    requires Saved(result).Some?
  {
    match result
    case Continues(_) => Running
    case Awaits(_) => AwaitingJudgment
    case Concludes(_) => Concluded
  }

  /** What a step saves: the record grown, the invariant kept, in the state its answer announces. */
  ghost predicate StepOk(cfg: Config, r: Record, result: StepResult) {
    Saved(result).Some? ==>
      Keeps(cfg, r, Saved(result).value) && Saved(result).value.status == StatusOf(result)
  }

  lemma {:induction false} GrowsItself(r: Record)
    ensures Grows(r, r)
  {
    assert forall i :: 0 <= i < |r.candidates| ==> Evolves(r.candidates[i], r.candidates[i]);
  }

  lemma {:induction false} JudgmentKeeps(cfg: Config, r: Record, j: Judgment, a: Answers)
    requires Inv(cfg, r) && r.status == AwaitingJudgment
    ensures StepOk(cfg, r, ApplyJudgment(cfg, r, j, a))
  {
    match j.decision
    case Advance(selected) =>
      if Chosen(r, selected).Some? {
        AdvanceKeeps(cfg, r, Chosen(r, selected).value, j.feedback);
      }
    case KillAll => KillKeeps(cfg, r, j.feedback);
    case Iterate => IterateKeeps(cfg, r, j.feedback);
    case NeedMoreEvidence =>
      if PassDone(r) {
        DeclineKeeps(cfg, r, j.feedback, a);
      } else if MoreEvidence(cfg, r, j.feedback, a).Awaits? {
        EvidencePassKeeps(cfg, r, j.feedback, a);
      }
  }

  lemma {:induction false} PhaseKeeps(cfg: Config, r: Record, a: Answers)
    requires Inv(cfg, r) && r.status == Running && FreshIds(r, a)
    ensures StepOk(cfg, r, RunPhase(cfg, r, a))
  {
    if cfg.timeLimited && a.expired {
      ConcludeOk(cfg, r, Exhausted, [OutOfTime(r.iteration)]);
    } else if !SomeCurrent(r) {
      if Generate(cfg, r, a).Continues? {
        GenerateKeeps(cfg, r, a);
      }
    } else if Having(r.candidates, r.iteration, Generated) != [] {
      if cfg.prototype {
        PrototypeKeeps(cfg, r, a);
      } else if EvaluatePhase(cfg, r, Generated, a).Continues? {
        EvaluateKeeps(cfg, r, Generated, a);
      }
    } else if Having(r.candidates, r.iteration, Prototyped) != [] {
      if EvaluatePhase(cfg, r, Prototyped, a).Continues? {
        EvaluateKeeps(cfg, r, Prototyped, a);
      }
    } else if Kept(cfg, r) != [] {
      SelectSome(cfg, r);
    } else {
      SelectNobody(cfg, r);
    }
  }

  lemma {:induction false} StepKeepsInv(cfg: Config, r: Record, judgment: Option<Judgment>, a: Answers)
    requires Inv(cfg, r) && FreshIds(r, a)
    ensures StepOk(cfg, r, Step(cfg, Some(r), judgment, a))
  {
    GrowsItself(r);
    if r.status == Running {
      PhaseKeeps(cfg, r, a);
    } else if r.status == AwaitingJudgment && judgment.Some? {
      JudgmentKeeps(cfg, r, judgment.value, a);
    }
  }

  lemma {:induction false} FirstStepOk(cfg: Config, a: Answers)
    requires FreshIds(NewRecord(), a)
    ensures StepOk(cfg, NewRecord(), Step(cfg, None, None, a))
  {
    NewRecordOk(cfg);
    if Generate(cfg, NewRecord(), a).Continues? {
      GenerateKeeps(cfg, NewRecord(), a);
    }
  }

  // ------------------------------------------------------------ whole histories

  /** A step led from one saved record to the next, whatever judgments and answers came in. */
  ghost predicate Follows(cfg: Config, r: Record, s: Record) {
    exists judgment, a :: FreshIds(r, a) && Saved(Step(cfg, Some(r), judgment, a)) == Some(s)
  }

  /** The records an experiment has saved so far, over any number of steps and restarts. */
  ghost predicate IsHistory(cfg: Config, records: seq<Record>) {
    && records != []
    && (exists a :: FreshIds(NewRecord(), a) && Saved(Step(cfg, None, None, a)) == Some(records[0]))
    && forall i :: 0 <= i < |records| - 1 ==> Follows(cfg, records[i], records[i + 1])
  }

  lemma {:induction false} FollowsKeeps(cfg: Config, r: Record, s: Record)
    requires Inv(cfg, r) && Follows(cfg, r, s)
    ensures Keeps(cfg, r, s)
  {
    var judgment, a :| FreshIds(r, a) && Saved(Step(cfg, Some(r), judgment, a)) == Some(s);
    StepKeepsInv(cfg, r, judgment, a);
  }

  /** Every record ever saved satisfies the invariant. */
  lemma {:induction false} EveryRecordOk(cfg: Config, records: seq<Record>, i: nat)
    requires IsHistory(cfg, records) && i < |records|
    ensures Inv(cfg, records[i])
    decreases i
  {
    if i == 0 {
      var a :| FreshIds(NewRecord(), a) && Saved(Step(cfg, None, None, a)) == Some(records[0]);
      FirstStepOk(cfg, a);
    } else {
      EveryRecordOk(cfg, records, i - 1);
      FollowsKeeps(cfg, records[i - 1], records[i]);
    }
  }

  /** Candidates and lessons only grow, killed stays killed, and a conclusion is final. */
  lemma {:induction false} HistoryOnlyGrows(cfg: Config, records: seq<Record>, i: nat, j: nat)
    requires IsHistory(cfg, records) && i <= j < |records|
    ensures CandidatesGrow(records[i].candidates, records[j].candidates)
    ensures records[i].lessons <= records[j].lessons && records[i].iteration <= records[j].iteration
    ensures records[i].status == Concluded ==> records[j] == records[i]
    decreases j - i
  {
    if i == j {
      GrowsItself(records[i]);
    } else {
      EveryRecordOk(cfg, records, i);
      FollowsKeeps(cfg, records[i], records[i + 1]);
      HistoryOnlyGrows(cfg, records, i + 1, j);
      CandidatesGrowOn(records[i].candidates, records[i + 1].candidates, records[j].candidates);
    }
  }

  // ---------------------------------------------------------------- liveness

  /** Phases an iteration may still go through. */
  function PhasesLeft(r: Record): nat {
    if !SomeCurrent(r) then 3
    else if Having(r.candidates, r.iteration, Generated) != [] then 2
    else if Having(r.candidates, r.iteration, Prototyped) != [] then 1
    else 0
  }

  function IterationsLeft(cfg: Config, r: Record): nat {
    if r.iteration < cfg.maxIterations then cfg.maxIterations - r.iteration else 0
  }

  predicate Closer(cfg: Config, s: Record, r: Record) {
    IterationsLeft(cfg, s) < IterationsLeft(cfg, r)
    || (IterationsLeft(cfg, s) == IterationsLeft(cfg, r) && PhasesLeft(s) < PhasesLeft(r))
  }

  lemma {:induction false} NoneLeft(cs: seq<Candidate>, iteration: nat, status: CandidateStatus)
    requires forall i :: 0 <= i < |cs| ==> !Is(cs[i], iteration, status)
    ensures Having(cs, iteration, status) == []
  {
    if cs != [] {
      assert forall i :: 0 <= i < |cs[1..]| ==> cs[1..][i] == cs[i + 1];
      NoneLeft(cs[1..], iteration, status);
    }
  }

  lemma {:induction false} NoneThere(cs: seq<Candidate>, iteration: nat, status: CandidateStatus)
    requires Having(cs, iteration, status) == []
    ensures forall i :: 0 <= i < |cs| ==> !Is(cs[i], iteration, status)
  {
    var having := Having(cs, iteration, status);
    assert forall c :: c in cs && Is(c, iteration, status) ==> c in having;
    assert forall i :: 0 <= i < |cs| ==> cs[i] in cs;
  }

  lemma {:induction false} StillCurrent(r: Record, s: Record)
    requires SomeCurrent(r) && CandidatesGrow(r.candidates, s.candidates) && s.iteration == r.iteration
    ensures SomeCurrent(s)
  {
    var i :| 0 <= i < |r.candidates| && r.candidates[i].iteration == r.iteration;
    assert Evolves(r.candidates[i], s.candidates[i]);
  }

  lemma {:induction false} PrototypeLeavesNone(r: Record, a: Answers)
    ensures var s := PrototypePhase(r, a).record;
      Having(s.candidates, r.iteration, Generated) == [] && CandidatesGrow(r.candidates, s.candidates)
  {
    var s := PrototypePhase(r, a).record;
    forall i | 0 <= i < |r.candidates|
      ensures Evolves(r.candidates[i], s.candidates[i]) && !Is(s.candidates[i], r.iteration, Generated)
    {
      if Is(r.candidates[i], r.iteration, Generated) {
        PrototypeEvolves(r.candidates[i], a);
      }
    }
    NoneLeft(s.candidates, r.iteration, Generated);
  }

  lemma {:induction false} PrototypeIsCloser(cfg: Config, r: Record, a: Answers)
    requires SomeCurrent(r) && Having(r.candidates, r.iteration, Generated) != []
    ensures Closer(cfg, PrototypePhase(r, a).record, r)
  {
    PrototypeLeavesNone(r, a);
    StillCurrent(r, PrototypePhase(r, a).record);
  }

  lemma {:induction false} EvaluateDecides(cfg: Config, r: Record, status: CandidateStatus, a: Answers, i: nat)
    requires Stage(status) < 2 && EvaluatePhase(cfg, r, status, a).Continues? && i < |r.candidates|
    ensures var d := EvaluatePhase(cfg, r, status, a).record.candidates[i];
      && Evolves(r.candidates[i], d) && !Is(d, r.iteration, status)
      && (d.status != r.candidates[i].status ==> Decided(d))
  {
    var c, pending := r.candidates[i], Having(r.candidates, r.iteration, status);
    if Is(c, r.iteration, status) {
      assert c in pending;
      var k :| 0 <= k < |pending| && pending[k] == c;
      EvaluateEvolves(cfg, c, a);
    }
  }

  lemma {:induction false} EvaluateLeavesNone(cfg: Config, r: Record, status: CandidateStatus, a: Answers)
    requires Stage(status) < 2 && EvaluatePhase(cfg, r, status, a).Continues?
    requires status == Prototyped ==> Having(r.candidates, r.iteration, Generated) == []
    ensures var s := EvaluatePhase(cfg, r, status, a).record;
      && Having(s.candidates, r.iteration, status) == [] && CandidatesGrow(r.candidates, s.candidates)
      && (status == Prototyped ==> Having(s.candidates, r.iteration, Generated) == [])
  {
    var s := EvaluatePhase(cfg, r, status, a).record;
    forall i | 0 <= i < |r.candidates|
      ensures Evolves(r.candidates[i], s.candidates[i]) && !Is(s.candidates[i], r.iteration, status)
      ensures s.candidates[i].status != r.candidates[i].status ==> Decided(s.candidates[i])
    {
      EvaluateDecides(cfg, r, status, a, i);
    }
    NoneLeft(s.candidates, r.iteration, status);
    if status == Prototyped {
      NobodyElse(r, s);
    }
  }

  lemma {:induction false} EvaluateIsCloser(cfg: Config, r: Record, status: CandidateStatus, a: Answers)
    requires SomeCurrent(r) && Having(r.candidates, r.iteration, status) != [] && Stage(status) < 2
    requires status == Prototyped ==> Having(r.candidates, r.iteration, Generated) == []
    requires EvaluatePhase(cfg, r, status, a).Continues?
    ensures Closer(cfg, EvaluatePhase(cfg, r, status, a).record, r)
  {
    EvaluateLeavesNone(cfg, r, status, a);
    StillCurrent(r, EvaluatePhase(cfg, r, status, a).record);
  }

  lemma {:induction false} NobodyElse(r: Record, s: Record)
    requires |s.candidates| == |r.candidates| && s.iteration == r.iteration
    requires forall i :: 0 <= i < |r.candidates| ==> s.candidates[i].iteration == r.candidates[i].iteration
    requires forall i :: 0 <= i < |r.candidates| && s.candidates[i].status != r.candidates[i].status ==>
      Decided(s.candidates[i])
    requires Having(r.candidates, r.iteration, Generated) == []
    ensures Having(s.candidates, s.iteration, Generated) == []
  {
    NoneThere(r.candidates, r.iteration, Generated);
    NoneLeft(s.candidates, s.iteration, Generated);
  }

  /** Every step that asks to continue is closer to the end: fewer iterations or fewer phases are left. */
  lemma {:induction false} ContinuingIsCloser(cfg: Config, r: Record, a: Answers)
    requires Inv(cfg, r) && r.status == Running && FreshIds(r, a) && RunPhase(cfg, r, a).Continues?
    ensures Closer(cfg, RunPhase(cfg, r, a).record, r)
  {
    if !SomeCurrent(r) {
      GenerateKeeps(cfg, r, a);
    } else if Having(r.candidates, r.iteration, Generated) != [] {
      if cfg.prototype {
        PrototypeIsCloser(cfg, r, a);
      } else {
        EvaluateIsCloser(cfg, r, Generated, a);
      }
    } else if Having(r.candidates, r.iteration, Prototyped) != [] {
      EvaluateIsCloser(cfg, r, Prototyped, a);
    } else if Kept(cfg, r) == [] {
      SelectNobody(cfg, r);
    }
  }
}
