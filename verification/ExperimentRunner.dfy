/** The runner's loops over candidates, and the stepper that runs phases until a judgment is due. */
module ExperimentRunner {
  import opened Wrappers
  import opened ExperimentModel
  import opened Experiments
  import opened ExperimentInvariant
  import opened ExperimentRuns

  // ------------------------------------------------------- updates by candidate id

  function UpdateAll(cs: seq<Candidate>, updates: map<string, Candidate>): (r: seq<Candidate>)
    ensures |r| == |cs|
    ensures forall i :: 0 <= i < |cs| ==> r[i] == if cs[i].id in updates then updates[cs[i].id] else cs[i]
  {
    if cs == [] then []
    else [if cs[0].id in updates then updates[cs[0].id] else cs[0]] + UpdateAll(cs[1..], updates)
  }

  /** The updates so far are those of the candidates dealt with. */
  ghost predicate Covers(updates: map<string, Candidate>, done: seq<Candidate>, f: Candidate -> Candidate) {
    && (forall c :: c in done ==> c.id in updates && updates[c.id] == f(c))
    && (forall id :: id in updates ==> exists c :: c in done && c.id == id)
  }

  lemma {:induction false} CoversOneMore(
    updates: map<string, Candidate>, done: seq<Candidate>, c: Candidate, f: Candidate -> Candidate)
    requires Covers(updates, done, f) && NewId(c, done)
    ensures Covers(updates[c.id := f(c)], done + [c], f)
  {
    var next := updates[c.id := f(c)];
    forall id | id in next
      ensures exists x :: x in done + [c] && x.id == id
    {
      if id == c.id {
        assert c in done + [c];
      } else {
        var x :| x in done && x.id == id;
        assert x in done + [c];
      }
    }
  }

  lemma {:induction false} CoversNext(
    updates: map<string, Candidate>, pending: seq<Candidate>, i: nat, f: Candidate -> Candidate)
    requires DistinctIds(pending) && i < |pending| && Covers(updates, pending[..i], f)
    ensures Covers(updates[pending[i].id := f(pending[i])], pending[..i + 1], f)
    ensures pending[..i + 1][..i] == pending[..i] && pending[..i + 1][i] == pending[i]
  {
    CoversOneMore(updates, pending[..i], pending[i], f);
    assert pending[..i + 1] == pending[..i] + [pending[i]];
  }

  /** As ids are distinct, updating by id rewrites exactly the candidates dealt with. */
  lemma {:induction false} UpdatesRewrite(
    cs: seq<Candidate>, done: seq<Candidate>, updates: map<string, Candidate>, f: Candidate -> Candidate)
    requires DistinctIds(cs) && Covers(updates, done, f) && forall c :: c in done ==> c in cs
    ensures forall i :: 0 <= i < |cs| ==> UpdateAll(cs, updates)[i] == if cs[i] in done then f(cs[i]) else cs[i]
  {
    forall i | 0 <= i < |cs| && cs[i].id in updates
      ensures cs[i] in done
    {
      var c :| c in done && c.id == cs[i].id;
      var k :| 0 <= k < |cs| && cs[k] == c;
      assert k == i;
    }
  }

  // ------------------------------------------------------------------- phases

  method PrototypeEach(pending: seq<Candidate>, iteration: nat, a: Answers, ghost f: Candidate -> Candidate)
    returns (updates: map<string, Candidate>, lessons: seq<Lesson>)
    requires DistinctIds(pending) && forall c :: f(c) == Prototype(c, a)
    ensures Covers(updates, pending, f) && lessons == PrototypeLessons(pending, iteration, a)
  {
    updates, lessons := map[], [];
    for i := 0 to |pending|
      invariant Covers(updates, pending[..i], f)
      invariant lessons == PrototypeLessons(pending[..i], iteration, a)
    {
      var c := pending[i];
      CoversNext(updates, pending, i, f);
      updates := updates[c.id := Prototype(c, a)];
      if c.id !in a.prototypes {
        lessons := lessons + [PrototypeFailed(iteration, c.title)];
      }
    }
    assert pending[..|pending|] == pending;
  }

  lemma {:induction false} PrototypedByUpdates(
    r: Record, a: Answers, updates: map<string, Candidate>, f: Candidate -> Candidate)
    requires DistinctIds(r.candidates) && forall c :: f(c) == Prototype(c, a)
    requires Covers(updates, Having(r.candidates, r.iteration, Generated), f)
    ensures forall i :: 0 <= i < |r.candidates| ==>
      UpdateAll(r.candidates, updates)[i] ==
        if Is(r.candidates[i], r.iteration, Generated) then Prototype(r.candidates[i], a) else r.candidates[i]
  {
    var cs, pending := r.candidates, Having(r.candidates, r.iteration, Generated);
    UpdatesRewrite(cs, pending, updates, f);
    forall i | 0 <= i < |cs|
      ensures cs[i] in pending <==> Is(cs[i], r.iteration, Generated)
    {
    }
  }

  method PrototypeAll(r: Record, a: Answers) returns (result: StepResult)
    requires DistinctIds(r.candidates)
    ensures result == PrototypePhase(r, a)
  {
    var pending := Having(r.candidates, r.iteration, Generated);
    HavingDistinct(r.candidates, r.iteration, Generated);
    ghost var f := (c: Candidate) => Prototype(c, a);
    var updates, lessons := PrototypeEach(pending, r.iteration, a, f);
    PrototypedByUpdates(r, a, updates, f);
    result := Continues(r.(candidates := UpdateAll(r.candidates, updates), lessons := r.lessons + lessons));
    assert result.record.candidates == PrototypePhase(r, a).record.candidates;
  }

  method EvaluateEach(
    cfg: Config, pending: seq<Candidate>, iteration: nat, a: Answers, ghost f: Candidate -> Candidate)
    returns (ok: bool, updates: map<string, Candidate>, lessons: seq<Lesson>)
    requires DistinctIds(pending) && forall c :: f(c) == EvaluateOr(cfg, c, a)
    ensures ok <==> AllEvaluate(cfg, pending, a)
    ensures ok ==> Covers(updates, pending, f) && lessons == EvaluateLessons(cfg, pending, iteration, a)
  {
    updates, lessons := map[], [];
    for i := 0 to |pending|
      invariant Covers(updates, pending[..i], f)
      invariant lessons == EvaluateLessons(cfg, pending[..i], iteration, a)
      invariant AllEvaluate(cfg, pending[..i], a)
    {
      var evaluated := EvaluateOne(cfg, pending[i], a);
      if evaluated.None? {
        return false, updates, lessons;
      }
      CoversNext(updates, pending, i, f);
      updates := updates[pending[i].id := evaluated.value];
      if evaluated.value.status == Killed {
        lessons := lessons + [KilledBy(iteration, evaluated.value.title, evaluated.value.killedBy)];
      }
    }
    assert pending[..|pending|] == pending;
    ok := true;
  }

  lemma {:induction false} EvaluatedByUpdates(
    cfg: Config, r: Record, status: CandidateStatus, a: Answers,
    updates: map<string, Candidate>, f: Candidate -> Candidate)
    requires DistinctIds(r.candidates) && forall c :: f(c) == EvaluateOr(cfg, c, a)
    requires Covers(updates, Having(r.candidates, r.iteration, status), f)
    ensures forall i :: 0 <= i < |r.candidates| ==>
      UpdateAll(r.candidates, updates)[i] ==
        if Is(r.candidates[i], r.iteration, status) then EvaluateOr(cfg, r.candidates[i], a) else r.candidates[i]
  {
    var cs, pending := r.candidates, Having(r.candidates, r.iteration, status);
    UpdatesRewrite(cs, pending, updates, f);
    forall i | 0 <= i < |cs|
      ensures cs[i] in pending <==> Is(cs[i], r.iteration, status)
    {
    }
  }

  method EvaluateAll(cfg: Config, r: Record, status: CandidateStatus, a: Answers) returns (result: StepResult)
    requires DistinctIds(r.candidates)
    ensures result == EvaluatePhase(cfg, r, status, a)
  {
    var pending := Having(r.candidates, r.iteration, status);
    HavingDistinct(r.candidates, r.iteration, status);
    ghost var f := (c: Candidate) => EvaluateOr(cfg, c, a);
    var ok, updates, lessons := EvaluateEach(cfg, pending, r.iteration, a, f);
    if !ok {
      return AgentThrows;
    }
    EvaluatedByUpdates(cfg, r, status, a, updates, f);
    result := Continues(r.(candidates := UpdateAll(r.candidates, updates), lessons := r.lessons + lessons));
    assert result.record.candidates == EvaluatePhase(cfg, r, status, a).record.candidates;
  }

  method DropEach(drop: seq<Candidate>, ghost f: Candidate -> Candidate) returns (updates: map<string, Candidate>)
    requires DistinctIds(drop) && forall c :: f(c) == Slain(c, NotSelected)
    ensures Covers(updates, drop, f)
  {
    updates := map[];
    for i := 0 to |drop|
      invariant Covers(updates, drop[..i], f)
    {
      CoversNext(updates, drop, i, f);
      updates := updates[drop[i].id := Slain(drop[i], NotSelected)];
    }
    assert drop[..|drop|] == drop;
  }

  lemma {:induction false} DroppedByUpdates(
    cfg: Config, r: Record, updates: map<string, Candidate>, f: Candidate -> Candidate)
    requires DistinctIds(r.candidates) && forall c :: f(c) == Slain(c, NotSelected)
    requires Covers(updates, Dropped(cfg, r), f)
    ensures UpdateAll(r.candidates, updates) == DropRest(cfg, r).candidates
  {
    KeptOrDropped(cfg, r);
    UpdatesRewrite(r.candidates, Dropped(cfg, r), updates, f);
  }

  lemma {:induction false} DroppedDistinct(cfg: Config, r: Record)
    requires DistinctIds(r.candidates)
    ensures DistinctIds(Dropped(cfg, r))
  {
    HavingDistinct(r.candidates, r.iteration, Evaluated);
    RankedDistinct(Survivors(r));
  }

  method DropLosers(cfg: Config, r: Record) returns (next: Record)
    requires DistinctIds(r.candidates)
    ensures next == DropRest(cfg, r)
  {
    var drop := Dropped(cfg, r);
    DroppedDistinct(cfg, r);
    ghost var f := (c: Candidate) => Slain(c, NotSelected);
    var updates := DropEach(drop, f);
    DroppedByUpdates(cfg, r, updates, f);
    next := r.(candidates := UpdateAll(r.candidates, updates));
  }

  method SelectSurvivors(cfg: Config, r: Record) returns (result: StepResult)
    requires DistinctIds(r.candidates)
    ensures result == Select(cfg, r)
  {
    var keep := Kept(cfg, r);
    var next := DropLosers(cfg, r);
    if keep == [] {
      if r.iteration < cfg.maxIterations {
        result := Continues(next.(iteration := r.iteration + 1, lessons := next.lessons + [AllKilled(r.iteration)]));
      } else {
        result := Concludes(Conclude(next, Exhausted, [AllKilled(r.iteration), NoSurvivors(r.iteration)]));
      }
    } else {
      result := Awaits(next.(status := AwaitingJudgment));
    }
  }

  method EvidenceEach(cfg: Config, survivors: seq<Candidate>, a: Answers, ghost f: Candidate -> Candidate)
    returns (ok: bool, updates: map<string, Candidate>)
    requires DistinctIds(survivors) && forall c :: f(c) == AddEvidenceOr(cfg, c, a)
    ensures ok <==> AllGiveEvidence(cfg, survivors, a)
    ensures ok ==> Covers(updates, survivors, f)
  {
    updates := map[];
    for i := 0 to |survivors|
      invariant Covers(updates, survivors[..i], f)
      invariant AllGiveEvidence(cfg, survivors[..i], a)
    {
      var updated := AddEvidence(cfg, survivors[i], a);
      if updated.None? {
        return false, updates;
      }
      CoversNext(updates, survivors, i, f);
      updates := updates[survivors[i].id := updated.value];
    }
    assert survivors[..|survivors|] == survivors;
    ok := true;
  }

  lemma {:induction false} EvidenceByUpdates(
    cfg: Config, r: Record, a: Answers, updates: map<string, Candidate>, f: Candidate -> Candidate)
    requires DistinctIds(r.candidates) && forall c :: f(c) == AddEvidenceOr(cfg, c, a)
    requires Covers(updates, Ranked(Survivors(r)), f)
    ensures UpdateAll(r.candidates, updates) == Rewritten(r.candidates, (c: Candidate) =>
      if Is(c, r.iteration, Evaluated) then AddEvidenceOr(cfg, c, a) else c)
  {
    UpdatesRewrite(r.candidates, Ranked(Survivors(r)), updates, f);
  }

  method GatherEvidence(cfg: Config, r: Record, feedback: string, a: Answers) returns (result: StepResult)
    requires DistinctIds(r.candidates)
    ensures result == MoreEvidence(cfg, r, feedback, a)
  {
    if PassDone(r) {
      var declined := EvidenceDeclined(r.iteration);
      return Awaits(if declined in r.lessons then r else r.(lessons := r.lessons + [declined]));
    }
    var survivors := Ranked(Survivors(r));
    HavingDistinct(r.candidates, r.iteration, Evaluated);
    RankedDistinct(Survivors(r));
    ghost var f := (c: Candidate) => AddEvidenceOr(cfg, c, a);
    var ok, updates := EvidenceEach(cfg, survivors, a, f);
    if !ok {
      return AgentThrows;
    }
    EvidenceByUpdates(cfg, r, a, updates, f);
    result := Awaits(r.(
      candidates := UpdateAll(r.candidates, updates),
      lessons := r.lessons + [EvidencePass(r.iteration, feedback)]));
    assert result.record.candidates == MoreEvidence(cfg, r, feedback, a).record.candidates;
  }

  /** One step of the runner. */
  method TakeStep(cfg: Config, r: Record, judgment: Option<Judgment>, a: Answers) returns (result: StepResult)
    requires DistinctIds(r.candidates)
    ensures result == Step(cfg, Some(r), judgment, a)
  {
    if r.status == Concluded {
      return Concludes(r);
    }
    if r.status == AwaitingJudgment {
      if judgment.None? {
        return Awaits(r);
      }
      if judgment.value.decision == NeedMoreEvidence {
        result := GatherEvidence(cfg, r, judgment.value.feedback, a);
        return;
      }
      return ApplyJudgment(cfg, r, judgment.value, a);
    }
    if cfg.timeLimited && a.expired {
      return Concludes(Conclude(r, Exhausted, [OutOfTime(r.iteration)]));
    }
    if !SomeCurrent(r) {
      return Generate(cfg, r, a);
    }
    if Having(r.candidates, r.iteration, Generated) != [] {
      if cfg.prototype {
        result := PrototypeAll(r, a);
      } else {
        result := EvaluateAll(cfg, r, Generated, a);
      }
    } else if Having(r.candidates, r.iteration, Prototyped) != [] {
      result := EvaluateAll(cfg, r, Prototyped, a);
    } else {
      result := SelectSurvivors(cfg, r);
    }
  }

  // ------------------------------------------------------------------ stepper

  /** Agents, clock and ids answer however they do, except that no id is given twice. */
  method AskAgents(r: Record) returns (a: Answers)
    ensures FreshIds(r, a)
  {
    var fallback := Answers(None, map[], map[], map[], true);
    assert FreshIds(r, fallback);
    a :| FreshIds(r, a);
  }

  /** What is saved is a record as its invariant wants it, grown from the one before, and the last answer's. */
  ghost predicate SavedOk(cfg: Config, record: Option<Record>, result: StepResult, saved: Option<Record>) {
    && (saved.Some? ==> Inv(cfg, saved.value))
    && (record.Some? ==> saved.Some? && CandidatesGrow(record.value.candidates, saved.value.candidates))
    && (record.Some? ==> record.value.lessons <= saved.value.lessons)
    && (Saved(result).Some? ==> saved == Saved(result) && saved.value.status == StatusOf(result))
    && (result.InvalidInput? ==> saved == record)
  }

  lemma {:induction false} SavedOkOn(cfg: Config, record: Option<Record>, r: Record, a: Answers)
    requires SavedOk(cfg, record, Continues(r), Some(r)) && FreshIds(r, a)
    ensures var next := Step(cfg, Some(r), None, a);
      SavedOk(cfg, record, next, if Saved(next).Some? then Saved(next) else Some(r))
    ensures var next := Step(cfg, Some(r), None, a); next.Continues? ==> Closer(cfg, next.record, r)
  {
    StepKeepsInv(cfg, r, None, a);
    var next := Step(cfg, Some(r), None, a);
    if next.Continues? {
      ContinuingIsCloser(cfg, r, a);
    }
    if Saved(next).Some? && record.Some? {
      CandidatesGrowOn(record.value.candidates, r.candidates, Saved(next).value.candidates);
    }
  }

  method First(cfg: Config, record: Option<Record>, judgment: Option<Judgment>)
    returns (result: StepResult, saved: Option<Record>)
    requires record.Some? ==> Inv(cfg, record.value)
    ensures SavedOk(cfg, record, result, saved)
  {
    saved := record;
    if record.None? {
      NewRecordOk(cfg);
      var a := AskAgents(NewRecord());
      FirstStepOk(cfg, a);
      result := Generate(cfg, NewRecord(), a);
    } else {
      var a := AskAgents(record.value);
      StepKeepsInv(cfg, record.value, judgment, a);
      GrowsItself(record.value);
      result := TakeStep(cfg, record.value, judgment, a);
    }
    if Saved(result).Some? {
      saved := Saved(result);
    }
  }

  /**
   * The stepper: one step with the judgment, if any, and then steps for as long as one asks to
   * continue. It ends whatever the agents answer, and leaves a record that satisfies the invariant.
   */
  method Settle(cfg: Config, record: Option<Record>, judgment: Option<Judgment>)
    returns (result: StepResult, saved: Option<Record>)
    requires record.Some? ==> Inv(cfg, record.value)
    ensures !result.Continues? && SavedOk(cfg, record, result, saved)
  {
    result, saved := First(cfg, record, judgment);
    while result.Continues?
      invariant SavedOk(cfg, record, result, saved)
      decreases result.Continues?,
        if result.Continues? then IterationsLeft(cfg, result.record) else 0,
        if result.Continues? then PhasesLeft(result.record) else 0
    {
      var r := result.record;
      var a := AskAgents(r);
      SavedOkOn(cfg, record, r, a);
      result := TakeStep(cfg, r, None, a);
      if Saved(result).Some? {
        saved := Saved(result);
      }
    }
  }

  // ------------------------------------------------------------------ choices

  const ADVANCE := "advance:"

  function AdvanceChoices(survivors: seq<Candidate>): (choices: seq<string>)
    ensures forall v :: v in choices <==> exists c :: c in survivors && v == ADVANCE + c.id
  {
    if survivors == [] then [] else [ADVANCE + survivors[0].id] + AdvanceChoices(survivors[1..])
  }

  /** The choices a human is offered for a record that awaits judgment. */
  function JudgmentChoices(r: Record): seq<string> {
    AdvanceChoices(Ranked(Survivors(r))) + ["iterate", "need-more-evidence", "kill"]
  }

  /** A response as a judgment; what is none of the choices throws. */
  function DecodeJudgment(value: string): Option<Judgment> {
    if ADVANCE <= value then
      if value == ADVANCE then None else Some(Judgment(Advance(Some(value[|ADVANCE|..])), ""))
    else if value == "kill" then Some(Judgment(KillAll, ""))
    else if value == "iterate" then Some(Judgment(Iterate, ""))
    else if value == "need-more-evidence" then Some(Judgment(NeedMoreEvidence, ""))
    else None
  }

  lemma {:induction false} AdvanceOffered(r: Record, value: string)
    requires ADVANCE <= value
    ensures value in JudgmentChoices(r) <==> exists c :: c in Survivors(r) && c.id == value[|ADVANCE|..]
  {
    var ranked := Ranked(Survivors(r));
    assert value == ADVANCE + value[|ADVANCE|..];
    if value in JudgmentChoices(r) {
      assert value[0] == 'a';
      assert value in AdvanceChoices(ranked);
      var c :| c in ranked && value == ADVANCE + c.id;
      assert c in Survivors(r);
    }
    if c :| c in Survivors(r) && c.id == value[|ADVANCE|..] {
      assert c in ranked;
      assert value in AdvanceChoices(ranked);
    }
  }

  /** The responses that the runner accepts are exactly the choices that were offered. */
  lemma {:induction false} AcceptedIffOffered(cfg: Config, r: Record, value: string, a: Answers)
    requires Inv(cfg, r) && r.status == AwaitingJudgment
    ensures value in JudgmentChoices(r) <==>
      DecodeJudgment(value).Some? && !ApplyJudgment(cfg, r, DecodeJudgment(value).value, a).InvalidInput?
  {
    if ADVANCE <= value {
      AdvanceOffered(r, value);
      var id := value[|ADVANCE|..];
      forall c | c in Survivors(r)
        ensures c.id != ""
      {
        var k := SurvivorAt(r, c);
        assert CandidateOk(r, r.candidates[k]);
      }
      assert FindById(Ranked(Survivors(r)), id).Some? <==> exists c :: c in Survivors(r) && c.id == id;
    } else {
      assert value !in AdvanceChoices(Ranked(Survivors(r)));
    }
  }

  /** What each choice stands for, and that it is offered. */
  lemma {:induction false} ChoicesMean(r: Record, id: string)
    requires id != ""
    ensures DecodeJudgment("advance:" + id) == Some(Judgment(Advance(Some(id)), ""))
    ensures DecodeJudgment("iterate") == Some(Judgment(Iterate, ""))
    ensures DecodeJudgment("need-more-evidence") == Some(Judgment(NeedMoreEvidence, ""))
    ensures DecodeJudgment("kill") == Some(Judgment(KillAll, ""))
    ensures forall v :: v in {"iterate", "need-more-evidence", "kill"} ==> v in JudgmentChoices(r)
    ensures "advance:" + id in JudgmentChoices(r) <==> exists c :: c in Survivors(r) && c.id == id
  {
    var value := "advance:" + id;
    assert ADVANCE <= value && value[|ADVANCE|..] == id && value != ADVANCE;
    assert "iterate"[0] == 'i' && "need-more-evidence"[0] == 'n' && "kill"[0] == 'k';
    assert |"iterate"| == 7 && |"need-more-evidence"| == 18 && |"kill"| == 4;
    AdvanceOffered(r, value);
  }
}
