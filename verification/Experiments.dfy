/** The experiment reducer: one phase per step, derived from the persisted record alone. */
module Experiments {
  import opened Wrappers
  import opened ExperimentModel

  datatype RecordStatus = Running | AwaitingJudgment | Concluded

  datatype Conclusion = AdvancedOne | KilledAll | Exhausted

  /** What is learnt; an evidence pass is recognised by how its lesson starts. */
  datatype Lesson =
    | PrototypeFailed(iteration: nat, title: string)
    | KilledBy(iteration: nat, title: string, cause: Option<KillCause>)
    | AllKilled(iteration: nat)
    | NoSurvivors(iteration: nat)
    | OutOfTime(iteration: nat)
    | HumanAdvanced(title: string, feedback: string)
    | HumanKilled(feedback: string)
    | HumanIterated(iteration: nat, feedback: string)
    | NoIterationLeft(iteration: nat, feedback: string)
    | EvidencePass(iteration: nat, feedback: string)
    | EvidenceDeclined(iteration: nat)

  datatype Record = Record(
    iteration: nat,
    candidates: seq<Candidate>,
    lessons: seq<Lesson>,
    status: RecordStatus,
    conclusion: Option<Conclusion>)

  datatype Config = Config(
    rubric: Rubric,
    candidateCount: int,
    survivorCount: int,
    maxIterations: int,
    prototype: bool,
    timeLimited: bool)

  /** An entry of the generator's list, without a title when malformed, and the id the candidate gets. */
  datatype Entry = Entry(title: Option<string>, id: string)

  datatype ExtraScores = KeepScores | CorruptScores | NewScores(scores: seq<Score>)

  datatype ExtraEvidence = ExtraEvidence(scores: ExtraScores, evidence: seq<string>)

  /** The answers to every question a step may put to agents and clock; an agent missing here throws. */
  datatype Answers = Answers(
    generated: Option<seq<Entry>>,
    prototypes: map<string, seq<string>>,
    evaluations: map<string, Evaluation>,
    extra: map<string, ExtraEvidence>,
    expired: bool)

  datatype Decision = Advance(selected: Option<string>) | KillAll | Iterate | NeedMoreEvidence

  datatype Judgment = Judgment(decision: Decision, feedback: string)

  datatype StepResult =
    | Continues(record: Record)
    | Awaits(record: Record)
    | Concludes(record: Record)
    | AgentThrows
    | InvalidInput

  // ----------------------------------------------------------------- records

  /** Where `slice` cuts a list of a length at a count, negative counts from the end. */
  function Cut(count: int, length: nat): (n: nat)
    ensures n <= length && (0 <= count <= length ==> n == count) && (count >= 0 ==> n <= count)
  {
    if count < 0 then (if length + count < 0 then 0 else length + count)
    else if count < length then count
    else length
  }

  predicate Is(c: Candidate, iteration: nat, status: CandidateStatus) {
    c.iteration == iteration && c.status == status
  }

  function Having(cs: seq<Candidate>, iteration: nat, status: CandidateStatus): (r: seq<Candidate>)
    ensures forall c :: c in r <==> c in cs && Is(c, iteration, status)
  {
    if cs == [] then []
    else (if Is(cs[0], iteration, status) then [cs[0]] else []) + Having(cs[1..], iteration, status)
  }

  function Survivors(r: Record): seq<Candidate> {
    Having(r.candidates, r.iteration, Evaluated)
  }

  predicate SomeCurrent(r: Record) {
    exists i :: 0 <= i < |r.candidates| && r.candidates[i].iteration == r.iteration
  }

  function Rewritten(cs: seq<Candidate>, f: Candidate -> Candidate): (r: seq<Candidate>)
    ensures |r| == |cs| && forall i :: 0 <= i < |cs| ==> r[i] == f(cs[i])
  {
    if cs == [] then [] else [f(cs[0])] + Rewritten(cs[1..], f)
  }

  function NewRecord(): Record {
    Record(1, [], [], Running, None)
  }

  function Conclude(r: Record, conclusion: Conclusion, lessons: seq<Lesson>): Record {
    r.(status := Concluded, conclusion := Some(conclusion), lessons := r.lessons + lessons)
  }

  // ------------------------------------------------------------------ phases

  function NewCandidates(entries: seq<Entry>, iteration: nat): (cs: seq<Candidate>)
    requires forall i :: 0 <= i < |entries| ==> entries[i].title.Some?
    ensures |cs| == |entries|
    ensures forall i :: 0 <= i < |cs| ==>
      cs[i] == Candidate(entries[i].id, iteration, entries[i].title.value, Generated, [], None, [], None)
  {
    seq(|entries|, i requires 0 <= i < |entries| && entries[i].title.Some? =>
      Candidate(entries[i].id, iteration, entries[i].title.value, Generated, [], None, [], None))
  }

  function Generate(cfg: Config, r: Record, a: Answers): StepResult {
    if a.generated.None? then AgentThrows
    else
      var entries := a.generated.value[..Cut(cfg.candidateCount, |a.generated.value|)];
      if entries == [] || exists i :: 0 <= i < |entries| && entries[i].title.None? then AgentThrows
      else Continues(r.(candidates := r.candidates + NewCandidates(entries, r.iteration)))
  }

  function Prototype(c: Candidate, a: Answers): Candidate {
    if c.id in a.prototypes then c.(status := Prototyped, evidence := c.evidence + a.prototypes[c.id])
    else Slain(c, PrototypeFailure)
  }

  /** Only failed prototypes leave a lesson. */
  function PrototypeLessons(pending: seq<Candidate>, iteration: nat, a: Answers): seq<Lesson> {
    if pending == [] then []
    else
      var c := pending[|pending| - 1];
      PrototypeLessons(pending[..|pending| - 1], iteration, a) +
        (if c.id in a.prototypes then [] else [PrototypeFailed(iteration, c.title)])
  }

  function PrototypePhase(r: Record, a: Answers): StepResult {
    var pending := Having(r.candidates, r.iteration, Generated);
    Continues(r.(
      candidates := Rewritten(r.candidates, (c: Candidate) => if Is(c, r.iteration, Generated) then Prototype(c, a) else c),
      lessons := r.lessons + PrototypeLessons(pending, r.iteration, a)))
  }

  function EvaluateOne(cfg: Config, c: Candidate, a: Answers): Option<Candidate> {
    if c.id in a.evaluations then Evaluate(cfg.rubric, c, a.evaluations[c.id]) else None
  }

  function EvaluateOr(cfg: Config, c: Candidate, a: Answers): Candidate {
    var e := EvaluateOne(cfg, c, a);
    if e.Some? then e.value else c
  }

  predicate AllEvaluate(cfg: Config, pending: seq<Candidate>, a: Answers) {
    forall i :: 0 <= i < |pending| ==> EvaluateOne(cfg, pending[i], a).Some?
  }

  function EvaluateLessons(cfg: Config, pending: seq<Candidate>, iteration: nat, a: Answers): seq<Lesson> {
    if pending == [] then []
    else
      var c := EvaluateOr(cfg, pending[|pending| - 1], a);
      EvaluateLessons(cfg, pending[..|pending| - 1], iteration, a) +
        (if c.status == Killed then [KilledBy(iteration, c.title, c.killedBy)] else [])
  }

  function EvaluatePhase(cfg: Config, r: Record, status: CandidateStatus, a: Answers): StepResult {
    var pending := Having(r.candidates, r.iteration, status);
    if !AllEvaluate(cfg, pending, a) then AgentThrows
    else
      Continues(r.(
        candidates := Rewritten(r.candidates, (c: Candidate) => if Is(c, r.iteration, status) then EvaluateOr(cfg, c, a) else c),
        lessons := r.lessons + EvaluateLessons(cfg, pending, r.iteration, a)))
  }

  /** The best survivors, and those ranked below them. */
  function Kept(cfg: Config, r: Record): seq<Candidate> {
    var ranked := Ranked(Survivors(r));
    ranked[..Cut(cfg.survivorCount, |ranked|)]
  }

  function Dropped(cfg: Config, r: Record): seq<Candidate> {
    var ranked := Ranked(Survivors(r));
    ranked[Cut(cfg.survivorCount, |ranked|)..]
  }

  function DropRest(cfg: Config, r: Record): Record {
    r.(candidates := Rewritten(r.candidates, (c: Candidate) => if c in Dropped(cfg, r) then Slain(c, NotSelected) else c))
  }

  function Select(cfg: Config, r: Record): StepResult {
    var next := DropRest(cfg, r);
    if Kept(cfg, r) != [] then Awaits(next.(status := AwaitingJudgment))
    else if r.iteration < cfg.maxIterations then
      Continues(next.(iteration := r.iteration + 1, lessons := next.lessons + [AllKilled(r.iteration)]))
    else Concludes(Conclude(next, Exhausted, [AllKilled(r.iteration), NoSurvivors(r.iteration)]))
  }

  // --------------------------------------------------------------- judgments

  function FindById(cs: seq<Candidate>, id: string): (found: Option<Candidate>)
    ensures found.Some? ==> found.value in cs && found.value.id == id
    ensures found.None? ==> forall c :: c in cs ==> c.id != id
  {
    if cs == [] then None else if cs[0].id == id then Some(cs[0]) else FindById(cs[1..], id)
  }

  function Chosen(r: Record, selected: Option<string>): (c: Option<Candidate>)
    ensures c.Some? ==> c.value in Survivors(r)
  {
    var survivors := Ranked(Survivors(r));
    if selected.Some? then FindById(survivors, selected.value)
    else if survivors == [] then None
    else Some(survivors[0])
  }

  function AdvanceOne(r: Record, chosen: Candidate, feedback: string): Record {
    Conclude(
      r.(candidates := Rewritten(r.candidates, (c: Candidate) =>
        if c.id == chosen.id then c.(status := Advanced)
        else if Is(c, r.iteration, Evaluated) then Slain(c, NotAdvanced)
        else c)),
      AdvancedOne, [HumanAdvanced(chosen.title, feedback)])
  }

  function KillRest(r: Record, feedback: string): Record {
    Conclude(
      r.(candidates := Rewritten(r.candidates, (c: Candidate) =>
        if Is(c, r.iteration, Evaluated) then Slain(c, HumanJudgment) else c)),
      KilledAll, [HumanKilled(feedback)])
  }

  function IterateAgain(cfg: Config, r: Record, feedback: string): StepResult {
    if r.iteration >= cfg.maxIterations then
      Concludes(Conclude(r, Exhausted, [NoIterationLeft(r.iteration, feedback)]))
    else
      Continues(r.(
        status := Running,
        iteration := r.iteration + 1,
        lessons := r.lessons + [HumanIterated(r.iteration + 1, feedback)]))
  }

  function Decimal(n: nat): (s: string)
    ensures s != ""
  {
    var digit := [('0' as int + n % 10) as char];
    if n < 10 then digit else Decimal(n / 10) + digit
  }

  /** A lesson starts with the marker of an iteration if its number starts with that number. */
  predicate StartsWithMarker(l: Lesson, iteration: nat) {
    l.EvidencePass? && Decimal(iteration) <= Decimal(l.iteration)
  }

  predicate PassDone(r: Record) {
    exists i :: 0 <= i < |r.lessons| && StartsWithMarker(r.lessons[i], r.iteration)
  }

  function AddEvidence(cfg: Config, c: Candidate, a: Answers): Option<Candidate> {
    if c.id !in a.extra then None
    else
      var e := a.extra[c.id];
      if e.scores.CorruptScores? || (e.scores.NewScores? && !KnownScores(cfg.rubric, e.scores.scores)) then None
      else
        var scores := if e.scores.NewScores? then e.scores.scores else c.scores;
        Some(c.(
          scores := scores,
          weightedScore := Some(WeightedScore(cfg.rubric.criteria, scores)),
          evidence := c.evidence + e.evidence))
  }

  function AddEvidenceOr(cfg: Config, c: Candidate, a: Answers): Candidate {
    var e := AddEvidence(cfg, c, a);
    if e.Some? then e.value else c
  }

  predicate AllGiveEvidence(cfg: Config, cs: seq<Candidate>, a: Answers) {
    forall i :: 0 <= i < |cs| ==> AddEvidence(cfg, cs[i], a).Some?
  }

  function MoreEvidence(cfg: Config, r: Record, feedback: string, a: Answers): StepResult {
    if PassDone(r) then
      Awaits(if EvidenceDeclined(r.iteration) in r.lessons then r
             else r.(lessons := r.lessons + [EvidenceDeclined(r.iteration)]))
    else if !AllGiveEvidence(cfg, Ranked(Survivors(r)), a) then AgentThrows
    else
      Awaits(r.(
        candidates := Rewritten(r.candidates, (c: Candidate) =>
          if Is(c, r.iteration, Evaluated) then AddEvidenceOr(cfg, c, a) else c),
        lessons := r.lessons + [EvidencePass(r.iteration, feedback)]))
  }

  function ApplyJudgment(cfg: Config, r: Record, j: Judgment, a: Answers): StepResult {
    match j.decision
    case Advance(selected) =>
      var chosen := Chosen(r, selected);
      if chosen.None? then InvalidInput else Concludes(AdvanceOne(r, chosen.value, j.feedback))
    case KillAll => Concludes(KillRest(r, j.feedback))
    case Iterate => IterateAgain(cfg, r, j.feedback)
    case NeedMoreEvidence => MoreEvidence(cfg, r, j.feedback, a)
  }

  // -------------------------------------------------------------------- step

  function Step(cfg: Config, record: Option<Record>, judgment: Option<Judgment>, a: Answers): StepResult {
    if record.None? then Generate(cfg, NewRecord(), a)
    else
      var r := record.value;
      match r.status
      case Concluded => Concludes(r)
      case AwaitingJudgment => if judgment.Some? then ApplyJudgment(cfg, r, judgment.value, a) else Awaits(r)
      case Running => RunPhase(cfg, r, a)
  }

  function RunPhase(cfg: Config, r: Record, a: Answers): StepResult {
    if cfg.timeLimited && a.expired then Concludes(Conclude(r, Exhausted, [OutOfTime(r.iteration)]))
    else if !SomeCurrent(r) then Generate(cfg, r, a)
    else if Having(r.candidates, r.iteration, Generated) != [] then
      if cfg.prototype then PrototypePhase(r, a) else EvaluatePhase(cfg, r, Generated, a)
    else if Having(r.candidates, r.iteration, Prototyped) != [] then EvaluatePhase(cfg, r, Prototyped, a)
    else Select(cfg, r)
  }
}
