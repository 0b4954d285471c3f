/** What every record of every experiment satisfies, and how records grow. */
module ExperimentInvariant {
  import opened Wrappers
  import opened ExperimentModel
  import opened Experiments

  // --------------------------------------------------------------- the invariant

  predicate DistinctIds(cs: seq<Candidate>) {
    forall i, j :: 0 <= i < j < |cs| ==> cs[i].id != cs[j].id
  }

  predicate Decided(c: Candidate) {
    c.status == Evaluated || c.status == Killed
  }

  /** Only the current iteration has open candidates, and none while a judgment is awaited. */
  predicate CandidateOk(r: Record, c: Candidate) {
    && c.id != "" && 1 <= c.iteration <= r.iteration
    && (c.iteration < r.iteration || r.status == AwaitingJudgment ==> Decided(c))
    && (c.status == Advanced ==> r.conclusion == Some(AdvancedOne))
  }

  predicate CandidatesOk(r: Record) {
    DistinctIds(r.candidates) && forall i :: 0 <= i < |r.candidates| ==> CandidateOk(r, r.candidates[i])
  }

  /** The one advanced candidate; every other one of the last iteration is killed. */
  predicate IsWinner(r: Record, k: nat) {
    && k < |r.candidates| && Is(r.candidates[k], r.iteration, Advanced)
    && forall i :: 0 <= i < |r.candidates| && i != k ==>
         r.candidates[i].status != Advanced && (r.candidates[i].iteration == r.iteration ==> r.candidates[i].status == Killed)
  }

  ghost predicate ConclusionOk(r: Record) {
    && (r.status == Concluded <==> r.conclusion.Some?)
    && (r.conclusion == Some(AdvancedOne) ==> exists k :: IsWinner(r, k))
  }

  predicate AwaitingOk(cfg: Config, r: Record) {
    r.status == AwaitingJudgment ==>
      1 <= |Survivors(r)| && (cfg.survivorCount >= 0 ==> |Survivors(r)| <= cfg.survivorCount)
  }

  function LastIteration(cfg: Config): nat {
    if cfg.maxIterations < 1 then 1 else cfg.maxIterations
  }

  /** At most one evidence pass for an iteration, and none for one to come. */
  predicate LessonsOk(r: Record) {
    && (forall i :: 0 <= i < |r.lessons| && r.lessons[i].EvidencePass? ==> 1 <= r.lessons[i].iteration <= r.iteration)
    && (forall i, j :: 0 <= i < j < |r.lessons| && r.lessons[i].EvidencePass? && r.lessons[j].EvidencePass? ==>
          r.lessons[i].iteration != r.lessons[j].iteration)
  }

  ghost predicate Inv(cfg: Config, r: Record) {
    && 1 <= r.iteration <= LastIteration(cfg)
    && CandidatesOk(r) && ConclusionOk(r) && AwaitingOk(cfg, r) && LessonsOk(r)
  }

  /** The id generator does not repeat itself. */
  predicate FreshIds(r: Record, a: Answers) {
    a.generated.Some? ==>
      var entries := a.generated.value;
      && (forall i :: 0 <= i < |entries| ==> entries[i].id != "")
      && (forall i, j :: 0 <= i < j < |entries| ==> entries[i].id != entries[j].id)
      && (forall i, k :: 0 <= i < |entries| && 0 <= k < |r.candidates| ==> entries[i].id != r.candidates[k].id)
  }

  // --------------------------------------------------------------------- growth

  function Stage(s: CandidateStatus): nat {
    match s
    case Generated => 0
    case Prototyped => 1
    case Evaluated => 2
    case Killed => 3
    case Advanced => 3
  }

  /** A candidate only moves on and only gains evidence; killed or advanced, it stays as it is. */
  predicate Evolves(c: Candidate, d: Candidate) {
    && c.id == d.id && c.iteration == d.iteration && c.title == d.title && c.evidence <= d.evidence
    && (c.status == d.status || Stage(c.status) < Stage(d.status))
    && (Stage(c.status) == 3 ==> d == c)
  }

  predicate CandidatesGrow(cs: seq<Candidate>, ds: seq<Candidate>) {
    |cs| <= |ds| && forall i :: 0 <= i < |cs| ==> Evolves(cs[i], ds[i])
  }

  predicate Grows(r: Record, s: Record) {
    && CandidatesGrow(r.candidates, s.candidates)
    && r.lessons <= s.lessons && r.iteration <= s.iteration <= r.iteration + 1
    && (r.status == Concluded ==> s == r)
  }

  lemma {:induction false} CandidatesGrowOn(a: seq<Candidate>, b: seq<Candidate>, c: seq<Candidate>)
    requires CandidatesGrow(a, b) && CandidatesGrow(b, c)
    ensures CandidatesGrow(a, c)
  {
    forall i | 0 <= i < |a|
      ensures Evolves(a[i], c[i])
    {
      assert Evolves(a[i], b[i]) && Evolves(b[i], c[i]);
    }
  }

  // ---------------------------------------------------------------- counting

  lemma {:induction false} HavingSameLength(cs: seq<Candidate>, ds: seq<Candidate>, iteration: nat, status: CandidateStatus)
    requires |cs| == |ds| && forall i :: 0 <= i < |cs| ==> (Is(cs[i], iteration, status) <==> Is(ds[i], iteration, status))
    ensures |Having(cs, iteration, status)| == |Having(ds, iteration, status)|
  {
    if cs != [] {
      assert forall i :: 0 <= i < |cs[1..]| ==> cs[1..][i] == cs[i + 1] && ds[1..][i] == ds[i + 1];
      HavingSameLength(cs[1..], ds[1..], iteration, status);
    }
  }

  lemma {:induction false} HavingDistinct(cs: seq<Candidate>, iteration: nat, status: CandidateStatus)
    requires DistinctIds(cs)
    ensures DistinctIds(Having(cs, iteration, status))
  {
    if cs != [] {
      HavingDistinct(cs[1..], iteration, status);
      var rest := Having(cs[1..], iteration, status);
      forall j | 0 <= j < |rest|
        ensures rest[j].id != cs[0].id
      {
        assert rest[j] in cs[1..];
      }
    }
  }

  predicate NewId(c: Candidate, cs: seq<Candidate>) {
    forall x :: x in cs ==> x.id != c.id
  }

  lemma {:induction false} InsertDistinct(c: Candidate, ranked: seq<Candidate>)
    requires DistinctIds(ranked) && NewId(c, ranked)
    ensures DistinctIds(Insert(c, ranked))
  {
    if ranked != [] && !RanksBefore(c, ranked[0]) {
      InsertDistinct(c, ranked[1..]);
      var rest := Insert(c, ranked[1..]);
      forall j | 0 <= j < |rest|
        ensures rest[j].id != ranked[0].id
      {
        assert rest[j] in rest;
      }
    }
  }

  lemma {:induction false} RankedDistinct(cs: seq<Candidate>)
    requires DistinctIds(cs)
    ensures DistinctIds(Ranked(cs))
  {
    if cs != [] {
      RankedDistinct(cs[1..]);
      InsertDistinct(cs[0], Ranked(cs[1..]));
    }
  }

  lemma {:induction false} SetLength(cs: seq<Candidate>)
    requires DistinctIds(cs)
    ensures |set c | c in cs| == |cs|
  {
    if cs != [] {
      SetLength(cs[1..]);
      assert (set c | c in cs) == {cs[0]} + (set c | c in cs[1..]);
    }
  }

  lemma {:induction false} SameMembersSameLength(cs: seq<Candidate>, ds: seq<Candidate>)
    requires DistinctIds(cs) && DistinctIds(ds) && forall c :: c in cs <==> c in ds
    ensures |cs| == |ds|
  {
    SetLength(cs);
    SetLength(ds);
    assert (set c | c in cs) == (set c | c in ds);
  }

  // ------------------------------------------------------------ rewriting phases

  /** A record whose candidates evolved in place, with more lessons, in the same iteration. */
  predicate InPlace(r: Record, s: Record) {
    && |r.candidates| == |s.candidates| && CandidatesGrow(r.candidates, s.candidates)
    && s.iteration == r.iteration && r.lessons <= s.lessons
    && forall i :: |r.lessons| <= i < |s.lessons| ==> !s.lessons[i].EvidencePass?
  }

  lemma {:induction false} InPlaceKeepsDistinct(r: Record, s: Record)
    requires InPlace(r, s) && DistinctIds(r.candidates)
    ensures DistinctIds(s.candidates)
  {
    forall i, j | 0 <= i < j < |s.candidates|
      ensures s.candidates[i].id != s.candidates[j].id
    {
      assert Evolves(r.candidates[i], s.candidates[i]) && Evolves(r.candidates[j], s.candidates[j]);
    }
  }

  lemma {:induction false} InPlaceKeepsLessons(r: Record, s: Record)
    requires InPlace(r, s) && LessonsOk(r)
    ensures LessonsOk(s)
  {
    assert forall i :: 0 <= i < |r.lessons| ==> s.lessons[i] == r.lessons[i];
  }

  lemma {:induction false} PrototypeLessonsAreNoPasses(pending: seq<Candidate>, iteration: nat, a: Answers)
    ensures forall i :: 0 <= i < |PrototypeLessons(pending, iteration, a)| ==>
      !PrototypeLessons(pending, iteration, a)[i].EvidencePass?
  {
    if pending != [] {
      PrototypeLessonsAreNoPasses(pending[..|pending| - 1], iteration, a);
    }
  }

  lemma {:induction false} EvaluateLessonsAreNoPasses(cfg: Config, pending: seq<Candidate>, iteration: nat, a: Answers)
    ensures forall i :: 0 <= i < |EvaluateLessons(cfg, pending, iteration, a)| ==>
      !EvaluateLessons(cfg, pending, iteration, a)[i].EvidencePass?
  {
    if pending != [] {
      EvaluateLessonsAreNoPasses(cfg, pending[..|pending| - 1], iteration, a);
    }
  }

  /** Running records that evolved in place keep the invariant, nobody having been advanced. */
  lemma {:induction false} RunningInPlace(cfg: Config, r: Record, s: Record)
    requires Inv(cfg, r) && r.status == Running && InPlace(r, s)
    requires s.status == Running && s.conclusion == r.conclusion
    requires forall i :: 0 <= i < |s.candidates| && s.candidates[i] != r.candidates[i] ==>
      r.candidates[i].iteration == r.iteration && s.candidates[i].status != Advanced
    ensures Inv(cfg, s) && Grows(r, s)
  {
    InPlaceKeepsDistinct(r, s);
    InPlaceKeepsLessons(r, s);
    forall i | 0 <= i < |s.candidates|
      ensures CandidateOk(s, s.candidates[i])
    {
      assert CandidateOk(r, r.candidates[i]) && Evolves(r.candidates[i], s.candidates[i]);
    }
  }

  lemma {:induction false} PrototypeEvolves(c: Candidate, a: Answers)
    requires c.status == Generated
    ensures Evolves(c, Prototype(c, a)) && Prototype(c, a).status in {Prototyped, Killed}
  {
  }

  lemma {:induction false} PrototypeKeeps(cfg: Config, r: Record, a: Answers)
    requires Inv(cfg, r) && r.status == Running
    ensures var s := PrototypePhase(r, a).record; Inv(cfg, s) && Grows(r, s)
  {
    var s := PrototypePhase(r, a).record;
    PrototypeLessonsAreNoPasses(Having(r.candidates, r.iteration, Generated), r.iteration, a);
    forall i | 0 <= i < |r.candidates|
      ensures Evolves(r.candidates[i], s.candidates[i])
      ensures s.candidates[i] != r.candidates[i] ==>
        r.candidates[i].iteration == r.iteration && s.candidates[i].status != Advanced
    {
      if Is(r.candidates[i], r.iteration, Generated) {
        PrototypeEvolves(r.candidates[i], a);
      }
    }
    RunningInPlace(cfg, r, s);
  }

  lemma {:induction false} EvaluateEvolves(cfg: Config, c: Candidate, a: Answers)
    requires Stage(c.status) < 2
    ensures Evolves(c, EvaluateOr(cfg, c, a)) && EvaluateOr(cfg, c, a).status != Advanced
    ensures EvaluateOne(cfg, c, a).Some? ==> Decided(EvaluateOr(cfg, c, a))
  {
    if c.id in a.evaluations {
      EvaluatedIffSurvives(cfg.rubric, c, a.evaluations[c.id]);
    }
  }

  lemma {:induction false} EvaluateKeeps(cfg: Config, r: Record, status: CandidateStatus, a: Answers)
    requires Inv(cfg, r) && r.status == Running && Stage(status) < 2
    requires EvaluatePhase(cfg, r, status, a).Continues?
    ensures var s := EvaluatePhase(cfg, r, status, a).record; Inv(cfg, s) && Grows(r, s)
  {
    var s := EvaluatePhase(cfg, r, status, a).record;
    EvaluateLessonsAreNoPasses(cfg, Having(r.candidates, r.iteration, status), r.iteration, a);
    forall i | 0 <= i < |r.candidates|
      ensures Evolves(r.candidates[i], s.candidates[i])
      ensures s.candidates[i] != r.candidates[i] ==>
        r.candidates[i].iteration == r.iteration && s.candidates[i].status != Advanced
    {
      if Is(r.candidates[i], r.iteration, status) {
        EvaluateEvolves(cfg, r.candidates[i], a);
      }
    }
    RunningInPlace(cfg, r, s);
  }

  // --------------------------------------------------------------- generating

  lemma {:induction false} NewCandidatesDistinct(r: Record, entries: seq<Entry>, all: seq<Entry>)
    requires DistinctIds(r.candidates) && entries <= all
    requires forall i :: 0 <= i < |entries| ==> entries[i].title.Some?
    requires forall i, j :: 0 <= i < j < |all| ==> all[i].id != all[j].id
    requires forall i, k :: 0 <= i < |all| && 0 <= k < |r.candidates| ==> all[i].id != r.candidates[k].id
    ensures DistinctIds(r.candidates + NewCandidates(entries, r.iteration))
  {
    assert forall i :: 0 <= i < |entries| ==> entries[i] == all[i];
  }

  lemma {:induction false} GenerateKeeps(cfg: Config, r: Record, a: Answers)
    requires Inv(cfg, r) && r.status == Running && FreshIds(r, a) && Generate(cfg, r, a).Continues?
    ensures var s := Generate(cfg, r, a).record; Inv(cfg, s) && Grows(r, s)
    ensures SomeCurrent(Generate(cfg, r, a).record)
    ensures cfg.candidateCount >= 0 ==> |Generate(cfg, r, a).record.candidates| <= |r.candidates| + cfg.candidateCount
  {
    var s := Generate(cfg, r, a).record;
    var entries := a.generated.value[..Cut(cfg.candidateCount, |a.generated.value|)];
    NewCandidatesDistinct(r, entries, a.generated.value);
    forall i | 0 <= i < |s.candidates|
      ensures CandidateOk(s, s.candidates[i])
    {
      if i < |r.candidates| {
        assert CandidateOk(r, r.candidates[i]);
      } else {
        assert s.candidates[i] == NewCandidates(entries, r.iteration)[i - |r.candidates|];
        assert entries[i - |r.candidates|] == a.generated.value[i - |r.candidates|];
      }
    }
    assert s.candidates[|r.candidates|] == NewCandidates(entries, r.iteration)[0];
  }

  lemma {:induction false} NewRecordOk(cfg: Config)
    ensures Inv(cfg, NewRecord())
  {
  }

  // ---------------------------------------------------------------- selecting

  /** Nobody of the current iteration is open any more. */
  predicate AllDecided(r: Record) {
    && Having(r.candidates, r.iteration, Generated) == []
    && Having(r.candidates, r.iteration, Prototyped) == []
  }

  lemma {:induction false} DecidedCandidate(cfg: Config, r: Record, i: nat)
    requires Inv(cfg, r) && r.status == Running && AllDecided(r) && i < |r.candidates|
    ensures Decided(r.candidates[i])
  {
    var c := r.candidates[i];
    assert CandidateOk(r, c);
    assert Is(c, r.iteration, Generated) ==> c in Having(r.candidates, r.iteration, Generated);
    assert Is(c, r.iteration, Prototyped) ==> c in Having(r.candidates, r.iteration, Prototyped);
  }

  lemma {:induction false} KeptOrDropped(cfg: Config, r: Record)
    requires DistinctIds(r.candidates)
    ensures DistinctIds(Kept(cfg, r)) && |Kept(cfg, r)| == Cut(cfg.survivorCount, |Survivors(r)|)
    ensures forall c :: c in Kept(cfg, r) <==> c in Survivors(r) && c !in Dropped(cfg, r)
    ensures forall c :: c in Dropped(cfg, r) ==> c in Survivors(r)
  {
    HavingDistinct(r.candidates, r.iteration, Evaluated);
    RankedDistinct(Survivors(r));
    var ranked := Ranked(Survivors(r));
    var k := Cut(cfg.survivorCount, |ranked|);
    assert ranked == Kept(cfg, r) + Dropped(cfg, r);
    forall c | c in Kept(cfg, r)
      ensures c !in Dropped(cfg, r)
    {
      var i :| 0 <= i < k && ranked[i] == c;
    }
    assert forall c :: c in ranked <==> c in Kept(cfg, r) || c in Dropped(cfg, r);
  }

  /** Nobody kept ranks behind anybody dropped. */
  lemma {:induction false} KeptRankFirst(cfg: Config, r: Record)
    ensures forall i, j :: 0 <= i < |Kept(cfg, r)| && 0 <= j < |Dropped(cfg, r)| ==>
      RanksBefore(Kept(cfg, r)[i], Dropped(cfg, r)[j])
  {
    RankedIsRanked(Survivors(r));
  }

  lemma {:induction false} DropRestKeeps(cfg: Config, r: Record)
    requires Inv(cfg, r) && r.status == Running && AllDecided(r)
    ensures Inv(cfg, DropRest(cfg, r)) && InPlace(r, DropRest(cfg, r))
    ensures forall i :: 0 <= i < |r.candidates| ==> Decided(DropRest(cfg, r).candidates[i])
  {
    var s := DropRest(cfg, r);
    KeptOrDropped(cfg, r);
    forall i | 0 <= i < |r.candidates|
      ensures Decided(s.candidates[i]) && Evolves(r.candidates[i], s.candidates[i])
      ensures s.candidates[i] != r.candidates[i] ==> r.candidates[i].iteration == r.iteration
    {
      DecidedCandidate(cfg, r, i);
    }
    RunningInPlace(cfg, r, s);
  }

  lemma {:induction false} SurvivorsAreKept(cfg: Config, r: Record)
    requires DistinctIds(r.candidates) && DistinctIds(DropRest(cfg, r).candidates)
    ensures |Survivors(DropRest(cfg, r))| == |Kept(cfg, r)|
  {
    var s := DropRest(cfg, r);
    KeptOrDropped(cfg, r);
    HavingDistinct(s.candidates, s.iteration, Evaluated);
    forall c
      ensures c in Survivors(s) <==> c in Kept(cfg, r)
    {
      if c in Survivors(s) {
        var i :| 0 <= i < |s.candidates| && s.candidates[i] == c;
        assert r.candidates[i] in r.candidates;
      }
      if c in Kept(cfg, r) {
        var i :| 0 <= i < |r.candidates| && r.candidates[i] == c;
        assert s.candidates[i] == c;
      }
    }
    SameMembersSameLength(Survivors(s), Kept(cfg, r));
  }

  /** What the next iteration takes over from one in which everything is decided. */
  lemma {:induction false} NextIterationOk(cfg: Config, r: Record, s: Record)
    requires Inv(cfg, r) && r.status != Concluded && r.iteration < cfg.maxIterations
    requires forall i :: 0 <= i < |r.candidates| ==> Decided(r.candidates[i])
    requires s.candidates == r.candidates && s.iteration == r.iteration + 1
    requires s.status == Running && s.conclusion == r.conclusion
    requires |s.lessons| == |r.lessons| + 1 && r.lessons <= s.lessons && !s.lessons[|r.lessons|].EvidencePass?
    ensures Inv(cfg, s) && Grows(r, s) && !SomeCurrent(s)
  {
    forall i | 0 <= i < |s.candidates|
      ensures CandidateOk(s, s.candidates[i])
    {
      assert CandidateOk(r, r.candidates[i]);
    }
    assert forall i :: 0 <= i < |r.lessons| ==> s.lessons[i] == r.lessons[i];
  }

  lemma {:induction false} ConcludeOk(cfg: Config, r: Record, conclusion: Conclusion, lessons: seq<Lesson>)
    requires Inv(cfg, r) && r.status != Concluded && conclusion != AdvancedOne
    requires forall i :: 0 <= i < |lessons| ==> !lessons[i].EvidencePass?
    ensures Inv(cfg, Conclude(r, conclusion, lessons)) && Grows(r, Conclude(r, conclusion, lessons))
  {
    var s := Conclude(r, conclusion, lessons);
    forall i | 0 <= i < |s.candidates|
      ensures CandidateOk(s, s.candidates[i])
    {
      assert CandidateOk(r, r.candidates[i]);
    }
    InPlaceKeepsLessons(r, s);
  }

  lemma {:induction false} AwaitOk(cfg: Config, r: Record)
    requires Inv(cfg, r) && r.status == Running && |Survivors(r)| >= 1
    requires cfg.survivorCount >= 0 ==> |Survivors(r)| <= cfg.survivorCount
    requires forall i :: 0 <= i < |r.candidates| ==> Decided(r.candidates[i])
    ensures Inv(cfg, r.(status := AwaitingJudgment))
  {
    forall i | 0 <= i < |r.candidates|
      ensures CandidateOk(r.(status := AwaitingJudgment), r.candidates[i])
    {
      assert CandidateOk(r, r.candidates[i]);
    }
  }

  /** What a step makes of a record keeps the invariant, and the record grows. */
  ghost predicate Keeps(cfg: Config, r: Record, s: Record) {
    Inv(cfg, s) && Grows(r, s)
  }

  lemma {:induction false} KeepsOn(cfg: Config, r: Record, mid: Record, s: Record)
    requires Keeps(cfg, mid, s) && InPlace(r, mid) && r.status == Running
    ensures Keeps(cfg, r, s)
  {
    CandidatesGrowOn(r.candidates, mid.candidates, s.candidates);
  }

  lemma {:induction false} SelectNobody(cfg: Config, r: Record)
    requires Inv(cfg, r) && r.status == Running && AllDecided(r) && Kept(cfg, r) == []
    ensures !Select(cfg, r).Awaits? && Keeps(cfg, r, Select(cfg, r).record)
    ensures Select(cfg, r).Continues? ==> r.iteration < cfg.maxIterations && !SomeCurrent(Select(cfg, r).record)
  {
    var next := DropRest(cfg, r);
    DropRestKeeps(cfg, r);
    if r.iteration < cfg.maxIterations {
      NextIterationOk(cfg, next, Select(cfg, r).record);
    } else {
      ConcludeOk(cfg, next, Exhausted, [AllKilled(r.iteration), NoSurvivors(r.iteration)]);
    }
    KeepsOn(cfg, r, next, Select(cfg, r).record);
  }

  lemma {:induction false} SelectSome(cfg: Config, r: Record)
    requires Inv(cfg, r) && r.status == Running && AllDecided(r) && Kept(cfg, r) != []
    ensures Select(cfg, r).Awaits? && Keeps(cfg, r, Select(cfg, r).record)
  {
    DropRestKeeps(cfg, r);
    SurvivorsAreKept(cfg, r);
    KeptOrDropped(cfg, r);
    AwaitOk(cfg, DropRest(cfg, r));
  }
}
