/** The native agent loop: turns, tool calls, sub-agents, compaction and an abort at any moment. */
module AgentLoop {
  import opened Wrappers
  import opened Conversation
  import opened AgentSessions

  const COMPLETE_GOAL := "complete_goal"
  const REQUEST_HUMAN_INPUT := "request_human_input"
  const RUN_SUBAGENT := "run_subagent"

  datatype Config = Config(
    maxAttempts: int,
    subagentsEnabled: bool,
    maxDepth: int,
    maxSubagents: int,
    maxTextOnly: int,
    maxDenials: int,
    triggerTokens: nat,
    keepRecent: int)

  datatype Outcome =
    | GoalCompleted
    | GoalBlocked
    | HumanInputRequired
    | PolicyBlocked
    | BudgetExhausted
    | Cancelled
    | FatalFailure

  datatype AgentResult = AgentResult(outcome: Outcome, usage: Usage, turns: nat, subagents: nat)

  /** What the session has done so far, and the counters kept of it. */
  datatype Tally = Tally(session: Session, usage: Usage, turn: nat, subagents: nat)

  /** The variables of the loop. */
  datatype Loop = Loop(messages: seq<Message>, tally: Tally, denials: nat, textOnly: nat, aborted: bool)

  function Levels(cfg: Config, depth: nat): nat {
    if cfg.subagentsEnabled && depth < cfg.maxDepth then cfg.maxDepth - depth else 0
  }

  function MaxSubagents(cfg: Config): nat {
    NonNegative(cfg.maxSubagents)
  }

  /** What a session is held to: its turns, its sub-agents, and the turns in the tree of each. */
  datatype Limits = Limits(turns: nat, children: nat, childTurns: nat)

  function MaxAttempts(cfg: Config): nat {
    NonNegative(cfg.maxAttempts)
  }

  function LimitsOf(cfg: Config, maxTurns: int, depth: nat): Limits {
    if Levels(cfg, depth) == 0 then Limits(NonNegative(maxTurns), 0, 0)
    else Limits(NonNegative(maxTurns), MaxSubagents(cfg),
                TurnBound(ChildTurns(maxTurns), MaxSubagents(cfg), Levels(cfg, depth) - 1))
  }

  // ------------------------------------------------------------- the loop invariant

  /** Session and counters agree, and everything so far is within the limits. */
  predicate Tallied(l: Limits, t: Tally) {
    && !t.session.threw && InvocationsOk(t.session) && UsageTallied(t) && SnapshotOk(t.session)
    && t.turn == t.session.turns <= l.turns
    && t.subagents == NumberOf(t.session.children) <= l.children && AllWithin(t.session.children, l.childTurns)
  }

  predicate UsageTallied(t: Tally) {
    t.usage == Add(t.session.used, ReportedAll(t.session.children))
  }

  /** Unless the session is aborted its conversation is one that a model accepts. */
  predicate Usable(st: Loop) {
    st.aborted || WellFormed(st.messages)
  }

  function NewTally(depth: nat): Tally {
    Tally(Session([], Usage(0, 0), NoneYet(depth + 1), 0, false, None, false, None, 0, 0), Usage(0, 0), 0, 0)
  }

  function Finish(outcome: Outcome, t: Tally): AgentResult {
    AgentResult(outcome, t.usage, t.turn, t.subagents)
  }

  /** A runtime error ends the session with a result that reports nothing. */
  function ThrownResult(): AgentResult {
    AgentResult(FatalFailure, Usage(0, 0), 0, 0)
  }

  function Thrown(s: Session): Session {
    s.(threw := true)
  }

  /** Saves the conversation; without a repository, or if it fails, the session goes on all the same. */
  method Persist(ghost l: Limits, st0: Loop, at: SavePoint) returns (st: Loop)
    requires Tallied(l, st0.tally) && (WellFormed(st0.messages) <==> at == AllAnswered)
    ensures Tallied(l, st.tally)
    ensures var s, s0 := st.tally.session, st0.tally.session;
      && st == st0.(tally := st0.tally.(session := s0.(snapshot := s.snapshot, lost := s.lost)))
      && ((s.snapshot == Some(Snapshot(st0.messages, at)) && s.lost == s0.lost) || (s.lost && s.snapshot == s0.snapshot))
  {
    var saves: bool := *;
    var s := st0.tally.session;
    s := if saves then s.(snapshot := Some(Snapshot(st0.messages, at))) else s.(lost := true);
    st := st0.(tally := st0.tally.(session := s));
  }

  /** The conversation saved last is well-formed exactly if it was saved with every call answered. */
  predicate SnapshotOk(s: Session) {
    s.snapshot.Some? ==> (WellFormed(s.snapshot.value.messages) <==> s.snapshot.value.at == AllAnswered)
  }

  predicate SavedAt(s: Session, at: SavePoint) {
    s.snapshot.Some? && s.snapshot.value.at == at
  }

  /** No call has ended the session, and nothing was saved with calls unanswered. */
  predicate NothingOpen(s: Session) {
    s.endedBy.None? && (s.snapshot.Some? ==> s.snapshot.value.at == AllAnswered)
  }

  /** What a finished session promises to whoever started it. */
  predicate RunOk(cfg: Config, maxTurns: int, depth: nat, result: AgentResult, s: Session) {
    && InvocationsOk(s)
    && result.usage == Reported(s)
    && TurnsIn(s) <= TurnBound(maxTurns, MaxSubagents(cfg), Levels(cfg, depth))
    && (s.threw ==> result == AgentResult(FatalFailure, Usage(0, 0), 0, 0))
    && (!s.threw ==> result.turns == s.turns && result.subagents == NumberOf(s.children))
    && SnapshotOk(s)
    && (s.threw ==> NothingOpen(s))
    && (!s.threw ==> EndsAsSaved(result.outcome, s))
    && CountsOk(cfg, if s.threw then ThrewError else End(result.outcome), s)
  }

  datatype Ending = GoOn | End(outcome: Outcome) | ThrewError

  /**
   * Policy blocks a session exactly when it has denied it as many calls as it may, a session is
   * blocked without a call only after as many silent turns as it may have, and the model is called
   * in each turn at most as often as it may be.
   */
  predicate CountsOk(cfg: Config, ending: Ending, s: Session) {
    && (ending == End(PolicyBlocked) ==> s.denied >= 1 && s.denied >= cfg.maxDenials)
    && (ending != End(PolicyBlocked) ==> s.denied == 0 || s.denied < cfg.maxDenials)
    && (ending == End(GoalBlocked) && s.endedBy.None? ==> s.silent >= 1 && s.silent >= cfg.maxTextOnly)
    && (ending != End(GoalBlocked) || s.endedBy.Some? ==> s.silent == 0 || s.silent < cfg.maxTextOnly)
    && s.silent <= s.turns
    && |s.sent| <= s.turns * MaxAttempts(cfg)
  }

  /** Outcomes that a tool call alone can bring about; a blocked goal is also that of a silent agent. */
  predicate ByProtocol(outcome: Outcome) {
    outcome.GoalCompleted? || outcome.HumanInputRequired? || outcome.PolicyBlocked?
  }

  /** How a session ended tells whether it saved unanswered calls, but for a blocked goal. */
  predicate EndsAsSaved(outcome: Outcome, s: Session) {
    && (ByProtocol(outcome) ==> SavedAt(s, InsideCall) || s.lost)
    && (SavedAt(s, InsideCall) ==> ByProtocol(outcome) || outcome.GoalBlocked?)
    && (SavedAt(s, CutShort) ==> outcome.Cancelled? || outcome.BudgetExhausted?)
    && EndsByCall(outcome, s.endedBy)
  }

  /** Which call brings about which outcome; only an agent that stays silent is blocked without one. */
  predicate EndsByCall(outcome: Outcome, endedBy: Option<string>) {
    && (outcome.HumanInputRequired? <==> endedBy == Some("request_human_input"))
    && (outcome.GoalCompleted? ==> endedBy == Some("complete_goal"))
    && (outcome.PolicyBlocked? <==>
          endedBy.Some? && endedBy.value !in {"complete_goal", "request_human_input", "run_subagent"})
    && (endedBy == Some("complete_goal") ==> outcome.GoalCompleted? || outcome.GoalBlocked?)
    && endedBy != Some("run_subagent")
  }

  lemma {:induction false} FinishedOk(cfg: Config, maxTurns: int, depth: nat, t: Tally, outcome: Outcome)
    requires Tallied(LimitsOf(cfg, maxTurns, depth), t) && EndsAsSaved(outcome, t.session)
    requires CountsOk(cfg, End(outcome), t.session)
    ensures RunOk(cfg, maxTurns, depth, Finish(outcome, t), t.session)
  {
    TreeWithin(t.session, maxTurns, MaxSubagents(cfg), Levels(cfg, depth));
  }

  lemma {:induction false} ThrownOk(cfg: Config, maxTurns: int, depth: nat, t: Tally)
    requires Tallied(LimitsOf(cfg, maxTurns, depth), t) && NothingOpen(t.session)
    requires CountsOk(cfg, ThrewError, t.session)
    ensures RunOk(cfg, maxTurns, depth, ThrownResult(), Thrown(t.session))
  {
    TreeWithin(Thrown(t.session), maxTurns, MaxSubagents(cfg), Levels(cfg, depth));
  }

  // --------------------------------------------------------------- model calls

  datatype Invocation = Response(content: seq<Block>, usage: Usage) | ModelError | AbortedCall

  /** A model responds with text and tool calls; results are not its to give. */
  predicate IsResponse(content: seq<Block>) {
    ResultIds(content) == []
  }

  function Invoked(t: Tally, ms: seq<Message>): Tally {
    t.(session := t.session.(sent := t.session.sent + [ms]))
  }

  /** The model was called so often, with the same conversation. */
  function Asked(t: Tally, ms: seq<Message>, n: nat): Tally {
    t.(session := t.session.(sent := t.session.sent + seq(n, _ => ms)))
  }

  lemma {:induction false} InvokedTallies(l: Limits, t: Tally, ms: seq<Message>)
    requires Tallied(l, t) && WellFormed(ms)
    ensures Tallied(l, Invoked(t, ms))
  {
  }

  /** Still in the same turn, and its conversation as it was. */
  predicate SameTurn(st: Loop, st0: Loop) {
    && st.messages == st0.messages && st.textOnly == st0.textOnly && (st0.aborted ==> st.aborted)
    && SameCounts(st.tally, st0.tally)
  }

  predicate SameCounts(t: Tally, t0: Tally) {
    && t.turn == t0.turn && t.session.turns == t0.session.turns && t.session.used == t0.session.used
    && t.session.sent == t0.session.sent && t.session.silent == t0.session.silent
  }

  predicate SameSnapshot(st: Loop, st0: Loop) {
    SameSaved(st.tally, st0.tally)
  }

  /** Nothing was saved since, nor a save missed. */
  predicate SameSaved(t: Tally, t0: Tally) {
    && t.session.snapshot == t0.session.snapshot && t.session.lost == t0.session.lost
    && t.session.endedBy == t0.session.endedBy
  }

  /**
   * The errors of the attempts, each retryable or not: only the last may be final, no attempt follows
   * a final one, and the loop gives up only on a final one or after as many attempts as it has.
   */
  predicate RetriedRightly(cfg: Config, answer: Invocation, attempts: nat, retryable: seq<bool>) {
    && attempts <= MaxAttempts(cfg)
    && |retryable| <= attempts <= |retryable| + 1
    && (forall i :: 0 <= i < |retryable| - 1 ==> retryable[i])
    && match answer
       case Response(_, _) => attempts == |retryable| + 1 && forall i :: 0 <= i < |retryable| ==> retryable[i]
       case AbortedCall => forall i :: 0 <= i < |retryable| ==> retryable[i]
       case ModelError =>
         attempts == |retryable| && (attempts == MaxAttempts(cfg) || (attempts >= 1 && !retryable[attempts - 1]))
  }

  /** Whether it succeeds, fails, is to be retried or is aborted is not up to the loop. */
  method InvokeWithRetry(cfg: Config, ghost l: Limits, st0: Loop)
    returns (st: Loop, answer: Invocation, attempts: nat, retryable: seq<bool>)
    requires Tallied(l, st0.tally) && WellFormed(st0.messages)
    ensures Tallied(l, st.tally)
    ensures st == st0.(tally := Asked(st0.tally, st0.messages, attempts), aborted := st.aborted) && (st0.aborted ==> st.aborted)
    ensures answer.AbortedCall? ==> st.aborted
    ensures answer.Response? ==> IsResponse(answer.content)
    ensures RetriedRightly(cfg, answer, attempts, retryable)
  {
    st, attempts, retryable := st0, 0, [];
    var attempt := 1;
    while attempt <= cfg.maxAttempts
      invariant Tallied(l, st.tally) && attempts == |retryable| == attempt - 1 <= MaxAttempts(cfg)
      invariant forall i :: 0 <= i < |retryable| ==> retryable[i]
      invariant st == st0.(tally := Asked(st0.tally, st0.messages, attempts), aborted := st.aborted) && (st0.aborted ==> st.aborted)
    {
      var abortNow: bool := *;
      st := st.(aborted := st.aborted || abortNow);
      if st.aborted {
        return st, AbortedCall, attempts, retryable;
      }
      InvokedTallies(l, st.tally, st.messages);
      st, attempts := st.(tally := Invoked(st.tally, st.messages)), attempts + 1;
      var responds: bool, mayRetry: bool := *, *;
      if responds {
        assert IsResponse([]);
        var content: seq<Block> :| IsResponse(content);
        var usage: Usage := *;
        return st, Response(content, usage), attempts, retryable;
      }
      abortNow := *;
      st := st.(aborted := st.aborted || abortNow);
      if st.aborted {
        return st, AbortedCall, attempts, retryable;
      }
      retryable := retryable + [mayRetry];
      if !mayRetry || attempt == cfg.maxAttempts {
        return st, ModelError, attempts, retryable;
      }
      attempt := attempt + 1;
    }
    answer := ModelError;
  }

  // ---------------------------------------------------------------- tool calls

  function ToolCalls(content: seq<Block>): (calls: seq<Block>)
    ensures forall i :: 0 <= i < |calls| ==> calls[i].ToolCall?
  {
    if content == [] then []
    else
      var last := content[|content| - 1];
      ToolCalls(content[..|content| - 1]) + (if last.ToolCall? then [last] else [])
  }

  lemma {:induction false} CallIdsSnoc(content: seq<Block>, b: Block)
    ensures CallIds(content + [b]) == CallIds(content) + (if b.ToolCall? then [b.id] else [])
    ensures ResultIds(content + [b]) == ResultIds(content) + (if b.ToolResult? then [b.callId] else [])
  {
    assert (content + [b])[..|content|] == content;
  }

  lemma {:induction false} ToolCallsHaveTheIds(content: seq<Block>)
    ensures CallIds(ToolCalls(content)) == CallIds(content)
  {
    if content != [] {
      var front, last := content[..|content| - 1], content[|content| - 1];
      ToolCallsHaveTheIds(front);
      if last.ToolCall? {
        CallIdsSnoc(ToolCalls(front), last);
      } else {
        assert ToolCalls(content) == ToolCalls(front);
      }
    }
  }

  /** So far each call is answered, in order, and nothing else is in the results. */
  predicate AnsweredSo(results: seq<Block>, calls: seq<Block>) {
    ResultIds(results) == CallIds(calls) && CallIds(results) == []
  }

  lemma {:induction false} AnswerOne(results: seq<Block>, calls: seq<Block>, i: nat, content: string)
    requires i < |calls| && calls[i].ToolCall? && AnsweredSo(results, calls[..i])
    ensures AnsweredSo(results + [ToolResult(calls[i].id, content)], calls[..i + 1])
  {
    CallIdsSnoc(calls[..i], calls[i]);
    CallIdsSnoc(results, ToolResult(calls[i].id, content));
    assert calls[..i + 1] == calls[..i] + [calls[i]];
  }

  function Adopted(t: Tally, child: Session, reported: Usage): Tally {
    t.(
      subagents := t.subagents + 1,
      usage := Add(t.usage, reported),
      session := t.session.(children := Then(t.session.children, child)))
  }

  lemma {:induction false} AdoptedTallies(l: Limits, t: Tally, child: Session)
    requires Tallied(l, t) && t.subagents < l.children && InvocationsOk(child) && TurnsIn(child) <= l.childTurns
    ensures Tallied(l, Adopted(t, child, Reported(child)))
  {
    AddReorders(t.session.used, ReportedAll(t.session.children), Reported(child));
  }

  /** A sub-agent's whole session, unless the limit is reached. */
  method CallSubagent(cfg: Config, maxTurns: int, depth: nat, ghost l: Limits, t0: Tally) returns (t: Tally)
    requires l == LimitsOf(cfg, maxTurns, depth)
    requires Tallied(l, t0)
    ensures Tallied(l, t) && SameCounts(t, t0) && SameSaved(t, t0) && t.session.denied == t0.session.denied
    ensures t.subagents == t0.subagents +
      (if cfg.subagentsEnabled && depth < cfg.maxDepth && t0.subagents < cfg.maxSubagents then 1 else 0)
    decreases Levels(cfg, depth), 0
  {
    t := t0;
    if Levels(cfg, depth) > 0 && t.subagents < cfg.maxSubagents {
      var goal: string := *;
      StartIsWellFormed(goal);
      var result, child, _, _ := RunLoop(cfg, ChildTurns(maxTurns), depth + 1, Start(goal));
      assert Levels(cfg, depth + 1) == Levels(cfg, depth) - 1;
      AdoptedTallies(l, t, child);
      t := Adopted(t, child, result.usage);
    }
  }

  function EndedBy(t: Tally, name: string): Tally {
    t.(session := t.session.(endedBy := Some(name)))
  }

  function Denied(t: Tally): Tally {
    t.(session := t.session.(denied := t.session.denied + 1))
  }

  function SubagentCalls(calls: seq<Block>): (n: nat)
    requires forall i :: 0 <= i < |calls| ==> calls[i].ToolCall?
    ensures n <= |calls|
  {
    if calls == [] then 0
    else SubagentCalls(calls[..|calls| - 1]) + (if calls[|calls| - 1].name == RUN_SUBAGENT then 1 else 0)
  }

  /** How many sub-agents a session has started after so many more calls for one: as many as it may. */
  function Started(cfg: Config, depth: nat, before: nat, calls: nat): nat {
    if !cfg.subagentsEnabled || depth >= cfg.maxDepth || before >= cfg.maxSubagents then before
    else if before + calls <= cfg.maxSubagents then before + calls
    else cfg.maxSubagents
  }

  /** A session that ends within a call saves it first; otherwise nothing is saved. */
  predicate EndsInCall(st: Loop, st0: Loop, ending: Ending) {
    var s := st.tally.session;
    if ending.End? then
      && (s.snapshot == Some(Snapshot(st0.messages, InsideCall)) || (s.lost && s.snapshot == st0.tally.session.snapshot))
      && (ByProtocol(ending.outcome) || ending.outcome.GoalBlocked?)
      && s.endedBy.Some? && EndsByCall(ending.outcome, s.endedBy)
    else SameSnapshot(st, st0)
  }

  /** The denials are counted, and too many of them end the session. */
  predicate DenialsOk(cfg: Config, st: Loop, st0: Loop, ending: Ending) {
    && st.denials >= st0.denials
    && st.denials - st0.denials == st.tally.session.denied - st0.tally.session.denied
    && (ending == End(PolicyBlocked) ==> st.denials > st0.denials && st.denials >= cfg.maxDenials)
    && (ending != End(PolicyBlocked) ==> st.denials == st0.denials || st.denials < cfg.maxDenials)
  }

  /** A call of a tool: hooks may throw, policy may deny, and too many denials end the session. */
  method CallTool(cfg: Config, ghost l: Limits, st0: Loop, name: string) returns (st: Loop, ending: Ending)
    requires Tallied(l, st0.tally) && !WellFormed(st0.messages)
    requires name !in {COMPLETE_GOAL, REQUEST_HUMAN_INPUT, RUN_SUBAGENT}
    ensures Tallied(l, st.tally) && SameTurn(st, st0)
    ensures EndsInCall(st, st0, ending)
    ensures DenialsOk(cfg, st, st0, ending) && st.denials <= st0.denials + 1
    ensures st.tally.subagents == st0.tally.subagents
    ensures ending.End? ==> st.tally.session.endedBy == Some(name)
  {
    st, ending := st0, GoOn;
    var throws: bool, denied: bool := *, *;
    if throws {
      return st, ThrewError;
    }
    if denied {
      st := st.(denials := st.denials + 1, tally := Denied(st.tally));
      if st.denials >= cfg.maxDenials {
        st := Persist(l, st, InsideCall);
        st, ending := st.(tally := EndedBy(st.tally, name)), End(PolicyBlocked);
      }
    }
  }

  /** What a call has come to, by its name. */
  predicate Dealt(cfg: Config, depth: nat, st: Loop, st0: Loop, call: Block, ending: Ending)
    requires call.ToolCall?
  {
    && DenialsOk(cfg, st, st0, ending)
    && (ending.End? ==> st.tally.session.endedBy == Some(call.name))
    && (call.name in {"complete_goal", "request_human_input"} ==> ending.End?)
    && (call.name == "run_subagent" ==> ending == GoOn)
    && (call.name in {"complete_goal", "request_human_input", "run_subagent"} ==> st.denials == st0.denials)
    && st.tally.subagents == Started(cfg, depth, st0.tally.subagents, if call.name == "run_subagent" then 1 else 0)
  }

  /** What the calls have come to, none of which ended the session. */
  predicate AllDealt(cfg: Config, depth: nat, st: Loop, st0: Loop, calls: seq<Block>, ending: Ending)
    requires forall i :: 0 <= i < |calls| ==> calls[i].ToolCall?
  {
    && DenialsOk(cfg, st, st0, ending)
    && (forall i :: 0 <= i < |calls| ==> calls[i].name !in {"complete_goal", "request_human_input"})
    && st.tally.subagents == Started(cfg, depth, st0.tally.subagents, SubagentCalls(calls))
  }

  /** One more call: it goes on, or the session has ended in it. */
  lemma {:induction false} DealtOneMore(
    cfg: Config, depth: nat, next: Loop, st: Loop, st0: Loop, calls: seq<Block>, i: nat, ending: Ending)
    requires i < |calls| && forall j :: 0 <= j < |calls| ==> calls[j].ToolCall?
    requires AllDealt(cfg, depth, st, st0, calls[..i], GoOn) && Dealt(cfg, depth, next, st, calls[i], ending)
    ensures ending == GoOn ==> AllDealt(cfg, depth, next, st0, calls[..i + 1], GoOn)
    ensures ending != GoOn ==> AllDealt(cfg, depth, next, st0, calls[..i], ending)
  {
    assert calls[..i + 1][..i] == calls[..i];
    assert calls[..i + 1] == calls[..i] + [calls[i]];
  }

  /** One tool call: it ends the session, throws, or has one result. */
  method AnswerCall(cfg: Config, maxTurns: int, depth: nat, ghost l: Limits, st0: Loop, call: Block)
    returns (st: Loop, ending: Ending)
    requires l == LimitsOf(cfg, maxTurns, depth)
    requires Tallied(l, st0.tally) && !WellFormed(st0.messages) && call.ToolCall?
    ensures Tallied(l, st.tally) && SameTurn(st, st0)
    ensures EndsInCall(st, st0, ending) && Dealt(cfg, depth, st, st0, call, ending)
    decreases Levels(cfg, depth), 1
  {
    st, ending := st0, GoOn;
    if call.name == COMPLETE_GOAL || call.name == REQUEST_HUMAN_INPUT {
      var completed: bool := *;
      st := Persist(l, st, InsideCall);
      st := st.(tally := EndedBy(st.tally, call.name));
      ending := End(
        if call.name == REQUEST_HUMAN_INPUT then HumanInputRequired
        else if completed then GoalCompleted
        else GoalBlocked);
    } else if call.name == RUN_SUBAGENT {
      var tally := CallSubagent(cfg, maxTurns, depth, l, st.tally);
      st := st.(tally := tally);
    } else {
      st, ending := CallTool(cfg, l, st, call.name);
    }
  }

  /** The loop over the tool calls of one response; each gets one result unless the session ends. */
  method AnswerCalls(cfg: Config, maxTurns: int, depth: nat, ghost l: Limits, st0: Loop, calls: seq<Block>)
    returns (st: Loop, results: seq<Block>, ending: Ending, answered: nat)
    requires l == LimitsOf(cfg, maxTurns, depth)
    requires Tallied(l, st0.tally) && !WellFormed(st0.messages)
    requires forall i :: 0 <= i < |calls| ==> calls[i].ToolCall?
    ensures Tallied(l, st.tally) && SameTurn(st, st0)
    ensures ending == GoOn ==> answered <= |calls| && AnsweredSo(results, calls[..answered])
    ensures ending == GoOn && answered < |calls| ==> st.aborted
    ensures ending.End? ==> answered < |calls| && st.tally.session.endedBy == Some(calls[answered].name)
    ensures EndsInCall(st, st0, ending)
    ensures answered <= |calls| && AllDealt(cfg, depth, st, st0, calls[..answered], ending)
    decreases Levels(cfg, depth), 2
  {
    st, results, ending, answered := st0, [], GoOn, 0;
    for i := 0 to |calls|
      invariant Tallied(l, st.tally) && SameTurn(st, st0) && SameSnapshot(st, st0)
      invariant ending == GoOn && answered == i && AnsweredSo(results, calls[..i])
      invariant AllDealt(cfg, depth, st, st0, calls[..i], GoOn)
    {
      var abortNow: bool := *;
      st := st.(aborted := st.aborted || abortNow);
      if st.aborted {
        return;
      }
      ghost var before := st;
      st, ending := AnswerCall(cfg, maxTurns, depth, l, st, calls[i]);
      DealtOneMore(cfg, depth, st, before, st0, calls, i, ending);
      if ending != GoOn {
        return;
      }
      var content: string := *;
      AnswerOne(results, calls, i, content);
      results, answered := results + [ToolResult(calls[i].id, content)], i + 1;
    }
  }

  // ------------------------------------------------------------------ the loop

  /** What a session is started with. */
  function Start(goal: string): seq<Message> {
    [Said(User, goal)]
  }

  lemma {:induction false} StartIsWellFormed(goal: string)
    ensures WellFormed(Start(goal))
  {
    SaidIsPlain(User, goal);
  }

  lemma {:induction false} NudgedIsWellFormed(ms: seq<Message>, content: seq<Block>, nudge: string)
    requires WellFormed(ms) && IsResponse(content) && CallIds(content) == []
    ensures WellFormed(ms + [Message(Assistant, content), Said(User, nudge)])
  {
    var first := ms + [Message(Assistant, content)];
    AppendPlain(ms, Message(Assistant, content));
    SaidIsPlain(User, nudge);
    AppendPlain(first, Said(User, nudge));
    assert first + [Said(User, nudge)] == ms + [Message(Assistant, content), Said(User, nudge)];
  }

  lemma {:induction false} AnsweredIsWellFormed(ms: seq<Message>, content: seq<Block>, results: seq<Block>)
    requires WellFormed(ms) && IsResponse(content) && CallIds(content) != []
    requires AnsweredSo(results, ToolCalls(content))
    ensures WellFormed(ms + [Message(Assistant, content)] + [Message(Tool, results)])
  {
    ToolCallsHaveTheIds(content);
    AppendAnswered(ms, Message(Assistant, content), Message(Tool, results));
    assert ms + [Message(Assistant, content), Message(Tool, results)] ==
      ms + [Message(Assistant, content)] + [Message(Tool, results)];
  }

  lemma {:induction false} CallIdsAll(calls: seq<Block>)
    requires forall i :: 0 <= i < |calls| ==> calls[i].ToolCall?
    ensures |CallIds(calls)| == |calls|
  {
    if calls != [] {
      CallIdsAll(calls[..|calls| - 1]);
    }
  }

  /** A response of which not every call was answered leaves a conversation that no model accepts. */
  lemma {:induction false} PartlyAnsweredDangles(ms: seq<Message>, content: seq<Block>, results: seq<Block>, answered: nat)
    requires answered < |ToolCalls(content)| && AnsweredSo(results, ToolCalls(content)[..answered])
    ensures !WellFormed(ms + [Message(Assistant, content)] + [Message(Tool, results)])
  {
    var calls, next := ToolCalls(content), ms + [Message(Assistant, content)] + [Message(Tool, results)];
    ToolCallsHaveTheIds(content);
    CallIdsAll(calls);
    CallIdsAll(calls[..answered]);
    assert next[|ms|] == Message(Assistant, content) && next[|ms| + 1] == Message(Tool, results);
    assert !InOrder(next, |ms|);
  }

  function Turned(t: Tally): Tally {
    t.(turn := t.turn + 1, session := t.session.(turns := t.session.turns + 1))
  }

  lemma {:induction false} TurnedTallies(l: Limits, t: Tally)
    requires Tallied(l, t) && t.turn < l.turns
    ensures Tallied(l, Turned(t))
  {
  }

  function Charged(t: Tally, usage: Usage): Tally {
    t.(usage := Add(t.usage, usage), session := t.session.(used := Add(t.session.used, usage)))
  }

  lemma {:induction false} ChargedTallies(l: Limits, t: Tally, usage: Usage)
    requires Tallied(l, t)
    ensures Tallied(l, Charged(t, usage))
  {
    AddReorders(t.session.used, ReportedAll(t.session.children), usage);
  }

  lemma {:induction false} CallsAreThere(calls: seq<Block>)
    requires calls != [] && forall i :: 0 <= i < |calls| ==> calls[i].ToolCall?
    ensures CallIds(calls) != []
  {
    CallIdsOf(calls, 0);
  }

  /** Between turns: an open snapshot is that of the call that ends the session, or of an abort. */
  predicate Between(st: Loop, ending: Ending) {
    match ending
    case GoOn =>
      && Usable(st) && st.tally.session.endedBy.None?
      && (NothingOpen(st.tally.session) || (st.aborted && SavedAt(st.tally.session, CutShort)))
    case End(outcome) => EndsAsSaved(outcome, st.tally.session)
    case ThrewError => NothingOpen(st.tally.session)
  }

  /** A response with tool calls: the calls are answered, the answers sent along, the session saved. */
  method UseTools(cfg: Config, maxTurns: int, depth: nat, ghost l: Limits, st0: Loop, content: seq<Block>)
    returns (st: Loop, ending: Ending)
    requires l == LimitsOf(cfg, maxTurns, depth)
    requires Tallied(l, st0.tally) && WellFormed(st0.messages) && NothingOpen(st0.tally.session)
    requires IsResponse(content) && CallIds(content) != []
    ensures Tallied(l, st.tally) && SameCounts(st.tally, Spoken(st0.tally))
    ensures st.textOnly == 0 && DenialsOk(cfg, st, st0, ending)
    ensures ending.End? ==> st.tally.session.endedBy.Some?
    ensures ending == GoOn ==> Continues(st.messages, st0.messages, content, Tool)
    ensures ending == GoOn ==> Saves(st.tally.session, st.messages) || st.tally.session.lost
    ensures Between(st, ending)
    decreases Levels(cfg, depth), 3
  {
    OpenCallsDangle(st0.messages, Message(Assistant, content));
    st := st0.(textOnly := 0, messages := st0.messages + [Message(Assistant, content)], tally := Spoken(st0.tally));
    var results, answered;
    st, results, ending, answered := AnswerCalls(cfg, maxTurns, depth, l, st, ToolCalls(content));
    if ending != GoOn {
      return;
    }
    var calls := ToolCalls(content);
    if answered == |calls| {
      assert calls[..answered] == calls;
      AnsweredIsWellFormed(st0.messages, content, results);
    } else {
      PartlyAnsweredDangles(st0.messages, content, results, answered);
    }
    st := st.(messages := st.messages + [Message(Tool, results)]);
    var throws: bool := *;
    if throws {
      return st, ThrewError;
    }
    st := Persist(l, st, if answered == |calls| then AllAnswered else CutShort);
  }

  /** The response, and one message of that role behind it. */
  predicate Continues(ms: seq<Message>, ms0: seq<Message>, content: seq<Block>, role: Role) {
    |ms| == |ms0| + 2 && ms[..|ms0| + 1] == ms0 + [Message(Assistant, content)] && ms[|ms0| + 1].role == role
  }

  predicate Saves(s: Session, ms: seq<Message>) {
    s.snapshot.Some? && s.snapshot.value.messages == ms
  }

  /** A turn with calls breaks the silence. */
  function Spoken(t: Tally): Tally {
    t.(session := t.session.(silent := 0))
  }

  function Silent(t: Tally): Tally {
    t.(session := t.session.(silent := t.session.silent + 1))
  }

  /** A response without tool calls: too many in a row are no progress, otherwise the agent is nudged. */
  method Nudge(cfg: Config, st0: Loop, content: seq<Block>) returns (st: Loop, ending: Ending)
    requires WellFormed(st0.messages) && IsResponse(content) && CallIds(content) == []
    ensures st == st0.(tally := Silent(st0.tally), textOnly := st0.textOnly + 1, messages := st.messages)
    ensures WellFormed(st.messages)
    ensures ending == if st.textOnly < cfg.maxTextOnly then GoOn else End(GoalBlocked)
    ensures ending == GoOn ==> Continues(st.messages, st0.messages, content, User)
  {
    st := st0.(textOnly := st0.textOnly + 1, tally := Silent(st0.tally));
    if st.textOnly >= cfg.maxTextOnly {
      return st, End(GoalBlocked);
    }
    var nudge: string := *;
    NudgedIsWellFormed(st.messages, content, nudge);
    st, ending := st.(messages := st.messages + [Message(Assistant, content), Said(User, nudge)]), GoOn;
  }

  /** The counters of the loop are those of the session. */
  predicate Counted(cfg: Config, st: Loop, ending: Ending) {
    && st.textOnly == st.tally.session.silent && st.denials == st.tally.session.denied
    && CountsOk(cfg, ending, st.tally.session)
  }

  /**
   * What a response makes of the conversation: it goes on, and behind tool calls that have used many
   * tokens it is compacted, if it can be and there is a summary.
   */
  ghost predicate ResponseSent(cfg: Config, st: Loop, st0: Loop, content: seq<Block>, usage: Usage, summary: Option<string>) {
    if ToolCalls(content) == [] then Continues(st.messages, st0.messages, content, User)
    else
      exists ms :: Continues(ms, st0.messages, content, Tool)
        && if usage.input >= cfg.triggerTokens && Compacts(ms, cfg.keepRecent, summary)
           then |st.messages| == Keep(cfg.keepRecent) + 1 && st.messages[0] == Said(User, summary.value)
           else st.messages == ms
  }

  /** How a turn may end, by the model's answer. */
  predicate EndsByAnswer(ending: Ending, answer: Invocation) {
    match answer
    case AbortedCall => ending in {End(Cancelled), End(BudgetExhausted)}
    case ModelError => ending == End(FatalFailure)
    case Response(content, _) =>
      && ending != End(Cancelled) && ending != End(FatalFailure)
      && (ToolCalls(content) == [] ==> ending in {GoOn, End(GoalBlocked), End(BudgetExhausted)})
  }

  lemma {:induction false} AskedInTurn(asked: nat, attempts: nat, turns: nat, max: nat)
    requires turns >= 1 && asked <= (turns - 1) * max && attempts <= max
    ensures asked + attempts <= turns * max
  {
    assert turns * max == (turns - 1) * max + max;
  }

  /** Before a turn: the conversation can be sent, and everything is counted. */
  predicate AtTurn(cfg: Config, l: Limits, st: Loop) {
    && Tallied(l, st.tally) && WellFormed(st.messages) && NothingOpen(st.tally.session)
    && st.textOnly < st.tally.turn && Counted(cfg, st, GoOn)
  }

  lemma {:induction false} NextTurn(cfg: Config, l: Limits, st: Loop)
    requires Tallied(l, st.tally) && Between(st, GoOn) && !st.aborted && Counted(cfg, st, GoOn) && st.tally.turn < l.turns
    ensures AtTurn(cfg, l, st.(tally := Turned(st.tally)))
    ensures |Turned(st.tally).session.sent| <= (Turned(st.tally).turn - 1) * MaxAttempts(cfg)
  {
    TurnedTallies(l, st.tally);
    assert st.tally.session.turns * MaxAttempts(cfg) <= (st.tally.session.turns + 1) * MaxAttempts(cfg);
  }

  /** What becomes of a response: it is paid for, and its calls are answered or their absence is pointed out. */
  method UseResponse(
    cfg: Config, maxTurns: int, depth: nat, ghost l: Limits, st0: Loop, content: seq<Block>, usage: Usage)
    returns (st: Loop, ending: Ending, summary: Option<string>)
    requires l == LimitsOf(cfg, maxTurns, depth)
    requires AtTurn(cfg, l, st0) && IsResponse(content)
    ensures Tallied(l, st.tally) && st.tally.turn == st0.tally.turn
    ensures st.tally.session.used == Add(st0.tally.session.used, usage)
    ensures Between(st, ending) && Counted(cfg, st, ending)
    ensures EndsByAnswer(ending, Response(content, usage))
    ensures ending == GoOn ==> ResponseSent(cfg, st, st0, content, usage, summary)
    decreases Levels(cfg, depth), 4
  {
    ChargedTallies(l, st0.tally, usage);
    st, summary := st0.(tally := Charged(st0.tally, usage)), *;
    var exhausted: bool := *;
    if exhausted {
      return st, End(BudgetExhausted), summary;
    }
    ToolCallsHaveTheIds(content);
    if ToolCalls(content) == [] {
      st, ending := Nudge(cfg, st, content);
      return;
    }
    CallsAreThere(ToolCalls(content));
    st, ending := UseTools(cfg, maxTurns, depth, l, st, content);
    if ending == GoOn && usage.input >= cfg.triggerTokens {
      var compacted, _ := Compact(st.messages, cfg.keepRecent, summary);
      st := st.(messages := compacted);
    }
  }

  /** One turn, from the model's answer to the next conversation. */
  method TakeTurn(cfg: Config, maxTurns: int, depth: nat, ghost l: Limits, st0: Loop)
    returns (st: Loop, ending: Ending, answer: Invocation, summary: Option<string>)
    requires l == LimitsOf(cfg, maxTurns, depth)
    requires AtTurn(cfg, l, st0) && |st0.tally.session.sent| <= (st0.tally.turn - 1) * MaxAttempts(cfg)
    ensures Tallied(l, st.tally) && st.tally.turn == st0.tally.turn
    ensures Between(st, ending) && Counted(cfg, st, ending)
    ensures EndsByAnswer(ending, answer) && (ending == GoOn ==> answer.Response?)
    ensures ending == GoOn ==> ResponseSent(cfg, st, st0, answer.content, answer.usage, summary)
    ensures st.tally.session.used ==
      if answer.Response? then Add(st0.tally.session.used, answer.usage) else st0.tally.session.used
    decreases Levels(cfg, depth), 5
  {
    var attempts, retryable;
    summary := None;
    st, answer, attempts, retryable := InvokeWithRetry(cfg, l, st0);
    AskedInTurn(|st0.tally.session.sent|, attempts, st0.tally.turn, MaxAttempts(cfg));
    match answer
    case AbortedCall =>
      var timedOut: bool := *;
      ending := End(if timedOut then BudgetExhausted else Cancelled);
    case ModelError =>
      ending := End(FatalFailure);
    case Response(content, usage) =>
      st, ending, summary := UseResponse(cfg, maxTurns, depth, l, st, content, usage);
  }

  /** What the answers of a session's turns used. */
  function UsedBy(answers: seq<Invocation>): Usage {
    if answers == [] then Usage(0, 0)
    else
      var last := answers[|answers| - 1];
      Add(UsedBy(answers[..|answers| - 1]), if last.Response? then last.usage else Usage(0, 0))
  }

  /** A session has one answer in each turn, and goes on only after a response. */
  predicate InTurns(answers: seq<Invocation>, s: Session, goesOn: bool) {
    && |answers| == s.turns && s.used == UsedBy(answers)
    && (forall i :: 0 <= i < |answers| - 1 ==> answers[i].Response?)
    && (goesOn && answers != [] ==> answers[|answers| - 1].Response?)
  }

  /** The last answer has led to the outcome, or else an abort, or the limit of turns. */
  predicate LedBy(outcome: Outcome, answers: seq<Invocation>, turns: int, aborted: bool) {
    || (answers != [] && EndsByAnswer(End(outcome), answers[|answers| - 1]))
    || (aborted && outcome in {Cancelled, BudgetExhausted})
    || (|answers| >= turns && outcome == BudgetExhausted)
  }

  predicate Led(answers: seq<Invocation>, st: Loop, ending: Ending, turns: int) {
    && InTurns(answers, st.tally.session, ending == GoOn)
    && (ending.End? ==> LedBy(ending.outcome, answers, turns, st.aborted))
  }

  /**
   * A session from a conversation on. Whatever model, tools, hooks and users do, every conversation
   * sent to the model in the tree of sessions is well-formed, the tree keeps to its bound on turns,
   * what is reported is what was spent outside thrown errors, and the conversation saved last is
   * well-formed exactly if it was saved with every call answered.
   */
  method RunLoop(cfg: Config, maxTurns: int, depth: nat, initial: seq<Message>)
    returns (result: AgentResult, session: Session, answers: seq<Invocation>, aborted: bool)
    requires WellFormed(initial)
    ensures RunOk(cfg, maxTurns, depth, result, session)
    ensures InTurns(answers, session, false)
    ensures !session.threw ==> LedBy(result.outcome, answers, maxTurns, aborted)
    decreases Levels(cfg, depth), 6
  {
    ghost var l := LimitsOf(cfg, maxTurns, depth);
    var st := Loop(initial, NewTally(depth), 0, 0, false);
    var throws: bool := *;
    var ending := if throws then ThrewError else GoOn;
    answers := [];
    while ending == GoOn
      invariant Tallied(l, st.tally) && Between(st, ending) && Counted(cfg, st, ending)
      invariant Led(answers, st, ending, maxTurns)
      decreases NonNegative(maxTurns) - st.tally.turn, ending == GoOn
    {
      var abortNow: bool, timedOut: bool := *, *;
      st := st.(aborted := st.aborted || abortNow);
      if st.aborted {
        ending := End(if timedOut then BudgetExhausted else Cancelled);
      } else if st.tally.turn >= maxTurns {
        ending := End(BudgetExhausted);
      } else {
        NextTurn(cfg, l, st);
        ghost var before := st;
        var answer, summary;
        st, ending, answer, summary := TakeTurn(cfg, maxTurns, depth, l, st.(tally := Turned(st.tally)));
        AnsweredOnce(answers, answer, maxTurns, before, st, ending);
        answers := answers + [answer];
      }
    }
    session, aborted := st.tally.session, st.aborted;
    if ending.ThrewError? {
      ThrownOk(cfg, maxTurns, depth, st.tally);
      result, session := ThrownResult(), Thrown(session);
    } else {
      FinishedOk(cfg, maxTurns, depth, st.tally, ending.outcome);
      result := Finish(ending.outcome, st.tally);
    }
  }

  lemma {:induction false} AnsweredOnce(
    answers: seq<Invocation>, answer: Invocation, turns: int, before: Loop, st: Loop, ending: Ending)
    requires InTurns(answers, before.tally.session, true) && st.tally.session.turns == before.tally.session.turns + 1
    requires EndsByAnswer(ending, answer) && (ending == GoOn ==> answer.Response?)
    requires st.tally.session.used ==
      if answer.Response? then Add(before.tally.session.used, answer.usage) else before.tally.session.used
    ensures Led(answers + [answer], st, ending, turns)
  {
    assert (answers + [answer])[..|answers|] == answers;
  }
}
