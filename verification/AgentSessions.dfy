/** What a tree of agent sessions did: its model calls, turns and token usage. */
module AgentSessions {
  import opened Wrappers
  import opened Conversation

  datatype Usage = Usage(input: nat, output: nat)

  function Add(a: Usage, b: Usage): Usage {
    Usage(a.input + b.input, a.output + b.output)
  }

  /**
   * When a conversation was saved: while a call was dealt with, after an abort between calls had
   * cut their answers short, or with every call answered.
   */
  datatype SavePoint = InsideCall | CutShort | AllAnswered

  datatype Snapshot = Snapshot(messages: seq<Message>, at: SavePoint)

  /**
   * A session: every conversation it sent to the model, what the responses
   * to its turns used, its sub-agents' sessions, its turns, whether it ended in a thrown error,
   * the conversation it saved last, whether something was not saved that should have been, the name
   * of the tool call that ended it, if one did, how many calls policy denied it, and for how many turns
   * it has made no call.
   */
  datatype Session = Session(
    sent: seq<seq<Message>>,
    used: Usage,
    children: Sessions,
    turns: nat,
    threw: bool,
    snapshot: Option<Snapshot>,
    lost: bool,
    endedBy: Option<string>,
    denied: nat,
    silent: nat)

  /** Sessions at one depth, in the order they were started. */
  datatype Sessions = NoneYet(depth: nat) | Then(before: Sessions, last: Session)

  function NumberOf(ss: Sessions): nat {
    match ss
    case NoneYet(_) => 0
    case Then(before, _) => NumberOf(before) + 1
  }

  function TurnsIn(s: Session): nat {
    s.turns + TurnsInAll(s.children)
  }

  function TurnsInAll(ss: Sessions): nat {
    match ss
    case NoneYet(_) => 0
    case Then(before, last) => TurnsInAll(before) + TurnsIn(last)
  }

  /** The usage of every response to a turn in the tree. */
  function Spent(s: Session): Usage {
    Add(s.used, SpentAll(s.children))
  }

  function SpentAll(ss: Sessions): Usage {
    match ss
    case NoneYet(_) => Usage(0, 0)
    case Then(before, last) => Add(SpentAll(before), Spent(last))
  }

  /** The usage a session reports: none if it threw, and otherwise with what its sub-agents report. */
  function Reported(s: Session): Usage {
    if s.threw then Usage(0, 0) else Add(s.used, ReportedAll(s.children))
  }

  function ReportedAll(ss: Sessions): Usage {
    match ss
    case NoneYet(_) => Usage(0, 0)
    case Then(before, last) => Add(ReportedAll(before), Reported(last))
  }

  /** What is spent below thrown errors. */
  function Lost(s: Session): Usage {
    if s.threw then Spent(s) else LostAll(s.children)
  }

  function LostAll(ss: Sessions): Usage {
    match ss
    case NoneYet(_) => Usage(0, 0)
    case Then(before, last) => Add(LostAll(before), Lost(last))
  }

  predicate NoneThrew(s: Session) {
    !s.threw && NoneThrewIn(s.children)
  }

  predicate NoneThrewIn(ss: Sessions) {
    match ss
    case NoneYet(_) => true
    case Then(before, last) => NoneThrewIn(before) && NoneThrew(last)
  }

  lemma {:induction false} AddRegroups(a: Usage, b: Usage, c: Usage, d: Usage)
    ensures Add(Add(a, b), Add(c, d)) == Add(Add(a, c), Add(b, d))
  {
  }

  lemma {:induction false} AddReorders(a: Usage, b: Usage, c: Usage)
    ensures Add(Add(a, b), c) == Add(a, Add(b, c)) == Add(Add(a, c), b)
  {
  }

  lemma {:induction false} ReportedAndLostIsSpent(s: Session)
    ensures Add(Reported(s), Lost(s)) == Spent(s)
    decreases s
  {
    if !s.threw {
      AllReportedAndLostIsSpent(s.children);
      AddReorders(s.used, ReportedAll(s.children), LostAll(s.children));
    }
  }

  lemma {:induction false} AllReportedAndLostIsSpent(ss: Sessions)
    ensures Add(ReportedAll(ss), LostAll(ss)) == SpentAll(ss)
    decreases ss
  {
    if ss.Then? {
      AllReportedAndLostIsSpent(ss.before);
      ReportedAndLostIsSpent(ss.last);
      AddRegroups(ReportedAll(ss.before), Reported(ss.last), LostAll(ss.before), Lost(ss.last));
    }
  }

  lemma {:induction false} NoneThrewNothingLost(s: Session)
    requires NoneThrew(s)
    ensures Lost(s) == Usage(0, 0)
    decreases s
  {
    AllNoneThrewNothingLost(s.children);
  }

  lemma {:induction false} AllNoneThrewNothingLost(ss: Sessions)
    requires NoneThrewIn(ss)
    ensures LostAll(ss) == Usage(0, 0)
    decreases ss
  {
    if ss.Then? {
      AllNoneThrewNothingLost(ss.before);
      NoneThrewNothingLost(ss.last);
    }
  }

  /**
   * The reported usage is all that was spent exactly if nothing was spent below a thrown error,
   * and so in particular if no session of the tree threw.
   */
  lemma {:induction false} UsageIsConserved(s: Session)
    ensures Reported(s) == Spent(s) <==> Lost(s) == Usage(0, 0)
    ensures NoneThrew(s) ==> Reported(s) == Spent(s)
  {
    ReportedAndLostIsSpent(s);
    if NoneThrew(s) {
      NoneThrewNothingLost(s);
    }
  }

  predicate AllWellFormed(sent: seq<seq<Message>>) {
    forall i :: 0 <= i < |sent| ==> WellFormed(sent[i])
  }

  /** Every conversation that a session of the tree sent to the model was well-formed. */
  predicate InvocationsOk(s: Session) {
    AllWellFormed(s.sent) && InvocationsOkIn(s.children)
  }

  predicate InvocationsOkIn(ss: Sessions) {
    match ss
    case NoneYet(_) => true
    case Then(before, last) => InvocationsOkIn(before) && InvocationsOk(last)
  }

  // -------------------------------------------------------------- turn bounds

  function NonNegative(n: int): nat {
    if n < 0 then 0 else n
  }

  const SUBAGENT_TURNS := 25

  function ChildTurns(maxTurns: int): (n: int)
    ensures n <= maxTurns && n <= 25 && n in {maxTurns, 25}
  {
    if maxTurns < SUBAGENT_TURNS then maxTurns else SUBAGENT_TURNS
  }

  /** Turns in a tree with so many turns and sub-agents a session, over so many further levels. */
  function TurnBound(maxTurns: int, subagents: nat, levels: nat): nat
    decreases levels
  {
    if levels == 0 then NonNegative(maxTurns)
    else NonNegative(maxTurns) + subagents * TurnBound(ChildTurns(maxTurns), subagents, levels - 1)
  }

  predicate AllWithin(ss: Sessions, bound: nat) {
    match ss
    case NoneYet(_) => true
    case Then(before, last) => AllWithin(before, bound) && TurnsIn(last) <= bound
  }

  lemma {:induction false} ChildrenWithin(ss: Sessions, bound: nat)
    requires AllWithin(ss, bound)
    ensures TurnsInAll(ss) <= NumberOf(ss) * bound
  {
    if ss.Then? {
      ChildrenWithin(ss.before, bound);
      assert NumberOf(ss) * bound == NumberOf(ss.before) * bound + bound;
    }
  }

  lemma {:induction false} MoreChildrenMore(a: nat, b: nat, bound: nat)
    requires a <= b
    ensures a * bound <= b * bound
  {
  }

  lemma {:induction false} TreeWithin(s: Session, maxTurns: int, subagents: nat, levels: nat)
    requires s.turns <= NonNegative(maxTurns)
    requires levels == 0 ==> s.children.NoneYet?
    requires levels > 0 ==> NumberOf(s.children) <= subagents
    requires levels > 0 ==> AllWithin(s.children, TurnBound(ChildTurns(maxTurns), subagents, levels - 1))
    ensures TurnsIn(s) <= TurnBound(maxTurns, subagents, levels)
  {
    if levels > 0 {
      var bound := TurnBound(ChildTurns(maxTurns), subagents, levels - 1);
      ChildrenWithin(s.children, bound);
      MoreChildrenMore(NumberOf(s.children), subagents, bound);
    }
  }
}
