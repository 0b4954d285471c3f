/** When the runs of a node's children decide its wait, and that the first decision is the last. */
module ChildJoins {
  import opened Wrappers
  import opened GraphModel

  datatype ChildRun = Pending | Succeeded | NotSucceeded

  function SucceededIn(children: seq<ChildRun>): nat {
    if children == [] then 0
    else SucceededIn(children[1..]) + (if children[0].Succeeded? then 1 else 0)
  }

  function NotSucceededIn(children: seq<ChildRun>): nat {
    if children == [] then 0
    else NotSucceededIn(children[1..]) + (if children[0].NotSucceeded? then 1 else 0)
  }

  function Needed(join: Join, total: nat): int {
    if join.n.Some? then join.n.value else total
  }

  /** Whether the join has been decided, and how. */
  function Decision(join: Join, children: seq<ChildRun>): Option<bool> {
    var total, succeeded, failed := |children|, SucceededIn(children), NotSucceededIn(children);
    if join.mode.AnyOf? && succeeded >= 1 then Some(true)
    else if join.mode.MinOf? && succeeded >= Needed(join, total) then Some(true)
    else if join.mode.AllOf? && succeeded == total then Some(true)
    else if succeeded + failed == total then Some(false)
    else if join.mode.AllOf? && failed > 0 then Some(false)
    else None
  }

  /** Children settle and stay settled. */
  predicate Later(before: seq<ChildRun>, after: seq<ChildRun>) {
    |before| == |after| && forall i :: 0 <= i < |before| ==> before[i] == Pending || after[i] == before[i]
  }

  predicate AllSettled(children: seq<ChildRun>) {
    forall i :: 0 <= i < |children| ==> children[i] != Pending
  }

  lemma {:induction false} CountsAddUp(children: seq<ChildRun>)
    ensures SucceededIn(children) + NotSucceededIn(children) <= |children|
    ensures SucceededIn(children) + NotSucceededIn(children) == |children| <==> AllSettled(children)
  {
    if children != [] {
      CountsAddUp(children[1..]);
      assert AllSettled(children) <==> children[0] != Pending && AllSettled(children[1..]) by {
        assert forall i :: 1 <= i < |children| ==> children[i] == children[1..][i - 1];
      }
    }
  }

  lemma {:induction false} CountsGrow(before: seq<ChildRun>, after: seq<ChildRun>)
    requires Later(before, after)
    ensures SucceededIn(before) <= SucceededIn(after) && NotSucceededIn(before) <= NotSucceededIn(after)
  {
    if before != [] {
      CountsGrow(before[1..], after[1..]);
    }
  }

  /** A decision made early is the one that is made whenever the children are looked at later. */
  lemma {:induction false} DecisionIsFinal(join: Join, before: seq<ChildRun>, after: seq<ChildRun>)
    requires Later(before, after) && Decision(join, before).Some?
    ensures Decision(join, after) == Decision(join, before)
  {
    CountsGrow(before, after);
    CountsAddUp(before);
    CountsAddUp(after);
    if AllSettled(before) {
      assert after == before;
    }
  }

  lemma {:induction false} SuccessesExist(children: seq<ChildRun>)
    ensures SucceededIn(children) >= 1 <==> Succeeded in children
    ensures SucceededIn(children) == |children| <==> forall c :: c in children ==> c == Succeeded
    ensures SucceededIn(children) <= |children|
  {
    if children != [] {
      SuccessesExist(children[1..]);
      assert forall c :: c in children <==> c == children[0] || c in children[1..];
      assert children[0] in children;
    }
  }

  /** Once every child has settled the join is decided, by its mode's meaning. */
  lemma {:induction false} SettledMeansDecided(join: Join, children: seq<ChildRun>)
    requires AllSettled(children)
    ensures Decision(join, children) == Some(
      match join.mode
      case AnyOf => Succeeded in children
      case AllOf => forall c :: c in children ==> c == Succeeded
      case MinOf => |SuccessesOf(children)| >= (match join.n case Some(n) => n case None => |children|))
  {
    CountsAddUp(children);
    SuccessesExist(children);
    SuccessesCounted(children);
  }

  /** The children that have succeeded. */
  function SuccessesOf(children: seq<ChildRun>): set<nat> {
    set i: nat | i < |children| && children[i] == Succeeded
  }

  lemma {:induction false} SuccessesCounted(children: seq<ChildRun>)
    ensures |SuccessesOf(children)| == SucceededIn(children)
    decreases |children|
  {
    if children != [] {
      var n := |children| - 1;
      SuccessesCounted(children[..n]);
      CountSnoc(children[..n], children[n]);
      assert children[..n] + [children[n]] == children;
      assert SuccessesOf(children) == SuccessesOf(children[..n]) + (if children[n] == Succeeded then {n} else {});
    }
  }

  lemma {:induction false} CountSnoc(children: seq<ChildRun>, c: ChildRun)
    ensures SucceededIn(children + [c]) == SucceededIn(children) + (if c == Succeeded then 1 else 0)
  {
    if children == [] {
      assert [c][1..] == [];
    } else {
      CountSnoc(children[1..], c);
      assert (children + [c])[1..] == children[1..] + [c];
    }
  }

  /**
   * How early a join is decided: `any` by the first success, `all` by the first failure, `min` by
   * enough successes; otherwise only when the last child has settled.
   */
  lemma {:induction false} DecidedWhen(join: Join, children: seq<ChildRun>)
    requires children != []
    ensures Decision(join, children).Some? <==>
      || Pending !in children
      || (match join.mode
          case AnyOf => Succeeded in children
          case AllOf => NotSucceeded in children
          case MinOf => |SuccessesOf(children)| >= (match join.n case Some(n) => n case None => |children|))
  {
    CountsAddUp(children);
    SuccessesExist(children);
    SuccessesCounted(children);
    FailuresExist(children);
    assert AllSettled(children) <==> Pending !in children;
  }

  lemma {:induction false} FailuresExist(children: seq<ChildRun>)
    ensures NotSucceededIn(children) >= 1 <==> NotSucceeded in children
  {
    if children != [] {
      FailuresExist(children[1..]);
      assert forall c :: c in children <==> c == children[0] || c in children[1..];
      assert children[0] in children;
    }
  }

  // ------------------------------------------------------ the parent's wait

  /**
   * What happens around a wait for children, in any order: its row is saved once the parent's tick
   * has returned, children settle, and who finishes regularly looks at the open waits afterwards. A
   * child that fails by an error or is cancelled while parked settles without a look. The parent's
   * own end withdraws the row.
   */
  datatype Event = RowSaved | Settles(child: nat) | Looks | RowWithdrawn

  datatype WaitRow = Unsaved | Saved | Withdrawn

  /** The row after some events, as long as nobody has satisfied it. */
  function RowAfter(events: seq<Event>): WaitRow {
    if events == [] then Unsaved
    else
      var row := RowAfter(events[..|events| - 1]);
      match events[|events| - 1]
      case RowSaved => if row == Unsaved then Saved else row
      case RowWithdrawn => if row == Saved then Withdrawn else row
      case _ => row
  }

  function ChildrenAfter(outcomes: seq<ChildRun>, events: seq<Event>): seq<ChildRun> {
    seq(|outcomes|, i requires 0 <= i < |outcomes| => if Settles(i) in events then outcomes[i] else Pending)
  }

  /** A look that finds the row saved and not withdrawn, and its join decided. */
  predicate FindsDecided(join: Join, outcomes: seq<ChildRun>, events: seq<Event>, k: int) {
    && 0 <= k < |events| && events[k] == Looks
    && RowAfter(events[..k]) == Saved
    && Decision(join, ChildrenAfter(outcomes, events[..k])).Some?
  }

  /** Some look finds the wait decided. */
  ghost predicate Noticed(join: Join, outcomes: seq<ChildRun>, events: seq<Event>) {
    exists k :: FindsDecided(join, outcomes, events, k)
  }

  lemma {:induction false} NoticedSnoc(join: Join, outcomes: seq<ChildRun>, events: seq<Event>, e: Event)
    ensures Noticed(join, outcomes, events + [e]) <==>
      Noticed(join, outcomes, events) || FindsDecided(join, outcomes, events + [e], |events|)
  {
    var more := events + [e];
    forall k | 0 <= k < |events|
      ensures FindsDecided(join, outcomes, events, k) <==> FindsDecided(join, outcomes, more, k)
    {
      assert more[..k] == events[..k];
    }
  }

  /** Children only settle as events go by, each with its own outcome. */
  lemma {:induction false} MoreEventsLater(outcomes: seq<ChildRun>, events: seq<Event>, j: nat, k: nat)
    requires j <= k <= |events|
    ensures Later(ChildrenAfter(outcomes, events[..j]), ChildrenAfter(outcomes, events[..k]))
    ensures Later(ChildrenAfter(outcomes, events[..k]), outcomes)
  {
    assert events[..j] <= events[..k];
  }

  lemma {:induction false} SettlesOne(outcomes: seq<ChildRun>, events: seq<Event>, e: Event)
    ensures ChildrenAfter(outcomes, events + [e]) ==
      if e.Settles? && e.child < |outcomes| then ChildrenAfter(outcomes, events)[e.child := outcomes[e.child]]
      else ChildrenAfter(outcomes, events)
  {
    assert forall i :: Settles(i) in events + [e] <==> Settles(i) in events || e == Settles(i);
  }

  /**
   * Whatever happens in whatever order, the wait is satisfied at most once and by nothing but the
   * outcome that all children together come to; and it is satisfied exactly if a look finds it decided.
   */
  method WatchChildren(join: Join, outcomes: seq<ChildRun>, events: seq<Event>)
    returns (satisfied: nat, answer: Option<bool>)
    ensures satisfied == (if Noticed(join, outcomes, events) then 1 else 0)
    ensures answer == if Noticed(join, outcomes, events) then Decision(join, outcomes) else None
  {
    var children := seq(|outcomes|, i requires 0 <= i < |outcomes| => Pending);
    var row := Unsaved;
    satisfied, answer := 0, None;
    for k := 0 to |events|
      invariant children == ChildrenAfter(outcomes, events[..k]) && row == RowAfter(events[..k])
      invariant satisfied == (if Noticed(join, outcomes, events[..k]) then 1 else 0)
      invariant answer == if Noticed(join, outcomes, events[..k]) then Decision(join, outcomes) else None
    {
      var e := events[k];
      assert events[..k + 1] == events[..k] + [e] && (events[..k] + [e])[..k] == events[..k];
      NoticedSnoc(join, outcomes, events[..k], e);
      SettlesOne(outcomes, events[..k], e);
      match e {
        case RowSaved =>
          row := if row == Unsaved then Saved else row;
        case RowWithdrawn =>
          row := if row == Saved then Withdrawn else row;
        case Settles(i) =>
          if i < |outcomes| {
            children := children[i := outcomes[i]];
          }
        case Looks =>
          var decided := Decision(join, children);
          if row == Saved && satisfied == 0 && decided.Some? {
            MoreEventsLater(outcomes, events, k, k);
            DecisionIsFinal(join, children, outcomes);
            satisfied, answer := satisfied + 1, decided;
          }
      }
    }
    assert events[..|events|] == events;
  }

  /** The row stands exactly if it was saved at some point and not withdrawn since it first was. */
  lemma {:induction false} RowStandsIff(events: seq<Event>)
    ensures RowAfter(events) == Saved <==> exists k :: SavedFirstAt(events, k) && forall j :: k < j < |events| ==> events[j] != RowWithdrawn
    ensures RowAfter(events) == Unsaved <==> RowSaved !in events
  {
    if events != [] {
      var n := |events| - 1;
      var front := events[..n];
      RowStandsIff(front);
      assert events == front + [events[n]];
      forall k | 0 <= k < n
        ensures SavedFirstAt(front, k) <==> SavedFirstAt(events, k)
      {
      }
      if RowAfter(front) == Unsaved {
        assert forall k :: 0 <= k < n ==> front[k] == events[k] && events[k] != RowSaved;
        if events[n] == RowSaved {
          assert SavedFirstAt(events, n);
        }
      } else if RowAfter(front) == Saved {
        var k :| SavedFirstAt(front, k) && forall j :: k < j < |front| ==> front[j] != RowWithdrawn;
        assert SavedFirstAt(events, k);
        assert forall j :: k < j < n ==> events[j] == front[j];
      }
    }
  }

  predicate SavedFirstAt(events: seq<Event>, k: int) {
    0 <= k < |events| && events[k] == RowSaved && forall j :: 0 <= j < k ==> events[j] != RowSaved
  }

  // ------------------------------------------------ when the wait is satisfied

  /** The last look that finds the row saved, or -1. */
  function LastLook(events: seq<Event>): (k: int)
    ensures -1 <= k < |events|
    ensures k >= 0 ==> events[k] == Looks && RowAfter(events[..k]) == Saved
    ensures forall j :: k < j < |events| && events[j] == Looks ==> RowAfter(events[..j]) != Saved
  {
    if events == [] then -1
    else
      var front := events[..|events| - 1];
      assert forall j :: 0 <= j < |front| ==> front[..j] == events[..j];
      if events[|events| - 1] == Looks && RowAfter(front) == Saved then |events| - 1 else LastLook(front)
  }

  /** Looks can only find more than those before: the wait is satisfied exactly if the last one finds it decided. */
  lemma {:induction false} LastLookDecides(join: Join, outcomes: seq<ChildRun>, events: seq<Event>)
    ensures Noticed(join, outcomes, events) <==>
      LastLook(events) >= 0 && Decision(join, ChildrenAfter(outcomes, events[..LastLook(events)])).Some?
  {
    var last := LastLook(events);
    if k :| FindsDecided(join, outcomes, events, k) {
      assert k <= last;
      var before, after := ChildrenAfter(outcomes, events[..k]), ChildrenAfter(outcomes, events[..last]);
      MoreEventsLater(outcomes, events, k, last);
      DecisionIsFinal(join, before, after);
    }
    if last >= 0 && Decision(join, ChildrenAfter(outcomes, events[..last])).Some? {
      assert FindsDecided(join, outcomes, events, last);
    }
  }

  predicate AllSettle(children: nat, events: seq<Event>) {
    forall i :: 0 <= i < children ==> Settles(i) in events
  }

  /** Who looks at the saved row after every child has settled satisfies the wait, if nobody has before. */
  lemma {:induction false} LookingLastSuffices(join: Join, outcomes: seq<ChildRun>, events: seq<Event>, k: nat)
    requires AllSettled(outcomes) && k < |events| && events[k] == Looks
    requires RowAfter(events[..k]) == Saved && AllSettle(|outcomes|, events[..k])
    ensures Noticed(join, outcomes, events)
  {
    assert ChildrenAfter(outcomes, events[..k]) == outcomes;
    SettledMeansDecided(join, outcomes);
    assert FindsDecided(join, outcomes, events, k);
  }

  /** A minimum of none is reached before anybody settles. */
  predicate NeedsNone(join: Join) {
    join.mode.MinOf? && join.n.Some? && join.n.value <= 0
  }

  /** The wait for one child is satisfied exactly if a look at the saved row follows its end. */
  lemma {:induction false} OneChildNoticedIff(join: Join, outcome: ChildRun, events: seq<Event>)
    requires outcome != Pending
    ensures Noticed(join, [outcome], events) <==>
      exists k :: 0 <= k < |events| && events[k] == Looks && RowAfter(events[..k]) == Saved
        && (Settles(0) in events[..k] || NeedsNone(join))
  {
    forall k | 0 <= k < |events| && events[k] == Looks && RowAfter(events[..k]) == Saved
      ensures FindsDecided(join, [outcome], events, k) <==> Settles(0) in events[..k] || NeedsNone(join)
    {
      var children := ChildrenAfter([outcome], events[..k]);
      assert children == [if Settles(0) in events[..k] then outcome else Pending];
      assert SucceededIn(children[1..]) == NotSucceededIn(children[1..]) == 0;
    }
    if k :| FindsDecided(join, [outcome], events, k) {
      assert events[k] == Looks && (Settles(0) in events[..k] || NeedsNone(join));
    }
  }

  /**
   * Two ways for a wait to stay open although its only child has settled: the child is done before
   * the parent's tick returns and the row is saved, or it ends without a look.
   */
  lemma {:induction false} SettledUnnoticed(join: Join, outcome: ChildRun)
    ensures !Noticed(join, [outcome], [Settles(0), Looks, RowSaved])
    ensures !Noticed(join, [outcome], [RowSaved, Settles(0)])
  {
    var early := [Settles(0), Looks, RowSaved];
    assert early[..1] == [Settles(0)] && [Settles(0)][..0] == [];
    LastLookDecides(join, [outcome], early);
    assert RowAfter(early[..1]) == Unsaved;
  }
}
