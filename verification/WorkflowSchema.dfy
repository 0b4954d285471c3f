/** Structural validation of step workflows: unique ids, known dependencies, no dependency cycle. */
module WorkflowSchema {
  import opened Wrappers
  import opened Digraph

  /** The two fields of a raw step that structural validation looks at. */
  datatype RawStep = RawStep(id: string, dependsOn: seq<string>)

  datatype Issue =
    | DuplicateId(index: nat, firstSeenAt: nat)
    | UnknownDependency(index: nat, depIndex: nat)
    | DependencyCycle(cycle: seq<string>)

  function Ids(steps: seq<RawStep>): set<string> {
    set i | 0 <= i < |steps| :: steps[i].id
  }

  function Known(deps: seq<string>, ids: set<string>): (r: seq<string>)
    ensures forall d :: d in r <==> d in deps && d in ids
  {
    if deps == [] then []
    else if deps[0] in ids then [deps[0]] + Known(deps[1..], ids)
    else Known(deps[1..], ids)
  }

  /** Edges from a step to its known dependencies; of two steps with one id the later counts. */
  function DependencyGraph(steps: seq<RawStep>, ids: set<string>): (g: Graph)
    ensures g.Keys == Ids(steps)
    ensures forall v, k :: v in g && 0 <= k < |g[v]| ==> g[v][k] in ids
  {
    if steps == [] then map[]
    else
      var n := |steps| - 1;
      var g := DependencyGraph(steps[..n], ids);
      assert Ids(steps) == Ids(steps[..n]) + {steps[n].id};
      g[steps[n].id := Known(steps[n].dependsOn, ids)]
  }

  predicate UniqueIds(steps: seq<RawStep>) {
    forall i, j :: 0 <= i < j < |steps| ==> steps[i].id != steps[j].id
  }

  predicate KnownDependencies(steps: seq<RawStep>) {
    forall i, k :: 0 <= i < |steps| && 0 <= k < |steps[i].dependsOn| ==> steps[i].dependsOn[k] in Ids(steps)
  }

  ghost predicate WellFormed(steps: seq<RawStep>) {
    && UniqueIds(steps)
    && KnownDependencies(steps)
    && Acyclic(DependencyGraph(steps, Ids(steps)))
  }

  datatype Colour = Visiting | Done

  /** The depth-first search of `findCycle`: a colour map and the stack of open vertices. */
  class CycleFinder {
    const adjacency: Graph
    var state: map<string, Colour>
    var stack: seq<string>
    ghost var rank: map<string, nat>  // finishing order of the done vertices
    ghost var clock: nat

    constructor (g: Graph)
      requires forall v, k :: v in g && 0 <= k < |g[v]| ==> g[v][k] in g
      ensures adjacency == g && state == map[] && stack == []
      ensures Valid()
    {
      adjacency := g;
      state := map[];
      stack := [];
      rank := map[];
      clock := 0;
    }

    /** Open vertices form a walk. */
    ghost predicate OpenWalk()
      reads this
    {
      && (forall i :: 0 <= i < |stack| ==> stack[i] in state && state[stack[i]] == Visiting)
      && (forall v :: v in state && state[v] == Visiting ==> v in stack)
      && (forall i :: 0 <= i < |stack| - 1 ==> Edge(adjacency, stack[i], stack[i + 1]))
    }

    /** Done vertices are ranked above all their successors, which are done too. */
    ghost predicate DoneRanked()
      reads this
    {
      && (forall v :: v in rank ==> v in state && state[v] == Done)
      && (forall v :: v in state && state[v] == Done ==> v in rank)
      && (forall v :: v in rank ==> v in adjacency && rank[v] < clock)
      && (forall v, k :: v in rank && 0 <= k < |adjacency[v]| ==>
            adjacency[v][k] in rank && rank[adjacency[v][k]] < rank[v])
    }

    ghost predicate Valid()
      reads this
    {
      && (forall v, k :: v in adjacency && 0 <= k < |adjacency[v]| ==> adjacency[v][k] in adjacency)
      && state.Keys <= adjacency.Keys
      && OpenWalk()
      && DoneRanked()
    }

    method Visit(id: string) returns (found: Option<seq<string>>)
      requires Valid() && id in adjacency && id !in state
      requires stack != [] ==> Edge(adjacency, stack[|stack| - 1], id)
      modifies this
      ensures found.None? ==> Valid() && stack == old(stack) && id in rank
      ensures found.None? ==> old(rank).Keys <= rank.Keys && old(state).Keys <= state.Keys
      ensures found.Some? ==> IsClosedWalk(adjacency, found.value)
      decreases adjacency.Keys - state.Keys
    {
      Open(id);
      var deps := adjacency[id];
      for i := 0 to |deps|
        invariant Valid() && stack == old(stack) + [id]
        invariant old(rank).Keys <= rank.Keys && old(state).Keys + {id} <= state.Keys
        invariant forall k :: 0 <= k < i ==> deps[k] in rank
      {
        var dep := deps[i];
        if dep in state && state[dep].Visiting? {
          var cycle := Cycle(dep);
          return Some(cycle);
        }
        if dep !in state || !state[dep].Done? {
          var nested := Visit(dep);
          if nested.Some? {
            return nested;
          }
        }
      }
      Close(id);
      return None;
    }

    method Open(id: string)
      requires Valid() && id in adjacency && id !in state
      requires stack != [] ==> Edge(adjacency, stack[|stack| - 1], id)
      modifies this
      ensures Valid() && stack == old(stack) + [id] && rank == old(rank)
      ensures state.Keys == old(state).Keys + {id} && id !in old(stack)
    {
      state := state[id := Visiting];
      stack := stack + [id];
    }

    /** The part of the stack from `dep` on, closed by the edge back to `dep`. */
    method Cycle(dep: string) returns (cycle: seq<string>)
      requires OpenWalk() && dep in stack && Edge(adjacency, stack[|stack| - 1], dep)
      ensures IsClosedWalk(adjacency, cycle)
    {
      var start := IndexOf(stack, dep);
      cycle := stack[start..] + [dep];
      forall i | 0 <= i < |cycle| - 1
        ensures Edge(adjacency, cycle[i], cycle[i + 1])
      {
        assert cycle[i] == stack[start + i];
      }
    }

    /** Takes the top of the stack off it, done and ranked above all its successors. */
    method Close(id: string)
      requires Valid() && id in adjacency && stack != [] && stack[|stack| - 1] == id
      requires id !in stack[..|stack| - 1]
      requires forall k :: 0 <= k < |adjacency[id]| ==> adjacency[id][k] in rank
      modifies this
      ensures Valid() && stack == old(stack)[..|old(stack)| - 1]
      ensures rank.Keys == old(rank).Keys + {id} && state.Keys == old(state).Keys
    {
      stack := stack[..|stack| - 1];
      state := state[id := Done];
      rank := rank[id := clock];
      clock := clock + 1;
    }
  }

  method IndexOf(s: seq<string>, x: string) returns (i: nat)
    requires x in s
    ensures i < |s| && s[i] == x && x !in s[..i]
  {
    i := 0;
    while s[i] != x
      invariant i < |s| && x !in s[..i]
      decreases |s| - i
    {
      i := i + 1;
    }
  }

  lemma {:induction false} AllDoneIsAcyclic(finder: CycleFinder)
    requires finder.Valid() && forall v :: v in finder.adjacency ==> v in finder.rank
    ensures Acyclic(finder.adjacency)
  {
    assert IsRanking(finder.adjacency, finder.rank);
    RankingIsAcyclic(finder.adjacency, finder.rank);
  }

  /** Absent exactly when the known dependencies are acyclic; otherwise a closed walk of real edges. */
  method FindCycle(steps: seq<RawStep>) returns (found: Option<seq<string>>)
    ensures found.None? <==> Acyclic(DependencyGraph(steps, Ids(steps)))
    ensures found.Some? ==> IsClosedWalk(DependencyGraph(steps, Ids(steps)), found.value)
  {
    var g := DependencyGraph(steps, Ids(steps));
    var finder := new CycleFinder(g);
    for i := 0 to |steps|
      invariant finder.Valid() && finder.stack == [] && finder.adjacency == g
      invariant forall k :: 0 <= k < i ==> steps[k].id in finder.rank
    {
      if steps[i].id !in finder.state {
        var cycle := finder.Visit(steps[i].id);
        if cycle.Some? {
          return cycle;
        }
      }
    }
    AllDoneIsAcyclic(finder);
    return None;
  }

  predicate IsFirst(steps: seq<RawStep>, i: int) {
    0 <= i < |steps| && forall j :: 0 <= j < i ==> steps[j].id != steps[i].id
  }

  predicate IsDuplicate(steps: seq<RawStep>, issue: Issue) {
    && issue.DuplicateId?
    && issue.firstSeenAt < issue.index < |steps|
    && steps[issue.firstSeenAt].id == steps[issue.index].id
    && IsFirst(steps, issue.firstSeenAt)
  }

  predicate IsUnknown(steps: seq<RawStep>, issue: Issue) {
    && issue.UnknownDependency?
    && issue.index < |steps|
    && issue.depIndex < |steps[issue.index].dependsOn|
    && steps[issue.index].dependsOn[issue.depIndex] !in Ids(steps)
  }

  method DuplicateIssues(steps: seq<RawStep>) returns (issues: seq<Issue>)
    ensures forall x :: x in issues <==> IsDuplicate(steps, x)
  {
    issues := [];
    var firstSeenAt: map<string, nat> := map[];
    for index := 0 to |steps|
      invariant forall x :: x in issues <==> IsDuplicate(steps, x) && x.index < index
      invariant forall i :: 0 <= i < index ==> steps[i].id in firstSeenAt
      invariant forall v :: v in firstSeenAt ==>
        firstSeenAt[v] < index && steps[firstSeenAt[v]].id == v && IsFirst(steps, firstSeenAt[v])
    {
      var id := steps[index].id;
      if id in firstSeenAt {
        issues := issues + [DuplicateId(index, firstSeenAt[id])];
      } else {
        firstSeenAt := firstSeenAt[id := index];
      }
    }
  }

  method UnknownIssues(steps: seq<RawStep>) returns (issues: seq<Issue>)
    ensures forall x :: x in issues <==> IsUnknown(steps, x)
  {
    issues := [];
    var knownIds := Ids(steps);
    for index := 0 to |steps|
      invariant forall x :: x in issues <==> IsUnknown(steps, x) && x.index < index
    {
      var deps := steps[index].dependsOn;
      for depIndex := 0 to |deps|
        invariant forall x :: x in issues <==>
          IsUnknown(steps, x) && (x.index < index || (x.index == index && x.depIndex < depIndex))
      {
        if deps[depIndex] !in knownIds {
          issues := issues + [UnknownDependency(index, depIndex)];
        }
      }
    }
  }

  lemma {:induction false} FirstOccurrence(steps: seq<RawStep>, i: nat) returns (f: nat)
    requires i < |steps|
    ensures f <= i && steps[f].id == steps[i].id && IsFirst(steps, f)
    decreases i
  {
    f := i;
    if j :| 0 <= j < i && steps[j].id == steps[i].id {
      f := FirstOccurrence(steps, j);
    }
  }

  /** Every repeated id, every unknown dependency and one cycle are reported, and nothing else. */
  method ValidateSteps(steps: seq<RawStep>) returns (issues: seq<Issue>)
    ensures issues == [] <==> WellFormed(steps)
    ensures forall x :: x in issues && x.DuplicateId? <==> IsDuplicate(steps, x)
    ensures forall x :: x in issues && x.UnknownDependency? <==> IsUnknown(steps, x)
    ensures forall x :: x in issues && x.DependencyCycle? ==>
      IsClosedWalk(DependencyGraph(steps, Ids(steps)), x.cycle)
  {
    var duplicates := DuplicateIssues(steps);
    var unknown := UnknownIssues(steps);
    var cycle := FindCycle(steps);
    issues := duplicates + unknown + (if cycle.Some? then [DependencyCycle(cycle.value)] else []);
    if !UniqueIds(steps) {
      var i, j :| 0 <= i < j < |steps| && steps[i].id == steps[j].id;
      var f := FirstOccurrence(steps, i);
      assert IsDuplicate(steps, DuplicateId(j, f));
    }
    if duplicates != [] {
      assert IsDuplicate(steps, duplicates[0]);
    }
    if !KnownDependencies(steps) {
      var i, k :| 0 <= i < |steps| && 0 <= k < |steps[i].dependsOn| && steps[i].dependsOn[k] !in Ids(steps);
      assert IsUnknown(steps, UnknownDependency(i, k));
    }
    if unknown != [] {
      assert IsUnknown(steps, unknown[0]);
    }
  }
}
