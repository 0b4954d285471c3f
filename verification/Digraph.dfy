/** Directed graphs given by adjacency lists, and reachability by walks in them. */
module Digraph {

  type Graph = map<string, seq<string>>

  function Succ(g: Graph, v: string): seq<string> {
    if v in g then g[v] else []
  }

  predicate Edge(g: Graph, a: string, b: string) {
    b in Succ(g, a)
  }

  predicate IsWalk(g: Graph, p: seq<string>) {
    p != [] && forall i :: 0 <= i < |p| - 1 ==> Edge(g, p[i], p[i + 1])
  }

  /** A walk of no edges at all is allowed, so every vertex reaches itself. */
  ghost predicate Reaches(g: Graph, a: string, b: string) {
    exists p :: IsWalk(g, p) && p[0] == a && p[|p| - 1] == b
  }

  /** Reachability by at least one edge. */
  ghost predicate ReachesPlus(g: Graph, a: string, b: string) {
    exists c :: Edge(g, a, c) && Reaches(g, c, b)
  }

  predicate IsClosedWalk(g: Graph, p: seq<string>) {
    IsWalk(g, p) && |p| >= 2 && p[0] == p[|p| - 1]
  }

  ghost predicate Acyclic(g: Graph) {
    forall p :: !IsClosedWalk(g, p)
  }

  /** A ranking that drops along every edge witnesses acyclicity. */
  ghost predicate IsRanking(g: Graph, rank: map<string, nat>) {
    forall a, b :: Edge(g, a, b) ==> a in rank && b in rank && rank[b] < rank[a]
  }

  lemma {:induction false} WalkTail(g: Graph, p: seq<string>)
    requires IsWalk(g, p) && |p| > 1
    ensures IsWalk(g, p[1..])
  {
    forall i | 0 <= i < |p[1..]| - 1
      ensures Edge(g, p[1..][i], p[1..][i + 1])
    {
      assert Edge(g, p[i + 1], p[i + 2]);
    }
  }

  lemma {:induction false} ReachesSelf(g: Graph, a: string)
    ensures Reaches(g, a, a)
  {
    assert IsWalk(g, [a]);
  }

  lemma {:induction false} ReachesEdge(g: Graph, a: string, b: string)
    requires Edge(g, a, b)
    ensures Reaches(g, a, b) && ReachesPlus(g, a, b)
  {
    ReachesSelf(g, b);
    var p := [a, b];
    assert IsWalk(g, p) && p[0] == a && p[|p| - 1] == b;
  }

  lemma {:induction false} ReachesTransitive(g: Graph, a: string, b: string, c: string)
    requires Reaches(g, a, b) && Reaches(g, b, c)
    ensures Reaches(g, a, c)
  {
    var p :| IsWalk(g, p) && p[0] == a && p[|p| - 1] == b;
    var q :| IsWalk(g, q) && q[0] == b && q[|q| - 1] == c;
    var r := p + q[1..];
    forall i | 0 <= i < |r| - 1
      ensures Edge(g, r[i], r[i + 1])
    {
      if i >= |p| - 1 {
        assert Edge(g, q[i - |p| + 1], q[i - |p| + 2]);
      }
    }
    assert IsWalk(g, r) && r[0] == a && r[|r| - 1] == c;
  }

  lemma {:induction false} PlusIsReaches(g: Graph, a: string, b: string)
    requires ReachesPlus(g, a, b)
    ensures Reaches(g, a, b)
  {
    var c :| Edge(g, a, c) && Reaches(g, c, b);
    ReachesEdge(g, a, c);
    ReachesTransitive(g, a, c, b);
  }

  /** Whatever is reached from a set closed under edges is still in the set. */
  lemma {:induction false} ClosedSetKeepsWalk(g: Graph, s: set<string>, p: seq<string>)
    requires forall a, b :: a in s && Edge(g, a, b) ==> b in s
    requires IsWalk(g, p) && p[0] in s
    ensures p[|p| - 1] in s
    decreases |p|
  {
    if |p| > 1 {
      assert Edge(g, p[0], p[1]);
      WalkTail(g, p);
      ClosedSetKeepsWalk(g, s, p[1..]);
    }
  }

  lemma {:induction false} ClosedSetContainsReachable(g: Graph, s: set<string>, a: string, b: string)
    requires forall x, y :: x in s && Edge(g, x, y) ==> y in s
    requires a in s && Reaches(g, a, b)
    ensures b in s
  {
    var p :| IsWalk(g, p) && p[0] == a && p[|p| - 1] == b;
    ClosedSetKeepsWalk(g, s, p);
  }

  lemma {:induction false} RankDropsAlongWalk(g: Graph, rank: map<string, nat>, p: seq<string>)
    requires IsRanking(g, rank) && IsWalk(g, p) && |p| >= 2
    ensures p[0] in rank && p[|p| - 1] in rank && rank[p[|p| - 1]] < rank[p[0]]
    decreases |p|
  {
    assert Edge(g, p[0], p[1]);
    if |p| > 2 {
      WalkTail(g, p);
      RankDropsAlongWalk(g, rank, p[1..]);
    }
  }

  lemma {:induction false} RankingIsAcyclic(g: Graph, rank: map<string, nat>)
    requires IsRanking(g, rank)
    ensures Acyclic(g)
  {
    forall p | IsWalk(g, p) && |p| >= 2
      ensures p[0] != p[|p| - 1]
    {
      RankDropsAlongWalk(g, rank, p);
    }
  }

  /** An edge lies on a closed walk exactly when its head reaches its tail. */
  lemma {:induction false} ClosedWalkFromEdge(g: Graph, a: string, b: string)
    requires Edge(g, a, b) && Reaches(g, b, a)
    ensures !Acyclic(g)
  {
    var p :| IsWalk(g, p) && p[0] == b && p[|p| - 1] == a;
    var q := [a] + p;
    assert forall i :: 1 <= i < |q| ==> q[i] == p[i - 1];
    assert IsClosedWalk(g, q);
  }

  /** What a vertex reaches by at least one edge, among the given vertices. */
  ghost function Below(g: Graph, vs: set<string>, a: string): set<string> {
    set b | b in vs && ReachesPlus(g, a, b)
  }

  /** A finite acyclic graph is ranked by how many vertices each vertex reaches. */
  lemma {:induction false} BelowShrinks(g: Graph, vs: set<string>, a: string, b: string)
    requires Acyclic(g) && Edge(g, a, b) && b in vs
    ensures |Below(g, vs, b)| < |Below(g, vs, a)|
  {
    ReachesEdge(g, a, b);
    if ReachesPlus(g, b, b) {
      var c :| Edge(g, b, c) && Reaches(g, c, b);
      ClosedWalkFromEdge(g, b, c);
    }
    forall x | x in Below(g, vs, b)
      ensures x in Below(g, vs, a)
    {
      PlusIsReaches(g, b, x);
    }
    SubsetIsSmaller(Below(g, vs, b), Below(g, vs, a), b);
  }

  lemma {:induction false} SubsetIsSmaller(small: set<string>, big: set<string>, x: string)
    requires small <= big && x in big && x !in small
    ensures |small| < |big|
  {
    assert big == small + (big - small);
  }

  lemma {:induction false} AcyclicHasRanking(g: Graph, vs: set<string>) returns (rank: map<string, nat>)
    requires Acyclic(g)
    requires forall a, b :: Edge(g, a, b) ==> a in vs && b in vs
    ensures IsRanking(g, rank) && rank.Keys == vs
  {
    rank := map a | a in vs :: |Below(g, vs, a)|;
    forall a, b | Edge(g, a, b)
      ensures rank[b] < rank[a]
    {
      BelowShrinks(g, vs, a, b);
    }
  }

  /** Every non-empty set has a member of least rank. */
  lemma {:induction false} LeastRanked(s: set<string>, rank: map<string, nat>) returns (m: string)
    requires s != {} && s <= rank.Keys
    ensures m in s && forall x :: x in s ==> rank[m] <= rank[x]
    decreases |s|
  {
    m :| m in s;
    if s != {m} {
      var n := LeastRanked(s - {m}, rank);
      if rank[n] < rank[m] {
        m := n;
      }
    }
  }
}
