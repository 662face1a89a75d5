/** Dependency graphs of plan steps and the layering check `_require_acyclic`
    (engine/chat/plans.py), judged against the absence of cycles. */
module PlanGraph {

  /** A step id with the ids it depends on. */
  datatype Node = Node(id: string, deps: set<string>)

  type Graph = map<string, set<string>>

  /** The dictionary the check builds: a repeated id keeps its last entry. */
  function GraphOf(nodes: seq<Node>): (g: Graph)
    ensures forall k :: k in g <==> HasId(nodes, k)
  {
    if nodes == [] then map[]
    else
      var last := nodes[|nodes|-1];
      assert forall i | 0 <= i < |nodes|-1 :: nodes[i] == nodes[..|nodes|-1][i];
      GraphOf(nodes[..|nodes|-1])[last.id := last.deps]
  }

  predicate HasId(nodes: seq<Node>, k: string) { exists i | 0 <= i < |nodes| :: nodes[i].id == k }

  predicate DistinctIds(nodes: seq<Node>) {
    forall i, j | 0 <= i < j < |nodes| :: nodes[i].id != nodes[j].id
  }

  predicate Closed(g: Graph) { forall k | k in g :: g[k] <= g.Keys }

  /** A walk along dependencies. */
  predicate IsPath(g: Graph, p: seq<string>) {
    && p != []
    && forall i | 0 <= i < |p| - 1 :: p[i] in g && p[i+1] in g[p[i]]
  }

  predicate IsCycle(g: Graph, p: seq<string>) { IsPath(g, p) && |p| >= 2 && p[0] == p[|p|-1] }

  ghost predicate Acyclic(g: Graph) { forall p: seq<string> :: !IsCycle(g, p) }

  // ------------------------------------------------------------- no false alarm

  /** Dependencies have strictly smaller rank. */
  ghost predicate Ranked(g: Graph, rank: map<string, nat>) {
    forall k | k in rank :: k in g && forall d | d in g[k] :: d in rank && rank[d] < rank[k]
  }

  lemma {:induction false} RankFallsAlongPaths(g: Graph, rank: map<string, nat>, p: seq<string>)
    requires Ranked(g, rank) && IsPath(g, p) && p[0] in rank
    ensures p[|p|-1] in rank && rank[p[|p|-1]] + |p| - 1 <= rank[p[0]]
    decreases |p|
  {
    if |p| > 1 {
      var q := p[..|p|-1];
      assert forall i | 0 <= i < |q| - 1 :: q[i] in g && q[i+1] in g[q[i]];
      RankFallsAlongPaths(g, rank, q);
      assert p[|p|-2] == q[|q|-1];
    }
  }

  lemma RankedIsAcyclic(g: Graph, rank: map<string, nat>)
    requires Ranked(g, rank) && rank.Keys == g.Keys
    ensures Acyclic(g)
  {
    forall p: seq<string> | IsCycle(g, p) ensures false {
      RankFallsAlongPaths(g, rank, p);
    }
  }

  // ----------------------------------------------------------- no missed cycle

  /** Every member has a dependency inside the set, so layering can never enter it. */
  ghost predicate Stuck(g: Graph, s: set<string>) {
    s <= g.Keys && forall k | k in s :: g[k] * s != {}
  }

  lemma {:induction false} WalkInside(g: Graph, s: set<string>, start: string, n: nat) returns (p: seq<string>)
    requires Stuck(g, s) && start in s
    ensures |p| == n + 1 && IsPath(g, p) && forall i | 0 <= i < |p| :: p[i] in s
  {
    p := [start];
    while |p| < n + 1
      invariant 1 <= |p| <= n + 1
      invariant IsPath(g, p) && forall i | 0 <= i < |p| :: p[i] in s
    {
      var here := p[|p|-1];
      var next :| next in g[here] * s;
      p := p + [next];
    }
  }

  lemma {:induction false} Pigeonhole(p: seq<string>, s: set<string>) returns (i: nat, j: nat)
    requires |p| > |s| && forall k | 0 <= k < |p| :: p[k] in s
    ensures i < j < |p| && p[i] == p[j]
    decreases |p|
  {
    var n := |p| - 1;
    if k :| 0 <= k < n && p[k] == p[n] {
      i, j := k, n;
    } else {
      i, j := Pigeonhole(p[..n], s - {p[n]});
    }
  }

  lemma StuckHasCycle(g: Graph, s: set<string>)
    requires Stuck(g, s) && s != {}
    ensures !Acyclic(g)
  {
    var start :| start in s;
    var p := WalkInside(g, s, start, |s|);
    var i, j := Pigeonhole(p, s);
    var cycle := p[i..j+1];
    forall k | 0 <= k < |cycle| - 1 ensures cycle[k] in g && cycle[k+1] in g[cycle[k]] {
      assert cycle[k] == p[i+k] && cycle[k+1] == p[i+k+1];
    }
    assert IsCycle(g, cycle);
  }

  /** In an acyclic graph every nonempty set of nodes has a member none of whose dependencies
      is in the set: there is always something whose dependencies are already out of the way. */
  lemma SomeMemberIsFree(g: Graph, s: set<string>)
    requires Acyclic(g) && s <= g.Keys && s != {}
    ensures exists k :: k in s && g[k] * s == {}
  {
    if forall k | k in s :: g[k] * s != {} {
      StuckHasCycle(g, s);
    }
  }

  // -------------------------------------------------------------- the algorithm

  lemma {:induction false} DistinctCount(nodes: seq<Node>)
    ensures |GraphOf(nodes).Keys| <= |nodes|
    ensures |GraphOf(nodes).Keys| == |nodes| <==> DistinctIds(nodes)
    decreases |nodes|
  {
    if nodes != [] {
      var n := |nodes| - 1;
      var rest := nodes[..n];
      DistinctCount(rest);
      assert GraphOf(nodes).Keys == GraphOf(rest).Keys + {nodes[n].id};
      DistinctStep(nodes);
    }
  }

  lemma DistinctStep(nodes: seq<Node>)
    requires nodes != []
    ensures var n := |nodes| - 1;
      DistinctIds(nodes) <==> DistinctIds(nodes[..n]) && !HasId(nodes[..n], nodes[n].id)
  {
    var n := |nodes| - 1;
    var rest := nodes[..n];
    if DistinctIds(nodes) {
      forall i | 0 <= i < |rest| ensures rest[i].id != nodes[n].id { assert nodes[i].id != nodes[n].id; }
    }
    if DistinctIds(rest) && !HasId(rest, nodes[n].id) {
      forall i, j | 0 <= i < j < |nodes| ensures nodes[i].id != nodes[j].id {
        assert nodes[i] == rest[i];
        if j < n { assert nodes[j] == rest[j]; }
      }
    }
  }

  /** The uncompleted nodes whose dependencies are all completed. */
  function Ready(g: Graph, completed: set<string>): set<string> {
    set k | k in g && k !in completed && g[k] <= completed
  }

  /** When no uncompleted node is ready, the uncompleted ones contain a cycle, unless some
      dependency is not a node at all. */
  lemma NothingReadyHasCycle(g: Graph, completed: set<string>)
    requires Closed(g) && completed <= g.Keys && completed != g.Keys && Ready(g, completed) == {}
    ensures !Acyclic(g)
  {
    var stuck := g.Keys - completed;
    forall k | k in stuck ensures g[k] * stuck != {} {
      assert k !in Ready(g, completed);
      var d :| d in g[k] && d !in completed;
      assert d in g[k] * stuck;
    }
    StuckHasCycle(g, stuck);
  }

  /** The layering so far: ranks below `layer` for exactly the completed nodes. */
  ghost predicate Layered(g: Graph, completed: set<string>, rank: map<string, nat>, layer: nat) {
    completed <= g.Keys && rank.Keys == completed && Ranked(g, rank) && forall k | k in rank :: rank[k] < layer
  }

  ghost function NextRanks(rank: map<string, nat>, ready: set<string>, layer: nat): map<string, nat> {
    rank + map k | k in ready :: layer
  }

  /** A whole layer may take the next rank at once, and layering makes progress. */
  lemma LayerStep(g: Graph, completed: set<string>, rank: map<string, nat>, layer: nat)
    requires Layered(g, completed, rank, layer) && Ready(g, completed) != {}
    ensures Layered(g, completed + Ready(g, completed), NextRanks(rank, Ready(g, completed), layer), layer + 1)
    ensures g.Keys - (completed + Ready(g, completed)) < g.Keys - completed
  {
    var some :| some in Ready(g, completed);
    assert some in g.Keys - completed && some !in g.Keys - (completed + Ready(g, completed));
  }

  lemma SubsetSize(a: set<string>, b: set<string>)
    requires a <= b
    ensures |a| <= |b| && (|a| == |b| ==> a == b)
  {
    assert b == a + (b - a);
    assert |b| == |a| + |b - a|;
  }

  /** `_require_acyclic`: accepts exactly the step lists whose ids are distinct, whose
      dependencies are steps of the list, and whose dependency graph has no cycle. */
  method RequireAcyclic(nodes: seq<Node>) returns (ok: bool)
    ensures ok <==> DistinctIds(nodes) && Closed(GraphOf(nodes)) && Acyclic(GraphOf(nodes))
  {
    var deps := GraphOf(nodes);
    DistinctCount(nodes);
    var completed: set<string> := {};
    ghost var rank: map<string, nat> := map[];
    ghost var layer: nat := 0;
    while |completed| < |nodes|
      invariant Layered(deps, completed, rank, layer)
      decreases deps.Keys - completed
    {
      var ready := Ready(deps, completed);
      if ready == {} {
        if |deps.Keys| == |nodes| && Closed(deps) {
          NothingReadyHasCycle(deps, completed);
        }
        return false;
      }
      LayerStep(deps, completed, rank, layer);
      rank := NextRanks(rank, ready, layer);
      layer := layer + 1;
      completed := completed + ready;
    }
    SubsetSize(completed, deps.Keys);
    RankedClosed(deps, rank);
    RankedIsAcyclic(deps, rank);
    return true;
  }

  lemma RankedClosed(g: Graph, rank: map<string, nat>)
    requires Ranked(g, rank) && rank.Keys == g.Keys
    ensures Closed(g)
  {}
}
