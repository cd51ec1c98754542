/** Prerequisite graphs of a question bank: walks, cycles, reachability, and the check that a bank is acyclic. */
module PrerequisiteGraph {
  import opened Wrappers

  /** Each question with the questions it requires. */
  type Graph = map<string, set<string>>

  ghost predicate IsWalk(graph: Graph, path: seq<string>) {
    forall i :: 0 <= i < |path| - 1 ==> IsStep(graph, path, i)
  }

  predicate IsStep(graph: Graph, path: seq<string>, i: nat)
    requires i < |path| - 1
  {
    path[i] in graph && path[i + 1] in graph[path[i]]
  }

  ghost predicate HasCycle(graph: Graph) {
    exists path :: |path| >= 2 && IsWalk(graph, path) && path[0] == path[|path| - 1]
  }

  ghost predicate WalkBetween(graph: Graph, path: seq<string>, from: string, to: string) {
    path != [] && IsWalk(graph, path) && path[0] == from && path[|path| - 1] == to
  }

  ghost predicate Reaches(graph: Graph, from: string, to: string) {
    exists path :: WalkBetween(graph, path, from, to)
  }

  /** Every requirement is itself in the graph. */
  ghost predicate IsClosed(graph: Graph) {
    forall node :: node in graph ==> graph[node] <= graph.Keys
  }

  /** A non-empty set of nodes each of which requires another of them. */
  ghost predicate IsStuck(graph: Graph, nodes: set<string>) {
    nodes != {} && nodes <= graph.Keys && forall node :: node in nodes ==> RequiresOneOf(graph, node, nodes)
  }

  predicate RequiresOneOf(graph: Graph, node: string, nodes: set<string>)
    requires node in graph
  {
    graph[node] * nodes != {}
  }

  lemma {:induction false} Pigeonhole(path: seq<string>, nodes: set<string>) returns (i: nat, j: nat)
    requires |path| > |nodes| && forall k :: 0 <= k < |path| ==> path[k] in nodes
    ensures i < j < |path| && path[i] == path[j]
  {
    var last := path[|path| - 1];
    if k :| 0 <= k < |path| - 1 && path[k] == last {
      i, j := k, |path| - 1;
    } else {
      i, j := Pigeonhole(path[..|path| - 1], nodes - {last});
    }
  }

  /** When every node of a non-empty set requires another node of the set, walks inside it never end. */
  lemma {:induction false} EndlessWalk(graph: Graph, stuck: set<string>, length: nat) returns (path: seq<string>)
    requires IsStuck(graph, stuck)
    requires length >= 1
    ensures |path| == length && IsWalk(graph, path) && forall k :: 0 <= k < |path| ==> path[k] in stuck
  {
    if length == 1 {
      var node := Member(stuck);
      path := [node];
    } else {
      var shorter := EndlessWalk(graph, stuck, length - 1);
      var last := shorter[|shorter| - 1];
      assert RequiresOneOf(graph, last, stuck);
      var next := Member(graph[last] * stuck);
      path := shorter + [next];
      assert forall i :: 0 <= i < |shorter| - 1 ==> IsStep(graph, shorter, i) ==> IsStep(graph, path, i);
    }
  }

  lemma PartOfWalk(graph: Graph, path: seq<string>, i: nat, j: nat)
    requires IsWalk(graph, path) && i <= j <= |path|
    ensures IsWalk(graph, path[i..j])
  {
    forall k | 0 <= k < |path[i..j]| - 1
      ensures IsStep(graph, path[i..j], k)
    {
      assert IsStep(graph, path, i + k);
    }
  }

  lemma StuckMeansCycle(graph: Graph, stuck: set<string>)
    requires IsStuck(graph, stuck)
    ensures HasCycle(graph)
  {
    hide IsStuck;
    var path := EndlessWalk(graph, stuck, |stuck| + 1);
    var i, j := Pigeonhole(path, stuck);
    var cycle := path[i..j + 1];
    PartOfWalk(graph, path, i, j + 1);
  }

  /** An acyclic graph has, in every non-empty set of its nodes, one that requires none of the others. */
  lemma AcyclicHasMinimal(graph: Graph, nodes: set<string>) returns (node: string)
    requires nodes != {} && nodes <= graph.Keys && !HasCycle(graph)
    ensures node in nodes && graph[node] * nodes == {}
  {
    if IsStuck(graph, nodes) {
      StuckMeansCycle(graph, nodes);
    }
    node :| node in nodes && !RequiresOneOf(graph, node, nodes);
  }

  ghost predicate Ranks(graph: Graph, rank: map<string, nat>) {
    forall node, other :: node in graph && other in graph[node] ==> IsBelow(rank, other, node)
  }

  predicate IsBelow(rank: map<string, nat>, other: string, node: string) {
    node in rank && other in rank && rank[other] < rank[node]
  }

  lemma {:induction false} RankFalls(graph: Graph, rank: map<string, nat>, path: seq<string>)
    requires Ranks(graph, rank) && |path| >= 2 && IsWalk(graph, path)
    ensures path[0] in rank && path[|path| - 1] in rank && rank[path[|path| - 1]] < rank[path[0]]
    decreases |path|
  {
    assert IsStep(graph, path, 0);
    assert IsBelow(rank, path[1], path[0]);
    if |path| > 2 {
      var rest := path[1..|path|];
      PartOfWalk(graph, path, 1, |path|);
      RankFalls(graph, rank, rest);
      assert rest[|rest| - 1] == path[|path| - 1] && rest[0] == path[1];
    }
  }

  lemma RankedMeansAcyclic(graph: Graph, rank: map<string, nat>)
    requires Ranks(graph, rank)
    ensures !HasCycle(graph)
  {
    if HasCycle(graph) {
      var path :| |path| >= 2 && IsWalk(graph, path) && path[0] == path[|path| - 1];
      RankFalls(graph, rank, path);
    }
  }

  datatype GraphError = MissingPrerequisite | CyclicPrerequisites

  /** The bank check: every requirement must exist, and questions are peeled off layer by layer until none is left. */
  method Validate(graph: Graph) returns (result: Result<(), GraphError>)
    ensures result == Err(MissingPrerequisite) <==> !IsClosed(graph)
    ensures result == Err(CyclicPrerequisites) <==> IsClosed(graph) && HasCycle(graph)
    ensures result == Ok(()) <==> IsClosed(graph) && !HasCycle(graph)
  {
    hide HasCycle, Peeled;
    if exists node | node in graph.Keys :: !(graph[node] <= graph.Keys) {
      return Err(MissingPrerequisite);
    }
    var pending := graph;
    ghost var rank: map<string, nat> := map[];
    ghost var layer: nat := 0;
    PeelNone(graph);
    while pending != map[]
      invariant Peeled(graph, pending, rank, layer)
      decreases |pending.Keys|
    {
      var ready := Ready(pending);
      if ready == {} {
        StuckAt(graph, pending, rank, layer);
        return Err(CyclicPrerequisites);
      }
      PeelOn(graph, pending, rank, layer, ready);
      rank := rank + map node | node in ready :: layer;
      pending := Without(pending, ready);
      layer := layer + 1;
    }
    AllPeeled(graph, rank, layer);
    result := Ok(());
  }

  /** The nodes that require nothing any more. */
  function Ready(pending: Graph): set<string> {
    set node | node in pending && pending[node] == {}
  }

  /** Those nodes are gone, as nodes and as requirements. */
  function Without(pending: Graph, ready: set<string>): Graph {
    map node | node in pending && node !in ready :: pending[node] - ready
  }

  /** The nodes peeled off so far have ranks below `layer`; the others still require exactly what is not peeled off. */
  ghost predicate Peeled(graph: Graph, pending: Graph, rank: map<string, nat>, layer: nat) {
    && pending.Keys <= graph.Keys && rank.Keys == graph.Keys - pending.Keys
    && (forall node :: node in pending ==> pending[node] == graph[node] - (graph.Keys - pending.Keys))
    && (forall node :: node in rank ==> rank[node] < layer)
    && (forall node, other :: node in rank && other in graph[node] ==> IsBelow(rank, other, node))
  }

  lemma PeelNone(graph: Graph)
    ensures Peeled(graph, graph, map[], 0)
  {
  }

  lemma AllPeeled(graph: Graph, rank: map<string, nat>, layer: nat)
    requires Peeled(graph, map[], rank, layer)
    ensures !HasCycle(graph)
  {
    hide HasCycle;
    RankedMeansAcyclic(graph, rank);
  }

  lemma PeelOn(graph: Graph, pending: Graph, rank: map<string, nat>, layer: nat, ready: set<string>)
    requires IsClosed(graph) && Peeled(graph, pending, rank, layer)
    requires ready == Ready(pending)
    ensures Peeled(graph, Without(pending, ready), rank + map node | node in ready :: layer, layer + 1)
    ensures Without(pending, ready).Keys == pending.Keys - ready && ready <= pending.Keys
  {
    var after := Without(pending, ready);
    var ranked := rank + map node | node in ready :: layer;
    assert after.Keys == pending.Keys - ready;
    assert graph.Keys - after.Keys == (graph.Keys - pending.Keys) + ready;
    forall node, other | node in ranked && other in graph[node]
      ensures IsBelow(ranked, other, node)
    {
      if node in ready {
        ReadyRequiresPeeled(graph, pending, rank, layer, node, other);
      } else {
        assert IsBelow(rank, other, node);
      }
    }
  }

  lemma ReadyRequiresPeeled(graph: Graph, pending: Graph, rank: map<string, nat>, layer: nat, node: string, other: string)
    requires IsClosed(graph) && Peeled(graph, pending, rank, layer)
    requires node in Ready(pending) && other in graph[node]
    ensures other in rank && rank[other] < layer
  {
    assert graph[node] <= graph.Keys;
    assert other in graph[node] - (graph.Keys - pending.Keys) || other in rank.Keys;
    assert pending[node] == graph[node] - (graph.Keys - pending.Keys);
  }

  lemma StuckAt(graph: Graph, pending: Graph, rank: map<string, nat>, layer: nat)
    requires IsClosed(graph) && Peeled(graph, pending, rank, layer) && pending != map[]
    requires Ready(pending) == {}
    ensures HasCycle(graph)
  {
    hide HasCycle, Peeled, IsClosed;
    PendingAreNodes(graph, pending, rank, layer);
    forall node | node in pending.Keys
      ensures RequiresOneOf(graph, node, pending.Keys)
    {
      StuckNode(graph, pending, rank, layer, node);
    }
    assert pending.Keys != {};
    StuckMeansCycle(graph, pending.Keys);
  }

  lemma PendingAreNodes(graph: Graph, pending: Graph, rank: map<string, nat>, layer: nat)
    requires Peeled(graph, pending, rank, layer)
    ensures pending.Keys <= graph.Keys
  {
  }

  lemma StuckNode(graph: Graph, pending: Graph, rank: map<string, nat>, layer: nat, node: string)
    requires IsClosed(graph) && Peeled(graph, pending, rank, layer) && node in pending
    requires node !in Ready(pending)
    ensures RequiresOneOf(graph, node, pending.Keys)
  {
    assert pending[node] == graph[node] - (graph.Keys - pending.Keys) && graph[node] <= graph.Keys;
    assert pending[node] == graph[node] * pending.Keys;
  }

  // ---- reachability ----

  lemma ReachesItself(graph: Graph, node: string)
    ensures Reaches(graph, node, node)
  {
    assert WalkBetween(graph, [node], node, node);
  }

  lemma ReachesOn(graph: Graph, from: string, via: string, to: string)
    requires from in graph && via in graph[from] && Reaches(graph, via, to)
    ensures Reaches(graph, from, to)
  {
    var path :| WalkBetween(graph, path, via, to);
    var longer := [from] + path;
    forall i | 0 <= i < |longer| - 1
      ensures IsStep(graph, longer, i)
    {
      assert i > 0 ==> IsStep(graph, path, i - 1);
    }
    assert WalkBetween(graph, longer, from, to);
  }

  /** Whatever a node reaches, it is that or reaches it through one of its requirements. */
  lemma ReachesThrough(graph: Graph, from: string, to: string) returns (via: string)
    requires Reaches(graph, from, to) && from != to
    ensures from in graph && via in graph[from] && Reaches(graph, via, to)
  {
    var path :| WalkBetween(graph, path, from, to);
    assert IsStep(graph, path, 0);
    via := path[1];
    PartOfWalk(graph, path, 1, |path|);
    assert WalkBetween(graph, path[1..|path|], via, to);
  }

  /** A set that holds a node and everything its members require holds whatever the node reaches. */
  lemma {:induction false} ClosedHoldsReached(graph: Graph, nodes: set<string>, path: seq<string>)
    requires path != [] && IsWalk(graph, path) && path[0] in nodes
    requires forall node :: node in nodes && node in graph ==> graph[node] <= nodes
    ensures path[|path| - 1] in nodes
    decreases |path|
  {
    if |path| > 1 {
      assert IsStep(graph, path, 0);
      PartOfWalk(graph, path, 1, |path|);
      ClosedHoldsReached(graph, nodes, path[1..|path|]);
    }
  }

  lemma CycleThrough(graph: Graph, from: string, via: string)
    requires from in graph && via in graph[from] && Reaches(graph, via, from)
    ensures HasCycle(graph)
  {
    var path :| WalkBetween(graph, path, via, from);
    var cycle := [from] + path;
    forall i | 0 <= i < |cycle| - 1
      ensures IsStep(graph, cycle, i)
    {
      assert i > 0 ==> IsStep(graph, path, i - 1);
    }
    assert cycle[0] == cycle[|cycle| - 1];
  }
}
