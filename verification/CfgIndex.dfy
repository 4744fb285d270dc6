/**
 The block adjacency index built from the worker's `graph kind=cfg` response
 (`cfg_index_from_graph`).
 */
module CfgIndexes {
  import opened Basics
  import opened Sorting
  import opened Tarjan

  /** Block start addresses and successor lists (the fields the pipeline uses). */
  datatype CfgIndex = CfgIndex(blockEas: seq<nat>, succs: Graph)

  ghost predicate Valid(idx: CfgIndex) {
    |idx.blockEas| == |idx.succs| && WellFormed(idx.succs)
  }

  /** An edge row; an end that is not a number is read as address 0. */
  datatype GraphEdge = GraphEdge(source: Option<nat>, target: Option<nat>)

  /** The worker's graph; a node without a numeric address is skipped. */
  datatype WorkerGraph = WorkerGraph(nodes: seq<Option<nat>>, edges: seq<GraphEdge>)

  function Address(x: Option<nat>): nat {
    match x case Some(a) => a case None => 0
  }

  function NodeEas(nodes: seq<Option<nat>>): seq<nat> {
    if nodes == [] then [] else
      NodeEas(nodes[..|nodes| - 1]) + match nodes[|nodes| - 1] case Some(a) => [a] case None => []
  }

  lemma {:induction false} NodeEasMembers(nodes: seq<Option<nat>>, a: nat)
    ensures a in NodeEas(nodes) <==> Some(a) in nodes
  {
    if nodes != [] {
      NodeEasMembers(nodes[..|nodes| - 1], a);
      assert nodes == nodes[..|nodes| - 1] + [nodes[|nodes| - 1]];
    }
  }

  /** The addresses of the blocks, sorted and without repeats. */
  function BlockEas(nodes: seq<Option<nat>>): seq<nat> {
    SortedSet<nat>(NatLeq, NodeEas(nodes))
  }

  lemma BlockEasSpec(nodes: seq<Option<nat>>)
    ensures NoDup(BlockEas(nodes)) && SortedBy(NatLeq, BlockEas(nodes))
    ensures forall a: nat :: a in BlockEas(nodes) <==> Some(a) in nodes
  {
    NatOrder();
    SortedSetSpec<nat>(NatLeq, NodeEas(nodes));
    forall a: nat ensures a in BlockEas(nodes) <==> Some(a) in nodes {
      NodeEasMembers(nodes, a);
    }
  }

  /** Some row among the first `k` is the edge from block address `a` to block address `b`. */
  ghost predicate HasRow(rows: seq<GraphEdge>, k: nat, a: nat, b: nat) {
    exists i :: 0 <= i < k && i < |rows| && Address(rows[i].source) == a && Address(rows[i].target) == b
  }

  /** The successor lists hold exactly the first `k` rows that join two known blocks, once each. */
  ghost predicate Adjacent(eas: seq<nat>, succs: Graph, rows: seq<GraphEdge>, k: nat) {
    && |succs| == |eas|
    && WellFormed(succs)
    && (forall v :: 0 <= v < |succs| ==> NoDup(succs[v]))
    && (forall v, w :: 0 <= v < |eas| && 0 <= w < |eas| ==> (w in succs[v] <==> HasRow(rows, k, eas[v], eas[w])))
  }

  /** A row with an unknown end adds nothing. */
  lemma SkipRow(eas: seq<nat>, succs: Graph, rows: seq<GraphEdge>, k: nat)
    requires Adjacent(eas, succs, rows, k) && k < |rows|
    requires Address(rows[k].source) !in eas || Address(rows[k].target) !in eas
    ensures Adjacent(eas, succs, rows, k + 1)
  {
  }

  lemma AddRow(eas: seq<nat>, succs: Graph, rows: seq<GraphEdge>, k: nat, f: nat, t: nat)
    requires Adjacent(eas, succs, rows, k) && k < |rows| && NoDup(eas)
    requires f < |eas| && t < |eas| && Address(rows[k].source) == eas[f] && Address(rows[k].target) == eas[t]
    ensures Adjacent(eas, if t in succs[f] then succs else succs[f := succs[f] + [t]], rows, k + 1)
  {
  }

  lemma AdjacentInit(eas: seq<nat>, rows: seq<GraphEdge>)
    ensures Adjacent(eas, seq(|eas|, _ => []), rows, 0)
  {
  }

  lemma AdjacentFacts(eas: seq<nat>, succs: Graph, rows: seq<GraphEdge>, k: nat)
    requires Adjacent(eas, succs, rows, k)
    ensures |succs| == |eas| && WellFormed(succs)
  {
  }

  /** A row without ends is a loop at the block with address 0, if there is one. */
  lemma MissingEndsLoopAtZero(eas: seq<nat>, succs: Graph, rows: seq<GraphEdge>, i: nat, v: nat)
    requires Adjacent(eas, succs, rows, |rows|) && i < |rows| && rows[i] == GraphEdge(None, None)
    requires v < |eas| && eas[v] == 0
    ensures v in succs[v]
  {
    assert HasRow(rows, |rows|, 0, 0);
  }

  /** The position of each block address (lines 57-61). */
  method IndexEas(eas: seq<nat>) returns (eaIndex: map<nat, nat>)
    ensures forall a: nat :: a in eaIndex <==> a in eas
    ensures forall a: nat :: a in eaIndex ==> eaIndex[a] < |eas| && eas[eaIndex[a]] == a
  {
    eaIndex := map[];
    for i := 0 to |eas|
      invariant forall a: nat :: a in eaIndex ==> eaIndex[a] < i && eas[eaIndex[a]] == a
      invariant forall j :: 0 <= j < i ==> eas[j] in eaIndex
    {
      eaIndex := eaIndex[eas[i] := i];
    }
  }

  /** `cfg_index_from_graph`: the index is always valid, whatever the worker sent. */
  method CfgIndexFromGraph(graph: WorkerGraph) returns (idx: CfgIndex)
    ensures Valid(idx) && idx.blockEas == BlockEas(graph.nodes)
    ensures NoDup(idx.blockEas) && SortedBy(NatLeq, idx.blockEas)
    ensures forall a: nat :: a in idx.blockEas <==> Some(a) in graph.nodes
    ensures Adjacent(idx.blockEas, idx.succs, graph.edges, |graph.edges|)
  {
    hide Adjacent;
    hide BlockEas;
    hide SortedBy;
    var eas := BlockEas(graph.nodes);
    BlockEasSpec(graph.nodes);
    var eaIndex := IndexEas(eas);
    var succs: Graph := seq(|eas|, _ => []);
    AdjacentInit(eas, graph.edges);
    for k := 0 to |graph.edges|
      invariant Adjacent(eas, succs, graph.edges, k)
    {
      var source, target := Address(graph.edges[k].source), Address(graph.edges[k].target);
      if source in eaIndex && target in eaIndex {
        var f, t := eaIndex[source], eaIndex[target];
        AddRow(eas, succs, graph.edges, k, f, t);
        AdjacentFacts(eas, succs, graph.edges, k);
        if t !in succs[f] {
          succs := succs[f := succs[f] + [t]];
        }
      } else {
        SkipRow(eas, succs, graph.edges, k);
      }
    }
    AdjacentFacts(eas, succs, graph.edges, |graph.edges|);
    idx := CfgIndex(eas, succs);
  }
}
