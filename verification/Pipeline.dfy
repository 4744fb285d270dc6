/**
 The large-function pipeline end to end: worker graph, block index, components,
 regions, data flow.
 */
module Pipeline {
  import opened Basics
  import opened Walks
  import opened Sorting
  import opened Tarjan
  import opened CfgIndexes
  import opened Regions
  import opened RegionGraph
  import opened RegionLaws
  import opened RegionCycles
  import opened Dataflow

  // -------------------------------------------------------- completion and cycles

  ghost function IdSet(regions: seq<Region>): set<string> {
    set i | 0 <= i < |regions| :: regions[i].id
  }

  lemma {:induction false} IdSetSize(regions: seq<Region>)
    ensures |IdSet(regions)| <= |regions|
  {
    if regions != [] {
      var rest := regions[..|regions| - 1];
      IdSetSize(rest);
      assert IdSet(regions) == IdSet(rest) + {regions[|regions| - 1].id};
    }
  }

  lemma IdSetSpec(regions: seq<Region>, x: string)
    ensures x in IdSet(regions) <==> HasId(regions, x)
  {
  }

  /** With rounds to spare, exactly the regions below no cycle are completed. */
  lemma CompletedIffBelowNoCycle(regions: seq<Region>, completed: seq<string>, k: nat, x: string)
    requires Consistent(regions) && Level(regions, completed, k) && k >= |regions| && HasId(regions, x)
    ensures x in completed <==> !BelowCycle(EdgesOfRegions(regions), x)
  {
    hide Consistent;
    hide HasId;
    hide EdgesOfRegions;
    hide IdSet;
    hide BelowCycle;
    hide EndsWalk;
    var e, all := EdgesOfRegions(regions), IdSet(regions);
    IdSetSize(regions);
    IdSetSpec(regions, x);
    forall u, v | (u, v) in e ensures u in all && v in all {
      EdgeEnds(regions, u, v);
      IdSetSpec(regions, u);
      IdSetSpec(regions, v);
    }
    LongWalkIffBelowCycle(e, all, x, k);
  }

  /** Someone is below a cycle exactly when there is a cycle, and then someone on it is a region. */
  lemma AcyclicIffNoneBelow(regions: seq<Region>)
    requires Consistent(regions)
    ensures Acyclic(EdgesOfRegions(regions)) <==>
      forall x :: HasId(regions, x) ==> !BelowCycle(EdgesOfRegions(regions), x)
  {
    hide Consistent;
    hide HasId;
    hide EdgesOfRegions;
    var e := EdgesOfRegions(regions);
    if !Acyclic(e) {
      var a :| OnCycle(e, a);
      var k: nat :| k > 0 && Walk(e, a, a, k);
      var m :| (a, m) in e && Walk(e, m, a, k - 1);
      EdgeEnds(regions, a, m);
      ReachRefl(e, a);
      assert BelowCycle(e, a);
    }
  }

  /** Given facts for all regions, no deadline and enough rounds, a run converges exactly on acyclic region graphs. */
  lemma ConvergedIffAcyclic(regions: seq<Region>, facts: map<string, seq<Fact>>, limits: Limits, r: DataflowResult,
                            seen: map<string, seq<Fact>>)
    requires Consistent(regions) && SafeOutcome(regions, facts, limits, r, seen)
    requires Level(regions, r.completed, limits.maxIterations) && limits.maxIterations >= |regions|
    ensures r.converged <==> Acyclic(EdgesOfRegions(regions))
  {
    hide Consistent;
    hide HasId;
    hide EdgesOfRegions;
    hide BelowCycle;
    hide Level;
    hide Acyclic;
    AcyclicIffNoneBelow(regions);
    forall x | HasId(regions, x) ensures x in r.completed <==> !BelowCycle(EdgesOfRegions(regions), x) {
      CompletedIffBelowNoCycle(regions, r.completed, limits.maxIterations, x);
    }
    if r.frontier != [] {
      assert r.frontier[0] in r.frontier;
    }
  }

  // ------------------------------------------------------------- what completion means

  /** Completed regions are closed under predecessors. */
  lemma {:induction false} CompletedUpstream(e: Edges<string>, completed: seq<string>, x: string, y: string, k: nat)
    requires InOrder(e, completed) && y in completed && Walk(e, x, y, k)
    ensures x in completed
    decreases k
  {
    if k > 0 {
      var p := WalkSplit(e, x, y, k - 1, 1);
      var m :| (p, m) in e && Walk(e, m, y, 0);
      CompletedUpstream(e, completed, x, p, k - 1);
    }
  }

  /** In every run, if the region of a block is completed, so is that of every block that reaches it. */
  lemma BlocksUpstreamCompleted(idx: CfgIndex, opts: Options, sccs: seq<seq<nat>>, p: Partition,
                                facts: map<string, seq<Fact>>, limits: Limits, r: DataflowResult,
                                seen: map<string, seq<Fact>>, a: nat, b: nat)
    requires IsPartition(idx, opts, sccs, p) && SafeOutcome(p.regions, facts, limits, r, seen)
    requires a < |idx.succs| && Reach(EdgesOf(idx.succs), a, b)
    ensures a in p.blockRegion && b in p.blockRegion
    ensures p.blockRegion[b] in r.completed ==> p.blockRegion[a] in r.completed
  {
    hide IsPartition;
    hide FactsSound;
    hide FactsComplete;
    hide Exact;
    var k: nat :| Walk(EdgesOf(idx.succs), a, b, k);
    var l := PathProjects(idx, opts, sccs, p, a, b, k);
    if p.blockRegion[b] in r.completed {
      CompletedUpstream(EdgesOfRegions(p.regions), r.completed, p.blockRegion[a], p.blockRegion[b], l);
    }
  }

  /** In every run, the region completed `i`-th ends no walk of more than `i` edges. */
  lemma {:induction false} CompletedEndsShortWalks(e: Edges<string>, completed: seq<string>, i: nat)
    requires InOrder(e, completed) && i < |completed|
    ensures !EndsWalk(e, completed[i], i + 1)
    decreases i
  {
    hide EndsWalk;
    if EndsWalk(e, completed[i], i + 1) {
      var p := EndsWalkLast(e, completed[i], i);
      var j :| 0 <= j < i && completed[j] == p;
      CompletedEndsShortWalks(e, completed, j);
      EndsWalkShorter(e, p, i, j + 1);
    }
  }

  /** In every run, whatever facts there are, no completed region lies below a cycle. */
  lemma CompletedBelowNoCycle(regions: seq<Region>, completed: seq<string>, x: string)
    requires Consistent(regions) && InOrder(EdgesOfRegions(regions), completed) && x in completed
    ensures !BelowCycle(EdgesOfRegions(regions), x)
  {
    hide Consistent; hide HasId; hide EdgesOfRegions; hide IdSet; hide BelowCycle; hide EndsWalk;
    var e, all := EdgesOfRegions(regions), IdSet(regions);
    var i :| 0 <= i < |completed| && completed[i] == x;
    CompletedEndsShortWalks(e, completed, i);
    forall u, v | (u, v) in e ensures u in all && v in all {
      EdgeEnds(regions, u, v);
      IdSetSpec(regions, u);
      IdSetSpec(regions, v);
    }
    var n := i + 1 + |all|;
    if EndsWalk(e, x, n) { EndsWalkShorter(e, x, n, i + 1); }
    if BelowCycle(e, x) && x !in all {
      NotEdgeNotBelow(e, all, x);
    }
    if x in all { LongWalkIffBelowCycle(e, all, x, n); }
  }

  /** What lies below a cycle is the end of some edge. */
  lemma NotEdgeNotBelow(e: Edges<string>, all: set<string>, x: string)
    requires BelowCycle(e, x) && forall u, v :: (u, v) in e ==> u in all && v in all
    ensures x in all
  {
    var c :| OnCycle(e, c) && Reach(e, c, x);
    var k: nat :| Walk(e, c, x, k);
    if k == 0 {
      var l: nat :| l > 0 && Walk(e, c, c, l);
      var m :| (c, m) in e && Walk(e, m, c, l - 1);
    } else {
      var p := WalkSplit(e, c, x, k - 1, 1);
      var m :| (p, m) in e && Walk(e, m, x, 0);
    }
  }

  /** The predecessor of `x` completed last. */
  lemma {:induction false} LastOf(e: Edges<string>, facts: map<string, seq<Fact>>, completed: seq<string>, x: string,
                                  n: nat)
    requires n <= |completed| && (exists i :: 0 <= i < n && (completed[i], x) in e)
    requires forall j :: n <= j < |completed| ==> (completed[j], x) !in e
    requires forall p :: (p, x) in e ==> p in facts
    ensures exists i :: LastAt(e, facts, completed, x, i)
  {
    if (completed[n - 1], x) in e {
      assert LastAt(e, facts, completed, x, n - 1);
    } else {
      LastOf(e, facts, completed, x, n - 1);
    }
  }

  lemma {:induction false} UpstreamFactsLevel(regions: seq<Region>, facts: map<string, seq<Fact>>, r: DataflowResult,
                                              x: string, k: nat)
    requires Consistent(regions) && ReleaseLaw(regions, facts, r) && (r.stop == Converged || r.stop == Settled)
    requires var e := EdgesOfRegions(regions); !EndsWalk(e, x, k) && forall y :: Leads(e, y, x) ==> y in facts
    requires HasId(regions, x)
    ensures x in r.completed
    decreases k
  {
    hide Consistent; hide HasId; hide EdgesOfRegions; hide EndsWalk; hide Leads;
    var e := EdgesOfRegions(regions);
    if k == 0 {
      EndsWalkZero(e, x);
    } else {
      forall p | (p, x) in e ensures p in r.completed && p in facts {
        EdgeLeads(e, p, x);
        if EndsWalk(e, p, k - 1) { EndsWalkExtend(e, p, x, k - 1); }
        forall y | Leads(e, y, p) ensures y in facts { LeadsFurther(e, y, p, x); }
        EdgeEnds(regions, p, x);
        UpstreamFactsLevel(regions, facts, r, p, k - 1);
      }
      if !NoPreds(e, x) {
        var p :| (p, x) in e;
        var i :| 0 <= i < |r.completed| && r.completed[i] == p;
        LastOf(e, facts, r.completed, x, |r.completed|);
        assert Released(e, facts, r.completed, x);
      }
    }
  }

  lemma EdgeLeads(e: Edges<string>, p: string, x: string)
    requires (p, x) in e
    ensures Leads(e, p, x)
  {
    EdgeWalk(e, p, x);
  }

  lemma LeadsFurther(e: Edges<string>, y: string, p: string, x: string)
    requires Leads(e, y, p) && (p, x) in e
    ensures Leads(e, y, x)
  {
    var k: nat :| k > 0 && Walk(e, y, p, k);
    EdgeWalk(e, p, x);
    WalkConcat(e, y, p, x, k, 1);
  }

  /**
   In a run that was not stopped, facts for everything upstream are enough: a region below no cycle is then completed.
   */
  lemma UpstreamFactsComplete(regions: seq<Region>, facts: map<string, seq<Fact>>, r: DataflowResult, x: string)
    requires Consistent(regions) && ReleaseLaw(regions, facts, r) && (r.stop == Converged || r.stop == Settled)
    requires HasId(regions, x) && !BelowCycle(EdgesOfRegions(regions), x)
    requires forall y :: Leads(EdgesOfRegions(regions), y, x) ==> y in facts
    ensures x in r.completed
  {
    hide Consistent; hide HasId; hide EdgesOfRegions; hide IdSet; hide BelowCycle; hide EndsWalk; hide ReleaseLaw;
    var e, all := EdgesOfRegions(regions), IdSet(regions);
    IdSetSpec(regions, x);
    forall u, v | (u, v) in e ensures u in all && v in all {
      EdgeEnds(regions, u, v);
      IdSetSpec(regions, u);
      IdSetSpec(regions, v);
    }
    LongWalkIffBelowCycle(e, all, x, |all|);
    UpstreamFactsLevel(regions, facts, r, x, |all|);
  }

  // ---------------------------------------- chunks of more than one block can block the flow

  /** entry -> loop head <-> loop body -> return */
  const SIMPLE_LOOP: Graph := [[1], [2], [1, 3], []]

  lemma SimpleLoopComponents(sccs: seq<seq<nat>>)
    requires IsSccPartition(SIMPLE_LOOP, sccs)
    ensures !InLoop(sccs, 0) && InLoop(sccs, 1) && InLoop(sccs, 2) && !InLoop(sccs, 3)
  {
    hide Reach;
    var e: Edges<nat> := EdgesOf(SIMPLE_LOOP);
    ReachEdge(e, 1, 2);
    ReachEdge(e, 2, 1);
    forall b: nat | b == 1 || b == 2 ensures InLoop(sccs, b) {
      assert Covered(sccs, b);
      var c :| 0 <= c < |sccs| && b in sccs[c];
      assert 1 in sccs[c] && 2 in sccs[c];
    }
    forall b: nat | b == 0 || b == 3 ensures !InLoop(sccs, b) {
      if c :| 0 <= c < |sccs| && |sccs[c]| > 1 && b in sccs[c] {
        var x: nat := if sccs[c][0] == b then sccs[c][1] else sccs[c][0];
        assert x in sccs[c] && x != b;
        if b == 0 {
          ClosedReach(e, iset{1, 2, 3}, x, 0);
        } else {
          ClosedReach(e, iset{3}, 3, x);
        }
      }
    }
  }

  lemma SimpleLoopSingles(sccs: seq<seq<nat>>)
    requires !InLoop(sccs, 0) && InLoop(sccs, 1) && InLoop(sccs, 2) && !InLoop(sccs, 3)
    ensures Singles(sccs, 4) == [0, 3] && Chunks(Singles(sccs, 4), 64) == [[0, 3]]
  {
    hide InLoop;
    assert Singles(sccs, 0) == [];
    assert Singles(sccs, 1) == [0];
    assert Singles(sccs, 2) == [0];
    assert Singles(sccs, 3) == [0];
    assert Singles(sccs, 4) == [0, 3];
    hide Singles;
  }

  /** In any default partition of the simple loop, a region is the chunk of entry and return, or the loop. */
  lemma SimpleLoopRegion(idx: CfgIndex, sccs: seq<seq<nat>>, p: Partition, i: nat)
    requires IsPartition(idx, DEFAULT_OPTIONS, sccs, p) && idx.succs == SIMPLE_LOOP && i < |p.regions|
    ensures p.regions[i].role == Chunk ==> p.regions[i].blockIds == [0, 3]
    ensures p.regions[i].role != Chunk ==>
              1 in p.regions[i].blockIds && 2 in p.regions[i].blockIds && 0 !in p.regions[i].blockIds
  {
    hide IsComponent; hide Described; hide Linked; hide Placed; hide InLoop; hide Singles; hide Chunks; hide Multi;
    SimpleLoopComponents(sccs);
    if p.regions[i].role == Chunk {
      SimpleLoopSingles(sccs);
    } else {
      LoopRegionIsComponent(idx, DEFAULT_OPTIONS, sccs, p, i);
      var c := MultiMember(sccs, |sccs|, i);
      SortNatsSpec(sccs[c]);
      LoopHoldsBoth(sccs, c);
    }
  }

  lemma LoopHoldsBoth(sccs: seq<seq<nat>>, c: nat)
    requires IsSccPartition(SIMPLE_LOOP, sccs) && c < |sccs| && |sccs[c]| > 1
    ensures 1 in sccs[c] && 2 in sccs[c] && 0 !in sccs[c]
  {
    hide Reach;
    SimpleLoopComponents(sccs);
    ReachEdge<nat>(EdgesOf(SIMPLE_LOOP), 1, 2);
    ReachEdge<nat>(EdgesOf(SIMPLE_LOOP), 2, 1);
    assert IsComponent(SIMPLE_LOOP, sccs[c]);
    var b := sccs[c][0];
    assert b in sccs[c] && InLoop(sccs, b);
  }

  /**
   With the default options the simplest loop already gives a cyclic region graph: entry and
   return fall into one chunk, which both precedes and follows the loop region.
   */
  lemma DefaultChunksCanCycle(idx: CfgIndex, sccs: seq<seq<nat>>, p: Partition)
    requires IsPartition(idx, DEFAULT_OPTIONS, sccs, p) && idx.succs == SIMPLE_LOOP
    ensures forall x :: HasId(p.regions, x) ==> OnCycle(EdgesOfRegions(p.regions), x)
  {
    hide IsPartition;
    hide HasId;
    hide EdgesOfRegions;
    hide OnCycle;
    var i := EveryBlockInOneRegion(idx, DEFAULT_OPTIONS, sccs, p, 1);
    var j := EveryBlockInOneRegion(idx, DEFAULT_OPTIONS, sccs, p, 0);
    SimpleLoopRegion(idx, sccs, p, i);
    SimpleLoopRegion(idx, sccs, p, j);
    var l, c := p.regions[i], p.regions[j];
    assert BlockEdge(SIMPLE_LOOP, l, c, 2, 3) && BlockEdge(SIMPLE_LOOP, c, l, 0, 1);
    MutualRegions(idx, DEFAULT_OPTIONS, sccs, p, i, j);
    PartitionIds(idx, DEFAULT_OPTIONS, sccs, p);
    forall x | HasId(p.regions, x) ensures OnCycle(EdgesOfRegions(p.regions), x) {
      var k := Find(p.regions, x);
      SimpleLoopRegion(idx, sccs, p, k);
    }
  }

  /** So every data-flow run on it, whatever its facts and limits, completes nothing and does not converge. */
  lemma DefaultChunksNeverStart(idx: CfgIndex, sccs: seq<seq<nat>>, p: Partition, facts: map<string, seq<Fact>>,
                                limits: Limits, r: DataflowResult, seen: map<string, seq<Fact>>)
    requires IsPartition(idx, DEFAULT_OPTIONS, sccs, p) && idx.succs == SIMPLE_LOOP
    requires SafeOutcome(p.regions, facts, limits, r, seen)
    ensures r.completed == [] && !r.converged
  {
    hide IsPartition; hide HasId; hide EdgesOfRegions; hide FactsSound; hide FactsComplete; hide Exact; hide OnCycle;
    hide Consistent;
    DefaultChunksCanCycle(idx, sccs, p);
    PartitionConsistent(idx, DEFAULT_OPTIONS, sccs, p);
    PartitionIds(idx, DEFAULT_OPTIONS, sccs, p);
    if r.completed != [] {
      var x := r.completed[0];
      assert x in r.completed && HasId(p.regions, x);
      CompletedBelowNoCycle(p.regions, r.completed, x);
      CycleIsBelow(EdgesOfRegions(p.regions), x);
    }
    var i := EveryBlockInOneRegion(idx, DEFAULT_OPTIONS, sccs, p, 0);
    IdExists(p.regions, i);
  }

  lemma IdExists(regions: seq<Region>, i: nat)
    requires i < |regions|
    ensures HasId(regions, regions[i].id)
  {
  }

  lemma CycleIsBelow(e: Edges<string>, x: string)
    requires OnCycle(e, x)
    ensures BelowCycle(e, x)
  {
    ReachRefl(e, x);
  }

  /** Two regions with block edges both ways lie on a cycle. */
  lemma MutualRegions(idx: CfgIndex, opts: Options, sccs: seq<seq<nat>>, p: Partition, i: nat, j: nat)
    requires IsPartition(idx, opts, sccs, p) && i < |p.regions| && j < |p.regions| && i != j
    requires exists a, b :: BlockEdge(idx.succs, p.regions[i], p.regions[j], a, b)
    requires exists a, b :: BlockEdge(idx.succs, p.regions[j], p.regions[i], a, b)
    ensures OnCycle(EdgesOfRegions(p.regions), p.regions[i].id) && OnCycle(EdgesOfRegions(p.regions), p.regions[j].id)
  {
    hide IsPartition;
    hide EdgesOfRegions;
    hide BlockEdge;
    hide Consistent;
    var e, r, s := EdgesOfRegions(p.regions), p.regions[i].id, p.regions[j].id;
    PartitionIds(idx, opts, sccs, p);
    QuotientGraph(idx, opts, sccs, p, i, j);
    QuotientGraph(idx, opts, sccs, p, j, i);
    LinksAreEdges(p.regions, i);
    LinksAreEdges(p.regions, j);
    EdgeWalk(e, r, s);
    EdgeWalk(e, s, r);
    WalkConcat(e, r, s, r, 1, 1);
    WalkConcat(e, s, r, s, 1, 1);
  }

  // --------------------------------------------------------------------- end to end

  /** A worker row that leads from a block of `r` to a block of `s`. */
  ghost predicate RowBetween(idx: CfgIndex, rows: seq<GraphEdge>, r: Region, s: Region, a: nat, b: nat) {
    && a in r.blockIds && b in s.blockIds && a < |idx.blockEas| && b < |idx.blockEas|
    && HasRow(rows, |rows|, idx.blockEas[a], idx.blockEas[b])
  }

  /** The region graph is the exact quotient of the worker's edge rows between known blocks. */
  lemma QuotientOfWorkerRows(graph: WorkerGraph, idx: CfgIndex, opts: Options, sccs: seq<seq<nat>>, p: Partition,
                             i: nat, j: nat)
    requires IsPartition(idx, opts, sccs, p) && Adjacent(idx.blockEas, idx.succs, graph.edges, |graph.edges|)
    requires i < |p.regions| && j < |p.regions|
    ensures p.regions[j].id in p.regions[i].succs <==>
            i != j && exists a, b :: RowBetween(idx, graph.edges, p.regions[i], p.regions[j], a, b)
  {
    hide IsPartition;
    hide HasRow;
    var r, s := p.regions[i], p.regions[j];
    QuotientGraph(idx, opts, sccs, p, i, j);
    if a: nat, b: nat :| BlockEdge(idx.succs, r, s, a, b) {
      var k :| 0 <= k < |idx.succs[a]| && idx.succs[a][k] == b;
      assert RowBetween(idx, graph.edges, r, s, a, b);
    }
    if a: nat, b: nat :| RowBetween(idx, graph.edges, r, s, a, b) {
      assert BlockEdge(idx.succs, r, s, a, b);
    }
  }

  /** The facts handed to the data flow: an entry for each of the first `k` regions (lines 113-185). */
  method GatherFacts(regions: seq<Region>, k: nat) returns (facts: map<string, seq<Fact>>)
    ensures forall x :: x in facts <==> exists i :: 0 <= i < |regions| && i < k && regions[i].id == x
    ensures forall x :: x in facts ==> facts[x] == []
  {
    facts := map[];
    for i := 0 to |regions|
      invariant forall x :: x in facts <==> exists j :: 0 <= j < i && j < k && regions[j].id == x
      invariant forall x :: x in facts ==> facts[x] == []
    {
      if i < k {
        facts := facts[regions[i].id := []];
      }
    }
  }

  /** The worker's rows between known blocks, by position in the sorted list of block addresses. */
  ghost function BlockEdges(graph: WorkerGraph): Edges<nat> {
    var eas := BlockEas(graph.nodes);
    iset e: (nat, nat) | e.0 < |eas| && e.1 < |eas| && HasRow(graph.edges, |graph.edges|, eas[e.0], eas[e.1])
  }

  lemma IndexedEdges(graph: WorkerGraph, idx: CfgIndex)
    requires idx.blockEas == BlockEas(graph.nodes) && Adjacent(idx.blockEas, idx.succs, graph.edges, |graph.edges|)
    ensures EdgesOf(idx.succs) == BlockEdges(graph) && |idx.succs| == |BlockEas(graph.nodes)|
  {
    hide HasRow; hide BlockEas;
    forall e: (nat, nat) ensures e in EdgesOf(idx.succs) <==> e in BlockEdges(graph) {
      if e in EdgesOf(idx.succs) {
        var k :| 0 <= k < |idx.succs[e.0]| && idx.succs[e.0][k] == e.1;
      }
    }
  }

  /** When the data flow of a worker graph converges, in terms of the graph alone. */
  lemma GraphConvergesIff(graph: WorkerGraph, idx: CfgIndex, opts: Options, sccs: seq<seq<nat>>, p: Partition)
    requires IsPartition(idx, opts, sccs, p) && idx.blockEas == BlockEas(graph.nodes)
    requires Adjacent(idx.blockEas, idx.succs, graph.edges, |graph.edges|)
    ensures opts.maxChunkBlocks > 0 && |p.regions| <= |BlockEas(graph.nodes)|
    ensures var e, n, size := BlockEdges(graph), |BlockEas(graph.nodes)|, opts.maxChunkBlocks;
      && (Acyclic(EdgesOfRegions(p.regions)) <==> NoReturn(e, n, size))
      && (Rank(e, n, n) <= size ==> (NoReturn(e, n, size) <==> NoLoopBetween(e, n)))
      && (size == 1 ==> NoReturn(e, n, size))
  {
    hide IsPartition; hide Adjacent; hide Acyclic; hide NoReturn; hide NoLoopBetween; hide Rank; hide EdgesOfRegions;
    hide BlockEdges; hide BlockEas;
    IndexedEdges(graph, idx);
    AcyclicIffNoReturn(idx, opts, sccs, p);
    FewRegions(idx, opts, sccs, p);
    var e, n := BlockEdges(graph), |BlockEas(graph.nodes)|;
    if Rank(e, n, n) <= opts.maxChunkBlocks { OneChunkIff(e, n, opts.maxChunkBlocks); }
    if opts.maxChunkBlocks == 1 { SingletonChunksAcyclic(idx, opts, sccs, p); }
  }

  /** Steps 3 to 5 of the `function_hierarchical` workflow. */
  method HierarchicalDataflow(graph: WorkerGraph, ea: nat, opts: Options, maxRegions: nat, limits: Limits,
                              expired: nat -> bool)
      returns (p: Partition, r: DataflowResult, ghost idx: CfgIndex, ghost sccs: seq<seq<nat>>,
               ghost facts: map<string, seq<Fact>>, ghost seen: map<string, seq<Fact>>)
    requires opts.maxChunkBlocks > 0
    ensures IsPartition(idx, opts, sccs, p) && p.functionEa == ea
    ensures Adjacent(idx.blockEas, idx.succs, graph.edges, |graph.edges|)
    ensures idx.blockEas == BlockEas(graph.nodes) && |p.regions| <= |BlockEas(graph.nodes)|
    ensures forall a: nat :: a in idx.blockEas <==> Some(a) in graph.nodes
    ensures SafeOutcome(p.regions, facts, limits, r, seen)
    ensures ReleaseLaw(p.regions, facts, r)
    ensures forall x :: x in facts <==> exists i :: 0 <= i < |p.regions| && i < maxRegions && p.regions[i].id == x
    ensures (forall k :: !expired(k)) && |p.regions| <= maxRegions && |p.regions| <= limits.maxIterations ==>
              var e, n, size := BlockEdges(graph), |BlockEas(graph.nodes)|, opts.maxChunkBlocks;
              && (r.converged <==> Acyclic(EdgesOfRegions(p.regions))) && (r.converged <==> NoReturn(e, n, size))
              && (Rank(e, n, n) <= size ==> (r.converged <==> NoLoopBetween(e, n)))
              && (size == 1 ==> r.converged)
  {
    hide IsPartition; hide SafeOutcome; hide ReleaseLaw; hide Adjacent; hide Level; hide Consistent; hide Acyclic;
    hide EdgesOfRegions; hide HasId; hide NoReturn; hide NoLoopBetween; hide Rank; hide BlockEdges; hide BlockEas;
    var index := CfgIndexFromGraph(graph);
    p, sccs := MakePartition(index, opts);
    p := Anchor(index, opts, sccs, p, ea);
    idx := index;
    PartitionConsistent(idx, opts, sccs, p);
    GraphConvergesIff(graph, idx, opts, sccs, p);
    var given := GatherFacts(p.regions, maxRegions);
    facts := given;
    r, seen := RunDataflow(p.regions, given, limits, expired);
    if (forall k :: !expired(k)) && |p.regions| <= maxRegions && |p.regions| <= limits.maxIterations {
      AllGathered(p.regions, maxRegions, facts);
      ConvergedIffAcyclic(p.regions, facts, limits, r, seen);
    }
  }

  lemma AllGathered(regions: seq<Region>, k: nat, facts: map<string, seq<Fact>>)
    requires forall x :: x in facts <==> exists i :: 0 <= i < |regions| && i < k && regions[i].id == x
    requires |regions| <= k
    ensures AllFacts(regions, facts)
  {
  }

  /** `partition_from_graph` replaces the function address by the requested one. */
  method Anchor(idx: CfgIndex, opts: Options, ghost sccs: seq<seq<nat>>, p: Partition, ea: nat) returns (q: Partition)
    requires IsPartition(idx, opts, sccs, p)
    ensures IsPartition(idx, opts, sccs, q) && q == p.(functionEa := ea)
  {
    hide LoopPart;
    hide ChunkPart;
    hide Placed;
    hide Described;
    hide Linked;
    hide IsSccPartition;
    q := p.(functionEa := ea);
  }
}
