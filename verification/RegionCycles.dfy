/**
 When the region graph is acyclic, in terms of the block graph alone.
 */
module RegionCycles {
  import opened Basics
  import opened Walks
  import opened Sorting
  import opened Tarjan
  import opened CfgIndexes
  import opened Regions
  import opened RegionGraph
  import opened RegionLaws

  // ------------------------------------------------------- when the region graph is acyclic

  /** The blocks of a region reach each other. */
  ghost predicate Connected(e: Edges<nat>, r: Region) {
    forall a: nat, b: nat :: a in r.blockIds && b in r.blockIds ==> Reach(e, a, b)
  }

  /** If all regions are connected along the edges of `h`, which include those of the block graph, region walks lift. */
  lemma {:induction false} WalkLifts(idx: CfgIndex, opts: Options, sccs: seq<seq<nat>>, p: Partition,
                                     h: Edges<nat>, i: nat, j: nat, a: nat, b: nat, k: nat)
    requires IsPartition(idx, opts, sccs, p) && i < |p.regions| && j < |p.regions|
    requires EdgesOf(idx.succs) <= h && forall r :: r in p.regions ==> Connected(h, r)
    requires Walk(EdgesOfRegions(p.regions), p.regions[i].id, p.regions[j].id, k)
    requires a in p.regions[i].blockIds && b in p.regions[j].blockIds
    ensures Reach(h, a, b)
    decreases k
  {
    hide IsPartition;
    hide EdgesOfRegions;
    hide Reach;
    var e, g := EdgesOfRegions(p.regions), idx.succs;
    assert p.regions[i] in p.regions && p.regions[j] in p.regions;
    PartitionIds(idx, opts, sccs, p);
    if k == 0 {
      assert i == j;
    } else {
      var m :| (p.regions[i].id, m) in e && Walk(e, m, p.regions[j].id, k - 1);
      var l := EdgeTarget(p.regions, i, m);
      QuotientGraph(idx, opts, sccs, p, i, l);
      var c: nat, d: nat :| BlockEdge(g, p.regions[i], p.regions[l], c, d);
      assert (c, d) in EdgesOf(g);
      ReachEdge(h, c, d);
      WalkLifts(idx, opts, sccs, p, h, l, j, d, b, k - 1);
      ReachTrans(h, a, c, d);
      ReachTrans(h, a, d, b);
    }
  }

  lemma PartitionIds(idx: CfgIndex, opts: Options, sccs: seq<seq<nat>>, p: Partition)
    requires IsPartition(idx, opts, sccs, p)
    ensures Consistent(p.regions)
    ensures forall i, j :: 0 <= i < j < |p.regions| ==> p.regions[i].id != p.regions[j].id
  {
    PartitionConsistent(idx, opts, sccs, p);
  }

  lemma EdgeTarget(regions: seq<Region>, i: nat, m: string) returns (h: nat)
    requires Consistent(regions) && i < |regions| && (regions[i].id, m) in EdgesOfRegions(regions)
    ensures h < |regions| && regions[h].id == m && m in regions[i].succs
  {
    EdgeEnds(regions, regions[i].id, m);
    LinksAreEdges(regions, i);
    h := Find(regions, m);
  }

  /** If every region is connected, the region graph is acyclic. */
  lemma ConnectedRegionsAcyclic(idx: CfgIndex, opts: Options, sccs: seq<seq<nat>>, p: Partition)
    requires IsPartition(idx, opts, sccs, p)
    requires forall r :: r in p.regions ==> Connected(EdgesOf(idx.succs), r)
    ensures Acyclic(EdgesOfRegions(p.regions))
  {
    hide IsPartition;
    hide EdgesOfRegions;
    hide Reach;
    hide HasId;
    var e, g := EdgesOfRegions(p.regions), idx.succs;
    PartitionIds(idx, opts, sccs, p);
    forall x ensures !OnCycle(e, x) {
      if OnCycle(e, x) {
        var k: nat :| k > 0 && Walk(e, x, x, k);
        var m :| (x, m) in e && Walk(e, m, x, k - 1);
        EdgeEnds(p.regions, x, m);
        var i := Find(p.regions, x);
        var h := EdgeTarget(p.regions, i, m);
        QuotientGraph(idx, opts, sccs, p, i, h);
        var c: nat, d: nat :| BlockEdge(g, p.regions[i], p.regions[h], c, d);
        ReachEdge(EdgesOf(g), c, d);
        WalkLifts(idx, opts, sccs, p, EdgesOf(g), h, i, d, c, k - 1);
        EdgeProjects(idx, opts, sccs, p, c, d);
        ConnectedTogether(idx, opts, sccs, p, i, h, c, d);
      }
    }
  }

  /**
   Mutually reachable blocks share their region, unless both are chunk blocks, and those are never mutually reachable.
   */
  lemma ConnectedTogether(idx: CfgIndex, opts: Options, sccs: seq<seq<nat>>, p: Partition, i: nat, h: nat, c: nat,
                          d: nat)
    requires IsPartition(idx, opts, sccs, p) && i < |p.regions| && h < |p.regions|
    requires c in p.regions[i].blockIds && d in p.regions[h].blockIds && c < |idx.succs| && d < |idx.succs|
    requires Reach(EdgesOf(idx.succs), c, d) && Reach(EdgesOf(idx.succs), d, c)
    ensures i == h
  {
    hide IsPartition;
    hide Reach;
    if p.regions[i].role == Chunk {
      ChunkRegionIsChunk(idx, opts, sccs, p, i);
      assert IsComponent(idx.succs, [c]);
      assert c in [c];
      assert d in [c];
    } else {
      LoopRegionIsComponent(idx, opts, sccs, p, i);
    }
    var j := EveryBlockInOneRegion(idx, opts, sccs, p, d);
  }

  /** With chunks of one block, every region is a component, so the region graph is the condensation. */
  lemma SingletonChunksConnected(idx: CfgIndex, opts: Options, sccs: seq<seq<nat>>, p: Partition)
    requires IsPartition(idx, opts, sccs, p) && opts.maxChunkBlocks == 1
    ensures forall r :: r in p.regions ==> Connected(EdgesOf(idx.succs), r)
  {
    hide IsPartition;
    hide Reach;
    forall r | r in p.regions ensures Connected(EdgesOf(idx.succs), r) {
      var i :| 0 <= i < |p.regions| && p.regions[i] == r;
      if r.role == Chunk {
        ChunkRegionIsChunk(idx, opts, sccs, p, i);
        assert r.blockIds[0] in r.blockIds;
        ReachRefl(EdgesOf(idx.succs), r.blockIds[0]);
        assert forall a: nat :: a in r.blockIds ==> a == r.blockIds[0];
      } else {
        LoopRegionIsComponent(idx, opts, sccs, p, i);
      }
    }
  }

  /** Partitioning with chunks of one block always gives an acyclic region graph. */
  lemma SingletonChunksAcyclic(idx: CfgIndex, opts: Options, sccs: seq<seq<nat>>, p: Partition)
    requires IsPartition(idx, opts, sccs, p) && opts.maxChunkBlocks == 1
    ensures Acyclic(EdgesOfRegions(p.regions))
  {
    SingletonChunksConnected(idx, opts, sccs, p);
    ConnectedRegionsAcyclic(idx, opts, sccs, p);
  }

  // ------------------------------------------------------- which blocks share a region

  ghost predicate Mutual(e: Edges<nat>, a: nat, b: nat) { Reach(e, a, b) && Reach(e, b, a) }

  /** Block `b` and another block reach each other. */
  ghost predicate LoopBlock(e: Edges<nat>, n: nat, b: nat) {
    exists c: nat :: c < n && c != b && Mutual(e, b, c)
  }

  /** How many of the first `k` blocks are in no loop. */
  ghost function Rank(e: Edges<nat>, n: nat, k: nat): nat {
    if k == 0 then 0 else Rank(e, n, k - 1) + if LoopBlock(e, n, k - 1) then 0 else 1
  }

  /** Two blocks that reach each other, or two outside every loop whose ranks fall into the same chunk. */
  ghost predicate Together(e: Edges<nat>, n: nat, size: nat, a: nat, b: nat)
    requires size > 0
  {
    || Mutual(e, a, b)
    || (!LoopBlock(e, n, a) && !LoopBlock(e, n, b) && Rank(e, n, a) / size == Rank(e, n, b) / size)
  }

  /** The edges of the block graph, and a hop between any two blocks that go together. */
  ghost function Hops(e: Edges<nat>, n: nat, size: nat): Edges<nat>
    requires size > 0
  {
    iset x: (nat, nat) | x in e || (x.0 < n && x.1 < n && Together(e, n, size, x.0, x.1))
  }

  /** Whoever leaves the blocks that go together does not come back, hops included. */
  ghost predicate NoReturn(e: Edges<nat>, n: nat, size: nat)
    requires size > 0
  {
    forall a: nat, b: nat :: a < n && b < n && Mutual(Hops(e, n, size), a, b) ==> Together(e, n, size, a, b)
  }

  lemma InLoopIff(g: Graph, sccs: seq<seq<nat>>, b: nat)
    requires IsSccPartition(g, sccs) && b < |g|
    ensures InLoop(sccs, b) <==> LoopBlock(EdgesOf(g), |g|, b)
  {
    hide Reach;
    assert Covered(sccs, b);
    var c :| 0 <= c < |sccs| && b in sccs[c];
    assert IsComponent(g, sccs[c]);
    if |sccs[c]| > 1 {
      var x := if sccs[c][0] == b then sccs[c][1] else sccs[c][0];
      assert x in sccs[c] && x != b;
      assert Mutual(EdgesOf(g), b, x);
    }
    if x: nat :| x < |g| && x != b && Mutual(EdgesOf(g), b, x) {
      assert x in sccs[c];
    }
  }

  lemma {:induction false} RankIsLength(g: Graph, sccs: seq<seq<nat>>, k: nat)
    requires IsSccPartition(g, sccs) && k <= |g|
    ensures |Singles(sccs, k)| == Rank(EdgesOf(g), |g|, k)
  {
    hide LoopBlock; hide InLoop; hide IsSccPartition;
    if k > 0 {
      RankIsLength(g, sccs, k - 1);
      InLoopIff(g, sccs, k - 1);
    }
  }

  /** A block outside every loop stands at its rank in the list that is chunked. */
  lemma {:induction false} RankIsPosition(g: Graph, sccs: seq<seq<nat>>, k: nat, b: nat)
    requires IsSccPartition(g, sccs) && b < k <= |g| && !LoopBlock(EdgesOf(g), |g|, b)
    ensures Rank(EdgesOf(g), |g|, b) < |Singles(sccs, k)| && Singles(sccs, k)[Rank(EdgesOf(g), |g|, b)] == b
    decreases k
  {
    hide LoopBlock; hide InLoop; hide IsSccPartition; hide Rank;
    if b == k - 1 {
      RankIsLength(g, sccs, b);
      InLoopIff(g, sccs, b);
    } else {
      RankIsPosition(g, sccs, k - 1, b);
    }
  }

  lemma {:induction false} ChunkHolds(s: seq<nat>, size: nat, i: nat)
    requires size > 0 && i < |s|
    ensures i / size < |Chunks(s, size)| && s[i] in Chunks(s, size)[i / size]
    decreases i
  {
    hide Chunks;
    ChunksStep(s, size);
    var rest := Chunks(Drop(s, size), size);
    if i < size {
      Small(i, size);
      assert Take(s, size)[i] == s[i];
    } else {
      ChunkHolds(Drop(s, size), size, i - size);
      OneLess(i, size);
      assert Drop(s, size)[i - size] == s[i];
    }
  }

  lemma OneLess(i: nat, size: nat)
    requires 0 < size <= i
    ensures i / size == (i - size) / size + 1
  {
    var q, r, q', r' := i / size, i % size, (i - size) / size, (i - size) % size;
    assert r - r' == (q' + 1 - q) * size;
    SmallMultiple(q' + 1 - q, size);
  }

  lemma SingleRegion(idx: CfgIndex, opts: Options, sccs: seq<seq<nat>>, p: Partition, b: nat) returns (i: nat)
    requires IsPartition(idx, opts, sccs, p) && b < |idx.succs| && !LoopBlock(EdgesOf(idx.succs), |idx.succs|, b)
    ensures i == LoopCount(sccs) + Rank(EdgesOf(idx.succs), |idx.succs|, b) / opts.maxChunkBlocks
    ensures i < |p.regions| && b in p.regions[i].blockIds && p.regions[i].role == Chunk
  {
    hide LoopBlock; hide LoopPart; hide Placed; hide Linked; hide Described; hide IsSccPartition;
    hide Singles; hide Chunks; hide Rank; hide Multi;
    RankIsPosition(idx.succs, sccs, |idx.succs|, b);
    var r := Rank(EdgesOf(idx.succs), |idx.succs|, b);
    ChunkHolds(Singles(sccs, |idx.succs|), opts.maxChunkBlocks, r);
    i := LoopCount(sccs) + r / opts.maxChunkBlocks;
  }

  lemma AloneNotLoop(g: Graph, b: nat)
    requires IsComponent(g, [b])
    ensures !LoopBlock(EdgesOf(g), |g|, b)
  {
    hide Reach;
    assert b in [b];
  }

  lemma ChunkHasNoLoop(idx: CfgIndex, opts: Options, sccs: seq<seq<nat>>, p: Partition, a: nat, i: nat)
    requires IsPartition(idx, opts, sccs, p) && i < |p.regions| && a in p.regions[i].blockIds
    ensures p.regions[i].role == Chunk ==> !LoopBlock(EdgesOf(idx.succs), |idx.succs|, a)
  {
    hide IsPartition; hide LoopBlock; hide IsComponent;
    if p.regions[i].role == Chunk {
      ChunkRegionIsChunk(idx, opts, sccs, p, i);
      AloneNotLoop(idx.succs, a);
    }
  }

  lemma LoopRegionOf(idx: CfgIndex, opts: Options, sccs: seq<seq<nat>>, p: Partition, a: nat, i: nat)
    requires IsPartition(idx, opts, sccs, p) && a < |idx.succs| && LoopBlock(EdgesOf(idx.succs), |idx.succs|, a)
    requires i < |p.regions| && a in p.regions[i].blockIds
    ensures p.regions[i].role != Chunk
    ensures forall b: nat :: b < |idx.succs| ==> (b in p.regions[i].blockIds <==> Mutual(EdgesOf(idx.succs), a, b))
  {
    hide IsPartition; hide Reach; hide LoopBlock;
    ChunkHasNoLoop(idx, opts, sccs, p, a, i);
    LoopRegionIsComponent(idx, opts, sccs, p, i);
  }

  lemma MutualLoops(e: Edges<nat>, n: nat, a: nat, b: nat)
    requires Mutual(e, a, b) && a < n && b < n
    ensures LoopBlock(e, n, a) ==> LoopBlock(e, n, b)
    ensures a != b ==> LoopBlock(e, n, a)
  {
    hide Reach;
    if a != b { assert Mutual(e, b, a); }
  }

  lemma SinglesTogether(idx: CfgIndex, opts: Options, sccs: seq<seq<nat>>, p: Partition, a: nat, b: nat, i: nat, j: nat)
    requires IsPartition(idx, opts, sccs, p) && a < |idx.succs| && b < |idx.succs| && i < |p.regions| && j < |p.regions|
    requires var e, n := EdgesOf(idx.succs), |idx.succs|; !LoopBlock(e, n, a) && !LoopBlock(e, n, b)
    requires a in p.regions[i].blockIds && b in p.regions[j].blockIds
    ensures i == j <==> Together(EdgesOf(idx.succs), |idx.succs|, opts.maxChunkBlocks, a, b)
  {
    assert Placed(p.regions, p.blockRegion);
    var e, n := EdgesOf(idx.succs), |idx.succs|;
    hide IsPartition; hide LoopBlock; hide Mutual; hide Rank;
    var ia := SingleRegion(idx, opts, sccs, p, a);
    var ib := SingleRegion(idx, opts, sccs, p, b);
    assert i == ia && j == ib;
    if Mutual(e, a, b) { MutualLoops(e, n, a, b); }
  }

  /** Two blocks lie in the same region exactly if they go together. */
  lemma TogetherIff(idx: CfgIndex, opts: Options, sccs: seq<seq<nat>>, p: Partition, a: nat, b: nat, i: nat, j: nat)
    requires IsPartition(idx, opts, sccs, p) && a < |idx.succs| && b < |idx.succs| && i < |p.regions| && j < |p.regions|
    requires a in p.regions[i].blockIds && b in p.regions[j].blockIds
    ensures i == j <==> Together(EdgesOf(idx.succs), |idx.succs|, opts.maxChunkBlocks, a, b)
  {
    hide IsPartition; hide LoopBlock; hide Mutual; hide Rank;
    var e, n := EdgesOf(idx.succs), |idx.succs|;
    if LoopBlock(e, n, a) {
      LoopRegionOf(idx, opts, sccs, p, a, i);
      var k := EveryBlockInOneRegion(idx, opts, sccs, p, b);
    } else if LoopBlock(e, n, b) {
      LoopRegionOf(idx, opts, sccs, p, b, j);
      var k := EveryBlockInOneRegion(idx, opts, sccs, p, a);
      MutualSym(e, a, b);
    } else {
      SinglesTogether(idx, opts, sccs, p, a, b, i, j);
    }
  }

  lemma MutualSym(e: Edges<nat>, a: nat, b: nat)
    ensures Mutual(e, a, b) <==> Mutual(e, b, a)
  {
  }

  // ------------------------------------------------------- the exact condition

  /** A hop stays in its region or is one step of the region graph. */
  lemma HopProjects(idx: CfgIndex, opts: Options, sccs: seq<seq<nat>>, p: Partition, a: nat, b: nat)
    requires IsPartition(idx, opts, sccs, p) && (a, b) in Hops(EdgesOf(idx.succs), |idx.succs|, opts.maxChunkBlocks)
    ensures a in p.blockRegion && b in p.blockRegion && b < |idx.succs|
    ensures p.blockRegion[a] == p.blockRegion[b] || (p.blockRegion[a], p.blockRegion[b]) in EdgesOfRegions(p.regions)
  {
    assert opts.maxChunkBlocks > 0;
    hide IsPartition; hide Together; hide EdgesOfRegions;
    if (a, b) in EdgesOf(idx.succs) {
      EdgeProjects(idx, opts, sccs, p, a, b);
    } else {
      var i := EveryBlockInOneRegion(idx, opts, sccs, p, a);
      var j := EveryBlockInOneRegion(idx, opts, sccs, p, b);
      TogetherIff(idx, opts, sccs, p, a, b, i, j);
    }
  }

  lemma {:induction false} HopsProject(idx: CfgIndex, opts: Options, sccs: seq<seq<nat>>, p: Partition, h: Edges<nat>,
                                       a: nat, b: nat, k: nat) returns (l: nat)
    requires IsPartition(idx, opts, sccs, p) && a < |idx.succs| && Walk(h, a, b, k) && opts.maxChunkBlocks > 0
    requires h == Hops(EdgesOf(idx.succs), |idx.succs|, opts.maxChunkBlocks)
    ensures a in p.blockRegion && b in p.blockRegion && l <= k
    ensures Walk(EdgesOfRegions(p.regions), p.blockRegion[a], p.blockRegion[b], l)
    decreases k
  {
    hide IsPartition; hide EdgesOfRegions; hide Hops;
    if k == 0 {
      PlacedAll(idx, opts, sccs, p, a);
      l := 0;
    } else {
      var c: nat :| (a, c) in h && Walk(h, c, b, k - 1);
      HopProjects(idx, opts, sccs, p, a, c);
      l := HopsProject(idx, opts, sccs, p, h, c, b, k - 1);
      if p.blockRegion[a] != p.blockRegion[c] {
        l := l + 1;
      }
    }
  }

  /** Two different regions that lead to each other lie on a cycle. */
  lemma BackAndForth(e: Edges<string>, r: string, s: string, j: nat, k: nat)
    requires r != s && Walk(e, r, s, j) && Walk(e, s, r, k)
    ensures OnCycle(e, r)
  {
    WalkConcat(e, r, s, r, j, k);
  }

  /** In every partition, a region that some block path leaves and comes back to lies on a cycle of the region graph. */
  lemma LeavesAndReturns(idx: CfgIndex, opts: Options, sccs: seq<seq<nat>>, p: Partition, a: nat, b: nat, c: nat)
    requires IsPartition(idx, opts, sccs, p) && a < |idx.succs| && b < |idx.succs|
    requires Reach(EdgesOf(idx.succs), a, b) && Reach(EdgesOf(idx.succs), b, c)
    ensures a in p.blockRegion && b in p.blockRegion && c in p.blockRegion
    ensures p.blockRegion[a] == p.blockRegion[c] != p.blockRegion[b] ==>
              OnCycle(EdgesOfRegions(p.regions), p.blockRegion[a])
  {
    hide IsPartition; hide EdgesOfRegions; hide OnCycle;
    var j: nat :| Walk(EdgesOf(idx.succs), a, b, j);
    var k: nat :| Walk(EdgesOf(idx.succs), b, c, k);
    hide Walk;
    var j' := PathProjects(idx, opts, sccs, p, a, b, j);
    var k' := PathProjects(idx, opts, sccs, p, b, c, k);
    if p.blockRegion[a] == p.blockRegion[c] != p.blockRegion[b] {
      BackAndForth(EdgesOfRegions(p.regions), p.blockRegion[a], p.blockRegion[b], j', k');
    }
  }

  lemma AcyclicMeansNoReturn(idx: CfgIndex, opts: Options, sccs: seq<seq<nat>>, p: Partition)
    requires IsPartition(idx, opts, sccs, p) && Acyclic(EdgesOfRegions(p.regions))
    ensures NoReturn(EdgesOf(idx.succs), |idx.succs|, opts.maxChunkBlocks)
  {
    assert opts.maxChunkBlocks > 0;
    hide IsPartition; hide EdgesOfRegions; hide Hops; hide Together;
    var e, n, size := EdgesOf(idx.succs), |idx.succs|, opts.maxChunkBlocks;
    var h := Hops(e, n, size);
    forall a: nat, b: nat | a < n && b < n && Mutual(h, a, b) ensures Together(e, n, size, a, b) {
      var j: nat :| Walk(h, a, b, j);
      var k: nat :| Walk(h, b, a, k);
      hide Walk;
      var j' := HopsProject(idx, opts, sccs, p, h, a, b, j);
      var k' := HopsProject(idx, opts, sccs, p, h, b, a, k);
      var r := EveryBlockInOneRegion(idx, opts, sccs, p, a);
      var s := EveryBlockInOneRegion(idx, opts, sccs, p, b);
      if p.blockRegion[a] != p.blockRegion[b] {
        BackAndForth(EdgesOfRegions(p.regions), p.blockRegion[a], p.blockRegion[b], j', k');
      }
      PartitionIds(idx, opts, sccs, p);
      TogetherIff(idx, opts, sccs, p, a, b, r, s);
    }
  }

  lemma HopsConnect(idx: CfgIndex, opts: Options, sccs: seq<seq<nat>>, p: Partition, r: Region)
    requires IsPartition(idx, opts, sccs, p) && r in p.regions
    ensures Connected(Hops(EdgesOf(idx.succs), |idx.succs|, opts.maxChunkBlocks), r)
  {
    assert Described(idx, r) && opts.maxChunkBlocks > 0;
    hide IsPartition; hide Reach; hide Together;
    var i :| 0 <= i < |p.regions| && p.regions[i] == r;
    var h := Hops(EdgesOf(idx.succs), |idx.succs|, opts.maxChunkBlocks);
    forall a: nat, b: nat | a in r.blockIds && b in r.blockIds ensures Reach(h, a, b) {
      TogetherIff(idx, opts, sccs, p, a, b, i, i);
      ReachEdge(h, a, b);
    }
  }

  lemma NoReturnMeansAcyclic(idx: CfgIndex, opts: Options, sccs: seq<seq<nat>>, p: Partition)
    requires IsPartition(idx, opts, sccs, p) && NoReturn(EdgesOf(idx.succs), |idx.succs|, opts.maxChunkBlocks)
    ensures Acyclic(EdgesOfRegions(p.regions))
  {
    assert opts.maxChunkBlocks > 0;
    hide IsPartition; hide EdgesOfRegions; hide Hops; hide Together; hide OnCycle; hide NoReturn;
    var e := EdgesOfRegions(p.regions);
    PartitionIds(idx, opts, sccs, p);
    forall r | r in p.regions ensures Connected(Hops(EdgesOf(idx.succs), |idx.succs|, opts.maxChunkBlocks), r) {
      HopsConnect(idx, opts, sccs, p, r);
    }
    forall x ensures !OnCycle(e, x) {
      if OnCycle(e, x) { CycleReturns(idx, opts, sccs, p, x); }
    }
  }

  /** A cycle of regions is a block edge that hops lead back from. */
  lemma CycleReturns(idx: CfgIndex, opts: Options, sccs: seq<seq<nat>>, p: Partition, x: string)
    requires IsPartition(idx, opts, sccs, p) && OnCycle(EdgesOfRegions(p.regions), x) && opts.maxChunkBlocks > 0
    requires forall r :: r in p.regions ==> Connected(Hops(EdgesOf(idx.succs), |idx.succs|, opts.maxChunkBlocks), r)
    ensures !NoReturn(EdgesOf(idx.succs), |idx.succs|, opts.maxChunkBlocks)
  {
    hide IsPartition; hide EdgesOfRegions; hide Reach; hide HasId; hide Together; hide Connected;
    var e, g := EdgesOfRegions(p.regions), idx.succs;
    var h := Hops(EdgesOf(g), |g|, opts.maxChunkBlocks);
    PartitionIds(idx, opts, sccs, p);
    var k: nat :| k > 0 && Walk(e, x, x, k);
    var m :| (x, m) in e && Walk(e, m, x, k - 1);
    EdgeEnds(p.regions, x, m);
    var i := Find(p.regions, x);
    var l := EdgeTarget(p.regions, i, m);
    QuotientGraph(idx, opts, sccs, p, i, l);
    var c: nat, d: nat :| BlockEdge(g, p.regions[i], p.regions[l], c, d);
    ReachEdge(h, c, d);
    WalkLifts(idx, opts, sccs, p, h, l, i, d, c, k - 1);
    EdgeProjects(idx, opts, sccs, p, c, d);
    assert Mutual(h, c, d);
    TogetherIff(idx, opts, sccs, p, c, d, i, l);
  }

  /**
   The region graph of every partition is acyclic exactly if no block path, hops included, leaves a region and returns.
   */
  lemma AcyclicIffNoReturn(idx: CfgIndex, opts: Options, sccs: seq<seq<nat>>, p: Partition)
    requires IsPartition(idx, opts, sccs, p)
    ensures opts.maxChunkBlocks > 0
    ensures Acyclic(EdgesOfRegions(p.regions)) <==> NoReturn(EdgesOf(idx.succs), |idx.succs|, opts.maxChunkBlocks)
  {
    assert opts.maxChunkBlocks > 0;
    hide IsPartition; hide EdgesOfRegions; hide NoReturn; hide Acyclic;
    if Acyclic(EdgesOfRegions(p.regions)) { AcyclicMeansNoReturn(idx, opts, sccs, p); }
    if NoReturn(EdgesOf(idx.succs), |idx.succs|, opts.maxChunkBlocks) { NoReturnMeansAcyclic(idx, opts, sccs, p); }
  }

  // ------------------------------------------------------- one chunk

  /** Block `l` of a loop is reached from, and reaches, blocks outside every loop. */
  ghost predicate Between(e: Edges<nat>, n: nat, l: nat, a: nat, b: nat) {
    && LoopBlock(e, n, l) && a < n && b < n && !LoopBlock(e, n, a) && !LoopBlock(e, n, b)
    && Reach(e, a, l) && Reach(e, l, b)
  }

  /** No loop has a block outside every loop before it and another after it. */
  ghost predicate NoLoopBetween(e: Edges<nat>, n: nat) {
    forall l: nat, a: nat, b: nat :: l < n ==> !Between(e, n, l, a, b)
  }

  lemma {:induction false} RankGrows(e: Edges<nat>, n: nat, j: nat, k: nat)
    requires j <= k
    ensures Rank(e, n, j) <= Rank(e, n, k)
    ensures j < k && !LoopBlock(e, n, j) ==> Rank(e, n, j) < Rank(e, n, k)
    decreases k
  {
    hide LoopBlock;
    if j < k { RankGrows(e, n, j, k - 1); }
  }

  lemma OneChunk(e: Edges<nat>, n: nat, size: nat, a: nat, b: nat)
    requires size > 0 && Rank(e, n, n) <= size && a < n && b < n && !LoopBlock(e, n, a) && !LoopBlock(e, n, b)
    ensures Together(e, n, size, a, b)
  {
    hide LoopBlock; hide Mutual;
    RankGrows(e, n, a, n);
    RankGrows(e, n, b, n);
    Small(Rank(e, n, a), size);
    Small(Rank(e, n, b), size);
  }

  lemma Small(i: nat, size: nat)
    requires i < size
    ensures i / size == 0
  {
  }

  ghost predicate SingleReached(e: Edges<nat>, n: nat, a: nat) {
    exists s: nat :: s < n && !LoopBlock(e, n, s) && Reach(e, a, s)
  }

  ghost predicate ReachedBySingle(e: Edges<nat>, n: nat, b: nat) {
    exists t: nat :: t < n && !LoopBlock(e, n, t) && Reach(e, t, b)
  }

  /** A walk with hops is a block path, or runs from its start to one block outside every loop and on from another. */
  lemma {:induction false} HopsSplit(e: Edges<nat>, n: nat, size: nat, a: nat, b: nat, k: nat)
    requires size > 0 && Walk(Hops(e, n, size), a, b, k)
    ensures Reach(e, a, b) || (SingleReached(e, n, a) && ReachedBySingle(e, n, b))
    decreases k
  {
    hide LoopBlock; hide Rank; hide Reach; hide Hops;
    if k == 0 {
      ReachRefl(e, a);
    } else {
      var h := Hops(e, n, size);
      var c: nat :| (a, c) in h && Walk(h, c, b, k - 1);
      HopsSplit(e, n, size, c, b, k - 1);
      HopSplit(e, n, size, a, c);
      if Reach(e, a, c) {
        FromReach(e, n, a, c);
        if Reach(e, c, b) { ReachTrans(e, a, c, b); }
      } else if Reach(e, c, b) {
        var t: nat :| t < n && !LoopBlock(e, n, t) && Reach(e, t, c);
        ReachTrans(e, t, c, b);
      }
    }
  }

  lemma FromReach(e: Edges<nat>, n: nat, a: nat, c: nat)
    requires Reach(e, a, c)
    ensures SingleReached(e, n, c) ==> SingleReached(e, n, a)
  {
    hide LoopBlock; hide Reach;
    if SingleReached(e, n, c) {
      var s: nat :| s < n && !LoopBlock(e, n, s) && Reach(e, c, s);
      ReachTrans(e, a, c, s);
    }
  }

  lemma HopSplit(e: Edges<nat>, n: nat, size: nat, a: nat, c: nat)
    requires size > 0 && (a, c) in Hops(e, n, size)
    ensures Reach(e, a, c) || (SingleReached(e, n, a) && ReachedBySingle(e, n, c))
  {
    hide LoopBlock; hide Rank; hide Reach;
    ReachRefl(e, a);
    ReachRefl(e, c);
    if (a, c) in e { ReachEdge(e, a, c); }
  }

  lemma NotBetween(e: Edges<nat>, n: nat, l: nat)
    requires NoLoopBetween(e, n) && l < n && ReachedBySingle(e, n, l) && SingleReached(e, n, l)
    ensures !LoopBlock(e, n, l)
  {
    hide LoopBlock; hide Reach;
    var t: nat :| t < n && !LoopBlock(e, n, t) && Reach(e, t, l);
    var s: nat :| s < n && !LoopBlock(e, n, s) && Reach(e, l, s);
    assert !Between(e, n, l, t, s);
  }

  lemma ToReach(e: Edges<nat>, n: nat, a: nat, c: nat)
    requires Reach(e, a, c)
    ensures ReachedBySingle(e, n, a) ==> ReachedBySingle(e, n, c)
  {
    hide LoopBlock; hide Reach;
    if ReachedBySingle(e, n, a) {
      var t: nat :| t < n && !LoopBlock(e, n, t) && Reach(e, t, a);
      ReachTrans(e, t, a, c);
    }
  }

  lemma MutualHops(e: Edges<nat>, n: nat, size: nat, a: nat, b: nat)
    requires size > 0 && Mutual(Hops(e, n, size), a, b) && NoLoopBetween(e, n) && a < n && b < n
    ensures Mutual(e, a, b) || (!LoopBlock(e, n, a) && !LoopBlock(e, n, b))
  {
    var h := Hops(e, n, size);
    var j: nat :| Walk(h, a, b, j);
    var k: nat :| Walk(h, b, a, k);
    HopsSplit(e, n, size, a, b, j);
    HopsSplit(e, n, size, b, a, k);
    hide LoopBlock; hide Walk; hide Reach; hide Hops; hide NoLoopBetween; hide SingleReached; hide ReachedBySingle;
    if !Mutual(e, a, b) {
      if Reach(e, a, b) {
        FromReach(e, n, a, b);
        ToReach(e, n, a, b);
      } else if Reach(e, b, a) {
        FromReach(e, n, b, a);
        ToReach(e, n, b, a);
      }
      NotBetween(e, n, a);
      NotBetween(e, n, b);
    }
  }

  lemma BetweenReturns(e: Edges<nat>, n: nat, size: nat, l: nat, a: nat, b: nat)
    requires size > 0 && Rank(e, n, n) <= size && l < n && Between(e, n, l, a, b)
    ensures !NoReturn(e, n, size)
  {
    hide LoopBlock; hide Rank; hide Reach;
    var h := Hops(e, n, size);
    OneChunk(e, n, size, a, b);
    OneChunk(e, n, size, b, a);
    MoreEdges(e, h, a, l);
    MoreEdges(e, h, l, b);
    ReachEdge(h, b, a);
    ReachTrans(h, l, b, a);
    assert Mutual(h, a, l);
    if Mutual(e, a, l) { MutualSym(e, a, l); MutualLoops(e, n, l, a); }
  }

  lemma MoreEdges(e: Edges<nat>, h: Edges<nat>, a: nat, b: nat)
    requires e <= h && Reach(e, a, b)
    ensures Reach(h, a, b)
  {
    var k: nat :| Walk(e, a, b, k);
    MoreWalks(e, h, a, b, k);
  }

  lemma {:induction false} MoreWalks(e: Edges<nat>, h: Edges<nat>, a: nat, b: nat, k: nat)
    requires e <= h && Walk(e, a, b, k)
    ensures Walk(h, a, b, k)
    decreases k
  {
    if k > 0 {
      var m: nat :| (a, m) in e && Walk(e, m, b, k - 1);
      MoreWalks(e, h, m, b, k - 1);
    }
  }

  /**
   If the blocks outside every loop fit one chunk, nobody returns exactly if no loop has such a block before it and
   another after it.
   */
  lemma OneChunkIff(e: Edges<nat>, n: nat, size: nat)
    requires size > 0 && Rank(e, n, n) <= size
    ensures NoReturn(e, n, size) <==> NoLoopBetween(e, n)
  {
    hide LoopBlock; hide Rank; hide Reach; hide Between; hide Hops; hide Together;
    if NoReturn(e, n, size) {
      forall l: nat, a: nat, b: nat | l < n ensures !Between(e, n, l, a, b) {
        if Between(e, n, l, a, b) { BetweenReturns(e, n, size, l, a, b); }
      }
    }
    if NoLoopBetween(e, n) {
      forall a: nat, b: nat | a < n && b < n && Mutual(Hops(e, n, size), a, b) ensures Together(e, n, size, a, b) {
        MutualHops(e, n, size, a, b);
        if Mutual(e, a, b) { MutualTogether(e, n, size, a, b); } else { OneChunk(e, n, size, a, b); }
      }
    }
  }

  lemma MutualTogether(e: Edges<nat>, n: nat, size: nat, a: nat, b: nat)
    requires size > 0 && Mutual(e, a, b)
    ensures Together(e, n, size, a, b)
  {
  }

  // ------------------------------------------------------- the number of regions

  lemma {:induction false} DistinctSize(s: seq<nat>)
    requires NoDup(s)
    ensures |Members(s)| == |s|
  {
    if s != [] {
      var rest, last := s[..|s| - 1], s[|s| - 1];
      DistinctSize(rest);
      assert s == rest + [last] && last !in rest;
      assert Members(s) == Members(rest) + {last};
    }
  }

  lemma {:induction false} BelowSize(s: set<nat>, n: nat)
    requires forall x :: x in s ==> x < n
    ensures |s| <= n
  {
    if n == 0 {
      assert s == {};
    } else {
      BelowSize(s - {n - 1}, n - 1);
      assert s <= s - {n - 1} + {n - 1};
    }
  }

  lemma FirstBlock(idx: CfgIndex, opts: Options, sccs: seq<seq<nat>>, p: Partition, i: nat)
    requires IsPartition(idx, opts, sccs, p) && i < |p.regions|
    ensures p.regions[i].blockIds != [] && p.regions[i].blockIds[0] < |idx.succs|
    ensures forall j :: 0 <= j < |p.regions| && p.regions[i].blockIds[0] in p.regions[j].blockIds ==> j == i
  {
    NotEmpty(idx, opts, sccs, p, i);
    assert Described(idx, p.regions[i]);
    hide IsPartition;
    assert p.regions[i].blockIds[0] in p.regions[i].blockIds;
    var k := EveryBlockInOneRegion(idx, opts, sccs, p, p.regions[i].blockIds[0]);
  }

  /** There are no more regions than blocks. */
  lemma FewRegions(idx: CfgIndex, opts: Options, sccs: seq<seq<nat>>, p: Partition)
    requires IsPartition(idx, opts, sccs, p)
    ensures |p.regions| <= |idx.succs|
  {
    hide IsPartition;
    forall i: nat | i < |p.regions|
      ensures p.regions[i].blockIds != [] && p.regions[i].blockIds[0] < |idx.succs|
      ensures forall j :: 0 <= j < |p.regions| && p.regions[i].blockIds[0] in p.regions[j].blockIds ==> j == i
    {
      FirstBlock(idx, opts, sccs, p, i);
    }
    var firsts := seq(|p.regions|, i requires 0 <= i < |p.regions| => p.regions[i].blockIds[0]);
    forall i, j | 0 <= i < j < |firsts| ensures firsts[i] != firsts[j] {
      assert firsts[j] in p.regions[j].blockIds;
    }
    DistinctSize(firsts);
    BelowSize(Members(firsts), |idx.succs|);
  }

  lemma NotEmpty(idx: CfgIndex, opts: Options, sccs: seq<seq<nat>>, p: Partition, i: nat)
    requires IsPartition(idx, opts, sccs, p) && i < |p.regions|
    ensures p.regions[i].blockIds != []
  {
    hide IsPartition;
    if p.regions[i].role == Chunk {
      ChunkRegionIsChunk(idx, opts, sccs, p, i);
    } else {
      LoopRegionIsComponent(idx, opts, sccs, p, i);
    }
  }
}
