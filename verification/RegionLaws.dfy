/**
 What a partition means: blocks and regions, roles, and the region graph as the
 quotient of the block graph.  Everything here follows from `IsPartition`, the
 contract of `MakePartition`.
 */
module RegionLaws {
  import opened Walks
  import opened Sorting
  import opened Tarjan
  import opened CfgIndexes
  import opened RegionIds
  import opened Regions
  import opened RegionGraph

  // ------------------------------------------------------------------- blocks and ids

  /** Region ids are unique. */
  lemma IdsUnique(regions: seq<Region>, m: map<nat, string>)
    requires Placed(regions, m)
    ensures forall i, j :: 0 <= i < j < |regions| ==> regions[i].id != regions[j].id
  {
    forall i, j | 0 <= i < j < |regions| ensures regions[i].id != regions[j].id {
      if regions[i].id == regions[j].id {
        RegionIdInjective(i + 1, j + 1);
      }
    }
  }

  /** Block `b` lies in region `i` exactly when `blockRegion` gives it the id of region `i`. */
  lemma BlockRegionAgrees(regions: seq<Region>, m: map<nat, string>, b: nat, i: nat)
    requires Placed(regions, m) && i < |regions|
    ensures b in regions[i].blockIds <==> b in m && m[b] == regions[i].id
  {
    hide RegionId;
    IdsUnique(regions, m);
    if b in m && m[b] == regions[i].id {
      assert InSome(regions, b);
      var j :| 0 <= j < |regions| && b in regions[j].blockIds;
      assert j == i;
    }
  }

  /** Every block lies in exactly one region, the one `blockRegion` names. */
  lemma EveryBlockInOneRegion(idx: CfgIndex, opts: Options, sccs: seq<seq<nat>>, p: Partition, b: nat) returns (i: nat)
    requires IsPartition(idx, opts, sccs, p) && b < |idx.succs|
    ensures i < |p.regions| && b in p.regions[i].blockIds
    ensures b in p.blockRegion && p.blockRegion[b] == p.regions[i].id
    ensures forall j :: 0 <= j < |p.regions| && b in p.regions[j].blockIds ==> j == i
  {
    hide LoopPart;
    hide ChunkPart;
    hide Described;
    hide Linked;
    hide IsSccPartition;
    assert b in p.blockRegion;
    assert InSome(p.regions, b);
    i :| 0 <= i < |p.regions| && b in p.regions[i].blockIds;
  }

  // ------------------------------------------------------------------------ the roles

  /** The number of regions made from multi-block components. */
  ghost function LoopCount(sccs: seq<seq<nat>>): nat { |Multi(sccs, |sccs|)| }

  /** A sorted component is the same component. */
  lemma SortedComponentIsComponent(g: Graph, c: seq<nat>)
    requires IsComponent(g, c)
    ensures IsComponent(g, SortNats(c))
  {
    hide Reach;
    SortNatsSpec(c);
  }

  /** Loop and dispatcher regions are multi-block components, split by the size threshold. */
  lemma LoopRegionIsComponent(idx: CfgIndex, opts: Options, sccs: seq<seq<nat>>, p: Partition, i: nat)
    requires IsPartition(idx, opts, sccs, p) && i < |p.regions| && p.regions[i].role != Chunk
    ensures i < LoopCount(sccs)
    ensures IsComponent(idx.succs, p.regions[i].blockIds) && |p.regions[i].blockIds| > 1
    ensures p.regions[i].role == Dispatcher <==> |p.regions[i].blockIds| >= opts.minDispatcherScc
  {
    hide Placed;
    hide Described;
    hide Linked;
    hide IsComponent;
    hide Multi;
    hide Chunks;
    hide Singles;
    var c := MultiMember(sccs, |sccs|, i);
    SortNatsSpec(sccs[c]);
    SortedComponentIsComponent(idx.succs, sccs[c]);
  }

  lemma {:induction false} MultiOrder(sccs: seq<seq<nat>>, k: nat, i: nat, j: nat) returns (c: nat, d: nat)
    requires k <= |sccs| && i < j < |Multi(sccs, k)|
    ensures c < d < k && Multi(sccs, k)[i] == sccs[c] && Multi(sccs, k)[j] == sccs[d]
  {
    if j < |Multi(sccs, k - 1)| {
      c, d := MultiOrder(sccs, k - 1, i, j);
    } else {
      c := MultiMember(sccs, k - 1, i);
      d := k - 1;
    }
  }

  /**
   Loop and dispatcher regions are numbered by size, and of two of the same size the first does not reach the second.
   */
  lemma LoopRegionsInOrder(idx: CfgIndex, opts: Options, sccs: seq<seq<nat>>, p: Partition, i: nat, j: nat)
    requires IsPartition(idx, opts, sccs, p) && i < j < LoopCount(sccs)
    requires (forall c, d :: 0 <= c < d < |sccs| ==> |sccs[c]| >= |sccs[d]|) && TiesBackwards(idx.succs, sccs)
    ensures j < |p.regions|
    ensures var r, s := p.regions[i].blockIds, p.regions[j].blockIds;
      |r| >= |s| && (|r| == |s| ==> NoWay(idx.succs, r, s))
  {
    hide Placed; hide Described; hide Linked; hide IsComponent; hide Multi; hide Chunks; hide Singles; hide Reach;
    var c, d := MultiOrder(sccs, |sccs|, i, j);
    SortNatsSpec(sccs[c]);
    SortNatsSpec(sccs[d]);
    assert |sccs[c]| == |sccs[d]| ==> NoWay(idx.succs, sccs[c], sccs[d]);
  }

  /** Every multi-block component has its own loop or dispatcher region. */
  lemma EveryLoopHasRegion(idx: CfgIndex, opts: Options, sccs: seq<seq<nat>>, p: Partition, b: nat, c: seq<nat>)
      returns (i: nat)
    requires IsPartition(idx, opts, sccs, p) && IsComponent(idx.succs, c) && |c| > 1 && b in c
    ensures i < |p.regions| && p.regions[i].role != Chunk
    ensures forall x: nat :: x in p.regions[i].blockIds <==> x in c
  {
    hide Placed;
    hide Described;
    hide Linked;
    hide Reach;
    hide Multi;
    hide Chunks;
    hide Singles;
    assert Covered(sccs, b);
    var k :| 0 <= k < |sccs| && b in sccs[k];
    SameComponent(idx.succs, c, sccs[k], b);
    SameSize(c, sccs[k]);
    i := MultiHolds(sccs, |sccs|, k);
    SortNatsSpec(sccs[k]);
  }

  /** Components that share a block have the same blocks. */
  lemma SameComponent(g: Graph, c: seq<nat>, d: seq<nat>, b: nat)
    requires IsComponent(g, c) && IsComponent(g, d) && b in c && b in d
    ensures forall x: nat :: x in c <==> x in d
  {
  }

  lemma SameSize(c: seq<nat>, d: seq<nat>)
    requires NoDup(c) && NoDup(d) && forall x: nat :: x in c <==> x in d
    ensures |c| == |d|
  {
    forall x: nat ensures multiset(c)[x] == multiset(d)[x] {
      CountAtMostOne(c, x);
      CountAtMostOne(d, x);
      assert x in multiset(c) <==> x in c;
      assert x in multiset(d) <==> x in d;
    }
    assert multiset(c) == multiset(d);
    SameMembers(c, d);
  }

  /** Chunk regions hold blocks that are components by themselves, within the bound. */
  lemma ChunkRegionIsChunk(idx: CfgIndex, opts: Options, sccs: seq<seq<nat>>, p: Partition, i: nat)
    requires IsPartition(idx, opts, sccs, p) && i < |p.regions| && p.regions[i].role == Chunk
    ensures LoopCount(sccs) <= i
    ensures 0 < |p.regions[i].blockIds| <= opts.maxChunkBlocks
    ensures i + 1 < |p.regions| ==> |p.regions[i].blockIds| == opts.maxChunkBlocks
    ensures forall b :: b in p.regions[i].blockIds ==> b < |idx.succs| && IsComponent(idx.succs, [b])
  {
    hide Placed;
    hide Described;
    hide Linked;
    hide IsComponent;
    hide Multi;
    hide Chunks;
    hide Singles;
    hide InLoop;
    var singles := Singles(sccs, |idx.succs|);
    var chunks := Chunks(singles, opts.maxChunkBlocks);
    ChunksSpec(singles, opts.maxChunkBlocks);
    SinglesSpec(sccs, |idx.succs|);
    forall b: nat | b in p.regions[i].blockIds ensures b < |idx.succs| && IsComponent(idx.succs, [b]) {
      assert b in chunks[i - LoopCount(sccs)];
      ConcatMember(chunks, b);
      SingleIsComponent(idx.succs, sccs, b);
    }
  }

  lemma SingleIsComponent(g: Graph, sccs: seq<seq<nat>>, b: nat)
    requires IsSccPartition(g, sccs) && b < |g| && !InLoop(sccs, b)
    ensures IsComponent(g, [b])
  {
    hide Reach;
    assert Covered(sccs, b);
    var c :| 0 <= c < |sccs| && b in sccs[c];
    assert IsComponent(g, sccs[c]);
    assert |sccs[c]| == 1;
    assert sccs[c] == [b];
  }

  // ------------------------------------------------------------ the quotient of the CFG

  /** An edge of the block graph from a block of `r` to a block of `s`. */
  ghost predicate BlockEdge(g: Graph, r: Region, s: Region, a: nat, b: nat) {
    a in r.blockIds && b in s.blockIds && a < |g| && b in g[a]
  }

  /** `Crossing` between two regions is a block edge between them. */
  lemma CrossingIsBlockEdge(g: Graph, m: map<nat, string>, regions: seq<Region>, i: nat, j: nat)
    requires Placed(regions, m) && i < |regions| && j < |regions|
    ensures Crossing(g, m, regions[i].id, regions[j].id) <==>
      i != j && exists a, b :: BlockEdge(g, regions[i], regions[j], a, b)
  {
    hide Placed;
    var r, s := regions[i], regions[j];
    if Crossing(g, m, r.id, s.id) {
      var v: nat, k: nat :| SlotCrosses(g, m, v, k, r.id, s.id);
      BlockRegionAgrees(regions, m, v, i);
      BlockRegionAgrees(regions, m, g[v][k], j);
      assert BlockEdge(g, r, s, v, g[v][k]);
    }
    if i != j && exists a, b :: BlockEdge(g, r, s, a, b) {
      var a: nat, b: nat :| BlockEdge(g, r, s, a, b);
      var k :| 0 <= k < |g[a]| && g[a][k] == b;
      BlockRegionAgrees(regions, m, a, i);
      BlockRegionAgrees(regions, m, b, j);
      DistinctIds(regions, m, i, j);
      assert SlotCrosses(g, m, a, k, r.id, s.id);
    }
  }

  lemma DistinctIds(regions: seq<Region>, m: map<nat, string>, i: nat, j: nat)
    requires Placed(regions, m) && i < |regions| && j < |regions|
    ensures regions[i].id == regions[j].id <==> i == j
  {
    IdsUnique(regions, m);
  }

  /** The region graph is the quotient of the block graph: successor and predecessor lists are the crossing edges. */
  lemma QuotientGraph(idx: CfgIndex, opts: Options, sccs: seq<seq<nat>>, p: Partition, i: nat, j: nat)
    requires IsPartition(idx, opts, sccs, p) && i < |p.regions| && j < |p.regions|
    ensures var r, s := p.regions[i], p.regions[j];
            && (s.id in r.succs <==> i != j && exists a, b :: BlockEdge(idx.succs, r, s, a, b))
            && (r.id in s.preds <==> i != j && exists a, b :: BlockEdge(idx.succs, r, s, a, b))
  {
    hide LoopPart;
    hide ChunkPart;
    hide Placed;
    hide Described;
    hide Crossing;
    hide IsSccPartition;
    CrossingIsBlockEdge(idx.succs, p.blockRegion, p.regions, i, j);
    assert LinkedOne(idx.succs, p.blockRegion, p.regions[i]);
    assert LinkedOne(idx.succs, p.blockRegion, p.regions[j]);
  }

  lemma CrossingEnds(g: Graph, m: map<nat, string>, regions: seq<Region>, r: string, s: string)
    requires Placed(regions, m) && Crossing(g, m, r, s)
    ensures HasId(regions, r) && HasId(regions, s) && r != s
  {
    var v: nat, k: nat :| SlotCrosses(g, m, v, k, r, s);
    assert InSome(regions, v) && InSome(regions, g[v][k]);
    var i :| 0 <= i < |regions| && v in regions[i].blockIds;
    var j :| 0 <= j < |regions| && g[v][k] in regions[j].blockIds;
    assert regions[i].id == r && regions[j].id == s;
  }

  /** A partition carries a consistent region graph, as `RunDataflow` asks for. */
  lemma PartitionConsistent(idx: CfgIndex, opts: Options, sccs: seq<seq<nat>>, p: Partition)
    requires IsPartition(idx, opts, sccs, p)
    ensures Consistent(p.regions)
  {
    hide LoopPart;
    hide ChunkPart;
    hide Placed;
    hide Described;
    hide Crossing;
    hide IsSccPartition;
    hide SortedBy;
    hide HasId;
    var regions, m := p.regions, p.blockRegion;
    IdsUnique(regions, m);
    forall i | 0 <= i < |regions|
      ensures forall x :: x in regions[i].succs || x in regions[i].preds ==> HasId(regions, x) && x != regions[i].id
      ensures NoDup(regions[i].succs)
    {
      assert LinkedOne(idx.succs, m, regions[i]);
      forall x | x in regions[i].succs || x in regions[i].preds ensures HasId(regions, x) && x != regions[i].id {
        if x in regions[i].succs {
          CrossingEnds(idx.succs, m, regions, regions[i].id, x);
        } else {
          CrossingEnds(idx.succs, m, regions, x, regions[i].id);
        }
      }
    }
    forall i, j | 0 <= i < |regions| && 0 <= j < |regions|
      ensures regions[j].id in regions[i].succs <==> regions[i].id in regions[j].preds
    {
      QuotientGraph(idx, opts, sccs, p, i, j);
    }
  }

  /** A crossing edge leaves its region by an exit block and enters the next by an entry block. */
  lemma CrossingUsesExitAndEntry(idx: CfgIndex, opts: Options, sccs: seq<seq<nat>>, p: Partition, i: nat, j: nat,
                                 a: nat, b: nat)
    requires IsPartition(idx, opts, sccs, p) && i < |p.regions| && j < |p.regions| && i != j
    requires BlockEdge(idx.succs, p.regions[i], p.regions[j], a, b)
    ensures b < |idx.succs|
    ensures idx.blockEas[a] in p.regions[i].exits && idx.blockEas[b] in p.regions[j].entries
  {
    hide LoopPart;
    hide ChunkPart;
    hide Linked;
    hide IsSccPartition;
    hide EntryEas;
    hide ExitEas;
    var r, s := p.regions[i], p.regions[j];
    assert Described(idx, r) && Described(idx, s);
    assert b !in r.blockIds && a !in s.blockIds;
    var ka :| 0 <= ka < |r.blockIds| && r.blockIds[ka] == a;
    var kb :| 0 <= kb < |s.blockIds| && s.blockIds[kb] == b;
    assert IsExit(idx.succs, r.blockIds, a);
    assert IsEntry(idx.succs, s.blockIds, b) by { assert HasOutsidePred(idx.succs, s.blockIds, b); }
    ExitListed(idx, r.blockIds, |r.blockIds|, ka);
    EntryListed(idx, s.blockIds, |s.blockIds|, kb);
    SortNatsSpec(ExitEas(idx, r.blockIds, |r.blockIds|));
    SortNatsSpec(EntryEas(idx, s.blockIds, |s.blockIds|));
  }

  /** One block edge is no step or one step of the region graph. */
  lemma EdgeProjects(idx: CfgIndex, opts: Options, sccs: seq<seq<nat>>, p: Partition, a: nat, b: nat)
    requires IsPartition(idx, opts, sccs, p) && (a, b) in EdgesOf(idx.succs)
    ensures a in p.blockRegion && b in p.blockRegion && b < |idx.succs|
    ensures p.blockRegion[a] == p.blockRegion[b] || (p.blockRegion[a], p.blockRegion[b]) in EdgesOfRegions(p.regions)
  {
    hide LoopPart;
    hide ChunkPart;
    hide Linked;
    hide Described;
    hide IsSccPartition;
    hide Placed;
    var k :| 0 <= k < |idx.succs[a]| && idx.succs[a][k] == b;
    var i := EveryBlockInOneRegion(idx, opts, sccs, p, a);
    var j := EveryBlockInOneRegion(idx, opts, sccs, p, b);
    if i != j {
      assert BlockEdge(idx.succs, p.regions[i], p.regions[j], a, b);
      QuotientGraph(idx, opts, sccs, p, i, j);
    }
  }

  /** Every block path projects to a region path that is no longer. */
  lemma {:induction false} PathProjects(idx: CfgIndex, opts: Options, sccs: seq<seq<nat>>, p: Partition, a: nat,
                                        b: nat, k: nat)
      returns (l: nat)
    requires IsPartition(idx, opts, sccs, p) && a < |idx.succs| && Walk(EdgesOf(idx.succs), a, b, k)
    ensures a in p.blockRegion && b in p.blockRegion && l <= k
    ensures Walk(EdgesOfRegions(p.regions), p.blockRegion[a], p.blockRegion[b], l)
    decreases k
  {
    hide IsPartition;
    hide EdgesOfRegions;
    if k == 0 {
      PlacedAll(idx, opts, sccs, p, a);
      l := 0;
    } else {
      var c: nat :| (a, c) in EdgesOf(idx.succs) && Walk(EdgesOf(idx.succs), c, b, k - 1);
      EdgeProjects(idx, opts, sccs, p, a, c);
      l := PathProjects(idx, opts, sccs, p, c, b, k - 1);
      if p.blockRegion[a] != p.blockRegion[c] {
        l := l + 1;
      }
    }
  }

  lemma PlacedAll(idx: CfgIndex, opts: Options, sccs: seq<seq<nat>>, p: Partition, a: nat)
    requires IsPartition(idx, opts, sccs, p) && a < |idx.succs|
    ensures a in p.blockRegion
  {
  }
}
