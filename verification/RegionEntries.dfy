/**
 The entry and exit blocks a region lists against what they are documented to be: the blocks with a predecessor, or a
 successor, outside the region, or with none at all.
 */
module RegionEntries {
  import opened Walks
  import opened Sorting
  import opened Tarjan
  import opened CfgIndexes
  import opened Regions
  import opened RegionLaws

  predicate HasInsidePred(g: Graph, blocks: seq<nat>, b: nat) {
    exists p :: 0 <= p < |g| && p in blocks && b in g[p]
  }

  predicate HasInsideSucc(g: Graph, blocks: seq<nat>, b: nat) {
    b < |g| && exists s :: s in g[b] && s in blocks
  }

  predicate DocumentedEntry(g: Graph, blocks: seq<nat>, b: nat) {
    HasOutsidePred(g, blocks, b) || !(exists p :: 0 <= p < |g| && b in g[p])
  }

  predicate InRange(idx: CfgIndex, blocks: seq<nat>) {
    forall i :: 0 <= i < |blocks| ==> blocks[i] < |idx.succs|
  }

  function DocumentedEas(idx: CfgIndex, blocks: seq<nat>, k: nat): seq<nat>
    requires Valid(idx) && k <= |blocks| && InRange(idx, blocks)
  {
    if k == 0 then [] else
      DocumentedEas(idx, blocks, k - 1) +
      if DocumentedEntry(idx.succs, blocks, blocks[k - 1]) then [idx.blockEas[blocks[k - 1]]] else []
  }

  /** The list as documented, in the order the program gives it. */
  function DocumentedEntries(idx: CfgIndex, blocks: seq<nat>): seq<nat>
    requires Valid(idx) && InRange(idx, blocks)
  {
    SortNats(DocumentedEas(idx, blocks, |blocks|))
  }

  /**
   Where the rule and the documentation agree: a block without outside predecessor has an inside predecessor exactly if
   it has an inside successor and is not alone.
   */
  predicate AgreesAt(g: Graph, blocks: seq<nat>, b: nat) {
    HasOutsidePred(g, blocks, b) || (HasInsidePred(g, blocks, b) <==> HasInsideSucc(g, blocks, b) && |blocks| != 1)
  }

  lemma AgreesAtIff(g: Graph, blocks: seq<nat>, b: nat)
    requires b < |g|
    ensures AgreesAt(g, blocks, b) <==> (IsEntry(g, blocks, b) <==> DocumentedEntry(g, blocks, b))
  {
  }

  lemma {:induction false} SameEas(idx: CfgIndex, blocks: seq<nat>, k: nat)
    requires Valid(idx) && k <= |blocks| && InRange(idx, blocks)
    requires forall i :: 0 <= i < |blocks| ==> AgreesAt(idx.succs, blocks, blocks[i])
    ensures EntryEas(idx, blocks, k) == DocumentedEas(idx, blocks, k)
  {
    hide IsEntry; hide DocumentedEntry; hide AgreesAt;
    if k > 0 {
      SameEas(idx, blocks, k - 1);
      AgreesAtIff(idx.succs, blocks, blocks[k - 1]);
    }
  }

  lemma {:induction false} EntryEasMember(idx: CfgIndex, blocks: seq<nat>, k: nat, b: nat)
    requires Valid(idx) && k <= |blocks| && InRange(idx, blocks) && b < |idx.succs| && NoDup(idx.blockEas)
    ensures idx.blockEas[b] in EntryEas(idx, blocks, k) <==> b in blocks[..k] && IsEntry(idx.succs, blocks, b)
  {
    hide IsEntry;
    if k > 0 {
      EntryEasMember(idx, blocks, k - 1, b);
      assert blocks[..k] == blocks[..k - 1] + [blocks[k - 1]];
      assert idx.blockEas[b] == idx.blockEas[blocks[k - 1]] <==> b == blocks[k - 1];
    }
  }

  lemma {:induction false} DocumentedEasMember(idx: CfgIndex, blocks: seq<nat>, k: nat, b: nat)
    requires Valid(idx) && k <= |blocks| && InRange(idx, blocks) && b < |idx.succs| && NoDup(idx.blockEas)
    ensures idx.blockEas[b] in DocumentedEas(idx, blocks, k) <==>
      b in blocks[..k] && DocumentedEntry(idx.succs, blocks, b)
  {
    hide DocumentedEntry;
    if k > 0 {
      DocumentedEasMember(idx, blocks, k - 1, b);
      assert blocks[..k] == blocks[..k - 1] + [blocks[k - 1]];
      assert idx.blockEas[b] == idx.blockEas[blocks[k - 1]] <==> b == blocks[k - 1];
    }
  }

  /** The entry list is the documented one exactly if rule and documentation agree at every block of the region. */
  lemma EntriesAsDocumentedIff(idx: CfgIndex, blocks: seq<nat>)
    requires Valid(idx) && InRange(idx, blocks) && NoDup(idx.blockEas)
    ensures SortNats(EntryEas(idx, blocks, |blocks|)) == DocumentedEntries(idx, blocks) <==>
            forall b :: b in blocks ==> AgreesAt(idx.succs, blocks, b)
  {
    hide AgreesAt; hide IsEntry; hide DocumentedEntry; hide EntryEas; hide DocumentedEas; hide SortNats;
    var n := |blocks|;
    if forall b :: b in blocks ==> AgreesAt(idx.succs, blocks, b) {
      SameEas(idx, blocks, n);
    }
    if SortNats(EntryEas(idx, blocks, n)) == DocumentedEntries(idx, blocks) {
      SortNatsSpec(EntryEas(idx, blocks, n));
      SortNatsSpec(DocumentedEas(idx, blocks, n));
      assert blocks[..n] == blocks;
      forall b: nat | b in blocks ensures AgreesAt(idx.succs, blocks, b) {
        EntryEasMember(idx, blocks, n, b);
        DocumentedEasMember(idx, blocks, n, b);
        AgreesAtIff(idx.succs, blocks, b);
      }
    }
  }

  // ------------------------------------------------------------------ loop regions

  lemma FirstStep(g: Graph, c: seq<nat>, a: nat, b: nat)
    requires IsComponent(g, c) && a in c && b in c && a != b
    ensures HasInsideSucc(g, c, a)
  {
    assert Reach(EdgesOf(g), a, b);
    var k: nat :| Walk(EdgesOf(g), a, b, k);
    var m: nat :| (a, m) in EdgesOf(g) && Walk(EdgesOf(g), m, b, k - 1);
    hide Walk;
    InComponent(g, c, a, m, b);
  }

  lemma LastStep(g: Graph, c: seq<nat>, a: nat, b: nat)
    requires IsComponent(g, c) && WellFormed(g) && a in c && b in c && a != b
    ensures HasInsidePred(g, c, b)
  {
    assert Reach(EdgesOf(g), a, b);
    var k: nat :| Walk(EdgesOf(g), a, b, k);
    var m := WalkSplit(EdgesOf(g), a, b, k - 1, 1);
    var z: nat :| (m, z) in EdgesOf(g) && Walk(EdgesOf(g), z, b, 0);
    assert Reach(EdgesOf(g), a, m);
    hide Walk;
    ReachEdge(EdgesOf(g), m, b);
    hide Reach;
    ReachTrans(EdgesOf(g), m, b, a);
    assert m in c;
  }

  /** A step on the way between two blocks of a component stays in it. */
  lemma InComponent(g: Graph, c: seq<nat>, a: nat, m: nat, b: nat)
    requires IsComponent(g, c) && a in c && b in c && (a, m) in EdgesOf(g) && Reach(EdgesOf(g), m, b)
    ensures m < |g| ==> m in c
  {
    ReachEdge(EdgesOf(g), a, m);
    hide Reach;
    assert Reach(EdgesOf(g), b, a);
    ReachTrans(EdgesOf(g), m, b, a);
  }

  lemma ComponentAgrees(g: Graph, c: seq<nat>, b: nat)
    requires IsComponent(g, c) && WellFormed(g) && |c| > 1 && b in c
    ensures AgreesAt(g, c, b)
  {
    hide IsComponent;
    var a := if c[0] == b then c[1] else c[0];
    assert a in c && a != b by { assert c[0] != c[1] by { Distinct(g, c); } }
    FirstStep(g, c, b, a);
    LastStep(g, c, a, b);
  }

  lemma Distinct(g: Graph, c: seq<nat>)
    requires IsComponent(g, c) && |c| > 1
    ensures c[0] != c[1]
  {
  }

  /** Loop and dispatcher regions always list the documented entries; only chunks can fail to. */
  lemma LoopEntriesAsDocumented(idx: CfgIndex, opts: Options, sccs: seq<seq<nat>>, p: Partition, i: nat)
    requires IsPartition(idx, opts, sccs, p) && NoDup(idx.blockEas)
    requires i < |p.regions| && p.regions[i].role != Chunk
    ensures InRange(idx, p.regions[i].blockIds)
    ensures p.regions[i].entries == DocumentedEntries(idx, p.regions[i].blockIds)
  {
    LoopRegionIsComponent(idx, opts, sccs, p, i);
    assert Described(idx, p.regions[i]) && Valid(idx);
    hide IsPartition; hide AgreesAt; hide IsComponent; hide DocumentedEntries; hide EntryEas;
    var c := p.regions[i].blockIds;
    forall b: nat | b in c ensures AgreesAt(idx.succs, c, b) { ComponentAgrees(idx.succs, c, b); }
    EntriesAsDocumentedIff(idx, c);
  }

  // ------------------------------------------------------------------ exits

  lemma {:induction false} ExitEasMember(idx: CfgIndex, blocks: seq<nat>, k: nat, b: nat)
    requires Valid(idx) && k <= |blocks| && InRange(idx, blocks) && b < |idx.succs| && NoDup(idx.blockEas)
    ensures idx.blockEas[b] in ExitEas(idx, blocks, k) <==> b in blocks[..k] && IsExit(idx.succs, blocks, b)
  {
    hide IsExit;
    if k > 0 {
      ExitEasMember(idx, blocks, k - 1, b);
      assert blocks[..k] == blocks[..k - 1] + [blocks[k - 1]];
      assert idx.blockEas[b] == idx.blockEas[blocks[k - 1]] <==> b == blocks[k - 1];
    }
  }

  lemma {:induction false} ExitEasBlocks(idx: CfgIndex, blocks: seq<nat>, k: nat)
    requires Valid(idx) && k <= |blocks| && InRange(idx, blocks) && NoDup(idx.blockEas) && NoDup(blocks)
    ensures NoDup(ExitEas(idx, blocks, k))
    ensures forall x :: x in ExitEas(idx, blocks, k) ==> exists i :: 0 <= i < k && x == idx.blockEas[blocks[i]]
  {
    hide IsExit;
    if k > 0 {
      ExitEasBlocks(idx, blocks, k - 1);
      var less := ExitEas(idx, blocks, k - 1);
      assert idx.blockEas[blocks[k - 1]] !in less;
    }
  }

  lemma {:induction false} EntryEasBlocks(idx: CfgIndex, blocks: seq<nat>, k: nat)
    requires Valid(idx) && k <= |blocks| && InRange(idx, blocks) && NoDup(idx.blockEas) && NoDup(blocks)
    ensures NoDup(EntryEas(idx, blocks, k))
    ensures forall x :: x in EntryEas(idx, blocks, k) ==> exists i :: 0 <= i < k && x == idx.blockEas[blocks[i]]
  {
    hide IsEntry;
    if k > 0 {
      EntryEasBlocks(idx, blocks, k - 1);
      var less := EntryEas(idx, blocks, k - 1);
      assert idx.blockEas[blocks[k - 1]] !in less;
    }
  }

  lemma {:induction false} ChunkNoDup(s: seq<nat>, size: nat, q: nat)
    requires size > 0 && NoDup(s) && q < |Chunks(s, size)|
    ensures NoDup(Chunks(s, size)[q])
    decreases q
  {
    hide Chunks;
    NoChunks(size);
    ChunksStep(s, size);
    if q > 0 { ChunkNoDup(Drop(s, size), size, q - 1); }
  }

  /** No region lists a block twice. */
  lemma BlocksDistinct(idx: CfgIndex, opts: Options, sccs: seq<seq<nat>>, p: Partition, i: nat)
    requires IsPartition(idx, opts, sccs, p) && i < |p.regions|
    ensures NoDup(p.regions[i].blockIds)
  {
    hide Described; hide Linked; hide Placed; hide Singles; hide Chunks; hide Multi; hide LoopPart; hide IsSccPartition;
    if p.regions[i].role == Chunk {
      ChunkRegionIsChunk(idx, opts, sccs, p, i);
      var singles := Singles(sccs, |idx.succs|);
      SinglesSpec(sccs, |idx.succs|);
      ChunkNoDup(singles, opts.maxChunkBlocks, i - LoopCount(sccs));
    } else {
      LoopRegionIsComponent(idx, opts, sccs, p, i);
    }
  }

  predicate Ascending(s: seq<nat>) { forall a, b :: 0 <= a < b < |s| ==> s[a] < s[b] }

  lemma SortedAscends(s: seq<nat>)
    requires NoDup(s)
    ensures Ascending(SortNats(s))
  {
    SortNatsSpec(s);
  }

  /** Block `b` belongs to region `id` and has a successor in another region, or none at all. */
  ghost predicate LeavesFrom(idx: CfgIndex, p: Partition, id: string, b: nat)
    requires b < |idx.succs|
  {
    && b in p.blockRegion && p.blockRegion[b] == id
    && (idx.succs[b] == [] || exists s :: s in idx.succs[b] && (s in p.blockRegion ==> p.blockRegion[s] != id))
  }

  /**
   In every partition the exits of a region are exactly the addresses of its blocks with a successor in another region
   or with none.
   */
  lemma ExitsAre(idx: CfgIndex, opts: Options, sccs: seq<seq<nat>>, p: Partition, i: nat, b: nat)
    requires IsPartition(idx, opts, sccs, p) && NoDup(idx.blockEas) && i < |p.regions| && b < |idx.succs|
    ensures |idx.blockEas| == |idx.succs|
    ensures idx.blockEas[b] in p.regions[i].exits <==> LeavesFrom(idx, p, p.regions[i].id, b)
  {
    var r := p.regions[i];
    var n := |r.blockIds|;
    assert Described(idx, r) && Placed(p.regions, p.blockRegion) && Valid(idx);
    assert idx.succs[b] == [] || idx.succs[b][0] < |idx.succs|;
    forall c: nat ensures c in r.blockIds <==> c in p.blockRegion && p.blockRegion[c] == r.id {
      BlockRegionAgrees(p.regions, p.blockRegion, c, i);
    }
    hide IsPartition; hide ExitEas; hide Placed;
    ExitEasMember(idx, r.blockIds, n, b);
    assert r.blockIds[..n] == r.blockIds;
    SortNatsSpec(ExitEas(idx, r.blockIds, n));
  }

  /** Both lists are ascending, without repeats, and of the region's own blocks. */
  lemma BoundariesAscend(idx: CfgIndex, opts: Options, sccs: seq<seq<nat>>, p: Partition, i: nat)
    requires IsPartition(idx, opts, sccs, p) && NoDup(idx.blockEas) && i < |p.regions|
    ensures var r := p.regions[i];
      && Ascending(r.exits) && (forall x :: x in r.exits ==> x in r.blockEas)
      && Ascending(r.entries) && (forall x :: x in r.entries ==> x in r.blockEas)
  {
    var r := p.regions[i];
    var n := |r.blockIds|;
    BlocksDistinct(idx, opts, sccs, p, i);
    assert Described(idx, r) && Valid(idx);
    hide IsPartition; hide ExitEas; hide EntryEas;
    ExitEasBlocks(idx, r.blockIds, n);
    EntryEasBlocks(idx, r.blockIds, n);
    SortedAscends(ExitEas(idx, r.blockIds, n));
    SortedAscends(EntryEas(idx, r.blockIds, n));
    SortNatsSpec(ExitEas(idx, r.blockIds, n));
    SortNatsSpec(EntryEas(idx, r.blockIds, n));
    assert forall k :: 0 <= k < n ==> r.blockEas[k] == idx.blockEas[r.blockIds[k]];
  }

  // ------------------------------------------------------------------ a chunk that does not

  /** entry -> return */
  const TWO_BLOCKS: Graph := [[1], []]

  lemma TwoBlocksAlone(c: seq<nat>)
    requires IsComponent(TWO_BLOCKS, c)
    ensures |c| == 1
  {
    hide Reach;
    if |c| > 1 {
      assert c[0] in c && c[1] in c && c[0] != c[1];
      NoWayBack();
    }
  }

  lemma NoWayBack()
    ensures !Reach<nat>(EdgesOf(TWO_BLOCKS), 1, 0)
  {
    hide Reach;
    var e: Edges<nat>, end: iset<nat> := EdgesOf(TWO_BLOCKS), iset{1};
    assert forall x, y :: x in end && (x, y) in e ==> y in end;
    if Reach(e, 1, 0) { ClosedReach(e, end, 1, 0); }
  }

  lemma TwoBlocksSingles(sccs: seq<seq<nat>>)
    requires IsSccPartition(TWO_BLOCKS, sccs)
    ensures Singles(sccs, 2) == [0, 1] && Chunks(Singles(sccs, 2), 64) == [[0, 1]] && Multi(sccs, |sccs|) == []
  {
    hide Singles; hide Multi; hide IsComponent;
    forall c | 0 <= c < |sccs| ensures |sccs[c]| == 1 { TwoBlocksAlone(sccs[c]); }
    NoLoops(sccs);
  }

  lemma NoLoops(sccs: seq<seq<nat>>)
    requires forall c :: 0 <= c < |sccs| ==> |sccs[c]| == 1
    ensures Singles(sccs, 2) == [0, 1] && Multi(sccs, |sccs|) == []
  {
    assert Singles(sccs, 0) == [] && Singles(sccs, 1) == [0];
    NoMulti(sccs, |sccs|);
  }

  lemma {:induction false} NoMulti(sccs: seq<seq<nat>>, k: nat)
    requires k <= |sccs| && forall c :: 0 <= c < |sccs| ==> |sccs[c]| == 1
    ensures Multi(sccs, k) == []
  {
    if k > 0 { NoMulti(sccs, k - 1); }
  }

  /**
   In a function of two blocks, one after the other, the only region lists the return block as its entry; the
   documented entry is the block the function starts with.
   */
  lemma ReturnListedAsEntry(idx: CfgIndex, sccs: seq<seq<nat>>, p: Partition)
    requires IsPartition(idx, DEFAULT_OPTIONS, sccs, p) && idx.succs == TWO_BLOCKS
    ensures |p.regions| == 1 && p.regions[0].entries == [idx.blockEas[1]]
    ensures p.regions[0].blockIds == [0, 1] && InRange(idx, [0, 1])
    ensures DocumentedEntries(idx, [0, 1]) == [idx.blockEas[0]]
  {
    TwoBlocksSingles(sccs);
    assert Described(idx, p.regions[0]);
    hide IsSccPartition; hide Placed; hide Linked; hide Singles; hide Multi; hide Chunks;
    TwoBlockLists(idx);
  }

  lemma TwoBlockLists(idx: CfgIndex)
    requires Valid(idx) && idx.succs == TWO_BLOCKS
    ensures SortNats(EntryEas(idx, [0, 1], 2)) == [idx.blockEas[1]]
      && DocumentedEntries(idx, [0, 1]) == [idx.blockEas[0]]
  {
    TwoBlockRoles();
    hide IsEntry; hide DocumentedEntry;
    assert EntryEas(idx, [0, 1], 1) == [] && EntryEas(idx, [0, 1], 2) == [idx.blockEas[1]];
    assert DocumentedEas(idx, [0, 1], 0) == [] && DocumentedEas(idx, [0, 1], 1) == [idx.blockEas[0]];
    assert DocumentedEas(idx, [0, 1], 2) == [idx.blockEas[0]];
    SortOne(idx.blockEas[0]);
    SortOne(idx.blockEas[1]);
  }

  lemma TwoBlockRoles()
    ensures !IsEntry(TWO_BLOCKS, [0, 1], 0) && IsEntry(TWO_BLOCKS, [0, 1], 1)
    ensures DocumentedEntry(TWO_BLOCKS, [0, 1], 0) && !DocumentedEntry(TWO_BLOCKS, [0, 1], 1)
  {
    var g := TWO_BLOCKS;
    assert g[0] == [1] && g[1] == [];
    assert 1 in g[0];
  }

  lemma SortOne(a: nat)
    ensures SortNats([a]) == [a]
  {
    SortNatsSpec([a]);
    var r := SortNats([a]);
    assert |r| == 1 && r[0] in r;
  }
}
