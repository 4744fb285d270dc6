/**
 The virtual region partition of a block graph (`partition` and its helpers).
 */
module Regions {
  import opened Sorting
  import opened Tarjan
  import opened CfgIndexes
  import opened Texts
  import opened RegionIds

  datatype Role = Loop | Dispatcher | Chunk

  datatype Region = Region(
    id: string,
    role: Role,
    blockIds: seq<nat>,
    blockEas: seq<nat>,
    entries: seq<nat>,
    exits: seq<nat>,
    preds: seq<string>,
    succs: seq<string>)

  /** `maxChunkBlocks` must be positive: `slice::chunks` panics on zero. */
  datatype Options = Options(maxChunkBlocks: nat, minDispatcherScc: nat)

  const DEFAULT_OPTIONS := Options(64, 8)

  datatype Partition = Partition(functionEa: nat, regions: seq<Region>, blockRegion: map<nat, string>)

  // -------------------------------------------------------- which blocks go together

  /** The multi-block components among the first `k`, in order. */
  function Multi(sccs: seq<seq<nat>>, k: nat): seq<seq<nat>>
    requires k <= |sccs|
  {
    if k == 0 then [] else Multi(sccs, k - 1) + if |sccs[k - 1]| > 1 then [sccs[k - 1]] else []
  }

  /** Block `b` lies in a component of more than one block. */
  predicate InLoop(sccs: seq<seq<nat>>, b: nat) {
    exists c :: 0 <= c < |sccs| && |sccs[c]| > 1 && b in sccs[c]
  }

  /** The blocks below `n` that are in no multi-block component, ascending. */
  function Singles(sccs: seq<seq<nat>>, n: nat): seq<nat> {
    if n == 0 then [] else Singles(sccs, n - 1) + if InLoop(sccs, n - 1) then [] else [n - 1]
  }

  /** `slice::chunks`. */
  function Chunks(s: seq<nat>, size: nat): seq<seq<nat>>
    requires size > 0
  {
    if s == [] then [] else if |s| <= size then [s] else [s[..size]] + Chunks(s[size..], size)
  }

  function RoleOf(opts: Options, size: nat): Role {
    if size >= opts.minDispatcherScc then Dispatcher else Loop
  }

  // ------------------------------------------------------------------- entry and exit

  predicate HasOutsidePred(g: Graph, blocks: seq<nat>, b: nat) {
    exists p :: 0 <= p < |g| && p !in blocks && b in g[p]
  }

  predicate IsEntry(g: Graph, blocks: seq<nat>, b: nat)
    requires b < |g|
  {
    || HasOutsidePred(g, blocks, b)
    || (!(exists s :: s in g[b] && s in blocks) && !HasOutsidePred(g, blocks, b))
    || |blocks| == 1
  }

  predicate IsExit(g: Graph, blocks: seq<nat>, b: nat)
    requires b < |g|
  {
    (exists s :: s in g[b] && s !in blocks) || g[b] == []
  }

  function EntryEas(idx: CfgIndex, blocks: seq<nat>, k: nat): seq<nat>
    requires Valid(idx) && k <= |blocks| && forall i :: 0 <= i < |blocks| ==> blocks[i] < |idx.succs|
  {
    if k == 0 then [] else
      EntryEas(idx, blocks, k - 1) +
      if IsEntry(idx.succs, blocks, blocks[k - 1]) then [idx.blockEas[blocks[k - 1]]] else []
  }

  function ExitEas(idx: CfgIndex, blocks: seq<nat>, k: nat): seq<nat>
    requires Valid(idx) && k <= |blocks| && forall i :: 0 <= i < |blocks| ==> blocks[i] < |idx.succs|
  {
    if k == 0 then [] else
      ExitEas(idx, blocks, k - 1) +
      if IsExit(idx.succs, blocks, blocks[k - 1]) then [idx.blockEas[blocks[k - 1]]] else []
  }

  lemma {:induction false} EntryListed(idx: CfgIndex, blocks: seq<nat>, k: nat, i: nat)
    requires Valid(idx) && i < k <= |blocks| && forall i :: 0 <= i < |blocks| ==> blocks[i] < |idx.succs|
    requires IsEntry(idx.succs, blocks, blocks[i])
    ensures idx.blockEas[blocks[i]] in EntryEas(idx, blocks, k)
  {
    if i < k - 1 { EntryListed(idx, blocks, k - 1, i); }
  }

  lemma {:induction false} ExitListed(idx: CfgIndex, blocks: seq<nat>, k: nat, i: nat)
    requires Valid(idx) && i < k <= |blocks| && forall i :: 0 <= i < |blocks| ==> blocks[i] < |idx.succs|
    requires IsExit(idx.succs, blocks, blocks[i])
    ensures idx.blockEas[blocks[i]] in ExitEas(idx, blocks, k)
  {
    if i < k - 1 { ExitListed(idx, blocks, k - 1, i); }
  }

  /** `entry_exit_blocks`. */
  method EntryExitBlocks(idx: CfgIndex, blocks: seq<nat>) returns (entries: seq<nat>, exits: seq<nat>)
    requires Valid(idx) && forall i :: 0 <= i < |blocks| ==> blocks[i] < |idx.succs|
    ensures entries == SortNats(EntryEas(idx, blocks, |blocks|))
    ensures exits == SortNats(ExitEas(idx, blocks, |blocks|))
  {
    entries, exits := [], [];
    for k := 0 to |blocks|
      invariant entries == EntryEas(idx, blocks, k)
      invariant exits == ExitEas(idx, blocks, k)
    {
      var b := blocks[k];
      var externalPred := HasOutsidePred(idx.succs, blocks, b);
      var hasExternalSucc := exists s :: s in idx.succs[b] && s !in blocks;
      var internalSucc := exists s :: s in idx.succs[b] && s in blocks;
      var isolated := !internalSucc && !externalPred;
      if externalPred || isolated || |blocks| == 1 {
        entries := entries + [idx.blockEas[b]];
      }
      if hasExternalSucc || idx.succs[b] == [] {
        exits := exits + [idx.blockEas[b]];
      }
    }
    entries := SortNats(entries);
    exits := SortNats(exits);
  }

  // ------------------------------------------------------------------ placing the blocks

  /** Regions carry consecutive ids and disjoint blocks, and `blockRegion` inverts them. */
  ghost predicate Placed(regions: seq<Region>, blockRegion: map<nat, string>) {
    && (forall i :: 0 <= i < |regions| ==> regions[i].id == RegionId(i + 1))
    && (forall i, j, b :: 0 <= i < j < |regions| && b in regions[i].blockIds ==> b !in regions[j].blockIds)
    && (forall i, b :: 0 <= i < |regions| && b in regions[i].blockIds ==>
          b in blockRegion && blockRegion[b] == regions[i].id)
    && (forall b: nat {:trigger InSome(regions, b)} :: b in blockRegion ==> InSome(regions, b))
  }

  ghost predicate InSome(regions: seq<Region>, b: nat) {
    exists i :: 0 <= i < |regions| && b in regions[i].blockIds
  }

  /** The region's lists are those of its blocks; links are not made yet. */
  ghost predicate Described(idx: CfgIndex, r: Region) {
    && Valid(idx)
    && (forall i :: 0 <= i < |r.blockIds| ==> r.blockIds[i] < |idx.succs|)
    && |r.blockEas| == |r.blockIds|
    && (forall i :: 0 <= i < |r.blockIds| ==> r.blockEas[i] == idx.blockEas[r.blockIds[i]])
    && r.entries == SortNats(EntryEas(idx, r.blockIds, |r.blockIds|))
    && r.exits == SortNats(ExitEas(idx, r.blockIds, |r.blockIds|))
  }

  lemma PlaceOne(regions: seq<Region>, m: map<nat, string>, m': map<nat, string>, r: Region)
    requires Placed(regions, m)
    requires r.id == RegionId(|regions| + 1)
    requires forall b :: b in r.blockIds ==> b !in m
    requires forall b: nat :: b in m' <==> b in m || b in r.blockIds
    requires forall b: nat :: b in m' ==> m'[b] == if b in r.blockIds then r.id else m[b]
    ensures Placed(regions + [r], m')
  {
    hide RegionId;
    var regions' := regions + [r];
    forall b: nat | b in m' ensures InSome(regions', b) {
      if b in m {
        assert InSome(regions, b);
        var i :| 0 <= i < |regions| && b in regions[i].blockIds;
        assert b in regions'[i].blockIds;
      } else {
        assert b in regions'[|regions|].blockIds;
      }
    }
    forall i, j, b: nat | 0 <= i < j < |regions'| && b in regions'[i].blockIds ensures b !in regions'[j].blockIds {
      assert b in m;
    }
  }

  /** Record `id` for every block of a region (lines 114-116 and 142-144). */
  method AssignBlocks(m: map<nat, string>, blocks: seq<nat>, id: string) returns (m': map<nat, string>)
    ensures forall b: nat :: b in m' <==> b in m || b in blocks
    ensures forall b: nat :: b in m' ==> m'[b] == if b in blocks then id else m[b]
  {
    m' := m;
    for k := 0 to |blocks|
      invariant forall b: nat :: b in m' <==> b in m || b in blocks[..k]
      invariant forall b: nat :: b in m' ==> m'[b] == if b in blocks[..k] then id else m[b]
    {
      assert blocks[..k + 1] == blocks[..k] + [blocks[k]];
      m' := m'[blocks[k] := id];
    }
    assert blocks[..|blocks|] == blocks;
  }

  ghost predicate Unlinked(r: Region) { r.preds == [] && r.succs == [] }

  /** Append one region with the next id (lines 111-133 and 140-159). */
  method AddRegion(idx: CfgIndex, regions: seq<Region>, m: map<nat, string>, role: Role, blocks: seq<nat>)
      returns (regions': seq<Region>, m': map<nat, string>)
    requires Valid(idx) && Placed(regions, m)
    requires forall i :: 0 <= i < |blocks| ==> blocks[i] < |idx.succs|
    requires forall b :: b in blocks ==> b !in m
    ensures Placed(regions', m')
    ensures |regions'| == |regions| + 1 && regions'[..|regions|] == regions
    ensures var r := regions'[|regions|]; Described(idx, r) && Unlinked(r) && r.role == role && r.blockIds == blocks
    ensures forall b: nat :: b in m' <==> b in m || b in blocks
  {
    hide Placed;
    hide EntryEas;
    hide ExitEas;
    var id := RegionId(|regions| + 1);
    m' := AssignBlocks(m, blocks, id);
    var entries, exits := EntryExitBlocks(idx, blocks);
    var eas := seq(|blocks|, i requires 0 <= i < |blocks| => idx.blockEas[blocks[i]]);
    var r := Region(id, role, blocks, eas, entries, exits, [], []);
    PlaceOne(regions, m, m', r);
    regions' := regions + [r];
  }

  // ------------------------------------------------------------ loop and dispatcher regions

  lemma {:induction false} MultiMember(sccs: seq<seq<nat>>, k: nat, i: nat) returns (c: nat)
    requires k <= |sccs| && i < |Multi(sccs, k)|
    ensures c < k && |sccs[c]| > 1 && Multi(sccs, k)[i] == sccs[c]
  {
    if i < |Multi(sccs, k - 1)| { c := MultiMember(sccs, k - 1, i); } else { c := k - 1; }
  }

  lemma {:induction false} MultiHolds(sccs: seq<seq<nat>>, k: nat, c: nat) returns (i: nat)
    requires c < k <= |sccs| && |sccs[c]| > 1
    ensures i < |Multi(sccs, k)| && Multi(sccs, k)[i] == sccs[c]
  {
    if c == k - 1 { i := |Multi(sccs, k - 1)|; } else { i := MultiHolds(sccs, k - 1, c); }
  }

  /** The first regions are the multi-block components `Multi(sccs, k)`, sorted, with their role. */
  ghost predicate LoopPart(idx: CfgIndex, opts: Options, sccs: seq<seq<nat>>, k: nat, regions: seq<Region>)
    requires k <= |sccs|
  {
    && |Multi(sccs, k)| <= |regions|
    && (forall i :: 0 <= i < |Multi(sccs, k)| ==>
          regions[i].blockIds == SortNats(Multi(sccs, k)[i]) && regions[i].role == RoleOf(opts, |Multi(sccs, k)[i]|))
  }

  /** The blocks placed after `k` components. */
  ghost predicate PlacedLoops(sccs: seq<seq<nat>>, k: nat, m: map<nat, string>)
    requires k <= |sccs|
  {
    forall b: nat :: b in m <==> exists c :: 0 <= c < k && |sccs[c]| > 1 && b in sccs[c]
  }

  lemma PlacedLoopsStep(sccs: seq<seq<nat>>, k: nat, m: map<nat, string>, m': map<nat, string>)
    requires k < |sccs| && PlacedLoops(sccs, k, m)
    requires forall b: nat :: b in m' <==> b in m || (|sccs[k]| > 1 && b in sccs[k])
    ensures PlacedLoops(sccs, k + 1, m')
  {
  }

  lemma LoopPartStep(idx: CfgIndex, opts: Options, sccs: seq<seq<nat>>, k: nat, regions: seq<Region>,
                     regions': seq<Region>)
    requires k < |sccs| && LoopPart(idx, opts, sccs, k, regions) && |regions| == |Multi(sccs, k)|
    requires |sccs[k]| <= 1 ==> regions' == regions
    requires |sccs[k]| > 1 ==>
               && |regions'| == |regions| + 1 && regions'[..|regions|] == regions
               && regions'[|regions|].blockIds == SortNats(sccs[k])
               && regions'[|regions|].role == RoleOf(opts, |sccs[k]|)
    ensures LoopPart(idx, opts, sccs, k + 1, regions') && |regions'| == |Multi(sccs, k + 1)|
  {
    hide SortNats;
    hide RoleOf;
    forall i | 0 <= i < |regions| ensures regions'[i] == regions[i] {
      assert regions'[..|regions|][i] == regions[i];
    }
  }

  lemma PlacedLoopsEnd(sccs: seq<seq<nat>>, m: map<nat, string>)
    requires PlacedLoops(sccs, |sccs|, m)
    ensures forall b: nat :: b in m <==> InLoop(sccs, b)
  {
  }

  /** Stage 1 of `partition` (lines 101-134). */
  method LoopRegions(idx: CfgIndex, opts: Options, sccs: seq<seq<nat>>)
      returns (regions: seq<Region>, m: map<nat, string>)
    requires Valid(idx) && IsSccPartition(idx.succs, sccs)
    ensures Placed(regions, m) && |regions| == |Multi(sccs, |sccs|)|
    ensures LoopPart(idx, opts, sccs, |sccs|, regions)
    ensures forall i :: 0 <= i < |regions| ==> Described(idx, regions[i]) && Unlinked(regions[i])
    ensures forall b: nat :: b in m <==> InLoop(sccs, b)
  {
    hide Placed;
    hide PlacedLoops;
    hide LoopPart;
    hide Multi;
    hide Described;
    hide IsSccPartition;
    hide InLoop;
    regions, m := [], map[];
    PlacedNothing(idx, opts, sccs);
    for k := 0 to |sccs|
      invariant Placed(regions, m) && |regions| == |Multi(sccs, k)|
      invariant LoopPart(idx, opts, sccs, k, regions)
      invariant forall i :: 0 <= i < |regions| ==> Described(idx, regions[i]) && Unlinked(regions[i])
      invariant PlacedLoops(sccs, k, m)
    {
      ghost var m0, regions0 := m, regions;
      if |sccs[k]| > 1 {
        var blocks := SortNats(sccs[k]);
        SortedComponent(idx.succs, sccs, k, m);
        regions, m := AddRegion(idx, regions, m, RoleOf(opts, |sccs[k]|), blocks);
      }
      PlacedLoopsStep(sccs, k, m0, m);
      LoopPartStep(idx, opts, sccs, k, regions0, regions);
    }
    PlacedLoopsEnd(sccs, m);
  }

  lemma PlacedNothing(idx: CfgIndex, opts: Options, sccs: seq<seq<nat>>)
    ensures Placed([], map[]) && PlacedLoops(sccs, 0, map[]) && LoopPart(idx, opts, sccs, 0, [])
    ensures Multi(sccs, 0) == []
  {
  }

  /** A component not yet placed, sorted, is a list of unplaced blocks. */
  lemma SortedComponent(g: Graph, sccs: seq<seq<nat>>, k: nat, m: map<nat, string>)
    requires IsSccPartition(g, sccs) && k < |sccs| && PlacedLoops(sccs, k, m)
    ensures var blocks := SortNats(sccs[k]);
            && (forall b: nat :: b in blocks <==> b in sccs[k])
            && (forall i :: 0 <= i < |blocks| ==> blocks[i] < |g|)
            && (forall b :: b in blocks ==> b !in m)
  {
    var blocks := SortNats(sccs[k]);
    SortNatsSpec(sccs[k]);
    assert IsComponent(g, sccs[k]);
    forall i | 0 <= i < |blocks| ensures blocks[i] < |g| {
      assert blocks[i] in blocks;
    }
  }

  // -------------------------------------------------------------------------- chunk regions

  /** Which blocks lie in a multi-block component (lines 90-99). */
  method MarkLoops(n: nat, sccs: seq<seq<nat>>) returns (inLoop: array<bool>)
    requires forall c, b :: 0 <= c < |sccs| && b in sccs[c] ==> b < n
    ensures inLoop.Length == n
    ensures forall b :: 0 <= b < n ==> (inLoop[b] <==> InLoop(sccs, b))
  {
    inLoop := new bool[n](_ => false);
    for c := 0 to |sccs|
      invariant forall b :: 0 <= b < n ==> (inLoop[b] <==> InLoop(sccs[..c], b))
    {
      ghost var before := inLoop[..];
      if |sccs[c]| > 1 {
        for i := 0 to |sccs[c]|
          invariant forall b :: 0 <= b < n ==> (inLoop[b] <==> before[b] || b in sccs[c][..i])
        {
          assert sccs[c][i] in sccs[c];
          assert sccs[c][..i + 1] == sccs[c][..i] + [sccs[c][i]];
          inLoop[sccs[c][i]] := true;
        }
        assert sccs[c][..|sccs[c]|] == sccs[c];
      }
      forall b: nat | b < n
        ensures InLoop(sccs[..c + 1], b) <==> InLoop(sccs[..c], b) || (|sccs[c]| > 1 && b in sccs[c])
      {
        InLoopStep(sccs, c, b);
      }
    }
    assert sccs[..|sccs|] == sccs;
  }

  lemma InLoopStep(sccs: seq<seq<nat>>, c: nat, b: nat)
    requires c < |sccs|
    ensures InLoop(sccs[..c + 1], b) <==> InLoop(sccs[..c], b) || (|sccs[c]| > 1 && b in sccs[c])
  {
  }

  lemma {:induction false} SinglesSpec(sccs: seq<seq<nat>>, n: nat)
    ensures forall b: nat :: b in Singles(sccs, n) <==> b < n && !InLoop(sccs, b)
    ensures forall i, j :: 0 <= i < j < |Singles(sccs, n)| ==> Singles(sccs, n)[i] < Singles(sccs, n)[j]
  {
    hide InLoop;
    if n > 0 {
      SinglesSpec(sccs, n - 1);
      var r := Singles(sccs, n - 1);
      forall i | 0 <= i < |r| ensures r[i] < n - 1 {
        assert r[i] in r;
      }
    }
  }

  function Take(s: seq<nat>, k: nat): seq<nat> { if |s| <= k then s else s[..k] }

  function Drop(s: seq<nat>, k: nat): seq<nat> { if |s| <= k then [] else s[k..] }

  lemma ChunksStep(s: seq<nat>, size: nat)
    requires size > 0 && s != []
    ensures Chunks(s, size) == [Take(s, size)] + Chunks(Drop(s, size), size)
    ensures s == Take(s, size) + Drop(s, size) && |Drop(s, size)| < |s|
  {
  }

  /** Chunks cut the list into consecutive pieces; all are within the bound and all but the last fill it. */
  lemma {:induction false} ChunksSpec(s: seq<nat>, size: nat)
    requires size > 0
    ensures Concat(Chunks(s, size)) == s
    ensures forall i :: 0 <= i < |Chunks(s, size)| ==> 0 < |Chunks(s, size)[i]| <= size
    ensures forall i :: 0 <= i < |Chunks(s, size)| - 1 ==> |Chunks(s, size)[i]| == size
    ensures |s| <= size ==> |Chunks(s, size)| <= 1
    decreases |s|
  {
    if s != [] {
      ChunksStep(s, size);
      ChunksSpec(Drop(s, size), size);
    }
  }

  function Concat(ss: seq<seq<nat>>): seq<nat> {
    if ss == [] then [] else ss[0] + Concat(ss[1..])
  }

  lemma {:induction false} ConcatMember(ss: seq<seq<nat>>, b: nat)
    ensures b in Concat(ss) <==> exists i :: 0 <= i < |ss| && b in ss[i]
  {
    if ss != [] {
      ConcatMember(ss[1..], b);
      if b in Concat(ss[1..]) {
        var i :| 0 <= i < |ss[1..]| && b in ss[1..][i];
        assert b in ss[i + 1];
      }
      if i :| 0 <= i < |ss| && b in ss[i] {
        assert i > 0 ==> ss[1..][i - 1] == ss[i];
      }
    }
  }

  /** The regions from `base` on are the chunks `done`. */
  ghost predicate ChunkPart(regions: seq<Region>, base: nat, done: seq<seq<nat>>) {
    && |regions| == base + |done|
    && (forall i :: base <= i < |regions| ==> regions[i].blockIds == done[i - base] && regions[i].role == Chunk)
  }

  /** The blocks placed while `rest` is still to be chunked. */
  ghost predicate PlacedChunks(sccs: seq<seq<nat>>, singles: seq<nat>, rest: seq<nat>, m: map<nat, string>) {
    forall b: nat :: b in m <==> InLoop(sccs, b) || (b in singles && b !in rest)
  }

  lemma ChunkStep(sccs: seq<seq<nat>>, singles: seq<nat>, rest: seq<nat>, size: nat, m: map<nat, string>,
                  m': map<nat, string>)
    requires PlacedChunks(sccs, singles, rest, m) && NoDup(rest)
    requires forall b: nat :: b in rest ==> b in singles
    requires forall b: nat :: b in m' <==> b in m || b in Take(rest, size)
    ensures PlacedChunks(sccs, singles, Drop(rest, size), m') && NoDup(Drop(rest, size))
    ensures forall b: nat :: b in Drop(rest, size) ==> b in singles
  {
  }

  /** Stage 2 of `partition` (lines 136-160). */
  method ChunkRegions(idx: CfgIndex, opts: Options, sccs: seq<seq<nat>>, regions0: seq<Region>, m0: map<nat, string>)
      returns (regions: seq<Region>, m: map<nat, string>)
    requires Valid(idx) && opts.maxChunkBlocks > 0
    requires forall c, b :: 0 <= c < |sccs| && b in sccs[c] ==> b < |idx.succs|
    requires Placed(regions0, m0) && forall b: nat :: b in m0 <==> InLoop(sccs, b)
    requires forall i :: 0 <= i < |regions0| ==> Described(idx, regions0[i]) && Unlinked(regions0[i])
    ensures Placed(regions, m) && |regions0| <= |regions| && regions[..|regions0|] == regions0
    ensures ChunkPart(regions, |regions0|, Chunks(Singles(sccs, |idx.succs|), opts.maxChunkBlocks))
    ensures forall i :: 0 <= i < |regions| ==> Described(idx, regions[i]) && Unlinked(regions[i])
    ensures forall b: nat :: b < |idx.succs| ==> b in m
  {
    hide Placed;
    hide Described;
    hide InLoop;
    hide PlacedChunks;
    hide ChunkPart;
    hide Singles;
    hide Chunks;
    hide Take;
    hide Drop;
    var inLoop := MarkLoops(|idx.succs|, sccs);
    var singles := CollectSingles(inLoop, sccs);
    SinglesSpec(sccs, |idx.succs|);
    var rest, size := singles, opts.maxChunkBlocks;
    ghost var done: seq<seq<nat>> := [];
    regions, m := regions0, m0;
    NoneChunked(sccs, singles, m);
    NoChunkPart(regions);
    while rest != []
      invariant Placed(regions, m) && |regions0| <= |regions| && regions[..|regions0|] == regions0
      invariant ChunkPart(regions, |regions0|, done)
      invariant forall i :: 0 <= i < |regions| ==> Described(idx, regions[i]) && Unlinked(regions[i])
      invariant Chunks(singles, size) == done + Chunks(rest, size)
      invariant PlacedChunks(sccs, singles, rest, m) && NoDup(rest)
      invariant forall b: nat :: b in rest ==> b in singles
      decreases |rest|
    {
      ghost var before, mBefore := regions, m;
      ChunksStep(rest, size);
      var chunk := Take(rest, size);
      ChunkFits(sccs, singles, rest, size, m, |idx.succs|);
      regions, m := AddRegion(idx, regions, m, Chunk, chunk);
      ChunkPartStep(before, regions, |regions0|, done, chunk);
      ChunkStep(sccs, singles, rest, size, mBefore, m);
      done := done + [chunk];
      rest := Drop(rest, size);
    }
    AllChunked(sccs, singles, m, |idx.succs|);
    NoChunks(size);
    assert Chunks(singles, size) == done;
  }

  lemma NoChunkPart(regions: seq<Region>)
    ensures ChunkPart(regions, |regions|, [])
  {
  }

  lemma NoChunks(size: nat)
    requires size > 0
    ensures Chunks([], size) == []
  {
  }

  lemma NoneChunked(sccs: seq<seq<nat>>, singles: seq<nat>, m: map<nat, string>)
    requires forall b: nat :: b in m <==> InLoop(sccs, b)
    ensures PlacedChunks(sccs, singles, singles, m)
  {
  }

  lemma AllChunked(sccs: seq<seq<nat>>, singles: seq<nat>, m: map<nat, string>, n: nat)
    requires PlacedChunks(sccs, singles, [], m)
    requires forall b: nat :: b in singles <==> b < n && !InLoop(sccs, b)
    ensures forall b: nat :: b < n ==> b in m
  {
  }

  lemma ChunkFits(sccs: seq<seq<nat>>, singles: seq<nat>, rest: seq<nat>, size: nat, m: map<nat, string>, n: nat)
    requires PlacedChunks(sccs, singles, rest, m)
    requires forall b: nat :: b in rest ==> b in singles
    requires forall b: nat :: b in singles <==> b < n && !InLoop(sccs, b)
    ensures forall i :: 0 <= i < |Take(rest, size)| ==> Take(rest, size)[i] < n
    ensures forall b :: b in Take(rest, size) ==> b !in m
  {
    hide InLoop;
    var chunk := Take(rest, size);
    forall i | 0 <= i < |chunk| ensures chunk[i] < n {
      assert chunk[i] in rest;
      assert chunk[i] in singles;
    }
  }

  lemma ChunkPartStep(regions: seq<Region>, regions': seq<Region>, base: nat, done: seq<seq<nat>>, chunk: seq<nat>)
    requires ChunkPart(regions, base, done)
    requires |regions'| == |regions| + 1 && regions'[..|regions|] == regions
    requires var r := regions'[|regions|]; r.role == Chunk && r.blockIds == chunk
    ensures ChunkPart(regions', base, done + [chunk])
    ensures forall i :: 0 <= i < |regions| ==> regions'[i] == regions[i]
    ensures base <= |regions| ==> regions'[..base] == regions[..base]
  {
  }

  /** The blocks in no multi-block component, in flow-chart order (line 138). */
  method CollectSingles(inLoop: array<bool>, ghost sccs: seq<seq<nat>>) returns (singles: seq<nat>)
    requires forall b :: 0 <= b < inLoop.Length ==> (inLoop[b] <==> InLoop(sccs, b))
    ensures singles == Singles(sccs, inLoop.Length)
  {
    singles := [];
    for b := 0 to inLoop.Length
      invariant singles == Singles(sccs, b)
    {
      if !inLoop[b] {
        singles := singles + [b];
      }
    }
  }

  // ------------------------------------------------------------------------- region links

  /** Slot `i` of block `v` leads from region `r` to another region `s`. */
  ghost predicate SlotCrosses(g: Graph, m: map<nat, string>, v: nat, i: nat, r: string, s: string) {
    && v < |g| && i < |g[v]| && v in m && g[v][i] in m
    && m[v] == r && m[g[v][i]] == s && r != s
  }

  /** Some edge of the block graph leads from region `r` to another region `s`. */
  ghost predicate Crossing(g: Graph, m: map<nat, string>, r: string, s: string) {
    exists v: nat, i: nat :: SlotCrosses(g, m, v, i, r, s)
  }

  ghost predicate CrossedBefore(g: Graph, m: map<nat, string>, b: nat, j: nat, r: string, s: string) {
    exists v: nat, i: nat :: (v < b || (v == b && i < j)) && SlotCrosses(g, m, v, i, r, s)
  }

  ghost predicate Lists(t: map<string, seq<string>>, k: string, x: string) {
    k in t && x in t[k]
  }

  /** `t.entry(k).or_default().push(x)`. */
  function Push(t: map<string, seq<string>>, k: string, x: string): map<string, seq<string>> {
    t[k := (if k in t then t[k] else []) + [x]]
  }

  /** The tables say which regions the slots read so far connect. */
  ghost predicate Tabled(g: Graph, m: map<nat, string>, b: nat, j: nat,
                         pred: map<string, seq<string>>, succ: map<string, seq<string>>)
  {
    && (forall r, s :: Lists(succ, r, s) <==> CrossedBefore(g, m, b, j, r, s))
    && (forall r, s :: Lists(pred, s, r) <==> CrossedBefore(g, m, b, j, r, s))
  }

  lemma CrossStep(g: Graph, m: map<nat, string>, b: nat, j: nat, r: string, s: string)
    ensures CrossedBefore(g, m, b, j + 1, r, s) <==> CrossedBefore(g, m, b, j, r, s) || SlotCrosses(g, m, b, j, r, s)
  {
  }

  lemma TabledStep(g: Graph, m: map<nat, string>, b: nat, j: nat,
                   pred: map<string, seq<string>>, succ: map<string, seq<string>>)
    requires b < |g| && j < |g[b]| && Tabled(g, m, b, j, pred, succ)
    ensures if b in m && g[b][j] in m && m[b] != m[g[b][j]]
            then Tabled(g, m, b, j + 1, Push(pred, m[g[b][j]], m[b]), Push(succ, m[b], m[g[b][j]]))
            else Tabled(g, m, b, j + 1, pred, succ)
  {
    hide CrossedBefore;
    var crosses := b in m && g[b][j] in m && m[b] != m[g[b][j]];
    var pred' := if crosses then Push(pred, m[g[b][j]], m[b]) else pred;
    var succ' := if crosses then Push(succ, m[b], m[g[b][j]]) else succ;
    forall r, s
      ensures Lists(succ', r, s) <==> CrossedBefore(g, m, b, j + 1, r, s)
      ensures Lists(pred', s, r) <==> CrossedBefore(g, m, b, j + 1, r, s)
    {
      CrossStep(g, m, b, j, r, s);
      assert SlotCrosses(g, m, b, j, r, s) <==> crosses && r == m[b] && s == m[g[b][j]];
      assert Lists(succ', r, s) <==> Lists(succ, r, s) || (crosses && r == m[b] && s == m[g[b][j]]);
      assert Lists(pred', s, r) <==> Lists(pred, s, r) || (crosses && r == m[b] && s == m[g[b][j]]);
    }
  }

  lemma TabledRow(g: Graph, m: map<nat, string>, b: nat, pred: map<string, seq<string>>, succ: map<string, seq<string>>)
    requires b < |g| && Tabled(g, m, b, |g[b]|, pred, succ)
    ensures Tabled(g, m, b + 1, 0, pred, succ)
  {
  }

  /** Stage 3 of `partition`: cross-region edges from block successors (lines 163-180). */
  method CrossEdges(g: Graph, m: map<nat, string>)
      returns (pred: map<string, seq<string>>, succ: map<string, seq<string>>)
    ensures forall r, s :: Lists(succ, r, s) <==> Crossing(g, m, r, s)
    ensures forall r, s :: Lists(pred, s, r) <==> Crossing(g, m, r, s)
  {
    hide Tabled;
    pred, succ := map[], map[];
    TabledNothing(g, m);
    for b := 0 to |g|
      invariant Tabled(g, m, b, 0, pred, succ)
    {
      for j := 0 to |g[b]|
        invariant Tabled(g, m, b, j, pred, succ)
      {
        TabledStep(g, m, b, j, pred, succ);
        if b in m && g[b][j] in m {
          var rb, rs := m[b], m[g[b][j]];
          if rs != rb {
            succ := Push(succ, rb, rs);
            pred := Push(pred, rs, rb);
          }
        }
      }
      TabledRow(g, m, b, pred, succ);
    }
    TabledAll(g, m, pred, succ);
  }

  lemma TabledNothing(g: Graph, m: map<nat, string>)
    ensures Tabled(g, m, 0, 0, map[], map[])
  {
  }

  lemma TabledAll(g: Graph, m: map<nat, string>, pred: map<string, seq<string>>, succ: map<string, seq<string>>)
    requires Tabled(g, m, |g|, 0, pred, succ)
    ensures forall r, s :: Lists(succ, r, s) <==> Crossing(g, m, r, s)
    ensures forall r, s :: Lists(pred, s, r) <==> Crossing(g, m, r, s)
  {
  }

  /** `dedup_sorted` of the entry of `id`, if it has one. */
  function LinkOf(t: map<string, seq<string>>, id: string): seq<string> {
    if id in t then SortedSet<string>(LexLeq, t[id]) else []
  }

  lemma LinkOfSpec(t: map<string, seq<string>>, id: string)
    ensures NoDup(LinkOf(t, id)) && SortedBy(LexLeq, LinkOf(t, id))
    ensures forall x :: x in LinkOf(t, id) <==> Lists(t, id, x)
  {
    LexOrder();
    if id in t { SortedSetSpec<string>(LexLeq, t[id]); }
  }

  /** Fill in the links of every region (lines 181-188). */
  method LinkRegions(regions: seq<Region>, pred: map<string, seq<string>>, succ: map<string, seq<string>>)
      returns (linked: seq<Region>)
    requires forall i :: 0 <= i < |regions| ==> Unlinked(regions[i])
    ensures |linked| == |regions|
    ensures forall i :: 0 <= i < |regions| ==>
              linked[i] == regions[i].(preds := LinkOf(pred, regions[i].id), succs := LinkOf(succ, regions[i].id))
  {
    linked := regions;
    for i := 0 to |regions|
      invariant |linked| == |regions|
      invariant forall k :: 0 <= k < i ==>
                  linked[k] == regions[k].(preds := LinkOf(pred, regions[k].id), succs := LinkOf(succ, regions[k].id))
      invariant forall k :: i <= k < |regions| ==> linked[k] == regions[k]
    {
      var r := linked[i];
      if r.id in pred {
        r := r.(preds := SortedSet<string>(LexLeq, pred[r.id]));
      }
      if r.id in succ {
        r := r.(succs := SortedSet<string>(LexLeq, succ[r.id]));
      }
      linked := linked[i := r];
    }
  }

  /** The links of every region are the crossings, sorted and without repeats. */
  ghost predicate Linked(g: Graph, m: map<nat, string>, regions: seq<Region>) {
    forall i :: 0 <= i < |regions| ==> LinkedOne(g, m, regions[i])
  }

  ghost predicate LinkedOne(g: Graph, m: map<nat, string>, r: Region) {
    && NoDup(r.preds) && SortedBy(LexLeq, r.preds) && NoDup(r.succs) && SortedBy(LexLeq, r.succs)
    && (forall x :: x in r.succs <==> Crossing(g, m, r.id, x))
    && (forall x :: x in r.preds <==> Crossing(g, m, x, r.id))
  }

  /** Everything `partition` promises; `sccs` is the component list it started from. */
  ghost predicate IsPartition(idx: CfgIndex, opts: Options, sccs: seq<seq<nat>>, p: Partition) {
    && Valid(idx) && opts.maxChunkBlocks > 0
    && IsSccPartition(idx.succs, sccs)
    && LoopPart(idx, opts, sccs, |sccs|, p.regions)
    && ChunkPart(p.regions, |Multi(sccs, |sccs|)|, Chunks(Singles(sccs, |idx.succs|), opts.maxChunkBlocks))
    && Placed(p.regions, p.blockRegion)
    && (forall b: nat :: b < |idx.succs| ==> b in p.blockRegion)
    && (forall i :: 0 <= i < |p.regions| ==> Described(idx, p.regions[i]))
    && Linked(idx.succs, p.blockRegion, p.regions)
  }

  /** Only the links differ. */
  ghost predicate Relinked(regions: seq<Region>, linked: seq<Region>) {
    && |linked| == |regions|
    && (forall i :: 0 <= i < |regions| ==>
          linked[i] == regions[i].(preds := linked[i].preds, succs := linked[i].succs))
  }

  lemma RelinkPlaced(regions: seq<Region>, linked: seq<Region>, m: map<nat, string>)
    requires Relinked(regions, linked) && Placed(regions, m)
    ensures Placed(linked, m)
  {
    hide RegionId;
    forall b: nat | b in m ensures InSome(linked, b) {
      assert InSome(regions, b);
      var i :| 0 <= i < |regions| && b in regions[i].blockIds;
      assert b in linked[i].blockIds;
    }
  }

  lemma RelinkParts(idx: CfgIndex, opts: Options, sccs: seq<seq<nat>>, regions: seq<Region>, linked: seq<Region>,
                    base: nat, chunks: seq<seq<nat>>)
    requires Relinked(regions, linked)
    requires LoopPart(idx, opts, sccs, |sccs|, regions) && ChunkPart(regions, base, chunks)
    ensures LoopPart(idx, opts, sccs, |sccs|, linked) && ChunkPart(linked, base, chunks)
  {
  }

  lemma RelinkDescribed(idx: CfgIndex, regions: seq<Region>, linked: seq<Region>)
    requires Relinked(regions, linked) && forall i :: 0 <= i < |regions| ==> Described(idx, regions[i])
    ensures forall i :: 0 <= i < |linked| ==> Described(idx, linked[i])
  {
  }

  lemma LinksAreCrossings(g: Graph, m: map<nat, string>, regions: seq<Region>,
                          pred: map<string, seq<string>>, succ: map<string, seq<string>>)
    requires forall r, s :: Lists(succ, r, s) <==> Crossing(g, m, r, s)
    requires forall r, s :: Lists(pred, s, r) <==> Crossing(g, m, r, s)
    requires forall i :: 0 <= i < |regions| ==>
               regions[i].preds == LinkOf(pred, regions[i].id) && regions[i].succs == LinkOf(succ, regions[i].id)
    ensures Linked(g, m, regions)
  {
    hide Crossing;
    hide Lists;
    hide LinkOf;
    hide SortedBy;
    forall i | 0 <= i < |regions| ensures LinkedOne(g, m, regions[i]) {
      LinkOfSpec(pred, regions[i].id);
      LinkOfSpec(succ, regions[i].id);
    }
  }

  lemma ComponentBlocks(g: Graph, sccs: seq<seq<nat>>)
    requires IsSccPartition(g, sccs)
    ensures forall c, b :: 0 <= c < |sccs| && b in sccs[c] ==> b < |g|
  {
  }

  /** `partition`. */
  method MakePartition(idx: CfgIndex, opts: Options) returns (p: Partition, ghost sccs: seq<seq<nat>>)
    requires Valid(idx) && opts.maxChunkBlocks > 0
    ensures IsPartition(idx, opts, sccs, p)
    ensures (forall c, d :: 0 <= c < d < |sccs| ==> |sccs[c]| >= |sccs[d]|) && TiesBackwards(idx.succs, sccs)
    ensures p.functionEa == if idx.blockEas == [] then 0 else idx.blockEas[0]
  {
    hide IsSccPartition;
    hide Placed;
    hide LoopPart;
    hide ChunkPart;
    hide Multi;
    hide Singles;
    hide Chunks;
    hide Described;
    hide Crossing;
    hide Lists;
    hide Linked;
    hide LinkOf;
    hide InLoop;
    hide TiesBackwards;
    var g := idx.succs;
    var components, _, _, _ := TarjanSccs(g);
    sccs := components;
    ComponentBlocks(g, components);
    var loops, m0 := LoopRegions(idx, opts, components);
    var regions, m := ChunkRegions(idx, opts, components, loops, m0);
    LoopPrefix(idx, opts, sccs, loops, regions);
    var pred, succ := CrossEdges(g, m);
    var linked := LinkRegions(regions, pred, succ);
    RelinkPlaced(regions, linked, m);
    RelinkParts(idx, opts, sccs, regions, linked, |loops|, Chunks(Singles(sccs, |g|), opts.maxChunkBlocks));
    RelinkDescribed(idx, regions, linked);
    LinksAreCrossings(g, m, linked, pred, succ);
    p := Partition(if idx.blockEas == [] then 0 else idx.blockEas[0], linked, m);
  }

  lemma LoopPrefix(idx: CfgIndex, opts: Options, sccs: seq<seq<nat>>, loops: seq<Region>, regions: seq<Region>)
    requires LoopPart(idx, opts, sccs, |sccs|, loops) && |loops| == |Multi(sccs, |sccs|)|
    requires |loops| <= |regions| && regions[..|loops|] == loops
    ensures LoopPart(idx, opts, sccs, |sccs|, regions)
  {
  }
}
