/**
 The region graph that a partition carries in its links.
 */
module RegionGraph {
  import opened Walks
  import opened Sorting
  import opened Regions

  predicate HasId(regions: seq<Region>, id: string) {
    exists i :: 0 <= i < |regions| && regions[i].id == id
  }

  ghost function EdgesOfRegions(regions: seq<Region>): Edges<string> {
    iset e: (string, string) | exists i :: 0 <= i < |regions| && regions[i].id == e.0 && e.1 in regions[i].succs
  }

  /**
   Ids are unique, links stay inside and do not repeat, predecessor and successor lists mirror each other, no self
   links.
   */
  ghost predicate Consistent(regions: seq<Region>) {
    && (forall i, j :: 0 <= i < j < |regions| ==> regions[i].id != regions[j].id)
    && (forall i, x :: 0 <= i < |regions| && x in regions[i].succs ==> HasId(regions, x))
    && (forall i, x :: 0 <= i < |regions| && x in regions[i].preds ==> HasId(regions, x))
    && (forall i, j :: 0 <= i < |regions| && 0 <= j < |regions| ==>
          (regions[j].id in regions[i].succs <==> regions[i].id in regions[j].preds))
    && (forall i :: 0 <= i < |regions| ==> regions[i].id !in regions[i].succs && NoDup(regions[i].succs))
  }

  /** `partition.regions.iter().find(|r| r.region_id == id)`: its position. */
  function Find(regions: seq<Region>, id: string): (i: nat)
    requires HasId(regions, id)
    ensures i < |regions| && regions[i].id == id
  {
    FindFrom(regions, id, 0)
  }

  function FindFrom(regions: seq<Region>, id: string, k: nat): (i: nat)
    requires exists i :: k <= i < |regions| && regions[i].id == id
    ensures k <= i < |regions| && regions[i].id == id
    decreases |regions| - k
  {
    if regions[k].id == id then k else FindFrom(regions, id, k + 1)
  }

  /** In a consistent graph both link lists list exactly the edges. */
  lemma LinksAreEdges(regions: seq<Region>, i: nat)
    requires Consistent(regions) && i < |regions|
    ensures forall x :: x in regions[i].succs <==> (regions[i].id, x) in EdgesOfRegions(regions)
    ensures forall x :: x in regions[i].preds <==> (x, regions[i].id) in EdgesOfRegions(regions)
    ensures (regions[i].id, regions[i].id) !in EdgesOfRegions(regions)
  {
    var id := regions[i].id;
    forall x | x in regions[i].preds ensures (x, id) in EdgesOfRegions(regions) {
      assert HasId(regions, x);
      var j :| 0 <= j < |regions| && regions[j].id == x;
    }
  }

  /** Both ends of an edge are regions. */
  lemma EdgeEnds(regions: seq<Region>, a: string, b: string)
    requires Consistent(regions) && (a, b) in EdgesOfRegions(regions)
    ensures HasId(regions, a) && HasId(regions, b)
  {
  }
}
