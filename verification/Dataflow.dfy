/**
 The bounded worklist that carries facts over the region graph (`run_dataflow`).

 The caller's `_fact_of` closure is ignored by the program and has no
 counterpart here.  Cap warnings, which the program pushes into `completed` as
 text, are kept in a list of their own.
 */
module Dataflow {
  import opened Basics
  import opened Walks
  import opened Sorting
  import opened Regions
  import opened RegionGraph

  datatype Confidence = Confirmed | Heuristic | Unknown

  datatype Fact = Fact(key: string, value: Option<nat>, confidence: Confidence)

  datatype Limits = Limits(maxIterations: nat, maxFactsPerRegion: nat)

  datatype Stop = WorkBudget | Deadline | Converged | Settled

  datatype DataflowResult = DataflowResult(
    inFacts: map<string, seq<Fact>>,
    completed: seq<string>,
    capped: seq<string>,
    frontier: seq<string>,
    iterations: nat,
    converged: bool,
    stop: Stop)

  /** What has reached region `s`. */
  function Got(inFacts: map<string, seq<Fact>>, s: string): seq<Fact> {
    if s in inFacts then inFacts[s] else []
  }

  // ------------------------------------------------------------------ joining facts

  /** The facts of `d`, then those of `fs` that are new, each at its first place. */
  function Union(d: seq<Fact>, fs: seq<Fact>): seq<Fact> {
    if fs == [] then d else
      var u, f := Union(d, fs[..|fs| - 1]), fs[|fs| - 1];
      if f in u then u else u + [f]
  }

  function UpToCap(fs: seq<Fact>, cap: nat): seq<Fact> { if |fs| <= cap then fs else fs[..cap] }

  lemma {:induction false} UnionPrefix(d: seq<Fact>, fs: seq<Fact>)
    ensures d <= Union(d, fs)
  {
    if fs != [] { UnionPrefix(d, fs[..|fs| - 1]); }
  }

  lemma {:induction false} UnionConcat(d: seq<Fact>, x: seq<Fact>, y: seq<Fact>)
    ensures Union(d, x + y) == Union(Union(d, x), y)
  {
    if y == [] {
      assert x + y == x;
    } else {
      assert (x + y)[..|x + y| - 1] == x + y[..|y| - 1];
      UnionConcat(d, x, y[..|y| - 1]);
    }
  }

  lemma UnionNext(d: seq<Fact>, fs: seq<Fact>, i: nat)
    requires i < |fs|
    ensures var u := Union(d, fs[..i]); Union(d, fs[..i + 1]) == if fs[i] in u then u else u + [fs[i]]
    ensures Union(d, fs[..i + 1]) <= Union(d, fs)
  {
    assert fs[..i + 1][..i] == fs[..i] && fs == fs[..i + 1] + fs[i + 1..];
    UnionConcat(d, fs[..i + 1], fs[i + 1..]);
    UnionPrefix(Union(d, fs[..i + 1]), fs[i + 1..]);
  }

  /** Add the new facts of one predecessor, up to the cap (lines 151-164). */
  method AddFacts(entry: seq<Fact>, facts: seq<Fact>, cap: nat) returns (joined: seq<Fact>, capped: bool)
    ensures |entry| <= cap ==>
      joined == UpToCap(Union(entry, facts), cap) && (capped <==> |Union(entry, facts)| > cap)
    ensures entry <= joined
    ensures forall f :: f in joined ==> f in entry || f in facts
    ensures NoDup(entry) ==> NoDup(joined)
    ensures |entry| <= cap ==> |joined| <= cap
    ensures !capped ==> forall f :: f in facts ==> f in joined
    ensures capped ==> |joined| >= cap && exists f :: f in facts && f !in joined
  {
    joined, capped := entry, false;
    hide Union;
    UnionNone(entry);
    for i := 0 to |facts|
      invariant |entry| <= cap ==> joined == Union(entry, facts[..i])
      invariant entry <= joined
      invariant forall f :: f in joined ==> f in entry || f in facts
      invariant NoDup(entry) ==> NoDup(joined)
      invariant |entry| <= cap ==> |joined| <= cap
      invariant forall j :: 0 <= j < i ==> facts[j] in joined
    {
      UnionNext(entry, facts, i);
      if facts[i] !in joined {
        if |joined| < cap {
          joined := joined + [facts[i]];
        } else {
          capped := true;
          return;
        }
      }
    }
    assert facts[..|facts|] == facts;
  }

  lemma UnionNone(d: seq<Fact>)
    ensures Union(d, []) == d
  {
  }

  // ---------------------------------------------------------------- the worklist state

  /** The regions are split over the lists: completed, still to do this round, ready for the next, pending. */
  ghost predicate SplitUp(regions: seq<Region>, completed: seq<string>, work: seq<string>, next: seq<string>,
                          pending: set<string>)
  {
    && NoDup(completed + work + next)
    && (forall x :: x in pending ==> x !in completed && x !in work && x !in next)
    && (forall x :: HasId(regions, x) <==> x in completed || x in work || x in next || x in pending)
  }

  /** Every region in `xs` has all its predecessors in `completed`. */
  ghost predicate Cleared(e: Edges<string>, completed: seq<string>, xs: seq<string>) {
    forall x, p :: x in xs && (p, x) in e ==> p in completed
  }

  /** Regions complete after all their predecessors. */
  ghost predicate InOrder(e: Edges<string>, completed: seq<string>) {
    forall i, p :: 0 <= i < |completed| && (p, completed[i]) in e ==> p in completed[..i]
  }

  /** A pending region, unless it is about to be checked, waits for a predecessor. */
  ghost predicate Blocked(e: Edges<string>, completed: seq<string>, pending: set<string>, unchecked: seq<string>) {
    forall x {:trigger Waits(e, completed, x)} :: x in pending && x !in unchecked ==> Waits(e, completed, x)
  }

  ghost predicate Waits(e: Edges<string>, completed: seq<string>, x: string) {
    exists p :: (p, x) in e && p !in completed
  }

  /** `p` is completed and its out-facts went to `s`; the last one may still owe `owed` their share. */
  ghost predicate Delivered(e: Edges<string>, facts: map<string, seq<Fact>>, completed: seq<string>, owed: seq<string>,
                            p: string, s: string)
  {
    && p in completed && p in facts && (p, s) in e
    && (s in owed ==> p != completed[|completed| - 1])
  }

  ghost predicate FactsSound(e: Edges<string>, facts: map<string, seq<Fact>>, completed: seq<string>, owed: seq<string>,
                             inFacts: map<string, seq<Fact>>)
  {
    forall s, f :: f in Got(inFacts, s) ==> exists p :: Delivered(e, facts, completed, owed, p, s) && f in facts[p]
  }

  ghost predicate FactsComplete(e: Edges<string>, facts: map<string, seq<Fact>>, completed: seq<string>,
                                owed: seq<string>, inFacts: map<string, seq<Fact>>, capped: seq<string>)
  {
    forall s, p, f :: s !in capped && Delivered(e, facts, completed, owed, p, s) && f in facts[p] ==>
      f in Got(inFacts, s)
  }

  /** The facts that arrive at `s`, in the order in which its predecessors complete. */
  ghost function Arrived(e: Edges<string>, facts: map<string, seq<Fact>>, completed: seq<string>,
                         s: string): seq<Fact> {
    if completed == [] then [] else
      var n := |completed| - 1;
      Arrived(e, facts, completed[..n], s)
      + if completed[n] in facts && (completed[n], s) in e then facts[completed[n]] else []
  }

  /** Those that have arrived so far, without repeats. */
  ghost function Distinct(e: Edges<string>, facts: map<string, seq<Fact>>, completed: seq<string>, owed: seq<string>,
                          s: string): seq<Fact>
  {
    var servers := if s in owed && completed != [] then completed[..|completed| - 1] else completed;
    Union([], Arrived(e, facts, servers, s))
  }

  /** Each region has the first `cap` of the distinct facts that arrived, and is reported if there were more. */
  ghost predicate Exact(e: Edges<string>, facts: map<string, seq<Fact>>, completed: seq<string>, owed: seq<string>,
                        inFacts: map<string, seq<Fact>>, capped: seq<string>, cap: nat)
  {
    forall s: string :: ExactAt(e, facts, completed, owed, inFacts, capped, cap, s)
  }

  ghost predicate ExactAt(e: Edges<string>, facts: map<string, seq<Fact>>, completed: seq<string>, owed: seq<string>,
                          inFacts: map<string, seq<Fact>>, capped: seq<string>, cap: nat, s: string)
  {
    var all := Distinct(e, facts, completed, owed, s);
    && Got(inFacts, s) == UpToCap(all, cap) && (s in capped <==> |all| > cap)
    && (s in inFacts <==> exists p :: Delivered(e, facts, completed, owed, p, s))
  }

  ghost predicate Bounded(inFacts: map<string, seq<Fact>>, cap: nat) {
    forall s :: s in inFacts ==> NoDup(inFacts[s]) && |inFacts[s]| <= cap
  }

  /** Completed regions still have the facts they had when they completed. */
  ghost predicate Frozen(completed: seq<string>, inFacts: map<string, seq<Fact>>, seen: map<string, seq<Fact>>) {
    forall r :: r in completed ==> r in seen && Got(inFacts, r) == seen[r]
  }

  // --------------------------------------------------------------- who is released

  /** Position `i` holds the predecessor of `x` completed last, and that one has facts. */
  ghost predicate LastAt(e: Edges<string>, facts: map<string, seq<Fact>>, completed: seq<string>, x: string, i: int) {
    && 0 <= i < |completed| && (completed[i], x) in e && completed[i] in facts
    && forall j :: i < j < |completed| ==> (completed[j], x) !in e
  }

  /** All predecessors of `x` are completed, and the one completed last has facts. */
  ghost predicate Released(e: Edges<string>, facts: map<string, seq<Fact>>, completed: seq<string>, x: string) {
    (forall p :: (p, x) in e ==> p in completed) && exists i :: LastAt(e, facts, completed, x, i)
  }

  ghost predicate NoPreds(e: Edges<string>, x: string) { forall p :: (p, x) !in e }

  ghost predicate Justified(e: Edges<string>, facts: map<string, seq<Fact>>, completed: seq<string>, xs: seq<string>) {
    forall x :: x in xs ==> NoPreds(e, x) || Released(e, facts, completed, x)
  }

  /** Who left the pending set was a root or was released; who is in it was not released yet. */
  ghost predicate Lawful(e: Edges<string>, facts: map<string, seq<Fact>>, completed: seq<string>, work: seq<string>,
                         next: seq<string>, pending: set<string>, owed: seq<string>)
  {
    && Justified(e, facts, completed, completed) && Justified(e, facts, completed, work)
      && Justified(e, facts, completed, next)
    && (forall x :: x in pending ==> !NoPreds(e, x) && (x !in owed ==> !Released(e, facts, completed, x)))
  }

  /** Completing a region that is no predecessor of `x` does not change whether `x` is released. */
  lemma ReleasedStays(e: Edges<string>, facts: map<string, seq<Fact>>, completed: seq<string>, rid: string, x: string)
    requires (rid, x) !in e
    ensures Released(e, facts, completed + [rid], x) <==> Released(e, facts, completed, x)
  {
    var c := completed + [rid];
    assert c[|completed|] == rid && forall j :: 0 <= j < |completed| ==> c[j] == completed[j];
    if i :| LastAt(e, facts, completed, x, i) {
      assert LastAt(e, facts, c, x, i);
    }
    if i :| LastAt(e, facts, c, x, i) {
      assert i < |completed|;
      forall j | i < j < |completed| ensures (completed[j], x) !in e { assert c[j] == completed[j]; }
      assert LastAt(e, facts, completed, x, i);
    }
  }

  /** Completing a predecessor without facts strands `x`. */
  lemma Stranded(e: Edges<string>, facts: map<string, seq<Fact>>, completed: seq<string>, rid: string, x: string)
    requires (rid, x) in e && rid !in facts
    ensures !Released(e, facts, completed + [rid], x)
  {
    var c := completed + [rid];
    assert c[|completed|] == rid;
  }

  lemma CompleteLawful(e: Edges<string>, facts: map<string, seq<Fact>>, completed: seq<string>, work: seq<string>,
                       next: seq<string>, pending: set<string>, succs: seq<string>)
    requires Lawful(e, facts, completed, work, next, pending, []) && work != [] && work[0] !in completed
    requires Cleared(e, completed, work) && Cleared(e, completed, next) && InOrder(e, completed)
    requires work[0] in facts ==> forall x :: (work[0], x) in e ==> x in succs
    ensures Lawful(e, facts, completed + [work[0]], work[1..], next, pending, succs)
  {
    hide Released;
    var rid, c := work[0], completed + [work[0]];
    forall x | x in completed || x in work || x in next
      ensures NoPreds(e, x) || Released(e, facts, c, x)
    {
      ReleasedStays(e, facts, completed, rid, x);
    }
    forall x | x in pending && x !in succs ensures !Released(e, facts, c, x) {
      if (rid, x) in e { Stranded(e, facts, completed, rid, x); } else { ReleasedStays(e, facts, completed, rid, x); }
    }
  }

  /** Serving `s`: released exactly if nothing is missing. */
  lemma DeliverLawful(e: Edges<string>, facts: map<string, seq<Fact>>, completed: seq<string>, work: seq<string>,
                      next: seq<string>, next': seq<string>, pending: set<string>, pending': set<string>,
                      owed: seq<string>)
    requires Lawful(e, facts, completed, work, next, pending, owed) && owed != [] && completed != []
    requires (completed[|completed| - 1], owed[0]) in e && completed[|completed| - 1] in facts
    requires if (forall p :: (p, owed[0]) in e ==> p in completed) && owed[0] in pending
             then next' == next + [owed[0]] && pending' == pending - {owed[0]}
             else next' == next && pending' == pending
    ensures Lawful(e, facts, completed, work, next', pending', owed[1..])
  {
    var s, n := owed[0], |completed| - 1;
    if forall p :: (p, s) in e ==> p in completed {
      assert LastAt(e, facts, completed, s, n);
      assert Released(e, facts, completed, s);
    }
    assert forall x :: x in owed ==> x == s || x in owed[1..];
  }

  lemma StartLawful(regions: seq<Region>, facts: map<string, seq<Fact>>)
    requires Consistent(regions)
    ensures var pending := Waiting(regions);
      Lawful(EdgesOfRegions(regions), facts, [], Roots(regions, |regions|), [], pending, [])
  {
    hide Consistent; hide EdgesOfRegions;
    var e := EdgesOfRegions(regions);
    RootsSpec(regions, |regions|);
    forall i | 0 <= i < |regions| ensures regions[i].preds == [] <==> NoPreds(e, regions[i].id) {
      LinksAreEdges(regions, i);
      if regions[i].preds != [] { assert regions[i].preds[0] in regions[i].preds; }
    }
  }

  // ------------------------------------------------------------------ in which order

  /** Position `i` holds the predecessor of `x` completed last. */
  ghost predicate LastPred(e: Edges<string>, completed: seq<string>, x: string, i: nat) {
    && i < |completed| && (completed[i], x) in e
    && forall j :: i < j < |completed| ==> (completed[j], x) !in e
  }

  ghost predicate Precedes(s: seq<string>, x: string, y: string) {
    exists k, l :: 0 <= k < l < |s| && s[k] == x && s[l] == y
  }

  function Ids(regions: seq<Region>): seq<string> { seq(|regions|, i requires 0 <= i < |regions| => regions[i].id) }

  function SuccsOf(regions: seq<Region>, id: string): seq<string> {
    if HasId(regions, id) then regions[Find(regions, id)].succs else []
  }

  /** The last predecessor of `x` completed before that of `y`, or is the same and lists `x` before `y`. */
  ghost predicate ReleasedBefore(regions: seq<Region>, e: Edges<string>, completed: seq<string>, x: string, y: string) {
    forall i: nat, j: nat :: LastPred(e, completed, x, i) && LastPred(e, completed, y, j) ==>
      i < j || (i == j && Precedes(SuccsOf(regions, completed[i]), x, y))
  }

  /** `x` has its turn before `y`: roots in partition order first, the others in the order of their release. */
  ghost predicate Turn(regions: seq<Region>, e: Edges<string>, completed: seq<string>, x: string, y: string) {
    && (NoPreds(e, y) ==> NoPreds(e, x) && Precedes(Ids(regions), x, y))
    && ReleasedBefore(regions, e, completed, x, y)
  }

  ghost predicate InTurn(regions: seq<Region>, e: Edges<string>, completed: seq<string>, all: seq<string>) {
    forall a, b :: 0 <= a < b < |all| ==> Turn(regions, e, completed, all[a], all[b])
  }

  /** Who is still owed a delivery has not been released by the region that owes it. */
  ghost predicate Unserved(e: Edges<string>, completed: seq<string>, all: seq<string>, owed: seq<string>) {
    completed != [] ==> forall x :: x in all && (completed[|completed| - 1], x) in e ==> x !in owed
  }

  lemma {:induction false} RootsInOrder(regions: seq<Region>, k: nat)
    requires k <= |regions|
    ensures forall x :: x in Roots(regions, k) ==> exists i :: 0 <= i < k && Ids(regions)[i] == x
    ensures forall a, b :: 0 <= a < b < |Roots(regions, k)| ==>
      Precedes(Ids(regions), Roots(regions, k)[a], Roots(regions, k)[b])
  {
    if k > 0 {
      RootsInOrder(regions, k - 1);
      var r, ids := Roots(regions, k - 1), Ids(regions);
      assert ids[k - 1] == regions[k - 1].id;
      forall x | x in r ensures exists i :: 0 <= i < k && ids[i] == x {
        var i :| 0 <= i < k - 1 && ids[i] == x;
      }
      forall a | 0 <= a < |r| ensures Precedes(ids, r[a], regions[k - 1].id) {
        assert r[a] in r;
        var i :| 0 <= i < k - 1 && ids[i] == r[a];
      }
    }
  }

  lemma StartInTurn(regions: seq<Region>)
    requires Consistent(regions)
    ensures InTurn(regions, EdgesOfRegions(regions), [], Roots(regions, |regions|))
  {
    hide Consistent; hide EdgesOfRegions; hide Roots; hide Precedes; hide Ids;
    var e, roots := EdgesOfRegions(regions), Roots(regions, |regions|);
    RootsInOrder(regions, |regions|);
    forall a | 0 <= a < |roots| ensures NoPreds(e, roots[a]) {
      assert roots[a] in roots;
      RootHasNoPreds(regions, roots[a]);
    }
  }

  lemma RootHasNoPreds(regions: seq<Region>, x: string)
    requires Consistent(regions) && x in Roots(regions, |regions|)
    ensures NoPreds(EdgesOfRegions(regions), x)
  {
    RootsSpec(regions, |regions|);
    var i :| 0 <= i < |regions| && regions[i].id == x && regions[i].preds == [];
    hide Consistent; hide EdgesOfRegions;
    LinksAreEdges(regions, i);
  }

  /** Completing a region whose turn it is changes nobody's last predecessor. */
  lemma CompleteInTurn(regions: seq<Region>, e: Edges<string>, completed: seq<string>, all: seq<string>, rid: string,
                       succs: seq<string>)
    requires InTurn(regions, e, completed, all)
    requires forall x :: x in all ==> (rid, x) !in e
    ensures InTurn(regions, e, completed + [rid], all) && Unserved(e, completed + [rid], all, succs)
  {
    hide NoPreds; hide Precedes; hide SuccsOf; hide Ids;
    var c := completed + [rid];
    forall a, b | 0 <= a < b < |all| ensures Turn(regions, e, c, all[a], all[b]) {
      assert Turn(regions, e, completed, all[a], all[b]);
      SameLastPred(e, completed, rid, all[a]);
      SameLastPred(e, completed, rid, all[b]);
    }
  }

  lemma SameLastPred(e: Edges<string>, completed: seq<string>, rid: string, x: string)
    requires (rid, x) !in e
    ensures forall i: nat :: LastPred(e, completed + [rid], x, i) ==>
      LastPred(e, completed, x, i) && (completed + [rid])[i] == completed[i]
  {
    var c := completed + [rid];
    forall i: nat | LastPred(e, c, x, i) ensures LastPred(e, completed, x, i) && c[i] == completed[i] {
      assert c[|completed|] == rid;
      forall j | i < j < |completed| ensures (completed[j], x) !in e { assert c[j] == completed[j]; }
    }
  }

  /** Whoever is released now comes after all the others. */
  lemma ReleaseInTurn(regions: seq<Region>, e: Edges<string>, completed: seq<string>, all: seq<string>,
                      owed: seq<string>)
    requires InTurn(regions, e, completed, all) && Unserved(e, completed, all, owed)
    requires completed != [] && owed != [] && (completed[|completed| - 1], owed[0]) in e
    requires var succs := SuccsOf(regions, completed[|completed| - 1]);
      && |owed| <= |succs| && owed == succs[|succs| - |owed|..]
      && forall x :: (completed[|completed| - 1], x) in e ==> x in succs
    ensures InTurn(regions, e, completed, all + [owed[0]])
  {
    hide SuccsOf; hide Ids;
    var n, s := |completed| - 1, owed[0];
    forall a | 0 <= a < |all| ensures Turn(regions, e, completed, all[a], s) {
      assert !NoPreds(e, s);
      forall i: nat, j: nat | LastPred(e, completed, all[a], i) && LastPred(e, completed, s, j)
        ensures i < j || (i == j && Precedes(SuccsOf(regions, completed[i]), all[a], s))
      {
        assert j == n;
        if i == n { ListedBefore(SuccsOf(regions, completed[n]), owed, all[a]); }
      }
    }
    hide Turn;
  }

  lemma ListedBefore(succs: seq<string>, owed: seq<string>, x: string)
    requires owed != [] && |owed| <= |succs| && owed == succs[|succs| - |owed|..] && x in succs && x !in owed
    ensures Precedes(succs, x, owed[0])
  {
    var k :| 0 <= k < |succs| && succs[k] == x;
    var l := |succs| - |owed|;
    assert succs[l] == owed[0];
    assert forall m :: l <= m < |succs| ==> succs[m] == owed[m - l];
  }

  lemma ServedOnce(e: Edges<string>, completed: seq<string>, all: seq<string>, owed: seq<string>)
    requires Unserved(e, completed, all, owed) && owed != [] && NoDup(owed)
    ensures Unserved(e, completed, all, owed[1..]) && Unserved(e, completed, all + [owed[0]], owed[1..])
  {
  }

  // -------------------------------------------------------------- completing a region

  lemma CompleteSplit(regions: seq<Region>, completed: seq<string>, work: seq<string>, next: seq<string>,
                      pending: set<string>)
    requires SplitUp(regions, completed, work, next, pending) && work != []
    ensures SplitUp(regions, completed + [work[0]], work[1..], next, pending)
  {
    hide HasId;
    assert completed + [work[0]] + work[1..] + next == completed + work + next;
    assert forall x :: x in work <==> x == work[0] || x in work[1..];
  }

  lemma CompleteOrder(e: Edges<string>, completed: seq<string>, work: seq<string>, next: seq<string>)
    requires Cleared(e, completed, work) && Cleared(e, completed, next) && InOrder(e, completed) && work != []
    ensures Cleared(e, completed + [work[0]], work[1..]) && Cleared(e, completed + [work[0]], next)
    ensures InOrder(e, completed + [work[0]])
  {
    var completed' := completed + [work[0]];
    forall i, p | 0 <= i < |completed'| && (p, completed'[i]) in e ensures p in completed'[..i] {
      if i < |completed| {
        assert completed'[..i] == completed[..i];
      } else {
        assert completed'[..i] == completed;
      }
    }
  }

  lemma CompleteBlocked(e: Edges<string>, completed: seq<string>, pending: set<string>, rid: string, succs: seq<string>)
    requires Blocked(e, completed, pending, [])
    requires forall x :: x in succs <==> (rid, x) in e
    ensures Blocked(e, completed + [rid], pending, succs)
  {
    forall x {:trigger Waits(e, completed + [rid], x)} | x in pending && x !in succs
      ensures Waits(e, completed + [rid], x)
    {
      assert Waits(e, completed, x);
      var p :| (p, x) in e && p !in completed;
      assert p !in completed + [rid];
    }
  }

  /** Before it delivers, the newly completed region changes nothing about who got what. */
  lemma CompleteFacts(e: Edges<string>, facts: map<string, seq<Fact>>, completed: seq<string>,
                      inFacts: map<string, seq<Fact>>, capped: seq<string>, rid: string, succs: seq<string>)
    requires FactsSound(e, facts, completed, [], inFacts) && FactsComplete(e, facts, completed, [], inFacts, capped)
    requires rid !in completed
    requires rid in facts ==> forall x :: (rid, x) in e ==> x in succs
    ensures FactsSound(e, facts, completed + [rid], succs, inFacts)
    ensures FactsComplete(e, facts, completed + [rid], succs, inFacts, capped)
  {
  }

  lemma CompleteExact(e: Edges<string>, facts: map<string, seq<Fact>>, completed: seq<string>,
                      inFacts: map<string, seq<Fact>>, capped: seq<string>, cap: nat, rid: string, succs: seq<string>)
    requires Exact(e, facts, completed, [], inFacts, capped, cap) && rid !in completed
    requires rid in facts ==> forall x :: (rid, x) in e <==> x in succs
    requires rid !in facts ==> succs == []
    ensures Exact(e, facts, completed + [rid], succs, inFacts, capped, cap)
  {
    var c := completed + [rid];
    assert c[..|completed|] == completed;
    forall s: string ensures ExactAt(e, facts, c, succs, inFacts, capped, cap, s) {
      assert ExactAt(e, facts, completed, [], inFacts, capped, cap, s);
      CompleteArrived(e, facts, completed, rid, succs, s);
      forall p ensures Delivered(e, facts, c, succs, p, s) <==> Delivered(e, facts, completed, [], p, s) {
      }
    }
  }

  lemma CompleteArrived(e: Edges<string>, facts: map<string, seq<Fact>>, completed: seq<string>, rid: string,
                        succs: seq<string>, s: string)
    requires rid in facts && (rid, s) in e ==> s in succs
    ensures Distinct(e, facts, completed + [rid], succs, s) == Distinct(e, facts, completed, [], s)
  {
    hide Union;
    assert (completed + [rid])[..|completed|] == completed;
    assert Arrived(e, facts, completed, s) + [] == Arrived(e, facts, completed, s);
  }

  // ------------------------------------------------------- delivering to one successor

  /** What one more predecessor adds. */
  lemma ServedArrived(e: Edges<string>, facts: map<string, seq<Fact>>, completed: seq<string>, owed: seq<string>)
    requires completed != [] && owed != [] && NoDup(owed)
    requires var rid := completed[|completed| - 1]; rid in facts && (rid, owed[0]) in e
    ensures Distinct(e, facts, completed, owed[1..], owed[0]) ==
            Union(Distinct(e, facts, completed, owed, owed[0]), facts[completed[|completed| - 1]])
  {
    hide Union;
    var s, n := owed[0], |completed| - 1;
    assert s !in owed[1..];
    UnionConcat([], Arrived(e, facts, completed[..n], s), facts[completed[n]]);
  }

  /** Cutting before or after the union gives the same cut. */
  lemma CutUnion(all: seq<Fact>, fs: seq<Fact>, cap: nat)
    ensures var got := UpToCap(all, cap);
      && UpToCap(Union(got, fs), cap) == UpToCap(Union(all, fs), cap)
      && (|Union(all, fs)| > cap <==> |all| > cap || |Union(got, fs)| > cap)
  {
    var got := UpToCap(all, cap);
    UnionPrefix(all, fs);
    UnionPrefix(got, fs);
    if |all| > cap {
      assert Union(got, fs)[..cap] == got == Union(all, fs)[..cap];
    }
  }

  lemma DeliverExact(e: Edges<string>, facts: map<string, seq<Fact>>, completed: seq<string>, owed: seq<string>,
                     inFacts: map<string, seq<Fact>>, capped: seq<string>, capped': seq<string>, cap: nat,
                     joined: seq<Fact>, full: bool)
    requires Exact(e, facts, completed, owed, inFacts, capped, cap)
    requires completed != [] && owed != [] && NoDup(owed)
    requires var rid := completed[|completed| - 1]; rid in facts && (rid, owed[0]) in e
    requires capped' == if full then capped + [owed[0]] else capped
    requires var u := Union(Got(inFacts, owed[0]), facts[completed[|completed| - 1]]);
      joined == UpToCap(u, cap) && (full <==> |u| > cap)
    ensures Exact(e, facts, completed, owed[1..], inFacts[owed[0] := joined], capped', cap)
  {
    hide Union; hide UpToCap; hide Exact;
    var s0, rid, rest, inFacts' := owed[0], completed[|completed| - 1], owed[1..], inFacts[owed[0] := joined];
    forall s: string ensures ExactAt(e, facts, completed, rest, inFacts', capped', cap, s) {
      ExactThere(e, facts, completed, owed, inFacts, capped, cap, s);
      if s == s0 {
        ServedArrived(e, facts, completed, owed);
        CutUnion(Distinct(e, facts, completed, owed, s), facts[rid], cap);
        hide Distinct;
        assert Delivered(e, facts, completed, rest, rid, s);
      } else {
        assert s in owed <==> s in rest;
        assert forall p :: Delivered(e, facts, completed, rest, p, s) <==> Delivered(e, facts, completed, owed, p, s);
        hide Delivered;
      }
    }
    ExactEverywhere(e, facts, completed, rest, inFacts', capped', cap);
  }

  lemma ExactThere(e: Edges<string>, facts: map<string, seq<Fact>>, completed: seq<string>, owed: seq<string>,
                   inFacts: map<string, seq<Fact>>, capped: seq<string>, cap: nat, s: string)
    requires Exact(e, facts, completed, owed, inFacts, capped, cap)
    ensures ExactAt(e, facts, completed, owed, inFacts, capped, cap, s)
  {
    hide ExactAt;
  }

  lemma ExactEverywhere(e: Edges<string>, facts: map<string, seq<Fact>>, completed: seq<string>, owed: seq<string>,
                        inFacts: map<string, seq<Fact>>, capped: seq<string>, cap: nat)
    requires forall s: string :: ExactAt(e, facts, completed, owed, inFacts, capped, cap, s)
    ensures Exact(e, facts, completed, owed, inFacts, capped, cap)
  {
    hide ExactAt;
  }

  lemma NothingArrived(e: Edges<string>, facts: map<string, seq<Fact>>, cap: nat)
    ensures Exact(e, facts, [], [], map[], [], cap)
  {
  }

  /** A successor of the region completed last is not completed. */
  lemma SuccessorOpen(e: Edges<string>, completed: seq<string>, s: string)
    requires InOrder(e, completed) && NoDup(completed) && completed != []
    requires (completed[|completed| - 1], s) in e && s != completed[|completed| - 1]
    ensures s !in completed
  {
  }

  lemma DeliverSound(e: Edges<string>, facts: map<string, seq<Fact>>, completed: seq<string>, owed: seq<string>,
                     inFacts: map<string, seq<Fact>>, joined: seq<Fact>)
    requires FactsSound(e, facts, completed, owed, inFacts)
    requires completed != [] && owed != [] && NoDup(owed)
    requires completed[|completed| - 1] in facts && (completed[|completed| - 1], owed[0]) in e
    requires forall f :: f in joined ==> f in Got(inFacts, owed[0]) || f in facts[completed[|completed| - 1]]
    ensures FactsSound(e, facts, completed, owed[1..], inFacts[owed[0] := joined])
  {
    var rid, s0, inFacts' := completed[|completed| - 1], owed[0], inFacts[owed[0] := joined];
    assert Delivered(e, facts, completed, owed[1..], rid, s0);
    forall s, f | f in Got(inFacts', s)
      ensures exists p :: Delivered(e, facts, completed, owed[1..], p, s) && f in facts[p]
    {
      if s == s0 && f in facts[rid] {
      } else {
        assert f in Got(inFacts, s);
        var p :| Delivered(e, facts, completed, owed, p, s) && f in facts[p];
        assert Delivered(e, facts, completed, owed[1..], p, s);
      }
    }
  }

  lemma DeliverComplete(e: Edges<string>, facts: map<string, seq<Fact>>, completed: seq<string>, owed: seq<string>,
                        inFacts: map<string, seq<Fact>>, capped: seq<string>, capped': seq<string>, joined: seq<Fact>)
    requires FactsComplete(e, facts, completed, owed, inFacts, capped)
    requires completed != [] && owed != []
    requires capped' == capped || capped' == capped + [owed[0]]
    requires Got(inFacts, owed[0]) <= joined
    requires completed[|completed| - 1] in facts
    requires owed[0] !in capped' ==> forall f :: f in facts[completed[|completed| - 1]] ==> f in joined
    ensures FactsComplete(e, facts, completed, owed[1..], inFacts[owed[0] := joined], capped')
  {
  }

  lemma ReleaseBlocked(e: Edges<string>, completed: seq<string>, pending: set<string>, pending': set<string>,
                       owed: seq<string>)
    requires Blocked(e, completed, pending, owed) && owed != []
    requires pending' == pending || pending' == pending - {owed[0]}
    requires owed[0] in pending' ==> Waits(e, completed, owed[0])
    ensures Blocked(e, completed, pending', owed[1..])
  {
  }

  lemma ReleaseSplit(regions: seq<Region>, completed: seq<string>, work: seq<string>, next: seq<string>,
                     pending: set<string>, s: string)
    requires SplitUp(regions, completed, work, next, pending) && s in pending
    ensures SplitUp(regions, completed, work, next + [s], pending - {s})
  {
    hide HasId;
    assert completed + work + (next + [s]) == completed + work + next + [s];
  }

  // -------------------------------------------------------------------- the program

  /** The locals of `run_dataflow`; `seen` records what each region had when it completed. */
  class Worklist {
    const regions: seq<Region>
    const facts: map<string, seq<Fact>>
    const cap: nat
    var completed: seq<string>
    var work: seq<string>
    var next: seq<string>
    var pending: set<string>
    var inFacts: map<string, seq<Fact>>
    var capped: seq<string>
    ghost var seen: map<string, seq<Fact>>

    /** Holds at every point; `owed` are the successors the last completed region has yet to serve. */
    ghost predicate Valid(owed: seq<string>)
      reads this
    {
      var e := EdgesOfRegions(regions);
      && Consistent(regions)
      && SplitUp(regions, completed, work, next, pending)
      && Cleared(e, completed, work) && Cleared(e, completed, next) && InOrder(e, completed)
      && FactsSound(e, facts, completed, owed, inFacts) && FactsComplete(e, facts, completed, owed, inFacts, capped)
      && Exact(e, facts, completed, owed, inFacts, capped, cap)
      && Bounded(inFacts, cap)
      && Frozen(completed, inFacts, seen)
      && (AllFacts(regions, facts) ==> Blocked(e, completed, pending, owed))
      && Lawful(e, facts, completed, work, next, pending, owed)
      && InTurn(regions, e, completed, completed + work + next)
      && Unserved(e, completed, completed + work + next, owed)
    }

    constructor (regions: seq<Region>, facts: map<string, seq<Fact>>, cap: nat)
      requires Consistent(regions)
      ensures Valid([]) && completed == [] && next == [] && this.regions == regions && this.facts == facts
        && this.cap == cap
    {
      this.regions, this.facts, this.cap := regions, facts, cap;
      completed, next, inFacts, capped, seen := [], [], map[], [], map[];
      work := Roots(regions, |regions|);
      pending := Waiting(regions);
      new;
      StartSplit(regions);
      StartLawful(regions, facts);
      NothingArrived(EdgesOfRegions(regions), facts, cap);
      StartInTurn(regions);
      assert completed + work + next == work;
    }

    /** Serve one successor of the region completed last, and release it if it waits for nobody (lines 150-178). */
    method Deliver(s: string, ghost owed: seq<string>)
      requires Valid(owed) && completed != [] && completed[|completed| - 1] in facts
      requires owed != [] && owed[0] == s && NoDup(owed)
      requires (completed[|completed| - 1], s) in EdgesOfRegions(regions)
      requires var succs := SuccsOf(regions, completed[|completed| - 1]);
        |owed| <= |succs| && owed == succs[|succs| - |owed|..]
      modifies this
      ensures Valid(owed[1..]) && completed == old(completed) && work == old(work)
    {
      hide SplitUp;
      hide InOrder;
      hide FactsSound;
      hide FactsComplete;
      hide Blocked;
      hide Consistent;
      hide HasId;
      hide EdgesOfRegions;
      hide Bounded;
      hide Frozen;
      hide Cleared;
      hide Lawful;
      hide Exact;
      hide Union;
      hide UpToCap;
      hide InTurn;
      hide Unserved;
      hide SuccsOf;
      ghost var all := completed + work + next;
      ghost var e, rid, next0 := EdgesOfRegions(regions), completed[|completed| - 1], next;
      ServedFacts(regions, completed, work, next, pending, s);
      GotBounded(inFacts, cap, s);
      SuccsAreEdges(regions, completed, work, next, pending);
      ReleaseInTurn(regions, e, completed, all, owed);
      ServedOnce(e, completed, all, owed);
      var joined, full := AddFacts(Got(inFacts, s), facts[completed[|completed| - 1]], cap);
      ghost var capped0 := capped;
      if full {
        capped := capped + [s];
      }
      DeliverSound(e, facts, completed, owed, inFacts, joined);
      DeliverComplete(e, facts, completed, owed, inFacts, capped0, capped, joined);
      DeliverExact(e, facts, completed, owed, inFacts, capped0, capped, cap, joined, full);
      DeliverLocal(completed, inFacts, seen, cap, s, joined);
      inFacts := inFacts[s := joined];
      ghost var pending0 := pending;
      var preds := regions[Find(regions, s)].preds;
      LinksAreEdges(regions, Find(regions, s));
      if (forall p :: p in preds ==> p in completed) && s in pending {
        ReleaseSplit(regions, completed, work, next, pending, s);
        ReleaseCleared(e, completed, next, s);
        pending := pending - {s};
        assert completed + work + (next + [s]) == all + [s];
        next := next + [s];
      }
      if AllFacts(regions, facts) {
        ReleaseBlocked(e, completed, pending0, pending, owed);
      }
      DeliverLawful(e, facts, completed, work, next0, next, pending0, pending, owed);
    }

    /** Complete the first ready region and serve its successors (lines 137-180). */
    method Process()
      requires Valid([]) && work != []
      modifies this
      ensures Valid([]) && completed == old(completed) + [old(work)[0]] && work == old(work)[1..]
    {
      hide SplitUp;
      hide Cleared;
      hide InOrder;
      hide FactsSound;
      hide FactsComplete;
      hide Blocked;
      hide Bounded;
      hide Frozen;
      hide Consistent;
      hide HasId;
      hide EdgesOfRegions;
      hide Lawful;
      hide Exact;
      hide InTurn;
      hide Unserved;
      hide SuccsOf;
      var rid := work[0];
      ghost var e, all := EdgesOfRegions(regions), AllFacts(regions, facts);
      NextFacts(regions, completed, work, next, pending);
      var succs := if rid in facts then regions[Find(regions, rid)].succs else [];
      LinksAreEdges(regions, Find(regions, rid));
      LinksNoDup(regions, Find(regions, rid));
      CompleteSplit(regions, completed, work, next, pending);
      CompleteOrder(e, completed, work, next);
      CompleteFacts(e, facts, completed, inFacts, capped, rid, succs);
      CompleteExact(e, facts, completed, inFacts, capped, cap, rid, succs);
      NotYetServed(regions, e, completed, work, next, pending);
      CompleteInTurn(regions, e, completed, completed + work + next, rid, succs);
      SuccsFound(regions, rid);
      assert completed + [rid] + work[1..] + next == completed + work + next;
      CompleteFrozen(completed, inFacts, seen, rid);
      CompleteLawful(e, facts, completed, work, next, pending, succs);
      if all {
        CompleteBlocked(e, completed, pending, rid, succs);
      }
      completed, work, seen := completed + [rid], work[1..], seen[rid := Got(inFacts, rid)];
      assert succs[0..] == succs;
      for k := 0 to |succs|
        invariant Valid(succs[k..])
        invariant rid in facts ==> succs == SuccsOf(regions, rid)
        invariant completed == old(completed) + [rid] && work == old(work)[1..]
      {
        assert succs[k..][1..] == succs[k + 1..];
        Deliver(succs[k], succs[k..]);
      }
      assert succs[|succs|..] == [];
    }

    /** `ready = next_ready`. */
    method NextRound()
      requires Valid([]) && work == []
      modifies this
      ensures Valid([]) && completed == old(completed) && work == old(next) && next == []
    {
      hide Cleared;
      hide FactsSound;
      hide FactsComplete;
      hide Exact;
      hide InTurn;
      hide Unserved;
      hide Blocked;
      hide Consistent;
      hide HasId;
      assert completed + work + next == completed + next + [];
      assert completed + [] + next == completed + next + [];
      NothingCleared(EdgesOfRegions(regions), completed);
      work, next := next, [];
    }
  }

  /** What the region completed last leads to is what it lists. */
  lemma SuccsAreEdges(regions: seq<Region>, completed: seq<string>, work: seq<string>, next: seq<string>,
                      pending: set<string>)
    requires Consistent(regions) && SplitUp(regions, completed, work, next, pending) && completed != []
    ensures var e, rid := EdgesOfRegions(regions), completed[|completed| - 1];
      forall x :: (rid, x) in e ==> x in SuccsOf(regions, rid)
  {
    hide Consistent; hide EdgesOfRegions; hide HasId;
    LinksAreEdges(regions, Find(regions, completed[|completed| - 1]));
  }

  lemma SuccsFound(regions: seq<Region>, id: string)
    requires HasId(regions, id)
    ensures SuccsOf(regions, id) == regions[Find(regions, id)].succs
  {
  }

  /** Nobody who is completed or ready waits for the region that is next. */
  lemma NotYetServed(regions: seq<Region>, e: Edges<string>, completed: seq<string>, work: seq<string>,
                     next: seq<string>, pending: set<string>)
    requires SplitUp(regions, completed, work, next, pending) && work != [] && InOrder(e, completed)
    requires Cleared(e, completed, work) && Cleared(e, completed, next)
    ensures forall x :: x in completed + work + next ==> (work[0], x) !in e
  {
    NextFacts(regions, completed, work, next, pending);
  }

  lemma NothingCleared(e: Edges<string>, completed: seq<string>)
    ensures Cleared(e, completed, [])
  {
  }

  /** The first ready region exists and is not completed. */
  lemma NextFacts(regions: seq<Region>, completed: seq<string>, work: seq<string>, next: seq<string>,
                  pending: set<string>)
    requires SplitUp(regions, completed, work, next, pending) && work != []
    ensures HasId(regions, work[0]) && work[0] !in completed
  {
    hide HasId;
    var all := completed + work + next;
    assert all[|completed|] == work[0];
    forall i | 0 <= i < |completed| ensures completed[i] != work[0] {
      assert all[i] == completed[i];
    }
  }

  lemma LinksNoDup(regions: seq<Region>, i: nat)
    requires Consistent(regions) && i < |regions|
    ensures NoDup(regions[i].succs)
  {
  }

  lemma CompleteFrozen(completed: seq<string>, inFacts: map<string, seq<Fact>>, seen: map<string, seq<Fact>>,
                       rid: string)
    requires Frozen(completed, inFacts, seen)
    ensures Frozen(completed + [rid], inFacts, seen[rid := Got(inFacts, rid)])
  {
  }

  lemma GotBounded(inFacts: map<string, seq<Fact>>, cap: nat, s: string)
    requires Bounded(inFacts, cap)
    ensures NoDup(Got(inFacts, s)) && |Got(inFacts, s)| <= cap
  {
  }

  /** Serving an open region keeps the caps and leaves completed regions alone. */
  lemma DeliverLocal(completed: seq<string>, inFacts: map<string, seq<Fact>>, seen: map<string, seq<Fact>>, cap: nat,
                     s: string, joined: seq<Fact>)
    requires Bounded(inFacts, cap) && Frozen(completed, inFacts, seen)
    requires s !in completed && NoDup(joined) && |joined| <= cap
    ensures Bounded(inFacts[s := joined], cap) && Frozen(completed, inFacts[s := joined], seen)
  {
  }

  lemma ReleaseCleared(e: Edges<string>, completed: seq<string>, next: seq<string>, s: string)
    requires Cleared(e, completed, next) && forall p :: (p, s) in e ==> p in completed
    ensures Cleared(e, completed, next + [s])
  {
  }

  /** The successor served exists and is still open. */
  lemma ServedFacts(regions: seq<Region>, completed: seq<string>, work: seq<string>, next: seq<string>,
                    pending: set<string>, s: string)
    requires Consistent(regions) && SplitUp(regions, completed, work, next, pending)
    requires InOrder(EdgesOfRegions(regions), completed) && completed != []
    requires (completed[|completed| - 1], s) in EdgesOfRegions(regions)
    ensures HasId(regions, s) && s !in completed
  {
    EdgeEnds(regions, completed[|completed| - 1], s);
    LinksAreEdges(regions, Find(regions, s));
    assert NoDup(completed) by {
      assert (completed + work + next)[..|completed|] == completed;
    }
    SuccessorOpen(EdgesOfRegions(regions), completed, s);
  }

  ghost predicate AllFacts(regions: seq<Region>, facts: map<string, seq<Fact>>) {
    forall x :: HasId(regions, x) ==> x in facts
  }

  /** The regions with predecessors. */
  function Waiting(regions: seq<Region>): set<string> {
    set i | 0 <= i < |regions| && regions[i].preds != [] :: regions[i].id
  }

  /** The regions without predecessors, in partition order. */
  function Roots(regions: seq<Region>, k: nat): seq<string>
    requires k <= |regions|
  {
    if k == 0 then [] else Roots(regions, k - 1) + if regions[k - 1].preds == [] then [regions[k - 1].id] else []
  }

  lemma {:induction false} RootsSpec(regions: seq<Region>, k: nat)
    requires Consistent(regions) && k <= |regions|
    ensures NoDup(Roots(regions, k))
    ensures forall x :: x in Roots(regions, k) <==>
      exists i :: 0 <= i < k && regions[i].id == x && regions[i].preds == []
  {
    if k > 0 {
      RootsSpec(regions, k - 1);
      assert regions[k - 1].id !in Roots(regions, k - 1);
    }
  }

  /** At the start the regions with predecessors wait and the others do not. */
  lemma StartWaits(regions: seq<Region>, i: nat)
    requires Consistent(regions) && i < |regions|
    ensures regions[i].preds == [] ==> NoPreds(EdgesOfRegions(regions), regions[i].id)
    ensures regions[i].preds != [] ==> Waits(EdgesOfRegions(regions), [], regions[i].id)
  {
    hide Consistent; hide EdgesOfRegions;
    LinksAreEdges(regions, i);
    if regions[i].preds != [] { assert regions[i].preds[0] in regions[i].preds; }
  }

  lemma StartSplit(regions: seq<Region>)
    requires Consistent(regions)
    ensures var pending := Waiting(regions);
            && SplitUp(regions, [], Roots(regions, |regions|), [], pending)
            && Cleared(EdgesOfRegions(regions), [], Roots(regions, |regions|))
            && Blocked(EdgesOfRegions(regions), [], pending, [])
  {
    hide EdgesOfRegions; hide Roots; hide Waits;
    var work := Roots(regions, |regions|);
    RootsSpec(regions, |regions|);
    assert [] + work + [] == work;
    forall i | 0 <= i < |regions|
      ensures regions[i].preds == [] ==> NoPreds(EdgesOfRegions(regions), regions[i].id)
      ensures regions[i].preds != [] ==> Waits(EdgesOfRegions(regions), [], regions[i].id)
    {
      StartWaits(regions, i);
    }
    StartLists(regions);
    hide Consistent;
  }

  /** Each region is in the list or the set that its predecessor list says. */
  lemma StartPlace(regions: seq<Region>, i: nat)
    requires Consistent(regions) && i < |regions|
    ensures regions[i].id in Roots(regions, |regions|) <==> regions[i].preds == []
    ensures regions[i].id in Waiting(regions) <==> regions[i].preds != []
  {
    hide Roots;
    RootsSpec(regions, |regions|);
    assert forall j :: 0 <= j < |regions| && regions[j].id == regions[i].id ==> j == i;
    hide Consistent;
  }

  lemma StartHasId(regions: seq<Region>, x: string)
    requires Consistent(regions) && (x in Roots(regions, |regions|) || x in Waiting(regions))
    ensures HasId(regions, x)
  {
    hide Roots;
    RootsSpec(regions, |regions|);
    hide Consistent;
  }

  lemma StartLists(regions: seq<Region>)
    requires Consistent(regions)
    ensures SplitUp(regions, [], Roots(regions, |regions|), [], Waiting(regions))
  {
    hide Roots; hide Waiting; hide Consistent; hide HasId;
    var work, pending := Roots(regions, |regions|), Waiting(regions);
    RootsSpec(regions, |regions|);
    forall x
      ensures HasId(regions, x) <==> x in work || x in pending
      ensures !(x in work && x in pending)
    {
      if x in work || x in pending { StartHasId(regions, x); }
      if HasId(regions, x) { StartPlace(regions, Find(regions, x)); }
    }
    assert [] + work + [] == work;
  }

  // ------------------------------------------------------------------ rounds as levels

  /** After `k` rounds exactly the regions that end no walk of `k` edges are completed. */
  ghost predicate Level(regions: seq<Region>, completed: seq<string>, k: nat) {
    forall x :: HasId(regions, x) ==> (x in completed <==> !EndsWalk(EdgesOfRegions(regions), x, k))
  }

  lemma LevelZero(regions: seq<Region>)
    ensures Level(regions, [], 0)
  {
    forall x ensures EndsWalk(EdgesOfRegions(regions), x, 0) {
      EndsWalkZero(EdgesOfRegions(regions), x);
    }
  }

  lemma LevelStep(regions: seq<Region>, completed: seq<string>, work: seq<string>, pending: set<string>, k: nat)
    requires Consistent(regions) && SplitUp(regions, completed, work, [], pending)
    requires var e := EdgesOfRegions(regions);
             Cleared(e, completed, work) && InOrder(e, completed) && Blocked(e, completed, pending, [])
    requires Level(regions, completed, k)
    ensures Level(regions, completed + work, k + 1)
  {
    hide Consistent;
    hide HasId;
    hide EndsWalk;
    hide EdgesOfRegions;
    var e := EdgesOfRegions(regions);
    forall x | HasId(regions, x) ensures x in completed + work <==> !EndsWalk(e, x, k + 1) {
      if x in completed + work {
        if EndsWalk(e, x, k + 1) {
          var p := EndsWalkLast(e, x, k);
          EdgeEnds(regions, p, x);
        }
      } else {
        assert Waits(e, completed, x);
        var p :| (p, x) in e && p !in completed;
        EdgeEnds(regions, p, x);
        EndsWalkExtend(e, p, x, k);
      }
    }
  }

  /** Once nothing is ready, further rounds would change nothing. */
  lemma {:induction false} LevelSettled(regions: seq<Region>, completed: seq<string>, pending: set<string>, k: nat,
                                        j: nat)
    requires Consistent(regions) && SplitUp(regions, completed, [], [], pending)
    requires InOrder(EdgesOfRegions(regions), completed) && Blocked(EdgesOfRegions(regions), completed, pending, [])
    requires Level(regions, completed, k) && k <= j
    ensures Level(regions, completed, j)
    decreases j - k
  {
    hide Consistent;
    hide SplitUp;
    hide InOrder;
    hide Blocked;
    hide Level;
    if k < j {
      NothingCleared(EdgesOfRegions(regions), completed);
      LevelStep(regions, completed, [], pending, k);
      assert completed + [] == completed;
      LevelSettled(regions, completed, pending, k + 1, j);
    }
  }

  /** What holds of every run, however it was stopped. */
  ghost predicate SafeOutcome(regions: seq<Region>, facts: map<string, seq<Fact>>, limits: Limits, r: DataflowResult,
                              seen: map<string, seq<Fact>>)
  {
    var e := EdgesOfRegions(regions);
    // each region completes at most once, and after all its predecessors
    && NoDup(r.completed) && InOrder(e, r.completed)
    // completed and frontier partition the regions
    && NoDup(r.frontier)
    && (forall x :: HasId(regions, x) <==> x in r.completed || x in r.frontier)
    && (forall x :: x in r.completed ==> x !in r.frontier)
    && (forall a, b :: 0 <= a < b < |r.frontier| ==> Precedes(Ids(regions), r.frontier[a], r.frontier[b]))
    // facts: no repeats, within the cap, only from completed predecessors, all of them unless capped
    && Bounded(r.inFacts, limits.maxFactsPerRegion)
    && FactsSound(e, facts, r.completed, [], r.inFacts)
    && FactsComplete(e, facts, r.completed, [], r.inFacts, r.capped)
    // exactly: the first distinct ones up to the cap, in order of completion, and reported as capped if there were more
    && Exact(e, facts, r.completed, [], r.inFacts, r.capped, limits.maxFactsPerRegion)
    // the order of completion
    && InTurn(regions, e, r.completed, r.completed)
    // facts of a region are settled when it completes
    && Frozen(r.completed, r.inFacts, seen)
    // the stop reason
    && r.iterations <= limits.maxIterations && r.iterations <= |r.completed|
    && (r.converged <==> r.stop == Converged) && (r.converged <==> r.frontier == [])
    && (r.stop == WorkBudget ==> r.iterations == limits.maxIterations)
  }

  /**
   Which regions complete, whatever facts there are: only roots and released regions, and once nothing is ready any
   more exactly those.  A region is released if all its predecessors are completed and the one completed last has facts.
   */
  ghost predicate ReleaseLaw(regions: seq<Region>, facts: map<string, seq<Fact>>, r: DataflowResult) {
    var e := EdgesOfRegions(regions);
    && Justified(e, facts, r.completed, r.completed)
    && (r.stop == Converged || r.stop == Settled ==>
          forall x :: HasId(regions, x) ==> (x in r.completed <==> NoPreds(e, x) || Released(e, facts, r.completed, x)))
  }

  /** The facts its completed predecessors have for region `s`. */
  ghost function Offered(e: Edges<string>, facts: map<string, seq<Fact>>, completed: seq<string>,
                         s: string): set<Fact> {
    set p, f | p in facts && p in completed && (p, s) in e && f in facts[p] :: f
  }

  lemma {:induction false} UnionMembers(d: seq<Fact>, fs: seq<Fact>)
    requires NoDup(d)
    ensures NoDup(Union(d, fs)) && forall f :: f in Union(d, fs) <==> f in d || f in fs
  {
    if fs != [] {
      UnionMembers(d, fs[..|fs| - 1]);
      assert fs == fs[..|fs| - 1] + [fs[|fs| - 1]];
    }
  }

  lemma {:induction false} ArrivedMembers(e: Edges<string>, facts: map<string, seq<Fact>>, completed: seq<string>,
                                          s: string, f: Fact)
    ensures f in Arrived(e, facts, completed, s) <==>
      exists p :: p in completed && p in facts && (p, s) in e && f in facts[p]
  {
    if completed != [] {
      var n := |completed| - 1;
      ArrivedMembers(e, facts, completed[..n], s, f);
      assert completed == completed[..n] + [completed[n]];
    }
  }

  lemma {:induction false} DistinctCount(s: seq<Fact>, all: set<Fact>)
    requires NoDup(s) && forall f :: f in s <==> f in all
    ensures |s| == |all|
  {
    if s == [] {
      assert all == {};
    } else {
      var rest, last := s[..|s| - 1], s[|s| - 1];
      assert s == rest + [last] && last !in rest;
      DistinctCount(rest, all - {last});
    }
  }

  /**
   In every run a region is reported as capped if and only if its completed predecessors have more facts for it than the
   cap, and it has as many of them as the cap allows.
   */
  lemma CappedIff(regions: seq<Region>, facts: map<string, seq<Fact>>, limits: Limits, r: DataflowResult,
                  seen: map<string, seq<Fact>>, s: string)
    requires SafeOutcome(regions, facts, limits, r, seen)
    ensures var offered := Offered(EdgesOfRegions(regions), facts, r.completed, s);
      && (s in r.capped <==> |offered| > limits.maxFactsPerRegion)
      && |Got(r.inFacts, s)| == Min(|offered|, limits.maxFactsPerRegion)
      && (forall f :: f in Got(r.inFacts, s) ==> f in offered)
  {
    var e := EdgesOfRegions(regions);
    ExactThere(e, facts, r.completed, [], r.inFacts, r.capped, limits.maxFactsPerRegion, s);
    hide SafeOutcome; hide EdgesOfRegions; hide Arrived; hide Union;
    var arrived := Arrived(e, facts, r.completed, s);
    UnionMembers([], arrived);
    forall f ensures f in arrived <==> f in Offered(e, facts, r.completed, s) {
      ArrivedMembers(e, facts, r.completed, s, f);
    }
    DistinctCount(Union([], arrived), Offered(e, facts, r.completed, s));
  }

  /**
   When a run stops: rounds are counted until nothing is ready, the budget is used up or the clock has run out, in
   this order of precedence.
   */
  ghost predicate StopLaw(limits: Limits, expired: nat -> bool, r: DataflowResult) {
    && (forall k :: 0 <= k < r.iterations ==> !expired(k)) && r.iterations <= limits.maxIterations
    && (r.stop == WorkBudget ==> r.iterations == limits.maxIterations)
    && (r.stop == Deadline ==> r.iterations < limits.maxIterations && expired(r.iterations))
  }

  /**
   Each round counted completed a region, namely one that ends a walk of just as many edges as there were rounds before.
   */
  ghost predicate RoundsUsed(regions: seq<Region>, completed: seq<string>, k: nat) {
    && Level(regions, completed, k)
    && (k > 0 ==> exists x :: x in completed && HasId(regions, x) && EndsWalk(EdgesOfRegions(regions), x, k - 1))
  }

  /** `run_dataflow`; `expired(k)` is the answer of the clock when `k` rounds are over. */
  method RunDataflow(regions: seq<Region>, facts: map<string, seq<Fact>>, limits: Limits, expired: nat -> bool)
      returns (r: DataflowResult, ghost seen: map<string, seq<Fact>>)
    requires Consistent(regions)
    ensures SafeOutcome(regions, facts, limits, r, seen)
    ensures ReleaseLaw(regions, facts, r)
    ensures StopLaw(limits, expired, r)
    ensures AllFacts(regions, facts) ==> RoundsUsed(regions, r.completed, r.iterations)
    ensures AllFacts(regions, facts) && (forall k :: !expired(k)) ==> Level(regions, r.completed, limits.maxIterations)
  {
    hide SplitUp;
    hide Consistent;
    hide Cleared;
    hide InOrder;
    hide FactsSound;
    hide FactsComplete;
    hide Blocked;
    hide Bounded;
    hide Frozen;
    hide HasId;
    hide EdgesOfRegions;
    hide Level;
    hide Lawful;
    hide Exact;
    hide InTurn;
    hide Unserved;
    hide SuccsOf;
    var w := new Worklist(regions, facts, limits.maxFactsPerRegion);
    LevelZero(regions);
    var iterations := 0;
    var stop: Option<Stop> := None;
    while w.work != []
      invariant w.Valid([]) && w.next == [] && w.regions == regions && w.facts == facts
        && w.cap == limits.maxFactsPerRegion
      invariant iterations <= limits.maxIterations && iterations <= |w.completed|
      invariant forall k :: 0 <= k < iterations ==> !expired(k)
      invariant AllFacts(regions, facts) ==> RoundsUsed(regions, w.completed, iterations)
      decreases limits.maxIterations - iterations
    {
      if iterations >= limits.maxIterations {
        stop := Some(WorkBudget);
        break;
      }
      if expired(iterations) {
        stop := Some(Deadline);
        break;
      }
      iterations := iterations + 1;
      if AllFacts(regions, facts) {
        RoundStep(regions, w.completed, w.work, w.pending, iterations - 1);
      }
      ghost var before, round := w.completed, w.work;
      ghost var k := 0;
      assert before + round[..0] == before && round[0..] == round;
      while w.work != []
        invariant w.Valid([]) && w.regions == regions && w.facts == facts && w.cap == limits.maxFactsPerRegion
        invariant k <= |round| && w.work == round[k..] && w.completed == before + round[..k]
        decreases |w.work|
      {
        w.Process();
        k := k + 1;
        assert round[..k] == round[..k - 1] + [round[k - 1]];
      }
      assert round[..k] == round;
      w.NextRound();
    }
    var frontier := Frontier(regions, w.completed, |regions|);
    FrontierAll(regions, w.completed);
    FrontierInOrder(regions, w.completed, |regions|);
    hide Precedes; hide Ids; hide Frontier;
    if AllFacts(regions, facts) && stop == None {
      LevelSettled(regions, w.completed, w.pending, iterations, limits.maxIterations);
    }
    EndSplit(regions, w.completed, w.work, w.pending, frontier);
    var converged := stop == None && w.pending == {};
    var why := match stop case Some(x) => x case None => if converged then Converged else Settled;
    r := DataflowResult(w.inFacts, w.completed, w.capped, frontier, iterations, converged, why);
    seen := w.seen;
    FirstInTurn(regions, EdgesOfRegions(regions), w.completed, w.work);
    EndLawful(regions, facts, w.completed, w.work, w.pending, r);
  }

  lemma RoundStep(regions: seq<Region>, completed: seq<string>, work: seq<string>, pending: set<string>, k: nat)
    requires Consistent(regions) && SplitUp(regions, completed, work, [], pending) && work != []
    requires var e := EdgesOfRegions(regions);
             Cleared(e, completed, work) && InOrder(e, completed) && Blocked(e, completed, pending, [])
    requires RoundsUsed(regions, completed, k)
    ensures RoundsUsed(regions, completed + work, k + 1)
  {
    hide Consistent; hide HasId; hide EndsWalk; hide EdgesOfRegions; hide Cleared; hide InOrder; hide Blocked;
    LevelStep(regions, completed, work, pending, k);
    NextFacts(regions, completed, work, [], pending);
    hide SplitUp;
    assert work[0] in completed + work;
  }

  lemma FirstInTurn(regions: seq<Region>, e: Edges<string>, completed: seq<string>, work: seq<string>)
    requires InTurn(regions, e, completed, completed + work + [])
    ensures InTurn(regions, e, completed, completed)
  {
    hide Turn;
    var all := completed + work + [];
    forall a, b | 0 <= a < b < |completed| ensures Turn(regions, e, completed, completed[a], completed[b]) {
      assert all[a] == completed[a] && all[b] == completed[b];
    }
  }

  lemma EndLawful(regions: seq<Region>, facts: map<string, seq<Fact>>, completed: seq<string>, work: seq<string>,
                  pending: set<string>, r: DataflowResult)
    requires Lawful(EdgesOfRegions(regions), facts, completed, work, [], pending, [])
    requires SplitUp(regions, completed, work, [], pending)
    requires r.completed == completed && (r.stop == Converged || r.stop == Settled ==> work == [])
    ensures ReleaseLaw(regions, facts, r)
  {
    hide Released; hide NoPreds; hide HasId;
  }

  /** The regions not completed, in partition order (lines 201-206). */
  function Frontier(regions: seq<Region>, completed: seq<string>, k: nat): seq<string>
    requires k <= |regions|
  {
    if k == 0 then [] else
      Frontier(regions, completed, k - 1) + if regions[k - 1].id in completed then [] else [regions[k - 1].id]
  }

  lemma {:induction false} FrontierSpec(regions: seq<Region>, completed: seq<string>, k: nat)
    requires Consistent(regions) && k <= |regions|
    ensures NoDup(Frontier(regions, completed, k))
    ensures forall x :: x in Frontier(regions, completed, k) <==>
                        x !in completed && exists i :: 0 <= i < k && regions[i].id == x
  {
    if k > 0 {
      FrontierSpec(regions, completed, k - 1);
      assert regions[k - 1].id !in Frontier(regions, completed, k - 1);
    }
  }

  lemma {:induction false} FrontierInOrder(regions: seq<Region>, completed: seq<string>, k: nat)
    requires k <= |regions|
    ensures forall x :: x in Frontier(regions, completed, k) ==> exists i :: 0 <= i < k && Ids(regions)[i] == x
    ensures forall a, b :: 0 <= a < b < |Frontier(regions, completed, k)| ==>
      Precedes(Ids(regions), Frontier(regions, completed, k)[a], Frontier(regions, completed, k)[b])
  {
    if k > 0 {
      FrontierInOrder(regions, completed, k - 1);
      var r, ids := Frontier(regions, completed, k - 1), Ids(regions);
      assert ids[k - 1] == regions[k - 1].id;
      forall x | x in r ensures exists i :: 0 <= i < k && ids[i] == x {
        var i :| 0 <= i < k - 1 && ids[i] == x;
      }
      forall a | 0 <= a < |r| ensures Precedes(ids, r[a], regions[k - 1].id) {
        assert r[a] in r;
        var i :| 0 <= i < k - 1 && ids[i] == r[a];
      }
    }
  }

  lemma FrontierAll(regions: seq<Region>, completed: seq<string>)
    requires Consistent(regions)
    ensures NoDup(Frontier(regions, completed, |regions|))
    ensures forall x :: x in Frontier(regions, completed, |regions|) <==> x !in completed && HasId(regions, x)
  {
    FrontierSpec(regions, completed, |regions|);
  }

  lemma EndSplit(regions: seq<Region>, completed: seq<string>, work: seq<string>, pending: set<string>,
                 frontier: seq<string>)
    requires SplitUp(regions, completed, work, [], pending)
    requires forall x :: x in frontier <==> x !in completed && HasId(regions, x)
    ensures NoDup(completed)
    ensures forall x :: HasId(regions, x) <==> x in completed || x in frontier
    ensures frontier == [] <==> work == [] && pending == {}
  {
    hide HasId;
    var all := completed + work + [];
    assert all[..|completed|] == completed;
    if work != [] {
      NextFacts(regions, completed, work, [], pending);
      assert work[0] in frontier;
    }
    if pending != {} {
      var x :| x in pending;
      assert x in frontier;
    }
    if frontier != [] {
      assert frontier[0] in frontier;
    }
  }
}
