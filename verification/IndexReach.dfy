/**
 Bounded reachability in the analysis index (`reachable`): a level-by-level
 search of the callee graph with a seen set.
 */
module IndexReach {
  import opened Basics
  import opened Walks

  /** The indexed functions and their callees. */
  type Calls = map<nat, seq<nat>>

  ghost function CallEdges(calls: Calls): Edges<nat> {
    iset a: nat, b: nat | a in calls && b in calls[a] :: (a, b)
  }

  /** `x` is fewer than `n` calls away from `root`. */
  ghost predicate Near(e: Edges<nat>, root: nat, x: nat, n: nat) {
    exists k: nat :: k < n && Walk(e, root, x, k)
  }

  ghost predicate BoundedPath(e: Edges<nat>, root: nat, levels: nat, target: nat) {
    exists k: nat :: 1 <= k <= levels && Walk(e, root, target, k)
  }

  /** One more level: the root, or a callee of something nearer. */
  lemma NearNext(e: Edges<nat>, root: nat, x: nat, n: nat)
    ensures Near(e, root, x, n + 1) <==> x == root || exists y: nat :: Near(e, root, y, n) && (y, x) in e
  {
    if x == root {
      assert Walk(e, root, x, 0);
    } else if Near(e, root, x, n + 1) {
      var k: nat :| k < n + 1 && Walk(e, root, x, k);
      var y: nat := LastStep(e, root, x, k);
      assert Near(e, root, y, n);
    } else if y: nat :| Near(e, root, y, n) && (y, x) in e {
      var k: nat :| k < n && Walk(e, root, y, k);
      EdgeWalk(e, y, x);
      WalkConcat(e, root, y, x, k, 1);
      assert false;
    }
  }

  lemma LastStep(e: Edges<nat>, root: nat, x: nat, k: nat) returns (y: nat)
    requires Walk(e, root, x, k) && k > 0
    ensures Walk(e, root, y, k - 1) && (y, x) in e
  {
    y := WalkSplit(e, root, x, k - 1, 1);
    var m: nat :| (y, m) in e && Walk(e, m, x, 0);
  }

  /** A path of 1 to `levels` calls ends with a call from something fewer than `levels` calls away. */
  lemma PathIffCallFromNear(e: Edges<nat>, root: nat, levels: nat, target: nat)
    ensures BoundedPath(e, root, levels, target) <==> exists y: nat :: Near(e, root, y, levels) && (y, target) in e
  {
    if BoundedPath(e, root, levels, target) {
      var k: nat :| 1 <= k <= levels && Walk(e, root, target, k);
      var y: nat := LastStep(e, root, target, k);
      assert Near(e, root, y, levels);
    } else if y: nat :| Near(e, root, y, levels) && (y, target) in e {
      var k: nat :| k < levels && Walk(e, root, y, k);
      EdgeWalk(e, y, target);
      WalkConcat(e, root, y, target, k, 1);
      assert false;
    }
  }

  /** Everything called from `from`, after `target` was not found there, is in `seen`; what is new is in `next`. */
  ghost predicate Expanded(calls: Calls, from: set<nat>, before: set<nat>, seen: set<nat>, next: seq<nat>,
                           target: nat) {
    && (forall x: nat :: x in seen <==> x in before || CalledFrom(calls, from, x))
    && (forall x: nat :: x in next <==> x in seen && x !in before)
    && !CalledFrom(calls, from, target)
  }

  predicate CalledFrom(calls: Calls, from: set<nat>, x: nat) {
    exists y <- from :: y in calls && x in calls[y]
  }

  /** Before level `n`: seen is what is at most `n` calls away, and the frontier is what is exactly that far. */
  ghost predicate AtLevel(e: Edges<nat>, root: nat, seen: set<nat>, frontier: seq<nat>, n: nat) {
    && (forall x: nat :: x in seen <==> Near(e, root, x, n + 1))
    && (forall x: nat :: x in frontier <==> x in seen && !Near(e, root, x, n))
  }

  /** The target is called from nothing nearer than `n`. */
  ghost predicate NotFound(e: Edges<nat>, root: nat, target: nat, n: nat) {
    forall y: nat :: Near(e, root, y, n) ==> (y, target) !in e
  }

  lemma LevelStart(e: Edges<nat>, root: nat, target: nat)
    ensures AtLevel(e, root, {root}, [root], 0) && NotFound(e, root, target, 0)
  {
    forall x: nat ensures Near(e, root, x, 1) <==> x == root {
      NearNext(e, root, x, 0);
    }
  }

  lemma LevelStep(calls: Calls, root: nat, target: nat, seen: set<nat>, frontier: seq<nat>, n: nat, seen': set<nat>,
                  next: seq<nat>)
    requires AtLevel(CallEdges(calls), root, seen, frontier, n) && NotFound(CallEdges(calls), root, target, n)
    requires Expanded(calls, Members(frontier), seen, seen', next, target)
    ensures AtLevel(CallEdges(calls), root, seen', next, n + 1) && NotFound(CallEdges(calls), root, target, n + 1)
  {
    var e := CallEdges(calls);
    forall x: nat ensures x in seen' <==> Near(e, root, x, n + 2) {
      NearNext(e, root, x, n + 1);
      NearNext(e, root, x, n);
      if x in seen' && x !in seen {
        assert CalledFrom(calls, Members(frontier), x);
        var y: nat :| y in Members(frontier) && y in calls && x in calls[y];
        assert Near(e, root, y, n + 1) && (y, x) in e;
      }
      if Near(e, root, x, n + 2) && x !in seen {
        assert x != root by { assert Walk(e, root, root, 0); }
        var y: nat :| Near(e, root, y, n + 1) && (y, x) in e;
        assert y in seen;
        assert y in Members(frontier);
        assert CalledFrom(calls, Members(frontier), x);
      }
      if x in seen {
        var k: nat :| k < n + 1 && Walk(e, root, x, k);
        assert k < n + 2;
      }
    }
    forall y: nat | Near(e, root, y, n + 1) ensures (y, target) !in e {
      assert y in seen;
      assert y in Members(frontier) || Near(e, root, y, n);
    }
  }

  /** `reachable`. */
  method Reachable(calls: Calls, root: nat, levels: nat, target: nat) returns (found: bool)
    ensures found <==> BoundedPath(CallEdges(calls), root, levels, target)
  {
    hide AtLevel; hide NotFound; hide Expanded;
    ghost var e := CallEdges(calls);
    var frontier: seq<nat> := [root];
    var seen: set<nat> := {root};
    LevelStart(e, root, target);
    for n := 0 to levels
      invariant AtLevel(e, root, seen, frontier, n) && NotFound(e, root, target, n)
    {
      var next: seq<nat> := [];
      ghost var before := seen;
      ExpandStart(calls, before, target);
      for i := 0 to |frontier|
        invariant Expanded(calls, Members(frontier[..i]), before, seen, next, target)
      {
        assert Members(frontier[..i + 1]) == Members(frontier[..i]) + {frontier[i]};
        if frontier[i] in calls {
          var hit;
          hit, seen, next := ExpandCallees(calls, frontier[i], Members(frontier[..i]), before, seen, next, target);
          if hit {
            HitIsPath(calls, root, levels, target, before, frontier, n, i);
            return true;
          }
        } else {
          ExpandMissing(calls, Members(frontier[..i]), before, seen, next, target, frontier[i]);
        }
      }
      assert frontier[..|frontier|] == frontier;
      LevelStep(calls, root, target, before, frontier, n, seen, next);
      frontier := next;
    }
    NoHitNoPath(e, root, levels, target);
    return false;
  }

  lemma NoHitNoPath(e: Edges<nat>, root: nat, levels: nat, target: nat)
    requires NotFound(e, root, target, levels)
    ensures !BoundedPath(e, root, levels, target)
  {
    PathIffCallFromNear(e, root, levels, target);
  }

  lemma HitIsPath(calls: Calls, root: nat, levels: nat, target: nat, before: set<nat>, frontier: seq<nat>, n: nat,
                  i: nat)
    requires n < levels && AtLevel(CallEdges(calls), root, before, frontier, n)
    requires i < |frontier| && frontier[i] in calls && target in calls[frontier[i]]
    ensures BoundedPath(CallEdges(calls), root, levels, target)
  {
    var e, y := CallEdges(calls), frontier[i];
    assert y in frontier;
    assert Near(e, root, y, n + 1);
    var k: nat :| k < n + 1 && Walk(e, root, y, k);
    assert Near(e, root, y, levels) && (y, target) in e;
    PathIffCallFromNear(e, root, levels, target);
  }

  lemma ExpandStart(calls: Calls, before: set<nat>, target: nat)
    ensures Expanded(calls, Members([]), before, before, [], target)
  {
  }

  lemma ExpandMissing(calls: Calls, from: set<nat>, before: set<nat>, seen: set<nat>, next: seq<nat>, target: nat,
                      y: nat)
    requires Expanded(calls, from, before, seen, next, target) && y !in calls
    ensures Expanded(calls, from + {y}, before, seen, next, target)
  {
  }

  /** The inner loop: the callees of one function. */
  method ExpandCallees(calls: Calls, y: nat, ghost from: set<nat>, ghost before: set<nat>, seen0: set<nat>,
                       next0: seq<nat>, target: nat)
    returns (hit: bool, seen: set<nat>, next: seq<nat>)
    requires y in calls && Expanded(calls, from, before, seen0, next0, target)
    ensures hit <==> target in calls[y]
    ensures !hit ==> Expanded(calls, from + {y}, before, seen, next, target)
  {
    seen, next := seen0, next0;
    var callees := calls[y];
    for j := 0 to |callees|
      invariant target !in callees[..j]
      invariant forall x: nat :: x in seen <==> x in seen0 || x in callees[..j]
      invariant forall x: nat :: x in next <==> x in seen && x !in before
    {
      assert callees[..j + 1] == callees[..j] + [callees[j]];
      var c := callees[j];
      if c == target {
        return true, seen, next;
      }
      if c !in seen {
        seen := seen + {c};
        next := next + [c];
      }
    }
    assert callees[..|callees|] == callees;
    assert forall x: nat :: CalledFrom(calls, from + {y}, x) <==> CalledFrom(calls, from, x) || x in callees;
    hit := false;
  }
}
