/**
 Walks over an edge relation.  Every reachability claim in the project (block
 graph, region graph, call graph) is stated with these definitions.
 */
module Walks {

  /** A directed graph given by its edges. */
  type Edges<!T(==)> = iset<(T, T)>

  /** There is a walk with exactly `k` edges from `a` to `b`. */
  ghost predicate Walk<T(!new)>(e: Edges<T>, a: T, b: T, k: nat)
    decreases k
  {
    if k == 0 then a == b else exists m :: (a, m) in e && Walk(e, m, b, k - 1)
  }

  ghost predicate Reach<T(!new)>(e: Edges<T>, a: T, b: T) {
    exists k: nat :: Walk(e, a, b, k)
  }

  /** `a` lies on a cycle: some walk with at least one edge leads back to it. */
  ghost predicate OnCycle<T(!new)>(e: Edges<T>, a: T) {
    exists k: nat :: k > 0 && Walk(e, a, a, k)
  }

  ghost predicate Acyclic<T(!new)>(e: Edges<T>) {
    forall a :: !OnCycle(e, a)
  }

  lemma {:induction false} WalkConcat<T(!new)>(e: Edges<T>, a: T, b: T, c: T, j: nat, k: nat)
    requires Walk(e, a, b, j) && Walk(e, b, c, k)
    ensures Walk(e, a, c, j + k)
    decreases j
  {
    if j > 0 {
      var m :| (a, m) in e && Walk(e, m, b, j - 1);
      WalkConcat(e, m, b, c, j - 1, k);
    }
  }

  /** A walk can be cut after its first `j` edges. */
  lemma {:induction false} WalkSplit<T(!new)>(e: Edges<T>, a: T, c: T, j: nat, k: nat) returns (b: T)
    requires Walk(e, a, c, j + k)
    ensures Walk(e, a, b, j) && Walk(e, b, c, k)
    decreases j
  {
    if j == 0 {
      b := a;
    } else {
      var m :| (a, m) in e && Walk(e, m, c, j + k - 1);
      b := WalkSplit(e, m, c, j - 1, k);
    }
  }

  lemma EdgeWalk<T(!new)>(e: Edges<T>, a: T, b: T)
    requires (a, b) in e
    ensures Walk(e, a, b, 1)
  {
  }

  lemma ReachRefl<T(!new)>(e: Edges<T>, a: T)
    ensures Reach(e, a, a)
  {
    assert Walk(e, a, a, 0);
  }

  lemma ReachEdge<T(!new)>(e: Edges<T>, a: T, b: T)
    requires (a, b) in e
    ensures Reach(e, a, b)
  {
    EdgeWalk(e, a, b);
  }

  lemma ReachTrans<T(!new)>(e: Edges<T>, a: T, b: T, c: T)
    requires Reach(e, a, b) && Reach(e, b, c)
    ensures Reach(e, a, c)
  {
    var j: nat :| Walk(e, a, b, j);
    var k: nat :| Walk(e, b, c, k);
    WalkConcat(e, a, b, c, j, k);
  }

  /** Nothing outside a successor-closed set is reachable from inside it. */
  lemma {:induction false} ClosedWalk<T(!new)>(e: Edges<T>, s: iset<T>, a: T, b: T, k: nat)
    requires forall x, y :: x in s && (x, y) in e ==> y in s
    requires a in s && Walk(e, a, b, k)
    ensures b in s
    decreases k
  {
    if k > 0 {
      var m :| (a, m) in e && Walk(e, m, b, k - 1);
      ClosedWalk(e, s, m, b, k - 1);
    }
  }

  lemma ClosedReach<T(!new)>(e: Edges<T>, s: iset<T>, a: T, b: T)
    requires forall x, y :: x in s && (x, y) in e ==> y in s
    requires a in s && Reach(e, a, b)
    ensures b in s
  {
    var k: nat :| Walk(e, a, b, k);
    ClosedWalk(e, s, a, b, k);
  }

  /** Some walk with exactly `k` edges ends in `x`. */
  ghost predicate EndsWalk<T(!new)>(e: Edges<T>, x: T, k: nat) {
    exists a :: Walk(e, a, x, k)
  }

  lemma EndsWalkZero<T(!new)>(e: Edges<T>, x: T)
    ensures EndsWalk(e, x, 0)
  {
    assert Walk(e, x, x, 0);
  }

  lemma EndsWalkExtend<T(!new)>(e: Edges<T>, p: T, x: T, k: nat)
    requires EndsWalk(e, p, k) && (p, x) in e
    ensures EndsWalk(e, x, k + 1)
  {
    var a :| Walk(e, a, p, k);
    EdgeWalk(e, p, x);
    WalkConcat(e, a, p, x, k, 1);
  }

  lemma EndsWalkLast<T(!new)>(e: Edges<T>, x: T, k: nat) returns (p: T)
    requires EndsWalk(e, x, k + 1)
    ensures (p, x) in e && EndsWalk(e, p, k)
  {
    var a :| Walk(e, a, x, k + 1);
    p := WalkSplit(e, a, x, k, 1);
    var m :| (p, m) in e && Walk(e, m, x, 0);
  }

  lemma EndsWalkShorter<T(!new)>(e: Edges<T>, x: T, k: nat, j: nat)
    requires EndsWalk(e, x, k) && j <= k
    ensures EndsWalk(e, x, j)
  {
    var a :| Walk(e, a, x, k);
    var b := WalkSplit(e, a, x, k - j, j);
  }

  // ------------------------------------------------------------- long walks and cycles

  /** `x` lies downstream of a cycle. */
  ghost predicate BelowCycle<T(!new)>(e: Edges<T>, x: T) {
    exists c :: OnCycle(e, c) && Reach(e, c, x)
  }

  ghost predicate Leads<T(!new)>(e: Edges<T>, a: T, b: T) {
    exists k: nat :: k > 0 && Walk(e, a, b, k)
  }

  /** A walk with as many edges as there are vertices meets some vertex twice. */
  lemma {:induction false} LongWalkMeetsCycle<T(!new)>(e: Edges<T>, all: set<T>, visited: set<T>, a: T, x: T, k: nat)
    requires forall u, v :: (u, v) in e ==> v in all
    requires visited <= all && a in all && forall v :: v in visited ==> Leads(e, v, a)
    requires Walk(e, a, x, k) && |visited| + k >= |all|
    ensures BelowCycle(e, x)
    decreases k
  {
    if a in visited {
      assert OnCycle(e, a) && Reach(e, a, x);
    } else {
      assert visited < all;
      SubsetSmaller(visited, all);
      var m :| (a, m) in e && Walk(e, m, x, k - 1);
      var visited' := visited + {a};
      forall v | v in visited' ensures Leads(e, v, m) {
        EdgeWalk(e, a, m);
        if v != a {
          var j: nat :| j > 0 && Walk(e, v, a, j);
          WalkConcat(e, v, a, m, j, 1);
        }
      }
      LongWalkMeetsCycle(e, all, visited', m, x, k - 1);
    }
  }

  lemma SubsetSmaller<T>(a: set<T>, b: set<T>)
    requires a < b
    ensures |a| < |b|
  {
    assert b == a + (b - a);
    assert b - a != {};
  }

  /** Around a cycle walks get as long as one likes. */
  lemma {:induction false} CycleEndsWalk<T(!new)>(e: Edges<T>, c: T, k: nat)
    requires OnCycle(e, c)
    ensures exists j :: j >= k && Walk(e, c, c, j)
  {
    if k == 0 {
      assert Walk(e, c, c, 0);
    } else {
      CycleEndsWalk(e, c, k - 1);
      var j :| j >= k - 1 && Walk(e, c, c, j);
      var i: nat :| i > 0 && Walk(e, c, c, i);
      WalkConcat(e, c, c, c, j, i);
    }
  }

  /** In a graph of at most `n` vertices, a walk of `n` or more edges ends exactly below a cycle. */
  lemma LongWalkIffBelowCycle<T(!new)>(e: Edges<T>, all: set<T>, x: T, n: nat)
    requires forall u, v :: (u, v) in e ==> u in all && v in all
    requires x in all && |all| <= n
    ensures EndsWalk(e, x, n) <==> BelowCycle(e, x)
  {
    if EndsWalk(e, x, n) {
      var a :| Walk(e, a, x, n);
      assert n > 0;
      LongWalkMeetsCycle(e, all, {}, a, x, n);
    }
    if BelowCycle(e, x) {
      var c :| OnCycle(e, c) && Reach(e, c, x);
      var i: nat :| Walk(e, c, x, i);
      CycleEndsWalk(e, c, n);
      var j :| j >= n && Walk(e, c, c, j);
      WalkConcat(e, c, c, x, j, i);
      EndsWalkShorter(e, x, j + i, n);
    }
  }
}
