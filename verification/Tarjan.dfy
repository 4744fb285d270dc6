/**
 Strongly connected components of a block graph: the iterative Tarjan of
 `CfgIndex::tarjan_sccs`, with its explicit call stack of (block, cursor) pairs.

 The invariant is a conjunction of small predicates, each over the locals it
 needs.  There is one lemma per loop action and predicate that the action can
 disturb, so no proof sees more of the state than it uses.
 */
module Tarjan {
  import opened Basics
  import opened Walks
  import opened Sorting

  /** Successor lists, indexed by block number. */
  type Graph = seq<seq<nat>>

  /** Every successor is a block of the graph. */
  predicate WellFormed(g: Graph) {
    forall v, j :: 0 <= v < |g| && 0 <= j < |g[v]| ==> g[v][j] < |g|
  }

  ghost function EdgesOf(g: Graph): Edges<nat> {
    iset e: (nat, nat) | e.0 < |g| && e.1 in g[e.0]
  }

  /** `c` lists exactly the blocks mutually reachable with each of its members. */
  ghost predicate IsComponent(g: Graph, c: seq<nat>) {
    && c != []
    && NoDup(c)
    && (forall x :: x in c ==> x < |g|)
    && (forall x: nat, y: nat :: x in c && y < |g| ==>
          (y in c <==> Reach(EdgesOf(g), x, y) && Reach(EdgesOf(g), y, x)))
  }

  /** The marker of a block that has no index yet (`usize::MAX` in the program). */
  const UNSEEN := -1

  // ---------------------------------------------------------------- invariant
  //
  // index, low, onStack   the arrays of the program
  // stack                 the SCC stack
  // path                  the blocks on the call stack, outermost first
  // cur                   per block, the number of successor slots read so far
  // out                   the components emitted so far

  ghost predicate Sized(g: Graph, index: seq<int>, low: seq<int>, onStack: seq<bool>, cur: seq<nat>, next: nat) {
    && |index| == |low| == |onStack| == |cur| == |g|
    && (forall v :: 0 <= v < |g| ==> UNSEEN <= index[v] < next)
    && (forall v :: 0 <= v < |g| ==> cur[v] <= |g[v]|)
    && (forall v :: 0 <= v < |g| && index[v] == UNSEEN ==> cur[v] == 0 && !onStack[v])
  }

  /** The stack holds the flagged blocks, by increasing index. */
  ghost predicate StackShape(index: seq<int>, onStack: seq<bool>, stack: seq<nat>)
    requires |index| == |onStack|
  {
    && (forall i :: 0 <= i < |stack| ==> stack[i] < |index| && onStack[stack[i]])
    && (forall v :: 0 <= v < |index| && onStack[v] ==> v in stack)
    && (forall i, j :: 0 <= i < j < |stack| ==> index[stack[i]] < index[stack[j]])
  }

  /** The call stack is a part of the SCC stack that shares its bottom. */
  ghost predicate PathShape(index: seq<int>, onStack: seq<bool>, stack: seq<nat>, path: seq<nat>)
    requires |index| == |onStack|
  {
    && (forall k :: 0 <= k < |path| ==> path[k] < |index| && onStack[path[k]])
    && (forall k, l :: 0 <= k < l < |path| ==> index[path[k]] < index[path[l]])
    && (path == [] <==> stack == [])
    && (path != [] ==> stack[0] == path[0])
  }

  /** A block that left the call stack has had all its slots read. */
  ghost predicate Finished(g: Graph, index: seq<int>, path: seq<nat>, cur: seq<nat>)
    requires |index| == |cur| == |g|
  {
    forall v :: 0 <= v < |g| && index[v] != UNSEEN && v !in path ==> cur[v] == |g[v]|
  }

  /** Every slot read so far leads to a block that has an index. */
  ghost predicate ReadSeen(g: Graph, index: seq<int>, cur: seq<nat>)
    requires WellFormed(g) && |index| == |cur| == |g|
    requires forall v :: 0 <= v < |g| ==> cur[v] <= |g[v]|
  {
    forall v, j :: 0 <= v < |g| && 0 <= j < cur[v] ==> index[g[v][j]] != UNSEEN
  }

  /** A block on the call stack reaches everything stacked at or above it. */
  ghost predicate PathReach(g: Graph, index: seq<int>, onStack: seq<bool>, path: seq<nat>)
    requires |index| == |onStack|
  {
    forall u: nat, x: nat :: u in path && u < |index| && 0 <= x < |index| && onStack[x] && index[u] <= index[x]
      ==> Reach(EdgesOf(g), u, x)
  }

  /** `low[v]` is the index of a stacked block that `v` reaches. */
  ghost predicate LowWitness(g: Graph, index: seq<int>, low: seq<int>, onStack: seq<bool>, v: nat, w: nat)
    requires |index| == |low| == |onStack|
  {
    v < |index| && w < |index| && onStack[w] && index[w] == low[v] && Reach(EdgesOf(g), v, w)
  }

  ghost predicate LowReached(g: Graph, index: seq<int>, low: seq<int>, onStack: seq<bool>, v: nat)
    requires |index| == |low| == |onStack|
  {
    exists w :: LowWitness(g, index, low, onStack, v, w)
  }

  ghost predicate LowSound(g: Graph, index: seq<int>, low: seq<int>, onStack: seq<bool>, path: seq<nat>)
    requires |index| == |low| == |onStack|
  {
    && (forall v :: 0 <= v < |index| && onStack[v] ==> low[v] <= index[v])
    && (forall v {:trigger LowReached(g, index, low, onStack, v)} ::
          0 <= v < |index| && onStack[v] ==> LowReached(g, index, low, onStack, v))
    && (forall v :: 0 <= v < |index| && onStack[v] && v !in path ==> low[v] < index[v])
  }

  /** Stacked block `x` belongs to the stretch of the stack owned by call entry `k`. */
  ghost predicate Owns(index: seq<int>, onStack: seq<bool>, path: seq<nat>, k: nat, x: nat)
    requires |index| == |onStack| && k < |path|
    requires forall l :: 0 <= l < |path| ==> path[l] < |index|
  {
    && x < |index| && onStack[x]
    && index[path[k]] <= index[x]
    && (k + 1 < |path| ==> index[x] < index[path[k + 1]])
  }

  /** `low` of an owner bounds the index of every stacked block its stretch points to. */
  ghost predicate LowBound(g: Graph, index: seq<int>, low: seq<int>, onStack: seq<bool>, path: seq<nat>, cur: seq<nat>)
    requires WellFormed(g) && |index| == |low| == |onStack| == |cur| == |g|
    requires forall l :: 0 <= l < |path| ==> path[l] < |index|
    requires forall v :: 0 <= v < |g| ==> cur[v] <= |g[v]|
  {
    forall k, x, j :: 0 <= k < |path| && 0 <= x < |g| && Owns(index, onStack, path, k, x) && 0 <= j < cur[x]
      && onStack[g[x][j]]
      ==> low[path[k]] <= index[g[x][j]]
  }

  ghost predicate Done(index: seq<int>, onStack: seq<bool>, v: nat)
    requires |index| == |onStack|
  {
    v < |index| && index[v] != UNSEEN && !onStack[v]
  }

  /** Done blocks are closed under edges. */
  ghost predicate DoneClosed(g: Graph, index: seq<int>, onStack: seq<bool>)
    requires |index| == |onStack| == |g|
  {
    forall v, j :: 0 <= v < |g| && Done(index, onStack, v) && 0 <= j < |g[v]| ==> Done(index, onStack, g[v][j])
  }

  ghost predicate Covered(out: seq<seq<nat>>, v: nat) {
    exists c :: 0 <= c < |out| && v in out[c]
  }

  /** No block of `a` reaches a block of `b`. */
  ghost predicate NoWay(g: Graph, a: seq<nat>, b: seq<nat>) {
    forall x: nat, y: nat :: x in a && y in b ==> !Reach(EdgesOf(g), x, y)
  }

  /** No component reaches one that is emitted after it. */
  ghost predicate Backwards(g: Graph, out: seq<seq<nat>>) {
    forall c, d :: 0 <= c < d < |out| ==> NoWay(g, out[c], out[d])
  }

  /** Emitted components are right, pairwise disjoint, and hold exactly the done blocks. */
  ghost predicate OutShape(g: Graph, index: seq<int>, onStack: seq<bool>, out: seq<seq<nat>>)
    requires |index| == |onStack| == |g|
  {
    && (forall c :: 0 <= c < |out| ==> IsComponent(g, out[c]))
    && (forall c, x :: 0 <= c < |out| && x in out[c] ==> Done(index, onStack, x))
    && (forall v :: Done(index, onStack, v) ==> Covered(out, v))
    && (forall c, d, x :: 0 <= c < d < |out| && x in out[c] ==> x !in out[d])
    && Backwards(g, out)
  }

  /** The shape part: everything but reachability. */
  ghost predicate Shape(g: Graph, index: seq<int>, low: seq<int>, onStack: seq<bool>, stack: seq<nat>,
                        path: seq<nat>, cur: seq<nat>, next: nat)
  {
    && WellFormed(g)
    && Sized(g, index, low, onStack, cur, next)
    && StackShape(index, onStack, stack)
    && PathShape(index, onStack, stack, path)
  }

  ghost predicate Inv(g: Graph, index: seq<int>, low: seq<int>, onStack: seq<bool>, stack: seq<nat>,
                      path: seq<nat>, cur: seq<nat>, next: nat, out: seq<seq<nat>>)
  {
    && Shape(g, index, low, onStack, stack, path, cur, next)
    && Finished(g, index, path, cur)
    && ReadSeen(g, index, cur)
    && PathReach(g, index, onStack, path)
    && LowSound(g, index, low, onStack, path)
    && LowBound(g, index, low, onStack, path, cur)
    && DoneClosed(g, index, onStack)
    && OutShape(g, index, onStack, out)
  }

  /** The last block of a non-empty call stack. */
  ghost function Top(path: seq<nat>): nat
    requires path != []
  {
    path[|path| - 1]
  }

  /** What a visit of `w` does to the cursors: nothing at a root, else one slot of the top is read. */
  ghost predicate ReadsInto(g: Graph, path: seq<nat>, cur: seq<nat>, cur': seq<nat>, w: nat)
    requires |cur| == |g|
  {
    if path == [] then cur' == cur
    else
      && Top(path) < |g|
      && cur[Top(path)] < |g[Top(path)]|
      && g[Top(path)][cur[Top(path)]] == w
      && cur' == cur[Top(path) := cur[Top(path)] + 1]
  }

  // ------------------------------------------------------ visiting a new block

  lemma VisitSized(g: Graph, index: seq<int>, low: seq<int>, onStack: seq<bool>, path: seq<nat>,
                   cur: seq<nat>, cur': seq<nat>, next: nat, w: nat)
    requires Sized(g, index, low, onStack, cur, next)
    requires forall k :: 0 <= k < |path| ==> path[k] < |index| && onStack[path[k]]
    requires w < |g| && index[w] == UNSEEN && ReadsInto(g, path, cur, cur', w)
    ensures Sized(g, index[w := next], low[w := next], onStack[w := true], cur', next + 1)
  {
  }

  lemma VisitStack(index: seq<int>, onStack: seq<bool>, stack: seq<nat>, path: seq<nat>, next: nat, w: nat)
    requires |index| == |onStack|
    requires StackShape(index, onStack, stack) && PathShape(index, onStack, stack, path)
    requires forall v :: 0 <= v < |index| ==> index[v] < next
    requires w < |index| && !onStack[w]
    ensures StackShape(index[w := next], onStack[w := true], stack + [w])
    ensures PathShape(index[w := next], onStack[w := true], stack + [w], path + [w])
  {
  }

  lemma VisitCursors(g: Graph, index: seq<int>, path: seq<nat>, cur: seq<nat>, cur': seq<nat>, next: nat, w: nat)
    requires WellFormed(g) && |index| == |cur| == |g|
    requires forall v :: 0 <= v < |g| ==> cur[v] <= |g[v]|
    requires w < |g| && index[w] == UNSEEN && ReadsInto(g, path, cur, cur', w)
    requires Finished(g, index, path, cur) && ReadSeen(g, index, cur)
    ensures Finished(g, index[w := next], path + [w], cur')
    ensures ReadSeen(g, index[w := next], cur')
  {
  }

  lemma VisitReach(g: Graph, index: seq<int>, onStack: seq<bool>, path: seq<nat>, next: nat, w: nat)
    requires |index| == |onStack| == |g|
    requires forall v :: 0 <= v < |index| ==> index[v] < next
    requires forall k :: 0 <= k < |path| ==> path[k] < |index| && onStack[path[k]]
    requires forall k, l :: 0 <= k < l < |path| ==> index[path[k]] < index[path[l]]
    requires w < |g| && index[w] == UNSEEN && w !in path
    requires path != [] ==> w in g[Top(path)]
    requires path == [] ==> forall v :: 0 <= v < |onStack| ==> !onStack[v]
    requires PathReach(g, index, onStack, path)
    ensures PathReach(g, index[w := next], onStack[w := true], path + [w])
  {
    var e: Edges<nat> := EdgesOf(g);
    ReachRefl(e, w);
    forall u: nat, x: nat | u in path + [w] && u < |index| && 0 <= x < |index| && onStack[w := true][x] &&
                            index[w := next][u] <= index[w := next][x]
      ensures Reach(e, u, x)
    {
      if u != w && x == w {
        var v: nat := Top(path);
        ReachEdge(e, v, w);
        ReachTrans(e, u, v, w);
      }
    }
  }

  lemma VisitLow(g: Graph, index: seq<int>, low: seq<int>, onStack: seq<bool>, path: seq<nat>, next: nat, w: nat)
    requires |index| == |low| == |onStack| == |g|
    requires w < |g| && !onStack[w]
    requires LowSound(g, index, low, onStack, path)
    ensures LowSound(g, index[w := next], low[w := next], onStack[w := true], path + [w])
  {
    var index', low', onStack' := index[w := next], low[w := next], onStack[w := true];
    assert w in path + [w];
    forall v: nat | v < |index| && onStack'[v]
      ensures LowReached(g, index', low', onStack', v)
    {
      if v == w {
        ReachRefl(EdgesOf(g), w);
        assert LowWitness(g, index', low', onStack', w, w);
      } else {
        assert LowReached(g, index, low, onStack, v);
        var y :| LowWitness(g, index, low, onStack, v, y);
        assert LowWitness(g, index', low', onStack', v, y);
      }
    }
  }

  lemma VisitBound(g: Graph, index: seq<int>, low: seq<int>, onStack: seq<bool>, stack: seq<nat>,
                   path: seq<nat>, cur: seq<nat>, cur': seq<nat>, next: nat, w: nat)
    requires Shape(g, index, low, onStack, stack, path, cur, next)
    requires w < |g| && index[w] == UNSEEN && ReadsInto(g, path, cur, cur', w)
    requires forall v :: 0 <= v < |g| && onStack[v] ==> low[v] <= index[v]
    requires LowBound(g, index, low, onStack, path, cur)
    ensures LowBound(g, index[w := next], low[w := next], onStack[w := true], path + [w], cur')
  {
  }

  lemma VisitDone(g: Graph, index: seq<int>, onStack: seq<bool>, out: seq<seq<nat>>, next: nat, w: nat)
    requires |index| == |onStack| == |g|
    requires w < |g| && index[w] == UNSEEN && !onStack[w]
    requires DoneClosed(g, index, onStack) && OutShape(g, index, onStack, out)
    ensures DoneClosed(g, index[w := next], onStack[w := true])
      && OutShape(g, index[w := next], onStack[w := true], out)
  {
    var index', onStack' := index[w := next], onStack[w := true];
    forall v: nat ensures Done(index', onStack', v) <==> Done(index, onStack, v) {}
    forall v: nat | Done(index', onStack', v) ensures Covered(out, v) {
      assert Done(index, onStack, v);
    }
  }

  lemma VisitKeeps(g: Graph, index: seq<int>, low: seq<int>, onStack: seq<bool>, stack: seq<nat>,
                   path: seq<nat>, cur: seq<nat>, cur': seq<nat>, next: nat, out: seq<seq<nat>>, w: nat)
    requires Inv(g, index, low, onStack, stack, path, cur, next, out)
    requires w < |g| && index[w] == UNSEEN && ReadsInto(g, path, cur, cur', w)
    ensures Inv(g, index[w := next], low[w := next], onStack[w := true], stack + [w], path + [w], cur', next + 1, out)
  {
    VisitSized(g, index, low, onStack, path, cur, cur', next, w);
    VisitStack(index, onStack, stack, path, next, w);
    VisitCursors(g, index, path, cur, cur', next, w);
    VisitReach(g, index, onStack, path, next, w);
    VisitLow(g, index, low, onStack, path, next, w);
    VisitBound(g, index, low, onStack, stack, path, cur, cur', next, w);
    VisitDone(g, index, onStack, out, next, w);
  }

  // ----------------------------------------- reading a slot that leads to a known block

  /** `low` after the top of the call stack read a slot leading to the indexed block `w`. */
  ghost function LowAfterRead(index: seq<int>, low: seq<int>, onStack: seq<bool>, v: nat, w: nat): seq<int>
    requires |index| == |low| == |onStack| && v < |index| && w < |index|
  {
    if onStack[w] then low[v := Min(low[v], index[w])] else low
  }

  /** Lowering `low[v]` to the index of a stacked block that `v` reaches keeps `LowSound`. */
  lemma LowerLow(g: Graph, index: seq<int>, low: seq<int>, onStack: seq<bool>, path: seq<nat>, v: nat, w: nat)
    requires |index| == |low| == |onStack|
    requires LowSound(g, index, low, onStack, path)
    requires v < |index| && w < |index| && onStack[w] && Reach(EdgesOf(g), v, w) && index[w] <= low[v]
    ensures LowSound(g, index, low[v := index[w]], onStack, path)
  {
    var low' := low[v := index[w]];
    forall x: nat {:trigger LowReached(g, index, low', onStack, x)} | x < |index| && onStack[x]
      ensures LowReached(g, index, low', onStack, x)
    {
      if x == v {
        assert LowWitness(g, index, low', onStack, v, w);
      } else {
        assert LowReached(g, index, low, onStack, x);
        var y :| LowWitness(g, index, low, onStack, x, y);
        assert LowWitness(g, index, low', onStack, x, y);
      }
    }
  }

  lemma ReadLow(g: Graph, index: seq<int>, low: seq<int>, onStack: seq<bool>, path: seq<nat>, v: nat, w: nat)
    requires |index| == |low| == |onStack| == |g|
    requires v < |g| && w in g[v] && w < |g|
    requires LowSound(g, index, low, onStack, path)
    ensures LowSound(g, index, LowAfterRead(index, low, onStack, v, w), onStack, path)
  {
    if onStack[w] {
      if index[w] < low[v] {
        ReachEdge(EdgesOf(g), v, w);
        LowerLow(g, index, low, onStack, path, v, w);
      } else {
        assert low[v := low[v]] == low;
      }
    }
  }

  lemma ReadBound(g: Graph, index: seq<int>, low: seq<int>, onStack: seq<bool>, stack: seq<nat>,
                  path: seq<nat>, cur: seq<nat>, next: nat, v: nat, w: nat)
    requires Shape(g, index, low, onStack, stack, path, cur, next)
    requires path != [] && v == Top(path) && cur[v] < |g[v]| && g[v][cur[v]] == w
    requires LowBound(g, index, low, onStack, path, cur)
    ensures LowBound(g, index, LowAfterRead(index, low, onStack, v, w), onStack, path, cur[v := cur[v] + 1])
  {
  }

  lemma ReadCursors(g: Graph, index: seq<int>, low: seq<int>, low': seq<int>, onStack: seq<bool>, path: seq<nat>,
                    cur: seq<nat>, next: nat, v: nat, w: nat)
    requires WellFormed(g) && Sized(g, index, low, onStack, cur, next) && |low'| == |low|
    requires Finished(g, index, path, cur) && ReadSeen(g, index, cur)
    requires v < |g| && v in path && index[v] != UNSEEN && cur[v] < |g[v]| && g[v][cur[v]] == w && index[w] != UNSEEN
    ensures Sized(g, index, low', onStack, cur[v := cur[v] + 1], next)
    ensures Finished(g, index, path, cur[v := cur[v] + 1]) && ReadSeen(g, index, cur[v := cur[v] + 1])
  {
  }

  lemma ReadKeeps(g: Graph, index: seq<int>, low: seq<int>, onStack: seq<bool>, stack: seq<nat>,
                  path: seq<nat>, cur: seq<nat>, next: nat, out: seq<seq<nat>>, v: nat, w: nat)
    requires Inv(g, index, low, onStack, stack, path, cur, next, out)
    requires path != [] && v == Top(path) && cur[v] < |g[v]| && g[v][cur[v]] == w
    requires index[w] != UNSEEN
    ensures Inv(g, index, LowAfterRead(index, low, onStack, v, w), onStack, stack, path, cur[v := cur[v] + 1], next,
                out)
  {
    InvFacts(g, index, low, onStack, stack, path, cur, next, out);
    hide PathReach; hide LowSound; hide LowBound; hide DoneClosed; hide OutShape; hide StackShape; hide Finished;
    hide ReadSeen;
    ReadLow(g, index, low, onStack, path, v, w);
    ReadBound(g, index, low, onStack, stack, path, cur, next, v, w);
    ReadCursors(g, index, low, LowAfterRead(index, low, onStack, v, w), onStack, path, cur, next, v, w);
    hide Sized; hide PathShape; hide WellFormed;
  }

  // --------------------------------------------------- finishing a block: no root

  /** The call stack without its top. */
  ghost function Rest(path: seq<nat>): seq<nat>
    requires path != []
  {
    path[..|path| - 1]
  }

  /** `low` after the finished top of the call stack has been folded into its parent. */
  ghost function LowAfterFinish(low: seq<int>, path: seq<nat>): seq<int>
    requires forall k :: 0 <= k < |path| ==> path[k] < |low|
  {
    if |path| < 2 then low else
      var p, v := path[|path| - 2], path[|path| - 1];
      low[p := Min(low[p], low[v])]
  }

  /** The outermost block on the call stack is the root of its component. */
  lemma OutermostIsRoot(g: Graph, index: seq<int>, low: seq<int>, onStack: seq<bool>, stack: seq<nat>, path: seq<nat>)
    requires |index| == |low| == |onStack|
    requires StackShape(index, onStack, stack) && PathShape(index, onStack, stack, path)
    requires LowSound(g, index, low, onStack, path)
    requires path != []
    ensures low[path[0]] == index[path[0]]
  {
    var v: nat := path[0];
    assert LowReached(g, index, low, onStack, v);
    var w: nat :| LowWitness(g, index, low, onStack, v, w);
    assert w in stack;
  }

  lemma FinishLow(g: Graph, index: seq<int>, low: seq<int>, onStack: seq<bool>, path: seq<nat>)
    requires |index| == |low| == |onStack| == |g|
    requires forall k :: 0 <= k < |path| ==> path[k] < |index| && onStack[path[k]]
    requires forall k, l :: 0 <= k < l < |path| ==> index[path[k]] < index[path[l]]
    requires |path| > 1 && low[Top(path)] < index[Top(path)]
    requires PathReach(g, index, onStack, path)
    requires LowSound(g, index, low, onStack, path)
    ensures LowSound(g, index, LowAfterFinish(low, path), onStack, Rest(path))
  {
    var p: nat, v: nat := path[|path| - 2], path[|path| - 1];
    LeavePath(g, index, low, onStack, path);
    if low[v] < low[p] {
      assert LowReached(g, index, low, onStack, v);
      var y: nat :| LowWitness(g, index, low, onStack, v, y);
      ReachTrans(EdgesOf(g), p, v, y);
      LowerLow(g, index, low, onStack, Rest(path), p, y);
    } else {
      assert low[p := low[p]] == low;
    }
  }

  lemma LeavePath(g: Graph, index: seq<int>, low: seq<int>, onStack: seq<bool>, path: seq<nat>)
    requires |index| == |low| == |onStack|
    requires path != [] && Top(path) < |index| && low[Top(path)] < index[Top(path)]
    requires LowSound(g, index, low, onStack, path)
    ensures LowSound(g, index, low, onStack, Rest(path))
  {
  }

  lemma FinishBound(g: Graph, index: seq<int>, low: seq<int>, onStack: seq<bool>, stack: seq<nat>,
                    path: seq<nat>, cur: seq<nat>, next: nat)
    requires Shape(g, index, low, onStack, stack, path, cur, next)
    requires |path| > 1
    requires LowBound(g, index, low, onStack, path, cur)
    ensures LowBound(g, index, LowAfterFinish(low, path), onStack, Rest(path), cur)
  {
  }

  lemma FinishPath(g: Graph, index: seq<int>, onStack: seq<bool>, stack: seq<nat>, path: seq<nat>, cur: seq<nat>)
    requires |index| == |onStack| == |cur| == |g|
    requires path != [] && Top(path) < |g| && cur[Top(path)] == |g[Top(path)]|
    requires PathShape(index, onStack, stack, path) && Finished(g, index, path, cur)
    requires PathReach(g, index, onStack, path)
    ensures Finished(g, index, Rest(path), cur) && PathReach(g, index, onStack, Rest(path))
    ensures |path| > 1 ==> PathShape(index, onStack, stack, Rest(path))
  {
  }

  lemma FinishKeeps(g: Graph, index: seq<int>, low: seq<int>, onStack: seq<bool>, stack: seq<nat>,
                    path: seq<nat>, cur: seq<nat>, next: nat, out: seq<seq<nat>>)
    requires Inv(g, index, low, onStack, stack, path, cur, next, out)
    requires path != [] && cur[Top(path)] == |g[Top(path)]| && low[Top(path)] != index[Top(path)]
    ensures |path| > 1
    ensures Inv(g, index, LowAfterFinish(low, path), onStack, stack, Rest(path), cur, next, out)
  {
    OutermostIsRoot(g, index, low, onStack, stack, path);
    FinishPath(g, index, onStack, stack, path, cur);
    FinishLow(g, index, low, onStack, path);
    FinishBound(g, index, low, onStack, stack, path, cur, next);
  }

  // -------------------------------------- finishing a root: its component is popped

  /** `m` is the stack position of `v`, and `onStack'` drops the flags from there up. */
  ghost predicate Cut(index: seq<int>, onStack: seq<bool>, onStack': seq<bool>, stack: seq<nat>, v: nat, m: nat)
    requires |index| == |onStack|
  {
    && |onStack'| == |onStack|
    && m < |stack| && stack[m] == v && v < |index|
    && (forall x :: 0 <= x < |index| ==> (onStack'[x] <==> onStack[x] && index[x] < index[v]))
  }

  lemma CutStack(index: seq<int>, onStack: seq<bool>, onStack': seq<bool>, stack: seq<nat>, path: seq<nat>, m: nat)
    requires |index| == |onStack|
    requires StackShape(index, onStack, stack) && PathShape(index, onStack, stack, path)
    requires path != [] && Cut(index, onStack, onStack', stack, Top(path), m)
    ensures StackShape(index, onStack', stack[..m])
  {
  }

  lemma CutPath(index: seq<int>, onStack: seq<bool>, onStack': seq<bool>, stack: seq<nat>, path: seq<nat>, m: nat)
    requires |index| == |onStack|
    requires StackShape(index, onStack, stack) && PathShape(index, onStack, stack, path)
    requires path != [] && Cut(index, onStack, onStack', stack, Top(path), m)
    ensures PathShape(index, onStack', stack[..m], Rest(path))
  {
  }

  lemma CutLow(g: Graph, index: seq<int>, low: seq<int>, onStack: seq<bool>, onStack': seq<bool>, stack: seq<nat>,
               path: seq<nat>, m: nat)
    requires |index| == |low| == |onStack|
    requires path != [] && Cut(index, onStack, onStack', stack, Top(path), m)
    requires LowSound(g, index, low, onStack, path)
    ensures LowSound(g, index, low, onStack', Rest(path))
  {
    assert path == Rest(path) + [Top(path)];
    forall x: nat {:trigger LowReached(g, index, low, onStack', x)} | x < |index| && onStack'[x]
      ensures LowReached(g, index, low, onStack', x)
    {
      assert LowReached(g, index, low, onStack, x);
      var y: nat :| LowWitness(g, index, low, onStack, x, y);
      assert LowWitness(g, index, low, onStack', x, y);
    }
  }

  lemma CutBound(g: Graph, index: seq<int>, low: seq<int>, onStack: seq<bool>, onStack': seq<bool>, stack: seq<nat>,
                 path: seq<nat>, cur: seq<nat>, m: nat)
    requires WellFormed(g) && |index| == |low| == |onStack| == |cur| == |g|
    requires forall l :: 0 <= l < |path| ==> path[l] < |index|
    requires forall v :: 0 <= v < |g| ==> cur[v] <= |g[v]|
    requires path != [] && Cut(index, onStack, onStack', stack, Top(path), m)
    requires LowBound(g, index, low, onStack, path, cur)
    ensures LowBound(g, index, low, onStack', Rest(path), cur)
  {
  }

  /** Every successor of a popped block is done once the pop is over. */
  lemma CutClosed(g: Graph, index: seq<int>, low: seq<int>, onStack: seq<bool>, onStack': seq<bool>, stack: seq<nat>,
                  path: seq<nat>, cur: seq<nat>, m: nat)
    requires WellFormed(g) && |index| == |low| == |onStack| == |cur| == |g|
    requires forall v :: 0 <= v < |g| ==> cur[v] <= |g[v]|
    requires forall v :: 0 <= v < |g| && onStack[v] ==> index[v] != UNSEEN
    requires path != [] && PathShape(index, onStack, stack, path)
    requires Cut(index, onStack, onStack', stack, Top(path), m)
    requires low[Top(path)] == index[Top(path)]
    requires Finished(g, index, Rest(path), cur) && ReadSeen(g, index, cur)
    requires LowBound(g, index, low, onStack, path, cur)
    requires DoneClosed(g, index, onStack)
    ensures DoneClosed(g, index, onStack')
  {
  }

  /** Every stacked block reaches a block on the call stack that is not above it. */
  lemma {:induction false} DownToPath(g: Graph, index: seq<int>, low: seq<int>, onStack: seq<bool>, path: seq<nat>,
                                      x: nat)
      returns (u: nat)
    requires |index| == |low| == |onStack|
    requires LowSound(g, index, low, onStack, path)
    requires x < |index| && onStack[x]
    requires forall v :: 0 <= v < |index| && onStack[v] ==> 0 <= index[v]
    ensures u in path && u < |index| && index[u] <= index[x] && Reach(EdgesOf(g), x, u)
    decreases index[x]
  {
    if x in path {
      u := x;
      ReachRefl(EdgesOf(g), x);
    } else {
      assert LowReached(g, index, low, onStack, x);
      var y: nat :| LowWitness(g, index, low, onStack, x, y);
      u := DownToPath(g, index, low, onStack, path, y);
      ReachTrans(EdgesOf(g), x, y, u);
    }
  }

  /** The blocks stacked from a finished root up are mutually reachable with the root. */
  lemma PoppedConnected(g: Graph, index: seq<int>, low: seq<int>, onStack: seq<bool>, stack: seq<nat>, path: seq<nat>,
                        x: nat)
    requires |index| == |low| == |onStack|
    requires PathShape(index, onStack, stack, path) && path != []
    requires PathReach(g, index, onStack, path) && LowSound(g, index, low, onStack, path)
    requires forall v :: 0 <= v < |index| && onStack[v] ==> 0 <= index[v]
    requires x < |index| && onStack[x] && index[Top(path)] <= index[x]
    ensures Reach(EdgesOf(g), Top(path), x) && Reach(EdgesOf(g), x, Top(path))
  {
    var v: nat := Top(path);
    var u := DownToPath(g, index, low, onStack, path, x);
    assert Reach(EdgesOf(g), u, v);
    ReachTrans(EdgesOf(g), x, u, v);
  }

  /** A block mutually reachable with a popped block is popped with it. */
  lemma PoppedMaximal(g: Graph, index: seq<int>, onStack: seq<bool>, onStack': seq<bool>, x: nat, y: nat)
    requires WellFormed(g) && |index| == |onStack| == |onStack'| == |g|
    requires DoneClosed(g, index, onStack) && DoneClosed(g, index, onStack')
    requires x < |g| && Done(index, onStack', x) && onStack[x]
    requires Reach(EdgesOf(g), x, y) && Reach(EdgesOf(g), y, x)
    ensures y < |g| && Done(index, onStack', y) && onStack[y]
  {
    var before := iset z: nat | Done(index, onStack, z);
    var after := iset z: nat | Done(index, onStack', z);
    ClosedReach(EdgesOf(g), after, x, y);
    if !onStack[y] {
      ClosedReach(EdgesOf(g), before, y, x);
    }
  }

  lemma PoppedIsComponent(g: Graph, index: seq<int>, low: seq<int>, onStack: seq<bool>, onStack': seq<bool>,
                          stack: seq<nat>, path: seq<nat>, m: nat, c: seq<nat>)
    requires WellFormed(g) && |index| == |low| == |onStack| == |g|
    requires PathShape(index, onStack, stack, path) && path != []
    requires Cut(index, onStack, onStack', stack, Top(path), m)
    requires PathReach(g, index, onStack, path) && LowSound(g, index, low, onStack, path)
    requires forall v :: 0 <= v < |index| && onStack[v] ==> 0 <= index[v]
    requires DoneClosed(g, index, onStack) && DoneClosed(g, index, onStack')
    requires NoDup(c)
    requires forall x: nat :: x in c <==> x < |index| && onStack[x] && index[Top(path)] <= index[x]
    ensures IsComponent(g, c)
  {
    var v: nat, e: Edges<nat> := Top(path), EdgesOf(g);
    assert v in c;
    forall x: nat, y: nat | x in c && y < |g|
      ensures y in c <==> Reach(e, x, y) && Reach(e, y, x)
    {
      PoppedConnected(g, index, low, onStack, stack, path, x);
      if y in c {
        PoppedConnected(g, index, low, onStack, stack, path, y);
        ReachTrans(e, x, v, y);
        ReachTrans(e, y, v, x);
      } else if Reach(e, x, y) && Reach(e, y, x) {
        PoppedMaximal(g, index, onStack, onStack', x, y);
      }
    }
  }

  /** What is emitted already is closed under edges, so it does not reach what is emitted now. */
  lemma EmittedBackwards(g: Graph, index: seq<int>, onStack: seq<bool>, out: seq<seq<nat>>, c: seq<nat>)
    requires |index| == |onStack| == |g| && OutShape(g, index, onStack, out) && DoneClosed(g, index, onStack)
    requires forall x: nat :: x in c ==> x < |index| && onStack[x]
    ensures Backwards(g, out + [c])
  {
    hide Reach;
    var done := iset z: nat | Done(index, onStack, z);
    forall d | 0 <= d < |out| ensures NoWay(g, out[d], c) {
      forall x: nat, y: nat | x in out[d] && y in c ensures !Reach(EdgesOf(g), x, y) {
        assert Done(index, onStack, x);
        if Reach(EdgesOf(g), x, y) { ClosedReach(EdgesOf(g), done, x, y); }
      }
    }
  }

  lemma CutOut(g: Graph, index: seq<int>, onStack: seq<bool>, onStack': seq<bool>, out: seq<seq<nat>>, c: seq<nat>)
    requires |index| == |onStack| == |onStack'| == |g|
    requires OutShape(g, index, onStack, out) && IsComponent(g, c)
    requires forall x :: 0 <= x < |index| && onStack'[x] ==> onStack[x]
    requires forall x :: 0 <= x < |index| && onStack[x] ==> index[x] != UNSEEN
    requires forall x: nat :: x in c <==> x < |index| && onStack[x] && !onStack'[x]
    requires DoneClosed(g, index, onStack)
    ensures OutShape(g, index, onStack', out + [c])
  {
    var out' := out + [c];
    EmittedBackwards(g, index, onStack, out, c);
    hide Backwards;
    forall v: nat | Done(index, onStack', v)
      ensures Covered(out', v)
    {
      if onStack[v] {
        assert v in out'[|out|];
      } else {
        assert Done(index, onStack, v);
        assert Covered(out, v);
        var d :| 0 <= d < |out| && v in out[d];
        assert v in out'[d];
      }
    }
    forall d, x: nat | 0 <= d < |out'| && x in out'[d] ensures Done(index, onStack', x) {
      if d < |out| { assert Done(index, onStack, x); }
    }
    forall d, d', x: nat | 0 <= d < d' < |out'| && x in out'[d] ensures x !in out'[d'] {
      assert Done(index, onStack, x);
    }
  }

  lemma CutKeeps(g: Graph, index: seq<int>, low: seq<int>, onStack: seq<bool>, onStack': seq<bool>, stack: seq<nat>,
                 path: seq<nat>, cur: seq<nat>, next: nat, out: seq<seq<nat>>, m: nat, c: seq<nat>)
    requires Inv(g, index, low, onStack, stack, path, cur, next, out)
    requires path != [] && cur[Top(path)] == |g[Top(path)]| && low[Top(path)] == index[Top(path)]
    requires Cut(index, onStack, onStack', stack, Top(path), m)
    requires NoDup(c)
    requires forall x: nat :: x in c <==> x < |index| && onStack[x] && index[Top(path)] <= index[x]
    ensures Inv(g, index, low, onStack', stack[..m], Rest(path), cur, next, out + [c])
  {
    FinishPath(g, index, onStack, stack, path, cur);
    CutStack(index, onStack, onStack', stack, path, m);
    CutPath(index, onStack, onStack', stack, path, m);
    CutLow(g, index, low, onStack, onStack', stack, path, m);
    CutBound(g, index, low, onStack, onStack', stack, path, cur, m);
    CutClosed(g, index, low, onStack, onStack', stack, path, cur, m);
    PoppedIsComponent(g, index, low, onStack, onStack', stack, path, m, c);
    CutOut(g, index, onStack, onStack', out, c);
  }

  // ---------------------------------------------------------------- the program

  function Sum(s: seq<nat>): nat {
    if s == [] then 0 else s[0] + Sum(s[1..])
  }

  lemma {:induction false} SumBump(s: seq<nat>, i: nat)
    requires i < |s|
    ensures Sum(s[i := s[i] + 1]) == Sum(s) + 1
  {
    var r := s[i := s[i] + 1];
    if i == 0 {
      assert r[1..] == s[1..];
    } else {
      assert r[1..] == s[1..][i - 1 := s[1..][i - 1] + 1];
      SumBump(s[1..], i - 1);
    }
  }

  /** Raising one entry that stays within its bound keeps the sum within the bound's sum. */
  lemma {:induction false} SumBound(s: seq<nat>, b: seq<nat>)
    requires |s| == |b| && forall i :: 0 <= i < |s| ==> s[i] <= b[i]
    ensures Sum(s) <= Sum(b)
  {
    if s != [] {
      SumBound(s[1..], b[1..]);
    }
  }

  function Degrees(g: Graph): seq<nat> {
    seq(|g|, v requires 0 <= v < |g| => |g[v]|)
  }

  /** `CfgIndex::edge_count`. */
  function EdgeCount(g: Graph): nat {
    Sum(Degrees(g))
  }

  /** The components of `g`: right, covering every block, pairwise disjoint. */
  ghost predicate IsSccPartition(g: Graph, sccs: seq<seq<nat>>) {
    && (forall c :: 0 <= c < |sccs| ==> IsComponent(g, sccs[c]))
    && (forall v: nat :: v < |g| ==> Covered(sccs, v))
    && (forall c, d, x :: 0 <= c < d < |sccs| && x in sccs[c] ==> x !in sccs[d])
  }

  function Longer(a: seq<nat>, b: seq<nat>): bool { |a| >= |b| }

  lemma SortKeepsPartition(g: Graph, out: seq<seq<nat>>)
    requires IsSccPartition(g, out)
    ensures IsSccPartition(g, Sort(Longer, out))
    ensures forall c, d :: 0 <= c < d < |Sort(Longer, out)| ==> |Sort(Longer, out)[c]| >= |Sort(Longer, out)[d]|
  {
    var r := Sort(Longer, out);
    SortSorted(Longer, out);
    SameMembers(r, out);
    assert NoDup(out) by {
      forall c, d | 0 <= c < d < |out| ensures out[c] != out[d] {
        assert IsComponent(g, out[c]);
        assert out[c][0] in out[c];
      }
    }
    NoDupPermutes(r, out);
    forall c | 0 <= c < |r| ensures IsComponent(g, r[c]) {
      assert r[c] in out;
    }
    forall v: nat | v < |g| ensures Covered(r, v) {
      assert Covered(out, v);
      var c :| 0 <= c < |out| && v in out[c];
      assert out[c] in r;
    }
    forall c, d, x | 0 <= c < d < |r| && x in r[c] ensures x !in r[d] {
      assert r[c] in out && r[d] in out && r[c] != r[d];
    }
  }

  /** Of two components of the same size the first does not reach the second. */
  ghost predicate TiesBackwards(g: Graph, sccs: seq<seq<nat>>) {
    forall c, d :: 0 <= c < d < |sccs| && |sccs[c]| == |sccs[d]| ==> NoWay(g, sccs[c], sccs[d])
  }

  /** Components of the same size stay in the order in which they were emitted. */
  lemma SortKeepsTies(g: Graph, out: seq<seq<nat>>)
    requires Backwards(g, out)
    ensures TiesBackwards(g, Sort(Longer, out))
  {
    hide NoWay;
    var before := (a: seq<nat>, b: seq<nat>) => NoWay(g, a, b);
    SortStable(Longer, before, out);
    var r := Sort(Longer, out);
    forall c, d | 0 <= c < d < |r| && |r[c]| == |r[d]| ensures NoWay(g, r[c], r[d]) {
      assert Longer(r[d], r[c]);
      assert before(r[c], r[d]);
    }
  }

  /** Per block, the steps it costs in all: one per slot and one to finish. */
  ghost function FullCost(g: Graph): seq<nat> {
    seq(|g|, v requires 0 <= v < |g| => |g[v]| + 1)
  }

  lemma {:induction false} FullCostSum(g: Graph)
    ensures Sum(FullCost(g)) == |g| + EdgeCount(g)
  {
    if g != [] {
      FullCostSum(g[1..]);
      assert FullCost(g)[1..] == FullCost(g[1..]);
      assert Degrees(g)[1..] == Degrees(g[1..]);
    }
  }

  /**
   The books of a run.  `entered` and `slots` record, in order, the blocks pushed
   on the call stack and the successor slots read; `steps` counts the turns of
   the inner loop.
   */
  ghost predicate Books(g: Graph, index: seq<int>, cur: seq<nat>, depth: nat, spent: seq<nat>,
                        entered: seq<nat>, slots: seq<(nat, nat)>, steps: nat)
  {
    && |index| == |cur| == |spent| == |g|
    && (forall v :: 0 <= v < |g| ==> spent[v] == cur[v] + if index[v] == UNSEEN then 0 else 1)
    && Sum(spent) == steps + depth
    && NoDup(entered)
    && (forall v: nat :: v in entered <==> v < |g| && index[v] != UNSEEN)
    && NoDup(slots)
    && (forall v: nat, j: nat :: (v, j) in slots <==> v < |g| && j < cur[v])
  }

  lemma BookInit(g: Graph, index: seq<int>, cur: seq<nat>)
    requires |index| == |cur| == |g|
    requires forall v :: 0 <= v < |g| ==> index[v] == UNSEEN && cur[v] == 0
    ensures Books(g, index, cur, 0, cur, [], [], 0)
  {
    SumZero(cur);
  }

  lemma {:induction false} SumZero(s: seq<nat>)
    requires forall i :: 0 <= i < |s| ==> s[i] == 0
    ensures Sum(s) == 0
  {
    if s != [] { SumZero(s[1..]); }
  }

  lemma BookVisit(g: Graph, index: seq<int>, cur: seq<nat>, depth: nat, spent: seq<nat>,
                  entered: seq<nat>, slots: seq<(nat, nat)>, steps: nat, w: nat, next: nat)
    requires Books(g, index, cur, depth, spent, entered, slots, steps)
    requires w < |g| && index[w] == UNSEEN
    ensures Books(g, index[w := next], cur, depth + 1, spent[w := spent[w] + 1], entered + [w], slots, steps)
  {
    SumBump(spent, w);
  }

  lemma BookRead(g: Graph, index: seq<int>, cur: seq<nat>, depth: nat, spent: seq<nat>,
                 entered: seq<nat>, slots: seq<(nat, nat)>, steps: nat, v: nat)
    requires Books(g, index, cur, depth, spent, entered, slots, steps)
    requires v < |g|
    ensures Books(g, index, cur[v := cur[v] + 1], depth, spent[v := spent[v] + 1], entered,
                  slots + [(v, cur[v])], steps + 1)
  {
    SumBump(spent, v);
  }

  lemma BookFacts(g: Graph, index: seq<int>, cur: seq<nat>, depth: nat, spent: seq<nat>,
                  entered: seq<nat>, slots: seq<(nat, nat)>, steps: nat)
    requires Books(g, index, cur, depth, spent, entered, slots, steps)
    ensures |index| == |cur| == |spent| == |g|
  {
  }

  lemma BookFinish(g: Graph, index: seq<int>, cur: seq<nat>, depth: nat, spent: seq<nat>,
                   entered: seq<nat>, slots: seq<(nat, nat)>, steps: nat)
    requires Books(g, index, cur, depth, spent, entered, slots, steps) && depth > 0
    ensures Books(g, index, cur, depth - 1, spent, entered, slots, steps + 1)
  {
  }

  /** The books bound the number of steps, and close at blocks plus edges. */
  lemma BookBound(g: Graph, index: seq<int>, cur: seq<nat>, depth: nat, spent: seq<nat>,
                  entered: seq<nat>, slots: seq<(nat, nat)>, steps: nat)
    requires Books(g, index, cur, depth, spent, entered, slots, steps)
    requires forall v :: 0 <= v < |g| ==> cur[v] <= |g[v]|
    ensures steps + depth <= |g| + EdgeCount(g)
    ensures (forall v :: 0 <= v < |g| ==> cur[v] == |g[v]| && index[v] != UNSEEN)
            ==> steps + depth == |g| + EdgeCount(g)
  {
    FullCostSum(g);
    SumBound(spent, FullCost(g));
    if forall v :: 0 <= v < |g| ==> cur[v] == |g[v]| && index[v] != UNSEEN {
      assert spent == FullCost(g);
    }
  }

  /** The explicit call stack holds the blocks of `path` with their cursors. */
  ghost predicate Calls(call: seq<(nat, nat)>, path: seq<nat>, cur: seq<nat>) {
    && |call| == |path|
    && (forall k :: 0 <= k < |path| ==> path[k] < |cur| && call[k] == (path[k], cur[path[k]]))
  }

  lemma CallsTop(call: seq<(nat, nat)>, path: seq<nat>, cur: seq<nat>)
    requires Calls(call, path, cur)
    ensures |call| == |path|
    ensures call != [] ==> Top(path) < |cur| && call[|call| - 1] == (Top(path), cur[Top(path)])
    ensures |call| > 1 ==> call[|call| - 2].0 == path[|path| - 2]
  {
  }

  lemma CallsVisit(call: seq<(nat, nat)>, path: seq<nat>, cur: seq<nat>, w: nat)
    requires Calls(call, path, cur) && w < |cur| && cur[w] == 0
    ensures Calls(call + [(w, 0)], path + [w], cur)
  {
  }

  lemma CallsRead(call: seq<(nat, nat)>, path: seq<nat>, cur: seq<nat>)
    requires Calls(call, path, cur) && call != [] && NoDup(path)
    ensures var (v, ci) := call[|call| - 1];
            v < |cur| && Calls(call[|call| - 1 := (v, ci + 1)], path, cur[v := ci + 1])
  {
  }

  lemma CallsPop(call: seq<(nat, nat)>, path: seq<nat>, cur: seq<nat>)
    requires Calls(call, path, cur) && call != []
    ensures Calls(call[..|call| - 1], Rest(path), cur)
  {
  }

  lemma InvInit(g: Graph, index: seq<int>, low: seq<int>, onStack: seq<bool>, cur: seq<nat>)
    requires WellFormed(g) && |index| == |low| == |onStack| == |cur| == |g|
    requires forall v :: 0 <= v < |g| ==> index[v] == UNSEEN && !onStack[v] && cur[v] == 0
    ensures Inv(g, index, low, onStack, [], [], cur, 0, [])
  {
  }

  /** Pop the SCC stack down to and including `v`: the `while let Some(w) = stack.pop()` loop. */
  method PopComponent(onStack: array<bool>, stack: seq<nat>, v: nat)
      returns (rest: seq<nat>, scc: seq<nat>)
    requires v in stack && NoDup(stack)
    requires forall i :: 0 <= i < |stack| ==> stack[i] < onStack.Length
    modifies onStack
    ensures |rest| < |stack| && stack[|rest|] == v && rest == stack[..|rest|]
    ensures |scc| == |stack| - |rest| && forall i :: 0 <= i < |scc| ==> scc[i] == stack[|stack| - 1 - i]
    ensures forall x :: 0 <= x < onStack.Length ==> onStack[x] == (old(onStack[x]) && x !in scc)
  {
    rest, scc := stack, [];
    ghost var m :| 0 <= m < |stack| && stack[m] == v;
    while true
      invariant m < |rest| <= |stack| && rest == stack[..|rest|]
      invariant |scc| == |stack| - |rest|
      invariant forall i :: 0 <= i < |scc| ==> scc[i] == stack[|stack| - 1 - i]
      invariant forall x :: 0 <= x < onStack.Length ==> onStack[x] == (old(onStack[x]) && x !in scc)
      decreases |rest|
    {
      var w := rest[|rest| - 1];
      rest := rest[..|rest| - 1];
      onStack[w] := false;
      scc := scc + [w];
      if w == v {
        break;
      }
    }
  }

  /** The popped blocks are the stacked ones whose index is at least that of the root. */
  lemma PoppedMembers(index: seq<int>, onStack: seq<bool>, stack: seq<nat>, m: nat, scc: seq<nat>, x: nat)
    requires |index| == |onStack| && StackShape(index, onStack, stack) && m < |stack|
    requires |scc| == |stack| - m && forall i :: 0 <= i < |scc| ==> scc[i] == stack[|stack| - 1 - i]
    ensures x in scc <==> x < |index| && onStack[x] && index[stack[m]] <= index[x]
  {
    if x < |index| && onStack[x] && index[stack[m]] <= index[x] {
      assert x in stack;
      var i :| 0 <= i < |stack| && stack[i] == x;
      assert scc[|stack| - 1 - i] == x;
    }
  }

  lemma PopKeeps(g: Graph, index: seq<int>, low: seq<int>, onStack: seq<bool>, onStack': seq<bool>, stack: seq<nat>,
                 path: seq<nat>, cur: seq<nat>, next: nat, out: seq<seq<nat>>, m: nat, c: seq<nat>)
    requires Inv(g, index, low, onStack, stack, path, cur, next, out)
    requires path != [] && cur[Top(path)] == |g[Top(path)]| && low[Top(path)] == index[Top(path)]
    requires m < |stack| && stack[m] == Top(path)
    requires |c| == |stack| - m && forall i :: 0 <= i < |c| ==> c[i] == stack[|stack| - 1 - i]
    requires |onStack'| == |onStack| && forall x :: 0 <= x < |onStack| ==> onStack'[x] == (onStack[x] && x !in c)
    ensures Inv(g, index, low, onStack', stack[..m], Rest(path), cur, next, out + [c])
  {
    forall x: nat ensures x in c <==> x < |index| && onStack[x] && index[Top(path)] <= index[x] {
      PoppedMembers(index, onStack, stack, m, c, x);
    }
    assert NoDup(c);
    CutKeeps(g, index, low, onStack, onStack', stack, path, cur, next, out, m, c);
  }

  /** A root's `low` is folded into its parent without effect. */
  lemma RootFoldsNothing(g: Graph, index: seq<int>, low: seq<int>, onStack: seq<bool>, stack: seq<nat>,
                         path: seq<nat>, cur: seq<nat>, next: nat, out: seq<seq<nat>>)
    requires Inv(g, index, low, onStack, stack, path, cur, next, out)
    requires path != [] && low[Top(path)] == index[Top(path)]
    ensures LowAfterFinish(low, path) == low
  {
  }

  /** What the loop needs to know of the invariant to take its next action. */
  lemma InvFacts(g: Graph, index: seq<int>, low: seq<int>, onStack: seq<bool>, stack: seq<nat>,
                 path: seq<nat>, cur: seq<nat>, next: nat, out: seq<seq<nat>>)
    requires Inv(g, index, low, onStack, stack, path, cur, next, out)
    ensures WellFormed(g) && |index| == |low| == |onStack| == |cur| == |g|
    ensures forall v :: 0 <= v < |g| ==> cur[v] <= |g[v]|
    ensures forall v :: 0 <= v < |g| && index[v] == UNSEEN ==> cur[v] == 0
    ensures forall k :: 0 <= k < |path| ==> path[k] < |g| && index[path[k]] != UNSEEN
    ensures NoDup(path)
    ensures path != [] ==> Top(path) in stack
    ensures NoDup(stack) && forall i :: 0 <= i < |stack| ==> stack[i] < |g|
    ensures path == [] ==> stack == []
  {
  }

  /** When every block has an index and the call stack is empty, all slots are read and all blocks emitted. */
  lemma InvEnd(g: Graph, index: seq<int>, low: seq<int>, onStack: seq<bool>, stack: seq<nat>,
               path: seq<nat>, cur: seq<nat>, next: nat, out: seq<seq<nat>>)
    requires Inv(g, index, low, onStack, stack, path, cur, next, out) && path == []
    requires forall v :: 0 <= v < |g| ==> index[v] != UNSEEN
    ensures IsSccPartition(g, out) && Backwards(g, out)
    ensures forall v :: 0 <= v < |g| ==> cur[v] == |g[v]|
  {
  }

  /** What the books say once all slots are read. */
  lemma BooksEnd(g: Graph, index: seq<int>, cur: seq<nat>, spent: seq<nat>,
                 entered: seq<nat>, slots: seq<(nat, nat)>, steps: nat)
    requires Books(g, index, cur, 0, spent, entered, slots, steps)
    requires forall v :: 0 <= v < |g| ==> cur[v] == |g[v]| && index[v] != UNSEEN
    ensures NoDup(entered) && forall v: nat :: v in entered <==> v < |g|
    ensures NoDup(slots) && forall v: nat, j: nat :: (v, j) in slots <==> v < |g| && j < |g[v]|
    ensures steps == |g| + EdgeCount(g)
  {
    BookBound(g, index, cur, 0, spent, entered, slots, steps);
  }

  /**
   The locals of `tarjan_sccs` and the actions of its loops.  `path` is the block
   part of `call`; `cur`, `spent`, `entered`, `slots` and `steps` are the books.
   */
  class Search {
    const g: Graph
    const index: array<int>
    const low: array<int>
    const onStack: array<bool>
    var stack: seq<nat>
    var call: seq<(nat, nat)>
    var next: nat
    var out: seq<seq<nat>>
    ghost var path: seq<nat>
    ghost var cur: seq<nat>
    ghost var spent: seq<nat>
    ghost var entered: seq<nat>
    ghost var slots: seq<(nat, nat)>
    ghost var steps: nat

    ghost predicate Valid()
      reads this, index, low, onStack
    {
      && index != low
      && Inv(g, index[..], low[..], onStack[..], stack, path, cur, next, out)
      && Calls(call, path, cur)
      && Books(g, index[..], cur, |path|, spent, entered, slots, steps)
    }

    /** Blocks keep their index once they have one. */
    twostate predicate Grows()
      reads this, index
    {
      forall v :: 0 <= v < index.Length && old(index[v]) != UNSEEN ==> index[v] != UNSEEN
    }

    constructor (g: Graph)
      requires WellFormed(g)
      ensures Valid() && this.g == g && call == [] && path == []
      ensures fresh(index) && fresh(low) && fresh(onStack)
    {
      this.g := g;
      index := new int[|g|](_ => UNSEEN);
      low := new int[|g|](_ => 0);
      onStack := new bool[|g|](_ => false);
      stack, call, next, out := [], [], 0, [];
      path, cur, spent := [], seq(|g|, _ => 0), seq(|g|, _ => 0);
      entered, slots, steps := [], [], 0;
      new;
      InvInit(g, index[..], low[..], onStack[..], cur);
      BookInit(g, index[..], cur);
    }

    /** Give `w` the next index and push it on both stacks (lines 134-139 and 145-150). */
    method Enter(w: nat, ghost before: seq<nat>)
      requires index != low && Calls(call, path, cur)
      requires Inv(g, index[..], low[..], onStack[..], stack, path, before, next, out)
      requires Books(g, index[..], cur, |path|, spent, entered, slots, steps)
      requires w < |g| == index.Length == low.Length == onStack.Length == |before| == |cur| == |spent|
      requires index[w] == UNSEEN && cur[w] == 0
      requires ReadsInto(g, path, before, cur, w)
      modifies this, index, low, onStack
      ensures Valid() && Grows() && index[w] != UNSEEN && steps == old(steps)
      ensures path == old(path) + [w]
    {
      hide Inv;
      hide Books;
      hide Calls;
      hide ReadsInto;
      ghost var i0, l0, o0 := index[..], low[..], onStack[..];
      CallsVisit(call, path, cur, w);
      VisitKeeps(g, i0, l0, o0, stack, path, before, cur, next, out, w);
      BookVisit(g, i0, cur, |path|, spent, entered, slots, steps, w, next);
      index[w] := next;
      assert index[..] == i0[w := next];
      low[w] := next;
      assert low[..] == l0[w := next];
      onStack[w] := true;
      assert onStack[..] == o0[w := true];
      stack := stack + [w];
      call := call + [(w, 0)];
      path, spent, entered := path + [w], spent[w := spent[w] + 1], entered + [w];
      next := next + 1;
    }

    /** The top of the call stack reads its next slot (lines 141-153). */
    method ReadSlot()
      requires Valid() && call != []
      requires call[|call| - 1].0 < |g| && call[|call| - 1].1 < |g[call[|call| - 1].0]|
      modifies this, index, low, onStack
      ensures Valid() && Grows() && steps == old(steps) + 1
    {
      hide Inv;
      hide Books;
      hide Calls;
      ghost var i0, l0, o0, c0 := index[..], low[..], onStack[..], cur;
      InvFacts(g, i0, l0, o0, stack, path, cur, next, out);
      BookFacts(g, i0, cur, |path|, spent, entered, slots, steps);
      CallsTop(call, path, cur);
      CallsRead(call, path, cur);
      var (v, ci) := call[|call| - 1];
      var w := g[v][ci];
      BookRead(g, i0, cur, |path|, spent, entered, slots, steps, v);
      call := call[|call| - 1 := (v, ci + 1)];
      cur, spent, slots, steps := cur[v := ci + 1], spent[v := spent[v] + 1], slots + [(v, ci)], steps + 1;
      if index[w] == UNSEEN {
        Enter(w, c0);
      } else {
        ReadKeeps(g, i0, l0, o0, stack, path, c0, next, out, v, w);
        if onStack[w] {
          low[v] := if low[v] < index[w] then low[v] else index[w];
        }
        assert low[..] == LowAfterRead(i0, l0, o0, v, w);
      }
    }

    /** Pop the component of the finished root on top of the call stack (lines 162-170). */
    method Emit(v: nat)
      requires Inv(g, index[..], low[..], onStack[..], stack, path, cur, next, out)
      requires |cur| == |g| == index.Length == low.Length
      requires path != [] && v == Top(path) < |g| && cur[v] == |g[v]| && low[v] == index[v]
      modifies this`stack, this`out, onStack
      ensures Inv(g, index[..], low[..], onStack[..], stack, Rest(path), cur, next, out)
    {
      hide Inv;
      ghost var o0 := onStack[..];
      InvFacts(g, index[..], low[..], o0, stack, path, cur, next, out);
      var rest, scc := PopComponent(onStack, stack, v);
      PopKeeps(g, index[..], low[..], o0, onStack[..], stack, path, cur, next, out, |rest|, scc);
      stack := rest;
      out := out + [scc];
    }

    /** The top of the call stack is finished; a root takes its component with it (lines 156-171). */
    method Finish()
      requires Valid() && call != []
      requires call[|call| - 1].0 < |g| && call[|call| - 1].1 == |g[call[|call| - 1].0]|
      modifies this, index, low, onStack
      ensures Valid() && Grows() && steps == old(steps) + 1
    {
      hide Inv;
      hide Books;
      hide Calls;
      ghost var l0 := low[..];
      InvFacts(g, index[..], low[..], onStack[..], stack, path, cur, next, out);
      CallsTop(call, path, cur);
      CallsPop(call, path, cur);
      var v := call[|call| - 1].0;
      call := call[..|call| - 1];
      if call != [] {
        var p := call[|call| - 1].0;
        low[p] := if low[p] < low[v] then low[p] else low[v];
      }
      assert low[..] == LowAfterFinish(l0, path);
      if low[v] == index[v] {
        RootFoldsNothing(g, index[..], l0, onStack[..], stack, path, cur, next, out);
        Emit(v);
      } else {
        FinishKeeps(g, index[..], l0, onStack[..], stack, path, cur, next, out);
      }
      BookFinish(g, index[..], cur, |path|, spent, entered, slots, steps);
      path, steps := Rest(path), steps + 1;
    }
  }

  /** `CfgIndex::tarjan_sccs`. */
  method TarjanSccs(g: Graph)
      returns (sccs: seq<seq<nat>>, ghost entered: seq<nat>, ghost slots: seq<(nat, nat)>, ghost steps: nat)
    requires WellFormed(g)
    ensures IsSccPartition(g, sccs)
    ensures forall c, d :: 0 <= c < d < |sccs| ==> |sccs[c]| >= |sccs[d]|
    ensures TiesBackwards(g, sccs)
    ensures NoDup(entered) && forall v: nat :: v in entered <==> v < |g|
    ensures NoDup(slots) && forall v: nat, j: nat :: (v, j) in slots <==> v < |g| && j < |g[v]|
    ensures steps == |g| + EdgeCount(g)
  {
    hide Inv;
    hide Books;
    var s := new Search(g);
    InvFacts(g, s.index[..], s.low[..], s.onStack[..], s.stack, s.path, s.cur, s.next, s.out);
    for start := 0 to |g|
      invariant s.Valid() && s.g == g && s.index.Length == |g|
      invariant s.call == [] && s.stack == []
      invariant forall v :: 0 <= v < start ==> s.index[v] != UNSEEN
    {
      InvFacts(g, s.index[..], s.low[..], s.onStack[..], s.stack, s.path, s.cur, s.next, s.out);
      if s.index[start] != UNSEEN {
        continue;
      }
      BookFacts(g, s.index[..], s.cur, |s.path|, s.spent, s.entered, s.slots, s.steps);
      s.Enter(start, s.cur);
      while s.call != []
        invariant s.Valid() && s.g == g
        invariant forall v :: 0 <= v <= start ==> s.index[v] != UNSEEN
        decreases |g| + EdgeCount(g) - s.steps
      {
        InvFacts(g, s.index[..], s.low[..], s.onStack[..], s.stack, s.path, s.cur, s.next, s.out);
        BookBound(g, s.index[..], s.cur, |s.path|, s.spent, s.entered, s.slots, s.steps);
        var (v, ci) := s.call[|s.call| - 1];
        if ci < |g[v]| {
          s.ReadSlot();
        } else {
          s.Finish();
        }
      }
      InvFacts(g, s.index[..], s.low[..], s.onStack[..], s.stack, s.path, s.cur, s.next, s.out);
    }
    InvEnd(g, s.index[..], s.low[..], s.onStack[..], s.stack, s.path, s.cur, s.next, s.out);
    BooksEnd(g, s.index[..], s.cur, s.spent, s.entered, s.slots, s.steps);
    SortKeepsPartition(g, s.out);
    SortKeepsTies(g, s.out);
    hide TiesBackwards;
    sccs := Sort(Longer, s.out);
    entered, slots, steps := s.entered, s.slots, s.steps;
  }
}
