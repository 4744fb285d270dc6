/**
 What budgets and tokens mean for a deep walk: how far from the root a run gets, how much it holds, in which order it
 goes, and which callee lists survive.
 */
module DeepBounds {
  import opened Basics
  import opened Selections
  import opened Walks
  import opened DeepWalk
  import opened DeepResume

  // ------------------------------------------------------------------ depth

  /** The depth of a frontier entry is the length of a chain of calls from the root to it. */
  ghost predicate AtDepth(db: Db, root: nat, frontier: seq<(nat, nat)>) {
    forall i :: 0 <= i < |frontier| && frontier[i].0 in db.names ==>
      Walk(CallGraph(db), root, frontier[i].0, frontier[i].1)
  }

  /** A chain of fewer calls than the depth budget leads from the root to `x`. */
  ghost predicate Near(db: Db, root: nat, depth: nat, x: nat) {
    exists d: nat :: d < depth && Walk(CallGraph(db), root, x, d)
  }

  lemma PushedDepth(db: Db, s: State, ea: nat, depth: nat, i: nat)
    requires s.frontier != [] && ea in db.names && ea in db.info
    requires |s.frontier| - 1 <= i < |Visit(db, s, ea, depth).frontier|
    ensures Visit(db, s, ea, depth).frontier[i].1 == depth + 1
  {
    var s' := Visit(db, s, ea, depth);
    PushesSpec(db, s'.dossiers, s'.dossiers[ea].callees, depth + 1);
  }

  lemma VisitDepth(db: Db, root: nat, s: State, ea: nat, depth: nat)
    requires AtDepth(db, root, s.frontier) && s.frontier != [] && s.frontier[|s.frontier| - 1] == (ea, depth)
    requires ea in db.names && ea in db.info
    ensures Walk(CallGraph(db), root, ea, depth) && AtDepth(db, root, Visit(db, s, ea, depth).frontier)
  {
    hide Walk; hide CallGraph; hide Pushes; hide DossierOf;
    var s' := Visit(db, s, ea, depth);
    forall i | 0 <= i < |s'.frontier| && s'.frontier[i].0 in db.names
      ensures Walk(CallGraph(db), root, s'.frontier[i].0, s'.frontier[i].1)
    {
      if i < |s.frontier| - 1 {
        assert s'.frontier[i] == s.frontier[i];
      } else {
        PushedIsCalled(db, s, ea, depth, i);
        PushedDepth(db, s, ea, depth, i);
        EdgeWalk(CallGraph(db), ea, s'.frontier[i].0);
        WalkConcat(CallGraph(db), root, ea, s'.frontier[i].0, depth, 1);
      }
    }
  }

  ghost predicate AllNear(db: Db, root: nat, depth: nat, xs: seq<nat>) {
    forall x: nat :: x in xs ==> Near(db, root, depth, x)
  }

  lemma {:induction false} WalkDepth(db: Db, root: nat, b: Budgets, clock: nat -> bool, s: State)
    requires AtDepth(db, root, s.frontier) && AllNear(db, root, b.depth, s.decompiled)
    ensures var stop := WalkFrom(db, b, clock, s);
      stop.Ended? ==> AtDepth(db, root, stop.state.frontier) && AllNear(db, root, b.depth, stop.state.decompiled)
    decreases Left(db, s), |s.frontier|
  {
    hide Visit; hide AllNear; hide WalkFrom;
    if s.frontier == [] {
      WalkNothing(db, b, clock, s);
    } else {
      var (ea, depth) := s.frontier[|s.frontier| - 1];
      WalkTurn(db, b, clock, s, ea, depth);
      if ea in s.dossiers || ea !in db.names {
        LeftSame(db, s, s.frontier[..|s.frontier| - 1]);
        hide OverBudget; hide Left;
        WalkDepth(db, root, b, clock, s.(frontier := s.frontier[..|s.frontier| - 1]));
      } else if !OverBudget(b, clock, s, depth) && ea in db.info {
        assert depth < b.depth;
        hide OverBudget;
        VisitShrinks(db, s, ea, depth);
        VisitAdds(db, s, ea, depth);
        VisitDepth(db, root, s, ea, depth);
        OneMoreNear(db, root, b.depth, s.decompiled, ea, depth);
        hide AtDepth; hide Left;
        WalkDepth(db, root, b, clock, Visit(db, s, ea, depth));
      }
    }
  }

  lemma OneMoreNear(db: Db, root: nat, depth: nat, xs: seq<nat>, x: nat, d: nat)
    requires AllNear(db, root, depth, xs) && Walk(CallGraph(db), root, x, d) && d < depth
    ensures AllNear(db, root, depth, xs + [x])
  {
    hide Walk;
  }

  // ------------------------------------------------------------------ functions and time

  /** A run has no more functions than its budget, unless it restored more, and decompiles only while the clock runs. */
  ghost predicate Within(b: Budgets, clock: nat -> bool, s: State, s': State) {
    && (|s'.dossiers| <= b.maxFunctions || |s'.dossiers| <= |s.dossiers|)
    && (forall k :: |s.decompiled| <= k < |s'.decompiled| ==> clock(k))
  }

  lemma {:induction false} WalkWithin(db: Db, b: Budgets, clock: nat -> bool, s: State)
    ensures var stop := WalkFrom(db, b, clock, s); stop.Ended? ==> Within(b, clock, s, stop.state)
    decreases Left(db, s), |s.frontier|
  {
    hide Visit; hide WalkFrom; hide Left; hide OverBudget;
    if s.frontier == [] {
      WalkNothing(db, b, clock, s);
    } else {
      var (ea, depth) := s.frontier[|s.frontier| - 1];
      WalkTurn(db, b, clock, s, ea, depth);
      if ea in s.dossiers || ea !in db.names {
        LeftSame(db, s, s.frontier[..|s.frontier| - 1]);
        WalkWithin(db, b, clock, s.(frontier := s.frontier[..|s.frontier| - 1]));
      } else if !OverBudget(b, clock, s, depth) && ea in db.info {
        var s1 := Visit(db, s, ea, depth);
        VisitShrinks(db, s, ea, depth);
        VisitWithin(db, b, clock, s, ea, depth);
        WalkWithin(db, b, clock, s1);
        var stop := WalkFrom(db, b, clock, s1);
        if stop.Ended? { WithinTrans(b, clock, s, s1, stop.state); }
      }
    }
  }

  lemma VisitWithin(db: Db, b: Budgets, clock: nat -> bool, s: State, ea: nat, depth: nat)
    requires s.frontier != [] && ea in db.names && ea in db.info && ea !in s.dossiers
    requires !OverBudget(b, clock, s, depth)
    ensures var s' := Visit(db, s, ea, depth);
      |s'.dossiers| <= b.maxFunctions && |s'.decompiled| == |s.decompiled| + 1 && clock(|s.decompiled|)
  {
    VisitAdds(db, s, ea, depth);
    OneMore(s.dossiers, ea);
    var s' := Visit(db, s, ea, depth);
    assert |s'.dossiers| == |s'.dossiers.Keys|;
  }

  lemma WithinTrans(b: Budgets, clock: nat -> bool, s: State, s1: State, s2: State)
    requires |s1.dossiers| <= b.maxFunctions && |s1.decompiled| == |s.decompiled| + 1 && clock(|s.decompiled|)
    requires Within(b, clock, s1, s2)
    ensures Within(b, clock, s, s2)
  {
  }

  // ------------------------------------------------------------------ callee lists

  ghost predicate HasCallees(db: Db, ea: nat, d: Dossier) {
    ea in db.info && Picked(db.info[ea].calls, DirectSite, d.callees)
  }

  /** Functions decompiled by this run have their callees; the others have none. */
  ghost predicate CalleesOk(db: Db, s: State) {
    forall x: nat :: x in s.dossiers ==>
      if x in s.decompiled then HasCallees(db, x, s.dossiers[x]) else s.dossiers[x].callees == []
  }

  lemma VisitCallees(db: Db, s: State, ea: nat, depth: nat)
    requires CalleesOk(db, s) && s.frontier != [] && ea in db.names && ea in db.info
    ensures CalleesOk(db, Visit(db, s, ea, depth))
  {
    hide Pushes; hide Picked; hide Truthful;
    DossierTruthful(db, ea);
    hide DossierOf;
    var s' := Visit(db, s, ea, depth);
    assert forall x: nat :: x in s'.decompiled <==> x in s.decompiled || x == ea;
  }

  lemma {:induction false} WalkCallees(db: Db, b: Budgets, clock: nat -> bool, s: State)
    requires CalleesOk(db, s)
    ensures var stop := WalkFrom(db, b, clock, s); stop.Ended? ==> CalleesOk(db, stop.state)
    decreases Left(db, s), |s.frontier|
  {
    hide Visit; hide WalkFrom; hide Left; hide HasCallees; hide OverBudget;
    if s.frontier == [] {
      WalkNothing(db, b, clock, s);
    } else {
      var (ea, depth) := s.frontier[|s.frontier| - 1];
      WalkTurn(db, b, clock, s, ea, depth);
      if ea in s.dossiers || ea !in db.names {
        LeftSame(db, s, s.frontier[..|s.frontier| - 1]);
        WalkCallees(db, b, clock, s.(frontier := s.frontier[..|s.frontier| - 1]));
      } else if !OverBudget(b, clock, s, depth) && ea in db.info {
        VisitShrinks(db, s, ea, depth);
        VisitCallees(db, s, ea, depth);
        hide CalleesOk;
        WalkCallees(db, b, clock, Visit(db, s, ea, depth));
      }
    }
  }

  // ------------------------------------------------------------------ chains

  /** The run of a chain as a walk: where it starts. */
  ghost function StartState(root: nat, runs: seq<Run>, i: nat): State
    requires i < |runs|
  {
    if i == 0 then State([(root, 0)], map[], [])
    else State(StateOf(runs[i - 1]).frontier, Restored(runs[i - 1].functions), [])
  }

  lemma RunIsWalk(db: Db, root: nat, budgets: seq<Budgets>, clocks: seq<nat -> bool>, runs: seq<Run>, i: nat)
    requires Chain(db, root, budgets, clocks, runs) && i < |runs|
    ensures var stop := WalkFrom(db, budgets[i], clocks[i], StartState(root, runs, i));
      && root in db.names && stop.Ended? && stop.state.dossiers == runs[i].functions
      && stop.state.decompiled == runs[i].decompiled && stop.budgetHit == runs[i].budgetHit
      && (stop.budgetHit ==> stop.state.frontier == StateOf(runs[i]).frontier)
  {
    hide WalkFrom;
    assert Link(db, root, budgets[i], clocks[i], runs, i);
    if i > 0 { ResumedRun(db, root, budgets, clocks, runs, i); }
  }

  /**
   In every run of a chain, functions are decompiled only at fewer calls from the root than the depth budget, pending
   entries carry the length of a chain of calls that leads to them, there are no more functions than the budget unless
   more were restored, and nothing is decompiled after the clock has run out.
   */
  lemma {:induction false} ChainWithin(db: Db, root: nat, budgets: seq<Budgets>, clocks: seq<nat -> bool>,
                                       runs: seq<Run>, i: nat)
    requires Chain(db, root, budgets, clocks, runs) && i < |runs|
    ensures AtDepth(db, root, StateOf(runs[i]).frontier) && AllNear(db, root, budgets[i].depth, runs[i].decompiled)
    ensures |runs[i].functions| <= budgets[i].maxFunctions ||
            (i > 0 && |runs[i].functions| <= |Restored(runs[i - 1].functions)|)
    ensures forall k :: 0 <= k < |runs[i].decompiled| ==> clocks[i](k)
    decreases i
  {
    hide WalkFrom; hide Walk; hide Restored; hide CallGraph;
    var s := StartState(root, runs, i);
    RunIsWalk(db, root, budgets, clocks, runs, i);
    if i > 0 { ChainWithin(db, root, budgets, clocks, runs, i - 1); }
    hide Chain;
    RootDepth(db, root);
    WalkDepth(db, root, budgets[i], clocks[i], s);
    WalkWithin(db, budgets[i], clocks[i], s);
    if !runs[i].budgetHit { NothingPending(db, root, budgets, clocks, runs, i); }
  }

  lemma RootDepth(db: Db, root: nat)
    ensures AtDepth(db, root, [(root, 0)])
  {
  }

  lemma NothingPending(db: Db, root: nat, budgets: seq<Budgets>, clocks: seq<nat -> bool>, runs: seq<Run>, i: nat)
    requires Chain(db, root, budgets, clocks, runs) && i < |runs| && !runs[i].budgetHit
    ensures StateOf(runs[i]).frontier == []
  {
    hide Sane;
    ChainSane(db, root, budgets, clocks, runs, i);
  }

  ghost predicate NoDirectCalls(info: FnInfo) { forall c :: c in info.calls ==> c.Indirect? }

  lemma NothingToPick(info: FnInfo)
    ensures Picked(info.calls, DirectSite, []) <==> NoDirectCalls(info)
  {
    if NoDirectCalls(info) {
      assert forall k :: 0 <= k < |info.calls| ==> info.calls[k] in info.calls;
      assert PickedAt(info.calls, DirectSite, [], []);
    }
    if Picked(info.calls, DirectSite, []) {
      var at: seq<nat> :| PickedAt(info.calls, DirectSite, [], at);
      forall c | c in info.calls ensures c.Indirect? {
        var k :| 0 <= k < |info.calls| && info.calls[k] == c;
        assert k !in at;
      }
    }
  }

  /**
   In every run of a chain a dossier has its callee list, in call order, if and only if this run decompiled the function
   or there are no direct calls to list: tokens do not restore callees.
   */
  lemma CalleesKeptIff(db: Db, root: nat, budgets: seq<Budgets>, clocks: seq<nat -> bool>, runs: seq<Run>, i: nat,
                       x: nat)
    requires Chain(db, root, budgets, clocks, runs) && i < |runs| && x in runs[i].functions
    ensures x in db.info && (HasCallees(db, x, runs[i].functions[x]) <==>
              x in runs[i].decompiled || NoDirectCalls(db.info[x]))
  {
    hide WalkFrom; hide Picked; hide NoDirectCalls;
    var s := StartState(root, runs, i);
    RunIsWalk(db, root, budgets, clocks, runs, i);
    assert CalleesOk(db, s);
    WalkCallees(db, budgets[i], clocks[i], s);
    Indexed(db, root, budgets, clocks, runs, i, x);
    hide Chain; hide StartState;
    NothingToPick(db.info[x]);
  }

  lemma Indexed(db: Db, root: nat, budgets: seq<Budgets>, clocks: seq<nat -> bool>, runs: seq<Run>, i: nat, x: nat)
    requires Chain(db, root, budgets, clocks, runs) && i < |runs| && x in runs[i].functions
    ensures x in db.info
  {
    ChainSane(db, root, budgets, clocks, runs, i);
  }

  // ------------------------------------------------------------------ refusals

  /** A call is refused for an unknown root, and then for a token without dossiers. */
  lemma RefusedIff(db: Db, root: nat, b: Budgets, clock: nat -> bool, resume: Option<Token>)
    ensures var r := DeepRun(db, root, b, clock, resume);
      && (r == Failed(NoFunction) <==> root !in db.names)
      && (r == Failed(BadToken) <==> root in db.names && resume.Some? && resume.value.dossiers == None)
  {
    var start := StartOf(root, resume);
    if start.Some? { BrokeMeans(db, b, clock, start.value); }
    hide WalkFrom;
  }

  lemma {:induction false} BrokeMeans(db: Db, b: Budgets, clock: nat -> bool, s: State)
    ensures var stop := WalkFrom(db, b, clock, s); stop.Broke? ==> stop.why == NoInfo
    decreases Left(db, s), |s.frontier|
  {
    hide Visit; hide WalkFrom; hide Left; hide OverBudget;
    if s.frontier == [] {
      WalkNothing(db, b, clock, s);
    } else {
      var (ea, depth) := s.frontier[|s.frontier| - 1];
      WalkTurn(db, b, clock, s, ea, depth);
      if ea in s.dossiers || ea !in db.names {
        LeftSame(db, s, s.frontier[..|s.frontier| - 1]);
        BrokeMeans(db, b, clock, s.(frontier := s.frontier[..|s.frontier| - 1]));
      } else if !OverBudget(b, clock, s, depth) && ea in db.info {
        VisitShrinks(db, s, ea, depth);
        BrokeMeans(db, b, clock, Visit(db, s, ea, depth));
      }
    }
  }

  /** Some function that direct calls lead to cannot be decompiled. */
  ghost predicate Undecompilable(db: Db, root: nat) {
    exists x: nat :: Reach(CallGraph(db), root, x) && x !in db.info
  }

  lemma {:induction false} BrokeAtMissing(db: Db, root: nat, b: Budgets, clock: nat -> bool, s: State, walked: set<nat>)
    requires Sane(db, root, s, walked) && root in db.names
    ensures WalkFrom(db, b, clock, s).Broke? ==> Undecompilable(db, root)
    decreases Left(db, s), |s.frontier|
  {
    hide Visit; hide WalkFrom; hide Left; hide OverBudget; hide Reach; hide CallGraph;
    if s.frontier == [] {
      WalkNothing(db, b, clock, s);
    } else {
      var (ea, depth) := s.frontier[|s.frontier| - 1];
      WalkTurn(db, b, clock, s, ea, depth);
      if ea in s.dossiers || ea !in db.names {
        LeftSame(db, s, s.frontier[..|s.frontier| - 1]);
        SkipKeeps(db, root, s, walked);
        hide Sane;
        BrokeAtMissing(db, root, b, clock, s.(frontier := s.frontier[..|s.frontier| - 1]), walked);
      } else if !OverBudget(b, clock, s, depth) && ea in db.info {
        VisitShrinks(db, s, ea, depth);
        VisitKeeps(db, root, s, walked, ea, depth);
        hide Sane;
        BrokeAtMissing(db, root, b, clock, Visit(db, s, ea, depth), walked + {ea});
      } else if ea !in db.info {
        assert Reach(CallGraph(db), root, ea);
      }
    }
  }

  /**
   A fresh run fails on an indexed root only for a function that calls lead to, and an unbudgeted one exactly then.
   */
  lemma FailsIff(db: Db, root: nat, b: Budgets, clock: nat -> bool)
    requires root in db.names
    ensures DeepRun(db, root, b, clock, None).Failed? ==> Undecompilable(db, root)
    ensures DeepRun(db, root, Unlimited(db), _ => true, None).Failed? <==> Undecompilable(db, root)
  {
    hide WalkFrom; hide Reach; hide Sane; hide CallGraph;
    var s := State([(root, 0)], map[], []);
    FreshStartSane(db, root);
    BrokeAtMissing(db, root, b, clock, s, {});
    BrokeAtMissing(db, root, Unlimited(db), _ => true, s, {});
    if !Undecompilable(db, root) {
      UnlimitedEnds(db, root, s, {});
    } else if DeepRun(db, root, Unlimited(db), _ => true, None).Done? {
      UnlimitedStops(db, root);
      FreshRunIsReachable(db, root, Unlimited(db), _ => true);
    }
  }

  /** The unbudgeted walk never hits a budget, whatever it meets. */
  lemma UnlimitedStops(db: Db, root: nat)
    requires root in db.names
    ensures var r := DeepRun(db, root, Unlimited(db), _ => true, None); r.Done? ==> !r.run.budgetHit
  {
    hide WalkFrom; hide Sane;
    FreshStartSane(db, root);
    NeverHit(db, root, State([(root, 0)], map[], []), {});
  }

  lemma {:induction false} NeverHit(db: Db, root: nat, s: State, walked: set<nat>)
    requires Sane(db, root, s, walked) && root in db.names && Shallow(s)
    ensures var stop := WalkFrom(db, Unlimited(db), _ => true, s); stop.Ended? ==> !stop.budgetHit
    decreases Left(db, s), |s.frontier|
  {
    hide Reach; hide Visit; hide Sane; hide Shallow; hide CallGraph; hide OverBudget; hide Left; hide WalkFrom;
    if s.frontier == [] {
      WalkNothing(db, Unlimited(db), _ => true, s);
    } else {
      var (ea, depth) := s.frontier[|s.frontier| - 1];
      WalkTurn(db, Unlimited(db), _ => true, s, ea, depth);
      if ea in s.dossiers || ea !in db.names {
        SkipKeeps(db, root, s, walked);
        SkipShallow(s);
        LeftSame(db, s, s.frontier[..|s.frontier| - 1]);
        NeverHit(db, root, s.(frontier := s.frontier[..|s.frontier| - 1]), walked);
      } else {
        RoomLeft(db, root, s, walked, ea, depth);
        if ea in db.info {
          VisitKeeps(db, root, s, walked, ea, depth);
          VisitShrinks(db, s, ea, depth);
          VisitShallow(db, s, ea, depth);
          NeverHit(db, root, Visit(db, s, ea, depth), walked + {ea});
        }
      }
    }
  }

  // ------------------------------------------------------------------ order

  function PushOf(db: Db, dossiers: map<nat, Dossier>, depth: nat): (f: ((nat, nat)) -> Option<(nat, nat)>) {
    (call: (nat, nat)) => if call.1 in db.names && call.1 !in dossiers then Some((call.1, depth)) else None
  }

  /** The indexed callees without a dossier are pushed in call order. */
  lemma {:induction false} PushesPicked(db: Db, dossiers: map<nat, Dossier>, callees: seq<(nat, nat)>, depth: nat)
    ensures Picked(callees, PushOf(db, dossiers, depth), Pushes(db, dossiers, callees, depth))
  {
    var pick := PushOf(db, dossiers, depth);
    if callees == [] {
      PickedNone(pick);
    } else {
      var n := |callees| - 1;
      PushesPicked(db, dossiers, callees[..n], depth);
      PickedNext(callees[..n], pick, Pushes(db, dossiers, callees[..n], depth), callees[n]);
      hide Picked;
      assert callees == callees[..n] + [callees[n]];
    }
  }

  /** Call `k` of `ea` is to a function still to be walked, and no later one is. */
  ghost predicate LastOpenCall(db: Db, dossiers: map<nat, Dossier>, ea: nat, k: nat, t: nat)
    requires ea in db.info
  {
    var calls := db.info[ea].calls;
    && k < |calls| && calls[k].Direct? && calls[k].target == t && Open(db, dossiers, ea, t)
    && forall j :: k < j < |calls| && calls[j].Direct? ==> !Open(db, dossiers, ea, calls[j].target)
  }

  predicate Open(db: Db, dossiers: map<nat, Dossier>, ea: nat, t: nat) { t in db.names && t !in dossiers && t != ea }

  lemma {:induction false} LastPush(db: Db, dossiers: map<nat, Dossier>, calls: seq<Call>, depth: nat, k: nat)
    requires k < |calls| && calls[k].Direct? && calls[k].target in db.names && calls[k].target !in dossiers
    requires forall j :: k < j < |calls| && calls[j].Direct? ==>
      calls[j].target !in db.names || calls[j].target in dossiers
    ensures var p := Pushes(db, dossiers, DirectOf(calls), depth); p != [] && p[|p| - 1] == (calls[k].target, depth)
  {
    var n := |calls| - 1;
    var less, d := DirectOf(calls[..n]), DirectOf(calls);
    if calls[n].Direct? { assert d[..|d| - 1] == less; } else { assert d == less; }
    if k < n { LastPush(db, dossiers, calls[..n], depth, k); }
  }

  /** The walk goes depth first: after a function comes the last of its calls that is still to be walked. */
  lemma DepthFirst(db: Db, b: Budgets, clock: nat -> bool, s: State, ea: nat, depth: nat, k: nat, t: nat)
    requires s.frontier != [] && s.frontier[|s.frontier| - 1] == (ea, depth)
    requires ea in db.names && ea in db.info && ea !in s.dossiers && LastOpenCall(db, s.dossiers, ea, k, t)
    requires !OverBudget(b, clock, s, depth) && !OverBudget(b, clock, Visit(db, s, ea, depth), depth + 1)
    ensures var stop := WalkFrom(db, b, clock, s); var n := |s.decompiled|;
      stop.Ended? ==> |stop.state.decompiled| >= n + 2 && stop.state.decompiled[n] == ea &&
                      stop.state.decompiled[n + 1] == t
  {
    var s1 := Visit(db, s, ea, depth);
    LastPush(db, s1.dossiers, db.info[ea].calls, depth + 1, k);
    assert s1.frontier[|s1.frontier| - 1] == (t, depth + 1);
    hide WalkFrom; hide OverBudget; hide LastOpenCall;
    WalkTurn(db, b, clock, s, ea, depth);
    WalkTurn(db, b, clock, s1, t, depth + 1);
    VisitAdds(db, s, ea, depth);
    hide Visit;
    if t in db.info {
      VisitAdds(db, s1, t, depth + 1);
      WalkAppends(db, b, clock, Visit(db, s1, t, depth + 1));
    }
  }
}
