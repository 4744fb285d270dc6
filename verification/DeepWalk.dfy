/**
 The resumable deep walk of the call graph (`deep_function`).

 `WalkFrom` is the meaning of one run; `DeepFunction` is the loop the program
 runs.  The wall clock is an arbitrary function of the number of functions the
 run has decompiled so far.
 */
module DeepWalk {
  import opened Walks
  import opened Sorting
  import opened Basics
  import opened Selections

  /** One call site of a decompiled function. */
  datatype Call = Direct(callEa: nat, target: nat) | Indirect(callEa: nat)

  /** The backend's answer for one function; the prototype is already rendered. */
  datatype FnInfo = FnInfo(prototype: string, calls: seq<Call>)

  /** The database: indexed functions with their names, and the functions that decompile. */
  datatype Db = Db(names: map<nat, string>, info: map<nat, FnInfo>)

  datatype Dossier = Dossier(name: string, prototype: string, callees: seq<(nat, nat)>, indirect: seq<nat>)

  datatype Budgets = Budgets(depth: nat, maxFunctions: nat, maxIterations: nat)

  /** A token as the program writes and reads it: the callee lists it writes are not the ones it reads. */
  datatype Token = Token(dossiers: Option<map<nat, Dossier>>, pending: Option<seq<(nat, nat)>>)

  datatype Failure = NoFunction | BadToken | NoInfo

  datatype Run = Run(
    functions: map<nat, Dossier>,
    budgetHit: bool,
    resume: Option<Token>,
    decompiled: seq<nat>)

  datatype Result = Failed(why: Failure) | Done(run: Run)

  // -------------------------------------------------------------------- call sites

  function DirectOf(calls: seq<Call>): seq<(nat, nat)> {
    if calls == [] then [] else
      DirectOf(calls[..|calls| - 1]) +
      match calls[|calls| - 1] case Direct(c, t) => [(c, t)] case Indirect(_) => []
  }

  function IndirectOf(calls: seq<Call>): seq<nat> {
    if calls == [] then [] else
      IndirectOf(calls[..|calls| - 1]) +
      match calls[|calls| - 1] case Direct(_, _) => [] case Indirect(c) => [c]
  }

  function DirectSite(call: Call): Option<(nat, nat)> {
    match call case Direct(c, t) => Some((c, t)) case Indirect(_) => None
  }

  function IndirectSite(call: Call): Option<nat> {
    match call case Direct(_, _) => None case Indirect(c) => Some(c)
  }

  /**
   In order, exactly the direct calls are listed with their targets and exactly the indirect ones with their sites.
   */
  lemma {:induction false} SitesPicked(calls: seq<Call>)
    ensures Picked(calls, DirectSite, DirectOf(calls)) && Picked(calls, IndirectSite, IndirectOf(calls))
    ensures |DirectOf(calls)| + |IndirectOf(calls)| == |calls|
  {
    if calls == [] {
      PickedNone(DirectSite);
      PickedNone(IndirectSite);
    } else {
      var n := |calls| - 1;
      SitesPicked(calls[..n]);
      PickedNext(calls[..n], DirectSite, DirectOf(calls[..n]), calls[n]);
      PickedNext(calls[..n], IndirectSite, IndirectOf(calls[..n]), calls[n]);
      hide Picked;
      assert calls == calls[..n] + [calls[n]];
    }
  }

  /** Every call is listed once, in order: the direct ones with their targets, the indirect ones with their sites. */
  ghost predicate SitesOf(calls: seq<Call>, direct: seq<(nat, nat)>, indirect: seq<nat>) {
    && Picked(calls, DirectSite, direct) && Picked(calls, IndirectSite, indirect)
    && |direct| + |indirect| == |calls|
    && (forall c: nat, t: nat :: (c, t) in direct <==> Direct(c, t) in calls)
    && (forall c: nat :: c in indirect <==> Indirect(c) in calls)
  }

  /** `extract_call_sites`. */
  method ExtractCallSites(calls: seq<Call>) returns (direct: seq<(nat, nat)>, indirect: seq<nat>)
    ensures SitesOf(calls, direct, indirect)
    ensures direct == DirectOf(calls) && indirect == IndirectOf(calls)
  {
    SitesPicked(calls);
    forall c: nat, t: nat ensures (c, t) in DirectOf(calls) <==> Direct(c, t) in calls { DirectMembers(calls, c, t); }
    forall c: nat ensures c in IndirectOf(calls) <==> Indirect(c) in calls { IndirectMembers(calls, c); }
    assert SitesOf(calls, DirectOf(calls), IndirectOf(calls));
    hide Picked; hide SitesOf;
    direct, indirect := [], [];
    for i := 0 to |calls|
      invariant direct == DirectOf(calls[..i]) && indirect == IndirectOf(calls[..i])
    {
      assert calls[..i + 1][..i] == calls[..i];
      match calls[i] {
        case Direct(c, t) => direct := direct + [(c, t)];
        case Indirect(c) => indirect := indirect + [c];
      }
    }
    assert calls[..|calls|] == calls;
  }

  /** `f` calls `t` directly. */
  ghost predicate CallsDirectly(info: FnInfo, t: nat) {
    exists c :: Direct(c, t) in info.calls
  }

  lemma {:induction false} DirectMembers(calls: seq<Call>, c: nat, t: nat)
    ensures (c, t) in DirectOf(calls) <==> Direct(c, t) in calls
  {
    if calls != [] {
      DirectMembers(calls[..|calls| - 1], c, t);
      assert calls == calls[..|calls| - 1] + [calls[|calls| - 1]];
    }
  }

  lemma {:induction false} IndirectMembers(calls: seq<Call>, c: nat)
    ensures c in IndirectOf(calls) <==> Indirect(c) in calls
  {
    if calls != [] {
      IndirectMembers(calls[..|calls| - 1], c);
      assert calls == calls[..|calls| - 1] + [calls[|calls| - 1]];
    }
  }

  // --------------------------------------------------------------------- one run

  function DossierOf(db: Db, ea: nat): Dossier
    requires ea in db.names && ea in db.info
  {
    var i := db.info[ea];
    Dossier(db.names[ea], i.prototype, DirectOf(i.calls), IndirectOf(i.calls))
  }

  /** The pushes for the callees of a walked function (lines 215-219). */
  function Pushes(db: Db, dossiers: map<nat, Dossier>, callees: seq<(nat, nat)>, depth: nat): seq<(nat, nat)> {
    if callees == [] then [] else
      var t := callees[|callees| - 1].1;
      Pushes(db, dossiers, callees[..|callees| - 1], depth) +
      if t in db.names && t !in dossiers then [(t, depth)] else []
  }

  /** Where a walk stands: the stack, the dossiers, and what was decompiled in this run. */
  datatype State = State(frontier: seq<(nat, nat)>, dossiers: map<nat, Dossier>, decompiled: seq<nat>)

  datatype Stop = Broke(why: Failure) | Ended(state: State, budgetHit: bool)

  predicate OverBudget(b: Budgets, clock: nat -> bool, s: State, depth: nat) {
    |s.dossiers| + 1 > b.maxFunctions || depth >= b.depth || !clock(|s.decompiled|)
  }

  function Visit(db: Db, s: State, ea: nat, depth: nat): State
    requires s.frontier != [] && ea in db.names && ea in db.info
  {
    var dossiers := s.dossiers[ea := DossierOf(db, ea)];
    State(
      s.frontier[..|s.frontier| - 1] + Pushes(db, dossiers, dossiers[ea].callees, depth + 1),
      dossiers,
      s.decompiled + [ea])
  }

  /** Indexed functions without a dossier. */
  ghost function Left(db: Db, s: State): nat { |db.names.Keys - s.dossiers.Keys| }

  /** The walk loop (lines 187-220) from state `s` to its end. */
  function WalkFrom(db: Db, b: Budgets, clock: nat -> bool, s: State): Stop
    decreases Left(db, s), |s.frontier|
  {
    if s.frontier == [] then Ended(s, false) else
      var (ea, depth) := s.frontier[|s.frontier| - 1];
      if ea in s.dossiers || ea !in db.names then
        WalkFrom(db, b, clock, s.(frontier := s.frontier[..|s.frontier| - 1]))
      else if OverBudget(b, clock, s, depth) then
        Ended(s, true)
      else if ea !in db.info then
        Broke(NoInfo)
      else
        var s' := Visit(db, s, ea, depth);
        assert db.names.Keys - s'.dossiers.Keys == db.names.Keys - s.dossiers.Keys - {ea};
        WalkFrom(db, b, clock, s')
  }

  /** What a token restores: dossiers of non-zero addresses, without their callee lists (lines 131-167). */
  function Restored(rows: map<nat, Dossier>): map<nat, Dossier> {
    map ea | ea in rows && ea != 0 :: rows[ea].(callees := [])
  }

  function StartOf(root: nat, resume: Option<Token>): Option<State> {
    match resume
    case None => Some(State([(root, 0)], map[], []))
    case Some(Token(None, _)) => None
    case Some(Token(Some(rows), pending)) =>
      Some(State(match pending case Some(f) => f case None => [(root, 0)], Restored(rows), []))
  }

  function Finish(stop: Stop): Result {
    match stop
    case Broke(why) => Failed(why)
    case Ended(s, hit) =>
      Done(Run(s.dossiers, hit, if hit then Some(Token(Some(s.dossiers), Some(s.frontier))) else None, s.decompiled))
  }

  function DeepRun(db: Db, root: nat, b: Budgets, clock: nat -> bool, resume: Option<Token>): Result {
    if root !in db.names then Failed(NoFunction) else
      match StartOf(root, resume)
      case None => Failed(BadToken)
      case Some(s) => Finish(WalkFrom(db, b, clock, s))
  }

  // ----------------------------------------------------------- what a run keeps

  /** Direct calls between indexed functions that decompile at the calling end. */
  ghost function CallGraph(db: Db): Edges<nat> {
    iset e: (nat, nat) | e.0 in db.names && e.0 in db.info && e.1 in db.names && CallsDirectly(db.info[e.0], e.1)
  }

  ghost predicate OnFrontier(frontier: seq<(nat, nat)>, x: nat) {
    exists i :: 0 <= i < |frontier| && frontier[i].0 == x
  }

  /** A dossier tells the database's truth, callee list aside. */
  ghost predicate Truthful(db: Db, ea: nat, d: Dossier) {
    && ea in db.names && ea in db.info
    && d.name == db.names[ea]
    && d.prototype == db.info[ea].prototype
    && Picked(db.info[ea].calls, IndirectSite, d.indirect)
  }

  lemma DossierTruthful(db: Db, ea: nat)
    requires ea in db.names && ea in db.info
    ensures Truthful(db, ea, DossierOf(db, ea)) && Picked(db.info[ea].calls, DirectSite, DossierOf(db, ea).callees)
  {
    SitesPicked(db.info[ea].calls);
    hide Picked;
  }

  /** `walked` are the functions decompiled so far, in this run or an earlier one of its chain. */
  ghost predicate WalkedOk(db: Db, root: nat, walked: set<nat>) {
    forall x: nat :: x in walked ==> x in db.names && x in db.info && Reach(CallGraph(db), root, x)
  }

  ghost predicate FrontierOk(db: Db, root: nat, frontier: seq<(nat, nat)>) {
    forall i :: 0 <= i < |frontier| && frontier[i].0 in db.names ==> Reach(CallGraph(db), root, frontier[i].0)
  }

  /** Whoever is still to be walked is on the frontier. */
  ghost predicate NothingForgotten(db: Db, root: nat, frontier: seq<(nat, nat)>, walked: set<nat>) {
    && (root in walked || OnFrontier(frontier, root))
    && (forall w: nat, c: nat :: w in walked && (w, c) in CallGraph(db) ==> c in walked || OnFrontier(frontier, c))
  }

  /** The dossiers are those of the walked functions; only that of address 0 may have been dropped. */
  ghost predicate DossiersOk(db: Db, dossiers: map<nat, Dossier>, walked: set<nat>) {
    && (forall x: nat :: x in dossiers ==> x in walked && Truthful(db, x, dossiers[x]))
    && (forall x: nat :: x in walked && x != 0 ==> x in dossiers)
  }

  ghost predicate Sane(db: Db, root: nat, s: State, walked: set<nat>) {
    && WalkedOk(db, root, walked)
    && FrontierOk(db, root, s.frontier)
    && NothingForgotten(db, root, s.frontier, walked)
    && DossiersOk(db, s.dossiers, walked)
  }

  lemma SkipKeeps(db: Db, root: nat, s: State, walked: set<nat>)
    requires Sane(db, root, s, walked) && s.frontier != [] && root in db.names
    requires var ea := s.frontier[|s.frontier| - 1].0; ea in s.dossiers || ea !in db.names
    ensures Sane(db, root, s.(frontier := s.frontier[..|s.frontier| - 1]), walked)
  {
    hide Reach;
    hide Truthful;
    var n, rest := |s.frontier| - 1, s.frontier[..|s.frontier| - 1];
    forall x: nat | x in db.names && OnFrontier(s.frontier, x) && x !in walked ensures OnFrontier(rest, x) {
      var i :| 0 <= i < |s.frontier| && s.frontier[i].0 == x;
      assert rest[i].0 == x;
    }
  }

  lemma {:induction false} PushesSpec(db: Db, dossiers: map<nat, Dossier>, callees: seq<(nat, nat)>, depth: nat)
    ensures forall i :: 0 <= i < |Pushes(db, dossiers, callees, depth)| ==>
              var p := Pushes(db, dossiers, callees, depth)[i];
              p.1 == depth && p.0 in db.names && p.0 !in dossiers && exists c :: (c, p.0) in callees
    ensures forall c, t :: (c, t) in callees && t in db.names && t !in dossiers ==>
              OnFrontier(Pushes(db, dossiers, callees, depth), t)
  {
    if callees != [] {
      var rest, last := callees[..|callees| - 1], callees[|callees| - 1];
      PushesSpec(db, dossiers, rest, depth);
      var r, f := Pushes(db, dossiers, rest, depth), Pushes(db, dossiers, callees, depth);
      forall c, t | (c, t) in callees && t in db.names && t !in dossiers ensures OnFrontier(f, t) {
        if (c, t) in rest {
          assert OnFrontier(r, t);
          var i :| 0 <= i < |r| && r[i].0 == t;
          assert f[i].0 == t;
        } else {
          assert f[|r|].0 == t;
        }
      }
      forall i | 0 <= i < |f|
        ensures f[i].1 == depth && f[i].0 in db.names && f[i].0 !in dossiers && exists c :: (c, f[i].0) in callees
      {
        if i < |r| {
          assert f[i] == r[i];
          var c :| (c, r[i].0) in rest;
          assert (c, r[i].0) in callees;
        } else {
          assert last in callees && f[i].0 == last.1;
        }
      }
    }
  }

  lemma VisitFrontier(db: Db, root: nat, s: State, walked: set<nat>, ea: nat, depth: nat)
    requires Sane(db, root, s, walked) && s.frontier != [] && s.frontier[|s.frontier| - 1] == (ea, depth)
    requires ea in db.names && ea in db.info && ea !in s.dossiers
    ensures FrontierOk(db, root, Visit(db, s, ea, depth).frontier)
  {
    hide DossiersOk;
    hide WalkedOk;
    hide NothingForgotten;
    hide IndirectOf;
    var e, s' := CallGraph(db), Visit(db, s, ea, depth);
    var callees := DirectOf(db.info[ea].calls);
    var pushes := Pushes(db, s'.dossiers, callees, depth + 1);
    PushesSpec(db, s'.dossiers, callees, depth + 1);
    assert Reach(e, root, ea);
    forall i | 0 <= i < |pushes| ensures Reach(e, root, pushes[i].0) {
      var t: nat := pushes[i].0;
      var c :| (c, t) in callees;
      DirectMembers(db.info[ea].calls, c, t);
      ReachEdge(e, ea, t);
      ReachTrans(e, root, ea, t);
    }
  }

  /** Entries below the top stay; the callees without dossier are pushed. */
  lemma VisitPushes(db: Db, s: State, ea: nat, depth: nat)
    requires s.frontier != [] && s.frontier[|s.frontier| - 1] == (ea, depth)
    requires ea in db.names && ea in db.info
    ensures forall x: nat :: OnFrontier(s.frontier, x) && x != ea ==> OnFrontier(Visit(db, s, ea, depth).frontier, x)
    ensures forall c: nat :: (ea, c) in CallGraph(db) && c !in s.dossiers && c != ea ==>
              OnFrontier(Visit(db, s, ea, depth).frontier, c)
  {
    hide IndirectOf;
    hide Pushes;
    hide DirectOf;
    var s' := Visit(db, s, ea, depth);
    var callees := DirectOf(db.info[ea].calls);
    var rest, pushes := s.frontier[..|s.frontier| - 1], Pushes(db, s'.dossiers, callees, depth + 1);
    assert s'.frontier == rest + pushes;
    PushesSpec(db, s'.dossiers, callees, depth + 1);
    forall x: nat | OnFrontier(s.frontier, x) && x != ea ensures OnFrontier(s'.frontier, x) {
      var i :| 0 <= i < |s.frontier| && s.frontier[i].0 == x;
      assert s'.frontier[i].0 == x;
    }
    forall c: nat | (ea, c) in CallGraph(db) && c !in s.dossiers && c != ea ensures OnFrontier(s'.frontier, c) {
      var site :| Direct(site, c) in db.info[ea].calls;
      DirectMembers(db.info[ea].calls, site, c);
      assert OnFrontier(pushes, c);
      var i :| 0 <= i < |pushes| && pushes[i].0 == c;
      assert s'.frontier[|rest| + i].0 == c;
    }
  }

  lemma VisitForgetsNothing(db: Db, root: nat, s: State, walked: set<nat>, ea: nat, depth: nat)
    requires NothingForgotten(db, root, s.frontier, walked) && DossiersOk(db, s.dossiers, walked)
    requires s.frontier != [] && s.frontier[|s.frontier| - 1] == (ea, depth)
    requires ea in db.names && ea in db.info && ea !in s.dossiers
    ensures NothingForgotten(db, root, Visit(db, s, ea, depth).frontier, walked + {ea})
  {
    hide Truthful;
    hide OnFrontier;
    hide Visit;
    hide CallGraph;
    VisitPushes(db, s, ea, depth);
  }

  lemma VisitKeeps(db: Db, root: nat, s: State, walked: set<nat>, ea: nat, depth: nat)
    requires Sane(db, root, s, walked) && s.frontier != [] && s.frontier[|s.frontier| - 1] == (ea, depth)
    requires ea in db.names && ea in db.info && ea !in s.dossiers
    ensures Sane(db, root, Visit(db, s, ea, depth), walked + {ea})
  {
    hide Reach;
    hide NothingForgotten;
    hide Pushes;
    VisitFrontier(db, root, s, walked, ea, depth);
    VisitForgetsNothing(db, root, s, walked, ea, depth);
    DossierTruthful(db, ea);
    hide Picked;
  }

  /** What one run leaves behind: a sane state, and a list of functions decompiled once each, none of them restored. */
  ghost predicate Leaves(db: Db, root: nat, s: State, walked: set<nat>, added: seq<nat>, s': State) {
    && Sane(db, root, s', walked + Members(added))
    && s'.decompiled == s.decompiled + added
    && NoDup(added) && (forall x :: x in added ==> x !in s.dossiers)
    && s'.dossiers.Keys == s.dossiers.Keys + Members(added)
  }

  lemma LeavesNow(db: Db, root: nat, s: State, walked: set<nat>)
    requires Sane(db, root, s, walked)
    ensures Leaves(db, root, s, walked, [], s)
  {
  }

  lemma LeavesAfterVisit(db: Db, root: nat, s: State, walked: set<nat>, ea: nat, depth: nat, more: seq<nat>, s': State)
    requires s.frontier != [] && ea in db.names && ea in db.info && ea !in s.dossiers
    requires Leaves(db, root, Visit(db, s, ea, depth), walked + {ea}, more, s')
    ensures Leaves(db, root, s, walked, [ea] + more, s')
  {
    hide Sane;
    hide Pushes;
    hide DossierOf;
    assert Members([ea] + more) == {ea} + Members(more);
    assert walked + {ea} + Members(more) == walked + Members([ea] + more);
    assert Visit(db, s, ea, depth).dossiers.Keys == s.dossiers.Keys + {ea};
  }

  lemma {:induction false} RunKeeps(db: Db, root: nat, b: Budgets, clock: nat -> bool, s: State, walked: set<nat>)
      returns (added: seq<nat>)
    requires Sane(db, root, s, walked) && root in db.names
    ensures WalkFrom(db, b, clock, s).Ended? ==> Leaves(db, root, s, walked, added, WalkFrom(db, b, clock, s).state)
    ensures WalkFrom(db, b, clock, s).Ended? && !WalkFrom(db, b, clock, s).budgetHit ==>
              WalkFrom(db, b, clock, s).state.frontier == []
    decreases Left(db, s), |s.frontier|
  {
    hide Sane;
    hide Leaves;
    hide OverBudget;
    hide Visit;
    added := [];
    LeavesNow(db, root, s, walked);
    if s.frontier != [] {
      var (ea, depth) := s.frontier[|s.frontier| - 1];
      if ea in s.dossiers || ea !in db.names {
        SkipKeeps(db, root, s, walked);
        var s' := s.(frontier := s.frontier[..|s.frontier| - 1]);
        added := RunKeeps(db, root, b, clock, s', walked);
        LeavesAfterSkip(db, root, s, s', walked, added, WalkFrom(db, b, clock, s'));
      } else if !OverBudget(b, clock, s, depth) && ea in db.info {
        var s' := Visit(db, s, ea, depth);
        VisitKeeps(db, root, s, walked, ea, depth);
        VisitShrinks(db, s, ea, depth);
        var more := RunKeeps(db, root, b, clock, s', walked + {ea});
        added := [ea] + more;
        if WalkFrom(db, b, clock, s').Ended? {
          LeavesAfterVisit(db, root, s, walked, ea, depth, more, WalkFrom(db, b, clock, s').state);
        }
      }
    }
  }

  lemma VisitShrinks(db: Db, s: State, ea: nat, depth: nat)
    requires s.frontier != [] && ea in db.names && ea in db.info && ea !in s.dossiers
    ensures Left(db, Visit(db, s, ea, depth)) < Left(db, s)
  {
    var s' := Visit(db, s, ea, depth);
    assert db.names.Keys - s'.dossiers.Keys == db.names.Keys - s.dossiers.Keys - {ea};
  }

  lemma LeavesAfterSkip(db: Db, root: nat, s: State, s': State, walked: set<nat>, added: seq<nat>, stop: Stop)
    requires s'.dossiers == s.dossiers && s'.decompiled == s.decompiled
    requires stop.Ended? ==> Leaves(db, root, s', walked, added, stop.state)
    ensures stop.Ended? ==> Leaves(db, root, s, walked, added, stop.state)
  {
  }

  /** When nothing is left on the frontier, the walked functions are those reachable from the root. */
  lemma WalkedIsReachable(db: Db, root: nat, s: State, walked: set<nat>, x: nat)
    requires Sane(db, root, s, walked) && s.frontier == []
    ensures x in walked <==> Reach(CallGraph(db), root, x)
  {
    if Reach(CallGraph(db), root, x) {
      var closed := iset y: nat | y in walked;
      ClosedReach(CallGraph(db), closed, root, x);
    }
  }

  lemma FreshStartSane(db: Db, root: nat)
    requires root in db.names
    ensures Sane(db, root, State([(root, 0)], map[], []), {})
  {
    ReachRefl(CallGraph(db), root);
    assert OnFrontier([(root, 0)], root) by { assert [(root, 0 as nat)][0].0 == root; }
  }

  lemma ResumeSane(db: Db, root: nat, s: State, walked: set<nat>)
    requires Sane(db, root, s, walked)
    ensures Sane(db, root, State(s.frontier, Restored(s.dossiers), []), walked)
  {
  }

  // -------------------------------------------------------------- one fresh run

  lemma SaneIsTruthful(db: Db, root: nat, s: State, walked: set<nat>, x: nat)
    requires Sane(db, root, s, walked) && x in s.dossiers
    ensures Truthful(db, x, s.dossiers[x])
  {
    hide Truthful;
  }

  /** A fresh run that hits no budget has dossiers for exactly the functions reachable by direct calls. */
  lemma FreshRunIsReachable(db: Db, root: nat, b: Budgets, clock: nat -> bool)
    ensures var r := DeepRun(db, root, b, clock, None);
            r.Done? ==>
              && NoDup(r.run.decompiled)
              && r.run.functions.Keys == Members(r.run.decompiled)
              && (forall x: nat :: x in r.run.functions ==> Truthful(db, x, r.run.functions[x]))
              && (!r.run.budgetHit ==>
                    forall x: nat :: x in r.run.functions <==> Reach(CallGraph(db), root, x))
  {
    hide Reach; hide WalkFrom; hide CallGraph; hide Truthful; hide Sane;
    if root in db.names {
      var s := State([(root, 0)], map[], []);
      FreshStartSane(db, root);
      var added := RunKeeps(db, root, b, clock, s, {});
      var stop := WalkFrom(db, b, clock, s);
      if stop.Ended? {
        assert s.decompiled + added == added;
        assert stop.state.dossiers.Keys == Members(added);
        forall x: nat | x in stop.state.dossiers ensures Truthful(db, x, stop.state.dossiers[x]) {
          SaneIsTruthful(db, root, stop.state, {} + Members(added), x);
        }
        if !stop.budgetHit {
          forall x: nat ensures x in stop.state.dossiers <==> Reach(CallGraph(db), root, x) {
            WalkedIsReachable(db, root, stop.state, {} + Members(added), x);
          }
        }
      }
    }
  }

  // ------------------------------------------------------------------- chains

  /** Each run resumes from the token of the previous one. */
  ghost predicate Chain(db: Db, root: nat, budgets: seq<Budgets>, clocks: seq<nat -> bool>, runs: seq<Run>) {
    && |runs| == |budgets| == |clocks| && runs != []
    && (forall i :: 0 <= i < |runs| ==> Link(db, root, budgets[i], clocks[i], runs, i))
  }

  ghost predicate Link(db: Db, root: nat, b: Budgets, clock: nat -> bool, runs: seq<Run>, i: nat)
    requires i < |runs|
  {
    if i == 0 then DeepRun(db, root, b, clock, None) == Done(runs[0])
    else runs[i - 1].budgetHit && DeepRun(db, root, b, clock, runs[i - 1].resume) == Done(runs[i])
  }

  /** Everything decompiled by the runs up to `i`. */
  ghost function AllDecompiled(runs: seq<Run>, i: nat): set<nat>
    requires i < |runs|
  {
    Members(runs[i].decompiled) + if i == 0 then {} else AllDecompiled(runs, i - 1)
  }

  /** Where run `i` stopped. */
  ghost function StateOf(r: Run): State {
    State(match r.resume case Some(Token(_, Some(f))) => f case _ => [], r.functions, r.decompiled)
  }

  /** How run `i` relates to its start: it adds functions decompiled once each, and none it restored. */
  ghost predicate RunAdds(start: map<nat, Dossier>, r: Run) {
    && NoDup(r.decompiled) && (forall x :: x in r.decompiled ==> x !in start)
    && r.functions.Keys == start.Keys + Members(r.decompiled)
  }

  lemma {:induction false} ChainSane(db: Db, root: nat, budgets: seq<Budgets>, clocks: seq<nat -> bool>,
                                     runs: seq<Run>, i: nat)
    requires Chain(db, root, budgets, clocks, runs) && i < |runs|
    ensures Sane(db, root, StateOf(runs[i]), AllDecompiled(runs, i))
    ensures RunAdds(if i == 0 then map[] else Restored(runs[i - 1].functions), runs[i])
    ensures !runs[i].budgetHit ==> StateOf(runs[i]).frontier == []
    decreases i
  {
    hide Sane;
    hide WalkFrom;
    assert Link(db, root, budgets[i], clocks[i], runs, i);
    if i == 0 {
      var s := State([(root, 0)], map[], []);
      FreshStartSane(db, root);
      var added := RunKeeps(db, root, budgets[0], clocks[0], s, {});
      assert s.decompiled + added == added;
      assert {} + Members(added) == AllDecompiled(runs, 0);
    } else {
      ChainSane(db, root, budgets, clocks, runs, i - 1);
      ResumedRun(db, root, budgets, clocks, runs, i);
      var before := StateOf(runs[i - 1]);
      ResumeSane(db, root, before, AllDecompiled(runs, i - 1));
      var s := State(before.frontier, Restored(before.dossiers), []);
      var added := RunKeeps(db, root, budgets[i], clocks[i], s, AllDecompiled(runs, i - 1));
      assert s.decompiled + added == added;
      assert AllDecompiled(runs, i - 1) + Members(added) == AllDecompiled(runs, i);
    }
  }

  /** A resumed run starts where the token says. */
  lemma ResumedRun(db: Db, root: nat, budgets: seq<Budgets>, clocks: seq<nat -> bool>, runs: seq<Run>, i: nat)
    requires Chain(db, root, budgets, clocks, runs) && 0 < i < |runs|
    ensures var before := StateOf(runs[i - 1]);
            root in db.names &&
            Finish(WalkFrom(db, budgets[i], clocks[i], State(before.frontier, Restored(before.dossiers), []))) ==
              Done(runs[i])
  {
    hide WalkFrom;
    var r := runs[i - 1];
    assert Link(db, root, budgets[i], clocks[i], runs, i) && Link(db, root, budgets[i - 1], clocks[i - 1], runs, i - 1);
    assert r.resume == Some(Token(Some(r.functions), Some(StateOf(r).frontier)));
  }

  /** Non-zero functions stay in the dossiers of all later runs. */
  lemma {:induction false} ChainRemembers(db: Db, root: nat, budgets: seq<Budgets>, clocks: seq<nat -> bool>,
                                          runs: seq<Run>, i: nat, j: nat, x: nat)
    requires Chain(db, root, budgets, clocks, runs) && i <= j < |runs|
    requires x != 0 && x in runs[i].functions
    ensures x in runs[j].functions
    decreases j
  {
    hide Chain;
    if i < j {
      ChainRemembers(db, root, budgets, clocks, runs, i, j - 1, x);
      ChainSane(db, root, budgets, clocks, runs, j);
    }
  }

  /** Over a whole chain no function other than that at address 0 is decompiled twice. */
  lemma ChainDecompilesOnce(db: Db, root: nat, budgets: seq<Budgets>, clocks: seq<nat -> bool>, runs: seq<Run>,
                            i: nat, j: nat, x: nat)
    requires Chain(db, root, budgets, clocks, runs) && i < j < |runs| && x != 0
    requires x in runs[i].decompiled
    ensures x !in runs[j].decompiled
  {
    hide Chain;
    hide Sane;
    ChainSane(db, root, budgets, clocks, runs, i);
    ChainSane(db, root, budgets, clocks, runs, j);
    assert x in Members(runs[i].decompiled);
    ChainRemembers(db, root, budgets, clocks, runs, i, j - 1, x);
    assert x in Restored(runs[j - 1].functions);
  }

  /** After any run of a chain, every indexed callee of a walked function was walked itself or is pending. */
  lemma ChainPendingIsExact(db: Db, root: nat, budgets: seq<Budgets>, clocks: seq<nat -> bool>, runs: seq<Run>,
                            i: nat, w: nat, c: nat)
    requires Chain(db, root, budgets, clocks, runs) && i < |runs|
    requires w in AllDecompiled(runs, i) && (w, c) in CallGraph(db)
    ensures c in AllDecompiled(runs, i) || OnFrontier(StateOf(runs[i]).frontier, c)
  {
    hide Chain;
    hide OnFrontier;
    hide CallGraph;
    ChainSane(db, root, budgets, clocks, runs, i);
  }

  /**
   A chain that ends without hitting a budget has found exactly the functions reachable by
   direct calls, wherever it was cut.  Only the dossier of address 0 can be missing, and it
   is missing exactly when the last run did not decompile it.
   */
  lemma ChainFindsReachable(db: Db, root: nat, budgets: seq<Budgets>, clocks: seq<nat -> bool>, runs: seq<Run>, x: nat)
    requires Chain(db, root, budgets, clocks, runs)
    requires var last := runs[|runs| - 1]; !last.budgetHit
    ensures var last := runs[|runs| - 1];
            && (x in last.functions ==> Truthful(db, x, last.functions[x]))
            && (x != 0 ==> (x in last.functions <==> Reach(CallGraph(db), root, x)))
            && (x == 0 ==> (x in last.functions <==> x in last.decompiled))
            && (x in AllDecompiled(runs, |runs| - 1) <==> Reach(CallGraph(db), root, x))
  {
    hide Link;
    hide Reach;
    var n := |runs| - 1;
    var last := runs[n];
    ChainSane(db, root, budgets, clocks, runs, n);
    WalkedIsReachable(db, root, StateOf(last), AllDecompiled(runs, n), x);
    assert x in Members(last.decompiled) <==> x in last.decompiled;
  }

  // ------------------------------------------------------------ an unbudgeted run

  /** Budgets no walk of `db` can exceed. */
  ghost function Unlimited(db: Db): Budgets { Budgets(|db.names| + 1, |db.names|, 1) }

  ghost predicate Shallow(s: State) {
    forall i :: 0 <= i < |s.frontier| ==> s.frontier[i].1 <= |s.dossiers|
  }

  lemma VisitShallow(db: Db, s: State, ea: nat, depth: nat)
    requires Shallow(s) && s.frontier != [] && s.frontier[|s.frontier| - 1] == (ea, depth)
    requires ea in db.names && ea in db.info && ea !in s.dossiers
    ensures Shallow(Visit(db, s, ea, depth))
  {
    var s' := Visit(db, s, ea, depth);
    assert |s'.dossiers| == |s.dossiers| + 1;
    PushesSpec(db, s'.dossiers, s'.dossiers[ea].callees, depth + 1);
  }

  /** There is budget left for the function on top of the frontier, and it decompiles. */
  lemma RoomLeft(db: Db, root: nat, s: State, walked: set<nat>, ea: nat, depth: nat)
    requires Sane(db, root, s, walked) && Shallow(s)
    requires s.frontier != [] && s.frontier[|s.frontier| - 1] == (ea, depth) && ea in db.names && ea !in s.dossiers
    ensures !OverBudget(Unlimited(db), _ => true, s, depth) && Reach(CallGraph(db), root, ea)
  {
    assert ea in db.names.Keys && ea !in s.dossiers.Keys;
    SubsetSmaller(s.dossiers.Keys, db.names.Keys);
  }

  lemma SkipShallow(s: State)
    requires Shallow(s) && s.frontier != []
    ensures Shallow(s.(frontier := s.frontier[..|s.frontier| - 1]))
  {
  }

  lemma {:induction false} UnlimitedEnds(db: Db, root: nat, s: State, walked: set<nat>)
    requires Sane(db, root, s, walked) && root in db.names && Shallow(s)
    requires forall x: nat :: Reach(CallGraph(db), root, x) ==> x in db.info
    ensures var stop := WalkFrom(db, Unlimited(db), _ => true, s); stop.Ended? && !stop.budgetHit
    decreases Left(db, s), |s.frontier|
  {
    hide Reach; hide Visit; hide Sane; hide Shallow; hide CallGraph; hide OverBudget; hide Left;
    if s.frontier != [] {
      var (ea, depth) := s.frontier[|s.frontier| - 1];
      if ea in s.dossiers || ea !in db.names {
        var s' := s.(frontier := s.frontier[..|s.frontier| - 1]);
        SkipKeeps(db, root, s, walked);
        SkipShallow(s);
        LeftSame(db, s, s'.frontier);
        UnlimitedEnds(db, root, s', walked);
      } else {
        RoomLeft(db, root, s, walked, ea, depth);
        VisitKeeps(db, root, s, walked, ea, depth);
        VisitShrinks(db, s, ea, depth);
        VisitShallow(db, s, ea, depth);
        UnlimitedEnds(db, root, Visit(db, s, ea, depth), walked + {ea});
      }
    }
  }

  /** Two dossiers agree, callee list aside. */
  ghost predicate Agree(d: Dossier, e: Dossier) {
    d.name == e.name && d.prototype == e.prototype && d.indirect == e.indirect
  }

  lemma TruthfulAgree(db: Db, ea: nat, d: Dossier, e: Dossier)
    requires Truthful(db, ea, d) && Truthful(db, ea, e)
    ensures Agree(d, e)
  {
    PickedOnce(db.info[ea].calls, IndirectSite, d.indirect, e.indirect);
    hide Picked;
  }

  /**
   A chain that ends without hitting a budget yields, address 0 aside, the same functions, names,
   prototypes and indirect sites as one unbudgeted run.
   */
  lemma ChainEqualsOneRun(db: Db, root: nat, budgets: seq<Budgets>, clocks: seq<nat -> bool>, runs: seq<Run>)
    requires Chain(db, root, budgets, clocks, runs)
    requires var last := runs[|runs| - 1]; !last.budgetHit
    ensures var last, one := runs[|runs| - 1], DeepRun(db, root, Unlimited(db), _ => true, None);
            && one.Done? && !one.run.budgetHit
            && (forall x: nat :: x != 0 ==> (x in last.functions <==> x in one.run.functions))
            && (forall x: nat :: x in last.functions && x in one.run.functions ==>
                                   Agree(last.functions[x], one.run.functions[x]))
            && (0 in last.functions ==> 0 in one.run.functions)
            && (0 in one.run.functions <==> 0 in AllDecompiled(runs, |runs| - 1))
  {
    hide Reach;
    hide WalkFrom;
    var n := |runs| - 1;
    assert Link(db, root, budgets[0], clocks[0], runs, 0);
    forall x: nat | Reach(CallGraph(db), root, x) ensures x in db.info {
      ChainFindsReachable(db, root, budgets, clocks, runs, x);
      ChainSane(db, root, budgets, clocks, runs, n);
    }
    FreshStartSane(db, root);
    UnlimitedEnds(db, root, State([(root, 0)], map[], []), {});
    FreshRunIsReachable(db, root, Unlimited(db), _ => true);
    forall x: nat
      ensures x in runs[n].functions ==> Truthful(db, x, runs[n].functions[x])
      ensures x != 0 ==> (x in runs[n].functions <==> Reach(CallGraph(db), root, x))
      ensures x in AllDecompiled(runs, n) <==> Reach(CallGraph(db), root, x)
      ensures x in runs[n].functions ==> Reach(CallGraph(db), root, x)
    {
      ChainFindsReachable(db, root, budgets, clocks, runs, x);
      ChainSane(db, root, budgets, clocks, runs, n);
    }
    hide Truthful; hide Agree;
    var last, one := runs[n].functions, DeepRun(db, root, Unlimited(db), _ => true, None).run.functions;
    forall x: nat | x in last && x in one ensures Agree(last[x], one[x]) {
      TruthfulAgree(db, x, last[x], one[x]);
    }
  }

  // ------------------------------------------------------------------ the program

  function Ask(db: Db, ea: nat): Option<string> {
    if ea in db.info then Some(db.info[ea].prototype) else None
  }

  function CalleeChanged(d: Dossier, changed: set<nat>): bool {
    exists i :: 0 <= i < |d.callees| && d.callees[i].1 in changed
  }

  function Callers(dossiers: map<nat, Dossier>, changed: set<nat>): set<nat> {
    set ea | ea in dossiers && CalleeChanged(dossiers[ea], changed)
  }

  /**
   The convergence loop (lines 230-290).  It stops in its first round: a function is rechecked
   only if a callee changed in the same round, and nothing ever changes first.
   */
  method Converge(db: Db, given: map<nat, Dossier>, visited: set<nat>, maxIterations: nat)
      returns (dossiers: map<nat, Dossier>, converged: bool, iterations: nat, changes: seq<nat>, ghost asked: seq<nat>)
    ensures dossiers == given && changes == [] && asked == []
    ensures iterations == (if maxIterations == 0 then 0 else 1) && (converged <==> maxIterations > 0)
  {
    dossiers, converged, iterations, changes, asked := given, false, 0, [], [];
    var dirty := visited;
    for iteration := 0 to maxIterations
      invariant iteration == 0 && dossiers == given && changes == [] && asked == []
      invariant iterations == 0 && !converged
    {
      var changedNow: set<nat> := {};
      var todo := dirty;
      while todo != {}
        invariant changedNow == {} && dossiers == given && changes == [] && asked == []
        decreases todo
      {
        var ea :| ea in todo;
        todo := todo - {ea};
        if ea in dossiers {
          var d := dossiers[ea];
          if CalleeChanged(d, changedNow) {
            asked := asked + [ea];
            match Ask(db, ea) {
              case None =>
              case Some(proto) =>
                if proto != d.prototype {
                  changes := changes + [ea];
                  dossiers := dossiers[ea := d.(prototype := proto)];
                  changedNow := changedNow + {ea};
                }
            }
          }
        }
      }
      iterations := iterations + 1;
      if changedNow == {} {
        converged := true;
        break;
      }
      dirty := Callers(dossiers, changedNow);
      if dirty == {} {
        converged := true;
        break;
      }
    }
  }

  /** The walk loop (lines 187-220); `asked` lists the decompilations. */
  method WalkLoop(db: Db, b: Budgets, clock: nat -> bool, start: State)
      returns (stop: Stop, visited: set<nat>, ghost asked: seq<nat>)
    ensures stop == WalkFrom(db, b, clock, start)
    ensures stop.Ended? ==> visited == stop.state.dossiers.Keys && start.decompiled + asked == stop.state.decompiled
  {
    var s := start;
    visited, asked := s.dossiers.Keys, [];
    while s.frontier != []
      invariant visited == s.dossiers.Keys && start.decompiled + asked == s.decompiled
      invariant WalkFrom(db, b, clock, s) == WalkFrom(db, b, clock, start)
      decreases Left(db, s), |s.frontier|
    {
      hide Visit;
      hide Left;
      hide WalkFrom;
      var (ea, depth) := s.frontier[|s.frontier| - 1];
      WalkTurn(db, b, clock, s, ea, depth);
      LeftSame(db, s, s.frontier[..|s.frontier| - 1]);
      if ea in s.dossiers || ea !in db.names {
        s := s.(frontier := s.frontier[..|s.frontier| - 1]);
        continue;
      }
      visited := visited + {ea};
      OneMore(s.dossiers, ea);
      if |visited| > b.maxFunctions || depth >= b.depth || !clock(|s.decompiled|) {
        visited := visited - {ea};
        stop := Ended(s, true);
        return;
      }
      if ea !in db.info {
        stop := Broke(NoInfo);
        return;
      }
      assert start.decompiled + (asked + [ea]) == s.decompiled + [ea];
      asked := asked + [ea];
      VisitShrinks(db, s, ea, depth);
      VisitAdds(db, s, ea, depth);
      s := VisitState(db, s, ea, depth);
    }
    stop := Ended(s, false);
  }

  /** `deep_function`; `asked` lists every decompilation, those of the convergence loop included. */
  method DeepFunction(db: Db, root: nat, b: Budgets, clock: nat -> bool, resume: Option<Token>)
      returns (r: Result, converged: bool, iterations: nat, changes: seq<nat>, ghost asked: seq<nat>)
    ensures r == DeepRun(db, root, b, clock, resume)
    ensures r.Done? ==>
              && asked == r.run.decompiled && changes == []
              && iterations == (if b.maxIterations == 0 then 0 else 1) && (converged <==> b.maxIterations > 0)
  {
    hide WalkFrom;
    converged, iterations, changes, asked := false, 0, [], [];
    if root !in db.names {
      return Failed(NoFunction), converged, iterations, changes, asked;
    }
    var start := StartOf(root, resume);
    if start == None {
      return Failed(BadToken), converged, iterations, changes, asked;
    }
    var stop, visited, walkAsked := WalkLoop(db, b, clock, start.value);
    match stop {
      case Broke(why) =>
        r := Failed(why);
      case Ended(s, hit) =>
        var dossiers;
        ghost var more;
        dossiers, converged, iterations, changes, more := Converge(db, s.dossiers, visited, b.maxIterations);
        asked := walkAsked + more;
        var token := if hit then Some(Token(Some(dossiers), Some(s.frontier))) else None;
        r := Done(Run(dossiers, hit, token, s.decompiled));
    }
  }

  /** One turn of the walk loop. */
  lemma WalkTurn(db: Db, b: Budgets, clock: nat -> bool, s: State, ea: nat, depth: nat)
    requires s.frontier != [] && s.frontier[|s.frontier| - 1] == (ea, depth)
    ensures ea in s.dossiers || ea !in db.names ==>
              WalkFrom(db, b, clock, s) == WalkFrom(db, b, clock, s.(frontier := s.frontier[..|s.frontier| - 1]))
    ensures ea in db.names && ea !in s.dossiers && OverBudget(b, clock, s, depth) ==>
              WalkFrom(db, b, clock, s) == Ended(s, true)
    ensures ea in db.names && ea !in s.dossiers && !OverBudget(b, clock, s, depth) ==>
              WalkFrom(db, b, clock, s) ==
              if ea in db.info then WalkFrom(db, b, clock, Visit(db, s, ea, depth)) else Broke(NoInfo)
  {
  }

  lemma LeftSame(db: Db, s: State, frontier: seq<(nat, nat)>)
    ensures Left(db, s.(frontier := frontier)) == Left(db, s)
  {
  }

  lemma OneMore(dossiers: map<nat, Dossier>, ea: nat)
    requires ea !in dossiers
    ensures |dossiers.Keys + {ea}| == |dossiers| + 1
  {
  }

  lemma VisitAdds(db: Db, s: State, ea: nat, depth: nat)
    requires s.frontier != [] && ea in db.names && ea in db.info
    ensures Visit(db, s, ea, depth).dossiers.Keys == s.dossiers.Keys + {ea}
    ensures Visit(db, s, ea, depth).decompiled == s.decompiled + [ea]
  {
  }

  /** Decompile one function, file its dossier and push its callees (lines 201-219). */
  method VisitState(db: Db, s: State, ea: nat, depth: nat) returns (s': State)
    requires s.frontier != [] && ea in db.names && ea in db.info
    ensures s' == Visit(db, s, ea, depth)
  {
    hide SitesOf; hide DirectOf; hide IndirectOf;
    var info := db.info[ea];
    var direct, indirect := ExtractCallSites(info.calls);
    var dossiers := s.dossiers[ea := Dossier(db.names[ea], info.prototype, direct, indirect)];
    var frontier := s.frontier[..|s.frontier| - 1];
    for i := 0 to |direct|
      invariant frontier == s.frontier[..|s.frontier| - 1] + Pushes(db, dossiers, direct[..i], depth + 1)
    {
      assert direct[..i + 1][..i] == direct[..i];
      var callee := direct[i].1;
      if callee in db.names && callee !in dossiers {
        frontier := frontier + [(callee, depth + 1)];
      }
    }
    assert direct[..|direct|] == direct;
    s' := State(frontier, dossiers, s.decompiled + [ea]);
  }

  // ------------------------------------------------------- address 0 is lost on resume

  /** A database whose root sits at address 0 and calls the function at address 1. */
  const ZERO_DB := Db(map[0 := "entry", 1 := "callee"], map[0 := FnInfo("", [Direct(16, 1)]), 1 := FnInfo("", [])])

  const ONE_FUNCTION := Budgets(8, 1, 1)
  const TWO_FUNCTIONS := Budgets(8, 2, 1)

  /** A clock that never runs out. */
  function Always(n: nat): bool { true }

  lemma OneDirectCall(c: nat, t: nat)
    ensures DirectOf([Direct(c, t)]) == [(c, t)] && IndirectOf([Direct(c, t)]) == []
  {
    var calls := [Direct(c, t)];
    assert calls[..0] == [] && calls[0] == Direct(c, t);
  }

  lemma OnePush(db: Db, dossiers: map<nat, Dossier>, c: nat, t: nat, depth: nat)
    requires t in db.names && t !in dossiers
    ensures Pushes(db, dossiers, [(c, t)], depth) == [(t, depth)]
  {
    var callees := [(c, t)];
    assert callees[..0] == [];
  }

  lemma ZeroDbDossier()
    ensures DossierOf(ZERO_DB, 0) == Dossier("entry", "", [(16, 1)], [])
  {
    hide DirectOf; hide IndirectOf;
    OneDirectCall(16, 1);
  }

  lemma ZeroDbVisit()
    ensures Visit(ZERO_DB, State([(0, 0)], map[], []), 0, 0)
            == State([(1, 1)], map[0 := Dossier("entry", "", [(16, 1)], [])], [0])
  {
    hide DossierOf; hide Pushes;
    ZeroDbDossier();
    OnePush(ZERO_DB, map[0 := DossierOf(ZERO_DB, 0)], 16, 1, 1);
    var start: seq<(nat, nat)>, none: seq<nat> := [(0, 0)], [];
    assert start[..0] + [(1, 1)] == [(1, 1)] && none + [0] == [0];
  }

  lemma ZeroDbFirstRun()
    ensures DeepRun(ZERO_DB, 0, ONE_FUNCTION, Always, None) ==
            Done(Run(map[0 := Dossier("entry", "", [(16, 1)], [])], true,
                     Some(Token(Some(map[0 := Dossier("entry", "", [(16, 1)], [])]), Some([(1, 1)]))), [0]))
  {
    ZeroDbVisit();
    hide Visit;
    var s0, s1 := State([(0, 0)], map[], []), State([(1, 1)], map[0 := Dossier("entry", "", [(16, 1)], [])], [0]);
    assert WalkFrom(ZERO_DB, ONE_FUNCTION, Always, s1) == Ended(s1, true);
    assert WalkFrom(ZERO_DB, ONE_FUNCTION, Always, s0) == Ended(s1, true);
  }

  /** A cut chain can lose the root itself when the root sits at address 0. */
  lemma ZeroIsLostOnResume()
    ensures var first := DeepRun(ZERO_DB, 0, ONE_FUNCTION, Always, None);
            first.Done? && first.run.budgetHit &&
            var second := DeepRun(ZERO_DB, 0, TWO_FUNCTIONS, Always, first.run.resume);
            second.Done? && !second.run.budgetHit && 0 !in second.run.functions && 1 in second.run.functions
  {
    ZeroDbFirstRun();
    var d := Dossier("entry", "", [(16, 1)], []);
    assert Restored(map[0 := d]) == map[];
    var s0 := State([(1, 1)], map[], []);
    assert DossierOf(ZERO_DB, 1) == Dossier("callee", "", [], []);
    var s1 := State([], map[1 := Dossier("callee", "", [], [])], [1]);
    assert Visit(ZERO_DB, s0, 1, 1) == s1;
    assert WalkFrom(ZERO_DB, TWO_FUNCTIONS, Always, s1) == Ended(s1, false);
    assert WalkFrom(ZERO_DB, TWO_FUNCTIONS, Always, s0) == Ended(s1, false);
  }
}
