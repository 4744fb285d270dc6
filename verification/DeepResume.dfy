/**
 What a resumed deep walk decompiles, in terms of its token and the database alone,
 and what becomes of the function at address 0, whose dossier a token does not restore.
 */
module DeepResume {
  import opened Basics
  import opened Walks
  import opened DeepWalk

  /** Direct calls between indexed functions without a restored dossier. */
  ghost function OpenCalls(db: Db, done: set<nat>): Edges<nat> {
    iset e: (nat, nat) | e in CallGraph(db) && e.0 !in done && e.1 !in done
  }

  ghost predicate LeadsTo(db: Db, done: set<nat>, y: nat, x: nat) {
    y in db.names && y !in done && Reach(OpenCalls(db, done), y, x)
  }

  /** `x` is reached from an indexed pending entry along calls between functions without a restored dossier. */
  ghost predicate FromPending(db: Db, done: set<nat>, pending: seq<(nat, nat)>, x: nat) {
    exists i :: 0 <= i < |pending| && LeadsTo(db, done, pending[i].0, x)
  }

  // ------------------------------------------------------------------ the walk

  /** Everything decompiled or to be decompiled comes from the pending list. */
  ghost predicate Sound(db: Db, done: set<nat>, pending: seq<(nat, nat)>, s: State) {
    && (forall x: nat :: x in s.decompiled ==> FromPending(db, done, pending, x))
    && (forall i :: 0 <= i < |s.frontier| && s.frontier[i].0 in db.names && s.frontier[i].0 !in done ==>
          FromPending(db, done, pending, s.frontier[i].0))
  }

  /** Whoever comes from the pending list and is not decompiled is, or is called from, something on the frontier. */
  ghost predicate Covering(db: Db, done: set<nat>, pending: seq<(nat, nat)>, s: State) {
    && (forall i :: 0 <= i < |pending| && pending[i].0 in db.names && pending[i].0 !in done ==>
          pending[i].0 in s.decompiled || OnFrontier(s.frontier, pending[i].0))
    && (forall w: nat, c: nat :: w in s.decompiled && (w, c) in OpenCalls(db, done) ==>
          c in s.decompiled || OnFrontier(s.frontier, c))
  }

  /** The dossiers are the restored ones and those of this run. */
  ghost predicate Accounted(done: set<nat>, s: State) {
    (forall x: nat :: x in s.dossiers <==> x in done || x in s.decompiled)
      && (forall x: nat :: x in s.decompiled ==> x !in done)
  }

  ghost predicate Progress(db: Db, done: set<nat>, pending: seq<(nat, nat)>, s: State) {
    Sound(db, done, pending, s) && Covering(db, done, pending, s) && Accounted(done, s)
  }

  lemma ProgressStart(db: Db, pending: seq<(nat, nat)>, dossiers: map<nat, Dossier>)
    ensures Progress(db, dossiers.Keys, pending, State(pending, dossiers, []))
  {
    hide Reach;
    var done := dossiers.Keys;
    forall i | 0 <= i < |pending| && pending[i].0 in db.names && pending[i].0 !in done
      ensures FromPending(db, done, pending, pending[i].0)
    {
      ReachRefl(OpenCalls(db, done), pending[i].0);
      assert LeadsTo(db, done, pending[i].0, pending[i].0);
    }
  }

  lemma ProgressSkip(db: Db, done: set<nat>, pending: seq<(nat, nat)>, s: State)
    requires Progress(db, done, pending, s) && s.frontier != []
    requires var ea := s.frontier[|s.frontier| - 1].0; ea in s.dossiers || ea !in db.names
    ensures Progress(db, done, pending, s.(frontier := s.frontier[..|s.frontier| - 1]))
  {
    hide FromPending;
    var rest := s.frontier[..|s.frontier| - 1];
    forall x: nat | OnFrontier(s.frontier, x) && x in db.names && x !in done && x !in s.decompiled
      ensures OnFrontier(rest, x)
    {
      var i :| 0 <= i < |s.frontier| && s.frontier[i].0 == x;
      assert rest[i].0 == x;
    }
  }

  /** What a visit pushes is called from the function visited and has no dossier. */
  lemma PushedIsCalled(db: Db, s: State, ea: nat, depth: nat, i: nat)
    requires s.frontier != [] && ea in db.names && ea in db.info
    requires |s.frontier| - 1 <= i < |Visit(db, s, ea, depth).frontier|
    ensures var t := Visit(db, s, ea, depth).frontier[i].0; (ea, t) in CallGraph(db) && t !in s.dossiers && t != ea
  {
    hide IndirectOf;
    var s' := Visit(db, s, ea, depth);
    var callees := DirectOf(db.info[ea].calls);
    var pushes := Pushes(db, s'.dossiers, callees, depth + 1);
    PushesSpec(db, s'.dossiers, callees, depth + 1);
    var p := pushes[i - (|s.frontier| - 1)];
    assert s'.frontier[i] == p;
    var c :| (c, p.0) in callees;
    DirectMembers(db.info[ea].calls, c, p.0);
  }

  lemma LeadsOn(db: Db, done: set<nat>, pending: seq<(nat, nat)>, x: nat, c: nat)
    requires FromPending(db, done, pending, x) && (x, c) in OpenCalls(db, done)
    ensures FromPending(db, done, pending, c)
  {
    hide Reach;
    var i :| 0 <= i < |pending| && LeadsTo(db, done, pending[i].0, x);
    ReachEdge(OpenCalls(db, done), x, c);
    ReachTrans(OpenCalls(db, done), pending[i].0, x, c);
    assert LeadsTo(db, done, pending[i].0, c);
  }

  lemma SoundVisit(db: Db, done: set<nat>, pending: seq<(nat, nat)>, s: State, ea: nat, depth: nat)
    requires Sound(db, done, pending, s) && Accounted(done, s) && s.frontier != []
      && s.frontier[|s.frontier| - 1] == (ea, depth)
    requires ea in db.names && ea in db.info && ea !in s.dossiers
    ensures Sound(db, done, pending, Visit(db, s, ea, depth))
  {
    hide FromPending; hide Pushes; hide CallGraph; hide DossierOf;
    var s' := Visit(db, s, ea, depth);
    assert FromPending(db, done, pending, ea);
    forall i | 0 <= i < |s'.frontier| && s'.frontier[i].0 in db.names && s'.frontier[i].0 !in done
      ensures FromPending(db, done, pending, s'.frontier[i].0)
    {
      if i < |s.frontier| - 1 {
        assert s'.frontier[i] == s.frontier[i];
      } else {
        PushedIsCalled(db, s, ea, depth, i);
        LeadsOn(db, done, pending, ea, s'.frontier[i].0);
      }
    }
  }

  lemma CoveringVisit(db: Db, done: set<nat>, pending: seq<(nat, nat)>, s: State, ea: nat, depth: nat)
    requires Covering(db, done, pending, s) && Accounted(done, s) && s.frontier != []
      && s.frontier[|s.frontier| - 1] == (ea, depth)
    requires ea in db.names && ea in db.info && ea !in s.dossiers
    ensures Covering(db, done, pending, Visit(db, s, ea, depth)) && Accounted(done, Visit(db, s, ea, depth))
  {
    hide OnFrontier; hide Pushes; hide CallGraph; hide DossierOf;
    VisitPushes(db, s, ea, depth);
  }

  lemma {:induction false} WalkProgress(db: Db, b: Budgets, clock: nat -> bool, done: set<nat>,
                                        pending: seq<(nat, nat)>, s: State)
    requires Progress(db, done, pending, s)
    ensures var stop := WalkFrom(db, b, clock, s);
      stop.Ended? ==> Progress(db, done, pending, stop.state) && (!stop.budgetHit ==> stop.state.frontier == [])
    decreases Left(db, s), |s.frontier|
  {
    hide Progress; hide OverBudget; hide Visit;
    if s.frontier != [] {
      var (ea, depth) := s.frontier[|s.frontier| - 1];
      if ea in s.dossiers || ea !in db.names {
        ProgressSkip(db, done, pending, s);
        WalkProgress(db, b, clock, done, pending, s.(frontier := s.frontier[..|s.frontier| - 1]));
      } else if !OverBudget(b, clock, s, depth) && ea in db.info {
        ProgressVisit(db, done, pending, s, ea, depth);
        VisitShrinks(db, s, ea, depth);
        WalkProgress(db, b, clock, done, pending, Visit(db, s, ea, depth));
      }
    }
  }

  lemma ProgressVisit(db: Db, done: set<nat>, pending: seq<(nat, nat)>, s: State, ea: nat, depth: nat)
    requires Progress(db, done, pending, s) && s.frontier != [] && s.frontier[|s.frontier| - 1] == (ea, depth)
    requires ea in db.names && ea in db.info && ea !in s.dossiers
    ensures Progress(db, done, pending, Visit(db, s, ea, depth))
  {
    hide Sound; hide Covering; hide Accounted;
    SoundVisit(db, done, pending, s, ea, depth);
    CoveringVisit(db, done, pending, s, ea, depth);
  }

  /** With an empty frontier, what was decompiled is exactly what comes from the pending list. */
  lemma CoveredAll(db: Db, done: set<nat>, pending: seq<(nat, nat)>, s: State, x: nat)
    requires Progress(db, done, pending, s) && s.frontier == []
    ensures x in s.decompiled <==> FromPending(db, done, pending, x)
  {
    hide Reach;
    if FromPending(db, done, pending, x) {
      var i :| 0 <= i < |pending| && LeadsTo(db, done, pending[i].0, x);
      var closed := iset y: nat | y in s.decompiled;
      ClosedReach(OpenCalls(db, done), closed, pending[i].0, x);
    }
  }

  // ------------------------------------------------------------------ resumed runs

  /** The pending list a token is read as. */
  function PendingOf(root: nat, token: Token): seq<(nat, nat)> {
    match token.pending case Some(f) => f case None => [(root, 0)]
  }

  /**
   Whatever the token: a resumed run decompiles only functions reached from an indexed pending entry along calls between
   functions without a restored dossier, and if it ends without hitting a budget it decompiles exactly those.
   */
  lemma ResumeDecompiles(db: Db, root: nat, b: Budgets, clock: nat -> bool, token: Token, x: nat)
    requires token.dossiers.Some?
    ensures var r := DeepRun(db, root, b, clock, Some(token));
      r.Done? ==>
        var from := FromPending(db, Restored(token.dossiers.value).Keys, PendingOf(root, token), x);
        && (x in r.run.decompiled ==> from)
        && (!r.run.budgetHit ==> (x in r.run.decompiled <==> from))
  {
    hide WalkFrom; hide Progress; hide FromPending;
    var dossiers, pending := Restored(token.dossiers.value), PendingOf(root, token);
    var s := State(pending, dossiers, []);
    ProgressStart(db, pending, dossiers);
    WalkProgress(db, b, clock, dossiers.Keys, pending, s);
    var stop := WalkFrom(db, b, clock, s);
    if root in db.names && stop.Ended? {
      if x in stop.state.decompiled { ProgressSound(db, dossiers.Keys, pending, stop.state, x); }
      if !stop.budgetHit { CoveredAll(db, dossiers.Keys, pending, stop.state, x); }
    }
  }

  lemma ProgressSound(db: Db, done: set<nat>, pending: seq<(nat, nat)>, s: State, x: nat)
    requires Progress(db, done, pending, s) && x in s.decompiled
    ensures FromPending(db, done, pending, x)
  {
  }

  /** `x` comes from the token of a run, read back as the program reads it. */
  ghost predicate FromToken(db: Db, root: nat, r: Run, x: nat) {
    r.resume.Some? && r.resume.value.dossiers.Some? &&
    FromPending(db, Restored(r.resume.value.dossiers.value).Keys, PendingOf(root, r.resume.value), x)
  }

  /** The same for the runs of a chain: what a run decompiles is told by the token it resumes from. */
  lemma ChainRunDecompiles(db: Db, root: nat, budgets: seq<Budgets>, clocks: seq<nat -> bool>, runs: seq<Run>, j: nat,
                           x: nat)
    requires Chain(db, root, budgets, clocks, runs) && 0 < j < |runs|
    ensures x in runs[j].decompiled ==> FromToken(db, root, runs[j - 1], x)
    ensures !runs[j].budgetHit ==> (x in runs[j].decompiled <==> FromToken(db, root, runs[j - 1], x))
  {
    hide WalkFrom; hide FromPending;
    var r := runs[j - 1];
    assert Link(db, root, budgets[j], clocks[j], runs, j) && Link(db, root, budgets[j - 1], clocks[j - 1], runs, j - 1);
    assert r.resume.Some? && r.resume.value.dossiers == Some(r.functions);
    ResumeDecompiles(db, root, budgets[j], clocks[j], r.resume.value, x);
  }

  /**
   Exactly when a chain that ends without hitting a budget keeps the function at address 0: with one run, when the root
   reaches it; with more, when the last token's pending entries do, along calls between functions without a restored
   dossier.
   */
  lemma ZeroIsKeptIff(db: Db, root: nat, budgets: seq<Budgets>, clocks: seq<nat -> bool>, runs: seq<Run>)
    requires Chain(db, root, budgets, clocks, runs) && !runs[|runs| - 1].budgetHit
    ensures 0 in runs[|runs| - 1].functions <==>
            if |runs| == 1 then Reach(CallGraph(db), root, 0) else FromToken(db, root, runs[|runs| - 2], 0)
  {
    assert |runs| > 0;
    hide Chain; hide FromToken;
    ChainFindsReachable(db, root, budgets, clocks, runs, 0);
    var n := |runs| - 1;
    if n == 0 {
      assert AllDecompiled(runs, 0) == Members(runs[0].decompiled);
    } else {
      ChainRunDecompiles(db, root, budgets, clocks, runs, n, 0);
    }
  }

  /**
   In any chain the function at address 0 is decompiled again by a run only if the token it resumes from leads there,
   and by an unbudgeted last run exactly then.
   */
  lemma ZeroAgainIff(db: Db, root: nat, budgets: seq<Budgets>, clocks: seq<nat -> bool>, runs: seq<Run>, i: nat)
    requires Chain(db, root, budgets, clocks, runs) && i < |runs| - 1 && 0 in runs[i].decompiled
    ensures forall j :: i < j < |runs| && 0 in runs[j].decompiled ==> FromToken(db, root, runs[j - 1], 0)
    ensures !runs[|runs| - 1].budgetHit ==>
      (0 in runs[|runs| - 1].decompiled <==> FromToken(db, root, runs[|runs| - 2], 0))
  {
    hide Chain; hide FromToken;
    forall j | i < j < |runs| && 0 in runs[j].decompiled ensures FromToken(db, root, runs[j - 1], 0) {
      ChainRunDecompiles(db, root, budgets, clocks, runs, j, 0);
    }
    ChainRunDecompiles(db, root, budgets, clocks, runs, |runs| - 1, 0);
  }

  // ------------------------------------------------------------------ progress

  /** The pending list without the entries the walk skips at its end: those not indexed or already restored. */
  function Trimmed(db: Db, done: set<nat>, pending: seq<(nat, nat)>): (r: seq<(nat, nat)>)
    ensures r <= pending && (r != [] ==> var ea := r[|r| - 1].0; ea in db.names && ea !in done)
    ensures forall i :: |r| <= i < |pending| ==> pending[i].0 in done || pending[i].0 !in db.names
  {
    if pending == [] then [] else
      var ea := pending[|pending| - 1].0;
      if ea in done || ea !in db.names then Trimmed(db, done, pending[..|pending| - 1]) else pending
  }

  lemma {:induction false} WalkTrims(db: Db, b: Budgets, clock: nat -> bool, s: State)
    ensures WalkFrom(db, b, clock, s) ==
            WalkFrom(db, b, clock, s.(frontier := Trimmed(db, s.dossiers.Keys, s.frontier)))
    decreases |s.frontier|
  {
    hide Visit; hide OverBudget; hide WalkFrom;
    if s.frontier != [] {
      var (ea, depth) := s.frontier[|s.frontier| - 1];
      WalkTurn(db, b, clock, s, ea, depth);
      if ea in s.dossiers || ea !in db.names {
        WalkTrims(db, b, clock, s.(frontier := s.frontier[..|s.frontier| - 1]));
      }
    }
  }

  lemma {:induction false} WalkAppends(db: Db, b: Budgets, clock: nat -> bool, s: State)
    ensures var stop := WalkFrom(db, b, clock, s); stop.Ended? ==> s.decompiled <= stop.state.decompiled
    decreases Left(db, s), |s.frontier|
  {
    hide Visit; hide OverBudget;
    if s.frontier != [] {
      var (ea, depth) := s.frontier[|s.frontier| - 1];
      if ea in s.dossiers || ea !in db.names {
        WalkAppends(db, b, clock, s.(frontier := s.frontier[..|s.frontier| - 1]));
      } else if !OverBudget(b, clock, s, depth) && ea in db.info {
        VisitShrinks(db, s, ea, depth);
        VisitAdds(db, s, ea, depth);
        WalkAppends(db, b, clock, Visit(db, s, ea, depth));
      }
    }
  }

  /** The budgets leave room for one more function at `depth` besides `n` restored ones. */
  predicate Room(b: Budgets, clock: nat -> bool, n: nat, depth: nat) {
    n < b.maxFunctions && depth < b.depth && clock(0)
  }

  /**
   Exactly when a resumed run decompiles something: the topmost pending entry that is indexed and not restored lies
   within the depth budget, the restored dossiers alone leave room in the function budget, and the clock has not run
   out at once.  That entry is then the first to be decompiled.  Otherwise the run hands back what it was given.
   */
  lemma ResumeProgressIff(db: Db, root: nat, b: Budgets, clock: nat -> bool, token: Token)
    requires token.dossiers.Some?
    ensures var r := DeepRun(db, root, b, clock, Some(token));
      var dossiers := Restored(token.dossiers.value);
      var next := Trimmed(db, dossiers.Keys, PendingOf(root, token));
      r.Done? ==>
        && (r.run.decompiled != [] <==> next != [] && Room(b, clock, |dossiers|, next[|next| - 1].1))
        && (r.run.decompiled != [] ==> r.run.decompiled[0] == next[|next| - 1].0)
        && (r.run.decompiled == [] ==>
              var token := if next == [] then None else Some(Token(Some(dossiers), Some(next)));
              r.run == Run(dossiers, next != [], token, []))
  {
    hide Visit; hide WalkFrom;
    var dossiers, pending := Restored(token.dossiers.value), PendingOf(root, token);
    var s := State(pending, dossiers, []);
    var next := Trimmed(db, dossiers.Keys, pending);
    WalkTrims(db, b, clock, s);
    var s' := s.(frontier := next);
    if next == [] {
      WalkNothing(db, b, clock, s');
    } else {
      var (ea, depth) := next[|next| - 1];
      WalkTurn(db, b, clock, s', ea, depth);
      if !OverBudget(b, clock, s', depth) && ea in db.info {
        VisitAdds(db, s', ea, depth);
        WalkAppends(db, b, clock, Visit(db, s', ea, depth));
      }
    }
  }

  lemma WalkNothing(db: Db, b: Budgets, clock: nat -> bool, s: State)
    requires s.frontier == []
    ensures WalkFrom(db, b, clock, s) == Ended(s, false)
  {
  }

  ghost predicate StoppedShort(db: Db, b: Budgets, clock: nat -> bool, stop: Stop) {
    stop.Ended? && stop.budgetHit ==>
      var f := stop.state.frontier;
      && f != [] && f[|f| - 1].0 in db.names && f[|f| - 1].0 !in stop.state.dossiers
      && OverBudget(b, clock, stop.state, f[|f| - 1].1)
  }

  /** A walk that hits a budget stops at a function it would still have to visit. */
  lemma {:induction false} StopsAtBudget(db: Db, b: Budgets, clock: nat -> bool, s: State)
    ensures StoppedShort(db, b, clock, WalkFrom(db, b, clock, s))
    decreases Left(db, s), |s.frontier|
  {
    hide Visit; hide OverBudget; hide WalkFrom;
    if s.frontier == [] {
      WalkNothing(db, b, clock, s);
    } else {
      var (ea, depth) := s.frontier[|s.frontier| - 1];
      WalkTurn(db, b, clock, s, ea, depth);
      hide StoppedShort;
      if ea in s.dossiers || ea !in db.names {
        LeftSame(db, s, s.frontier[..|s.frontier| - 1]);
        StopsAtBudget(db, b, clock, s.(frontier := s.frontier[..|s.frontier| - 1]));
      } else if OverBudget(b, clock, s, depth) {
        StopsHere(db, b, clock, s, ea, depth);
      } else if ea in db.info {
        VisitShrinks(db, s, ea, depth);
        StopsAtBudget(db, b, clock, Visit(db, s, ea, depth));
      } else {
        BrokeIsFine(db, b, clock);
      }
    }
  }

  lemma StopsHere(db: Db, b: Budgets, clock: nat -> bool, s: State, ea: nat, depth: nat)
    requires s.frontier != [] && s.frontier[|s.frontier| - 1] == (ea, depth) && ea in db.names && ea !in s.dossiers
    requires OverBudget(b, clock, s, depth)
    ensures StoppedShort(db, b, clock, Ended(s, true))
  {
  }

  lemma BrokeIsFine(db: Db, b: Budgets, clock: nat -> bool)
    ensures StoppedShort(db, b, clock, Broke(NoInfo))
  {
  }

  /** The run stopped for want of functions or depth, not of time. */
  ghost predicate Stuck(db: Db, b: Budgets, r: Run) {
    r.budgetHit && r.resume.Some? && r.resume.value.dossiers == Some(r.functions) && r.resume.value.pending.Some? &&
    var f := r.resume.value.pending.value;
    && f != [] && f[|f| - 1].0 in db.names && f[|f| - 1].0 !in r.functions
    && (|r.functions| + 1 > b.maxFunctions || f[|f| - 1].1 >= b.depth)
  }

  lemma CutIsStuck(db: Db, root: nat, b: Budgets, clock: nat -> bool, resume: Option<Token>)
    ensures var r := DeepRun(db, root, b, clock, resume);
      r.Done? && r.run.budgetHit && clock(|r.run.decompiled|) ==> Stuck(db, b, r.run)
  {
    hide WalkFrom;
    match StartOf(root, resume)
    case None =>
    case Some(s) => StopsAtBudget(db, b, clock, s);
  }

  lemma RestoredAll(rows: map<nat, Dossier>)
    ensures Restored(rows).Keys == rows.Keys - {0}
    ensures |Restored(rows)| == |rows| - if 0 in rows then 1 else 0
  {
    assert Restored(rows).Keys == rows.Keys - {0};
  }

  lemma RestoredCount(rows: map<nat, Dossier>)
    ensures |Restored(rows)| == |rows| - if 0 in rows then 1 else 0
  {
    RestoredAll(rows);
  }

  /** A token whose topmost entry is indexed and has no dossier. */
  ghost predicate Ready(db: Db, dossiers: map<nat, Dossier>, f: seq<(nat, nat)>) {
    f != [] && f[|f| - 1].0 in db.names && f[|f| - 1].0 !in dossiers
  }

  lemma ResumeTop(db: Db, root: nat, b: Budgets, clock: nat -> bool, rows: map<nat, Dossier>, f: seq<(nat, nat)>)
    requires root in db.names && Ready(db, Restored(rows), f)
    ensures var r := DeepRun(db, root, b, clock, Some(Token(Some(rows), Some(f))));
      if Room(b, clock, |Restored(rows)|, f[|f| - 1].1) then r.Done? ==> r.run.decompiled != []
      else r == Done(Run(Restored(rows), true, Some(Token(Some(Restored(rows)), Some(f))), []))
  {
    hide WalkFrom; hide Restored; hide Visit;
    var s := State(f, Restored(rows), []);
    var (ea, depth) := f[|f| - 1];
    WalkTurn(db, b, clock, s, ea, depth);
    if !OverBudget(b, clock, s, depth) && ea in db.info {
      VisitAdds(db, s, ea, depth);
      WalkAppends(db, b, clock, Visit(db, s, ea, depth));
    }
  }

  /**
   Such a run resumed under the same budgets decompiles something exactly if the dossier of address 0 was the one too
   many and the next entry is not too deep: restored dossiers count as before, and pending entries keep their depth.
   */
  lemma ResumeUnchangedIff(db: Db, root: nat, b: Budgets, clock: nat -> bool, r: Run)
    requires Stuck(db, b, r) && root in db.names
    ensures var r' := DeepRun(db, root, b, clock, r.resume); var f := r.resume.value.pending.value;
      r'.Done? ==>
        (r'.run.decompiled != [] <==>
          0 in r.functions && |r.functions| <= b.maxFunctions && f[|f| - 1].1 < b.depth && clock(0))
  {
    RestoredCount(r.functions);
    hide DeepRun;
    assert Ready(db, Restored(r.functions), r.resume.value.pending.value);
    hide Restored;
    var f, n, kept := r.resume.value.pending.value, |r.functions|, |Restored(r.functions)|;
    ResumeTop(db, root, b, clock, r.functions, f);
    hide Stuck;
    RoomIff(b, clock, n, kept, f[|f| - 1].1, 0 in r.functions);
  }

  lemma RoomIff(b: Budgets, clock: nat -> bool, n: nat, kept: nat, depth: nat, dropped: bool)
    requires (n + 1 > b.maxFunctions || depth >= b.depth) && kept == n - if dropped then 1 else 0
    ensures Room(b, clock, kept, depth) <==> dropped && n <= b.maxFunctions && depth < b.depth && clock(0)
  {
  }

  lemma NothingDropped(rows: map<nat, Dossier>)
    requires 0 !in rows
    ensures Restored(rows).Keys == rows.Keys && |Restored(rows)| == |rows|
  {
    RestoredAll(rows);
  }

  /** Without a dossier at address 0 it hands back what it was given. */
  lemma StuckStays(db: Db, root: nat, b: Budgets, clock: nat -> bool, r: Run)
    requires Stuck(db, b, r) && root in db.names && 0 !in r.functions
    ensures var r' := DeepRun(db, root, b, clock, r.resume); var f := r.resume.value.pending.value;
      && r' == Done(Run(Restored(r.functions), true, Some(Token(Some(Restored(r.functions)), Some(f))), []))
      && Stuck(db, b, r'.run) && r'.run.functions.Keys == r.functions.Keys
  {
    NothingDropped(r.functions);
    hide DeepRun;
    var f, kept := r.resume.value.pending.value, Restored(r.functions);
    assert Ready(db, kept, f);
    hide Restored;
    ResumeTop(db, root, b, clock, r.functions, f);
    assert r.resume == Some(Token(Some(r.functions), Some(f)));
    assert Stuck(db, b, Run(kept, true, Some(Token(Some(kept), Some(f))), []));
  }

  /** The clock of no run expires. */
  ghost predicate NoClockCuts(clocks: seq<nat -> bool>) {
    forall i, n: nat {:trigger clocks[i](n)} :: 0 <= i < |clocks| ==> clocks[i](n)
  }

  /**
   Resuming under unchanged budgets never ends a run that no clock cut and that holds no dossier at address 0: every
   later run of the chain hits its budget again, decompiles nothing and hands on the same functions and pending entries;
   nor is such a chain ever too long to be resumed once more.
   */
  lemma {:induction false} EqualBudgetsNeverEnd(db: Db, root: nat, b: Budgets, budgets: seq<Budgets>,
                                                clocks: seq<nat -> bool>, runs: seq<Run>, i: nat, j: nat)
    requires Chain(db, root, budgets, clocks, runs) && i <= j < |runs| && NoClockCuts(clocks)
    requires forall k :: i <= k < |runs| ==> budgets[k] == b
    requires runs[i].budgetHit && 0 !in runs[i].functions
    ensures runs[j].budgetHit && runs[j].functions.Keys == runs[i].functions.Keys
      && (i < j ==> runs[j].decompiled == [])
    ensures StateOf(runs[j]).frontier == StateOf(runs[i]).frontier && Stuck(db, b, runs[j])
    ensures forall clock: nat -> bool :: var r := DeepRun(db, root, b, clock, runs[j].resume);
      r.Done? && r.run.budgetHit && r.run.decompiled == []
    decreases j
  {
    hide WalkFrom; hide Restored;
    assert Link(db, root, budgets[j], clocks[j], runs, j);
    if i == j {
      assert clocks[i](|runs[i].decompiled|);
      CutIsStuck(db, root, b, clocks[i], if i == 0 then None else runs[i - 1].resume);
    } else {
      EqualBudgetsNeverEnd(db, root, b, budgets, clocks, runs, i, j - 1);
      StuckStays(db, root, b, clocks[j], runs[j - 1]);
    }
    forall clock: nat -> bool ensures var r := DeepRun(db, root, b, clock, runs[j].resume);
      r.Done? && r.run.budgetHit && r.run.decompiled == []
    {
      StuckStays(db, root, b, clock, runs[j]);
    }
  }

  // ------------------------------------------------------------------ a run that stands still

  /** The function at address 1 calls the one at address 2. */
  const TWO_DB := Db(map[1 := "entry", 2 := "callee"], map[1 := FnInfo("", [Direct(16, 2)]), 2 := FnInfo("", [])])

  lemma TwoDbVisit()
    ensures var s := Visit(TWO_DB, State([(1, 0)], map[], []), 1, 0);
      s.frontier == [(2, 1)] && s.dossiers.Keys == {1} && s.decompiled == [1]
  {
    hide DirectOf; hide IndirectOf; hide Pushes;
    OneDirectCall(16, 2);
    OnePush(TWO_DB, map[1 := DossierOf(TWO_DB, 1)], 16, 2, 1);
    var start: seq<(nat, nat)>, none: seq<nat> := [(1, 0)], [];
    assert start[..0] + [(2, 1)] == [(2, 1)] && none + [1] == [1];
  }

  /** One function allowed, two to walk: the resumed run decompiles nothing and stops again. */
  lemma ResumeCanStandStill()
    ensures var first := DeepRun(TWO_DB, 1, ONE_FUNCTION, Always, None);
      first.Done? && first.run.budgetHit && first.run.decompiled == [1] &&
      var second := DeepRun(TWO_DB, 1, ONE_FUNCTION, Always, first.run.resume);
      second.Done? && second.run.budgetHit && second.run.decompiled == []
  {
    var s0 := State([(1, 0)], map[], []);
    var s1 := Visit(TWO_DB, s0, 1, 0);
    TwoDbVisit();
    WalkTurn(TWO_DB, ONE_FUNCTION, Always, s0, 1, 0);
    WalkTurn(TWO_DB, ONE_FUNCTION, Always, s1, 2, 1);
    hide WalkFrom; hide Visit;
    assert |s1.dossiers| == 1 by { assert |s1.dossiers.Keys| == 1; }
    CutIsStuck(TWO_DB, 1, ONE_FUNCTION, Always, None);
    StuckStays(TWO_DB, 1, ONE_FUNCTION, Always, DeepRun(TWO_DB, 1, ONE_FUNCTION, Always, None).run);
  }
}
