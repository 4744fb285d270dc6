/**
 Disposable analysis workers (`run_isolated`, `DisposableGuard`): the two-permit
 semaphore, the counters and the guard, over every interleaving of calls.

 A run is a sequence of events, each one atomic step of one call; an event that
 does not fit the call's position changes nothing.  `Abort` is any early
 return, panic or dropped future, possible wherever the call can be suspended.
 */
module Isolation {
  import opened Basics

  const MAX_CONCURRENT := 2

  /** Where a call is. */
  datatype Pc =
    | Refusing | Refused          // no permit: about to count the refusal, counted
    | Permitted                   // holds a permit
    | Spawned | Guarded           // child started, guard made but `spawned` not yet bumped
    | Live                        // counted; talking to the worker
    | Bumped | Marked             // terminal counter bumped, guard marked accounted
    | Reaping                     // kill sent, waiting for the child
    | Dropping | Dropped          // in the guard's drop: before and after counting the crash
    | Leaving                     // only the permit and a spent guard can remain

  datatype Child = NoChild | Unkilled | Killed

  datatype Fate = TimedOut | Crashed | Clean

  /** `guard` is the live guard's `accounted` flag; `fate` is the terminal counter this call has bumped. */
  datatype Call = Call(pc: Pc, permit: bool, child: Child, counted: bool, fate: Option<Fate>, guard: Option<bool>)

  datatype State = State(permits: nat, spawned: nat, killedTimeout: nat, killedCrash: nat, exitedClean: nat,
                         rejectedCap: nat, calls: map<nat, Call>)

  datatype Event =
    | Acquire | CountRefusal
    | SpawnFails | Spawn | MakeGuard | CountSpawn
    | TimeOut | Finish | MarkAccounted | Kill | Reaped
    | Abort | DropCounts | DropKills
    | ReleasePermit | DropSpentGuard

  function Init(): State { State(MAX_CONCURRENT, 0, 0, 0, 0, 0, map[]) }

  function Put(s: State, c: nat, call: Call): State { s.(calls := s.calls[c := call]) }

  /** One atomic step of call `c`. */
  function Step(s: State, c: nat, e: Event): State {
    if c !in s.calls then
      if e != Acquire then s
      else if s.permits > 0 then
        Put(s.(permits := s.permits - 1), c, Call(Permitted, true, NoChild, false, None, None))
      else Put(s, c, Call(Refusing, false, NoChild, false, None, None))
    else
      var k := s.calls[c];
      match e
      case Acquire => s
      case CountRefusal =>
        if k.pc != Refusing then s else Put(s.(rejectedCap := s.rejectedCap + 1), c, k.(pc := Refused))
      case SpawnFails => if k.pc != Permitted then s else Put(s, c, k.(pc := Leaving))
      case Spawn => if k.pc != Permitted then s else Put(s, c, k.(pc := Spawned, child := Unkilled))
      case MakeGuard => if k.pc != Spawned then s else Put(s, c, k.(pc := Guarded, guard := Some(false)))
      case CountSpawn =>
        if k.pc != Guarded then s else Put(s.(spawned := s.spawned + 1), c, k.(pc := Live, counted := true))
      case TimeOut =>
        if k.pc != Live then s
        else Put(s.(killedTimeout := s.killedTimeout + 1), c, k.(pc := Bumped, fate := Some(TimedOut)))
      case Finish =>
        if k.pc != Live then s else Put(s.(exitedClean := s.exitedClean + 1), c, k.(pc := Bumped, fate := Some(Clean)))
      case MarkAccounted => if k.pc != Bumped then s else Put(s, c, k.(pc := Marked, guard := Some(true)))
      case Kill => if k.pc != Marked then s else Put(s, c, k.(pc := Reaping, child := Killed))
      case Reaped => if k.pc != Reaping then s else Put(s, c, k.(pc := Leaving))
      case Abort =>
        if k.pc == Live then Put(s, c, k.(pc := Dropping))
        else if k.pc == Reaping then Put(s, c, k.(pc := Leaving))
        else s
      case DropCounts =>
        if k.pc != Dropping then s
        else Put(s.(killedCrash := s.killedCrash + 1), c, k.(pc := Dropped, fate := Some(Crashed), guard := None))
      case DropKills => if k.pc != Dropped then s else Put(s, c, k.(pc := Leaving, child := Killed))
      case ReleasePermit =>
        if k.pc != Leaving || !k.permit then s
        else Put(s.(permits := s.permits + 1), c, k.(permit := false))
      case DropSpentGuard => if k.pc != Leaving then s else Put(s, c, k.(guard := None))
  }

  /** The state after a run. */
  function Run(events: seq<(nat, Event)>): State {
    if events == [] then Init()
    else Step(Run(events[..|events| - 1]), events[|events| - 1].0, events[|events| - 1].1)
  }

  // ------------------------------------------------------------------ counting calls

  function Which(calls: map<nat, Call>, p: Call -> bool): set<nat> {
    set c <- calls | p(calls[c])
  }

  function Count(calls: map<nat, Call>, p: Call -> bool): nat { |Which(calls, p)| }

  function One(b: bool): nat { if b then 1 else 0 }

  /** Replacing one call's record moves each count by what that record contributes. */
  lemma CountPut(calls: map<nat, Call>, c: nat, k: Call, p: Call -> bool)
    ensures Count(calls[c := k], p) + One(c in calls && p(calls[c])) == Count(calls, p) + One(p(k))
  {
    var before, after := Which(calls, p), Which(calls[c := k], p);
    assert c in after <==> p(k);
    assert c in before <==> c in calls && p(calls[c]);
    SameButOne(before, after, c);
  }

  lemma SameButOne(before: set<nat>, after: set<nat>, c: nat)
    requires forall x: nat :: x != c ==> (x in before <==> x in after)
    ensures |after| + One(c in before) == |before| + One(c in after)
  {
    if c in before && c !in after {
      assert before == after + {c};
    } else if c !in before && c in after {
      assert after == before + {c};
    } else {
      assert before == after;
    }
  }

  /** Counts of disjoint kinds add up. */
  lemma CountSplit(calls: map<nat, Call>, whole: Call -> bool, p: Call -> bool, q: Call -> bool)
    requires forall c <- calls :: whole(calls[c]) == (p(calls[c]) || q(calls[c])) && !(p(calls[c]) && q(calls[c]))
    ensures Count(calls, whole) == Count(calls, p) + Count(calls, q)
  {
    var w, x, y := Which(calls, whole), Which(calls, p), Which(calls, q);
    assert w == x + y && x !! y;
  }

  lemma CountAtMost(calls: map<nat, Call>, p: Call -> bool, q: Call -> bool)
    requires forall c <- calls :: p(calls[c]) ==> q(calls[c])
    ensures Count(calls, p) <= Count(calls, q)
  {
    CountSplit(calls, q, p, k => q(k) && !p(k));
  }

  lemma CountNone(calls: map<nat, Call>, p: Call -> bool)
    requires forall c <- calls :: !p(calls[c])
    ensures Count(calls, p) == 0
  {
  }

  function HoldsPermit(k: Call): bool { k.permit }
  function IsCounted(k: Call): bool { k.counted }
  function IsTimedOut(k: Call): bool { k.fate == Some(TimedOut) }
  function IsCrashed(k: Call): bool { k.fate == Some(Crashed) }
  function IsClean(k: Call): bool { k.fate == Some(Clean) }
  function IsRefused(k: Call): bool { k.pc == Refused }

  /** A live guard that has not been accounted for. */
  function Unaccounted(k: Call): bool { k.guard == Some(false) }

  /** A child no kill has been sent to. */
  function HasUnkilled(k: Call): bool { k.child == Unkilled }

  /** Between making a guard and bumping `spawned`, or between bumping a terminal counter and marking the guard. */
  function InWindow(k: Call): bool { k.pc == Guarded || k.pc == Bumped }

  function Finished(k: Call): bool { k.pc == Refused || (k.pc == Leaving && !k.permit && k.guard == None) }

  // ------------------------------------------------------------------ the invariant

  predicate CallOk(k: Call) {
    match k.pc
    case Refusing => k == Call(Refusing, false, NoChild, false, None, None)
    case Refused => k == Call(Refused, false, NoChild, false, None, None)
    case Permitted => k == Call(Permitted, true, NoChild, false, None, None)
    case Spawned => k == Call(Spawned, true, Unkilled, false, None, None)
    case Guarded => k == Call(Guarded, true, Unkilled, false, None, Some(false))
    case Live => k == Call(Live, true, Unkilled, true, None, Some(false))
    case Bumped => k.fate.Some? && k == Call(Bumped, true, Unkilled, true, k.fate, Some(false))
    case Marked => k.fate.Some? && k == Call(Marked, true, Unkilled, true, k.fate, Some(true))
    case Reaping => k.fate.Some? && k == Call(Reaping, true, Killed, true, k.fate, Some(true))
    case Dropping => k == Call(Dropping, true, Unkilled, true, None, Some(false))
    case Dropped => k == Call(Dropped, true, Unkilled, true, Some(Crashed), None)
    case Leaving => k.child != Unkilled && (k.counted <==> k.fate.Some?) && (k.counted <==> k.child == Killed)
                    && (k.guard == None || (k.guard == Some(true) && k.counted))
  }

  predicate CallsOk(s: State) { forall c <- s.calls :: CallOk(s.calls[c]) }

  /** Each counter counts calls, and the permits out are those held. */
  predicate Ledger(s: State) {
    && s.permits + Count(s.calls, HoldsPermit) == MAX_CONCURRENT
    && s.spawned == Count(s.calls, IsCounted)
    && s.killedTimeout == Count(s.calls, IsTimedOut)
    && s.killedCrash == Count(s.calls, IsCrashed)
    && s.exitedClean == Count(s.calls, IsClean)
    && s.rejectedCap == Count(s.calls, IsRefused)
  }

  /** A step touches no call but its own. */
  lemma StepTouchesOne(s: State, c: nat, e: Event, x: nat)
    requires x != c
    ensures x in Step(s, c, e).calls <==> x in s.calls
    ensures x in s.calls ==> Step(s, c, e).calls[x] == s.calls[x]
  {
  }

  lemma StepKeepsCall(s: State, c: nat, e: Event)
    requires c in s.calls ==> CallOk(s.calls[c])
    ensures c in Step(s, c, e).calls ==> CallOk(Step(s, c, e).calls[c])
  {
  }

  lemma StepKeepsCalls(s: State, c: nat, e: Event)
    requires CallsOk(s)
    ensures CallsOk(Step(s, c, e))
  {
    hide Step; hide CallOk;
    StepKeepsCall(s, c, e);
    forall x | x in Step(s, c, e).calls ensures CallOk(Step(s, c, e).calls[x]) {
      if x != c { StepTouchesOne(s, c, e, x); }
    }
  }

  /** All the counts after one record is replaced. */
  lemma LedgerPut(s: State, c: nat, k: Call)
    ensures var n := s.calls[c := k];
      && Count(n, HoldsPermit) + One(c in s.calls && s.calls[c].permit) == Count(s.calls, HoldsPermit) + One(k.permit)
      && Count(n, IsCounted) + One(c in s.calls && s.calls[c].counted) == Count(s.calls, IsCounted) + One(k.counted)
      && Count(n, IsTimedOut) + One(c in s.calls && IsTimedOut(s.calls[c])) ==
        Count(s.calls, IsTimedOut) + One(IsTimedOut(k))
      && Count(n, IsCrashed) + One(c in s.calls && IsCrashed(s.calls[c])) ==
        Count(s.calls, IsCrashed) + One(IsCrashed(k))
      && Count(n, IsClean) + One(c in s.calls && IsClean(s.calls[c])) == Count(s.calls, IsClean) + One(IsClean(k))
      && Count(n, IsRefused) + One(c in s.calls && IsRefused(s.calls[c])) ==
        Count(s.calls, IsRefused) + One(IsRefused(k))
  {
    hide Count;
    CountPut(s.calls, c, k, HoldsPermit);
    CountPut(s.calls, c, k, IsCounted);
    CountPut(s.calls, c, k, IsTimedOut);
    CountPut(s.calls, c, k, IsCrashed);
    CountPut(s.calls, c, k, IsClean);
    CountPut(s.calls, c, k, IsRefused);
  }

  /** A step replaces its own call's record and no other. */
  lemma StepPuts(s: State, c: nat, e: Event)
    ensures var s' := Step(s, c, e); s' != s ==> c in s'.calls && s'.calls == s.calls[c := s'.calls[c]]
  {
  }

  /** The permits and `spawned` move by what the call's record contributes to them. */
  lemma PermitsFollow(s: State, c: nat, e: Event)
    requires c in s.calls ==> CallOk(s.calls[c])
    ensures var s' := Step(s, c, e);
      s' != s && c in s'.calls ==>
        && s'.permits + One(s'.calls[c].permit) == s.permits + One(c in s.calls && s.calls[c].permit)
        && s'.spawned + One(c in s.calls && s.calls[c].counted) == s.spawned + One(s'.calls[c].counted)
  {
  }

  /** So do the terminal counters. */
  lemma TerminalsFollow(s: State, c: nat, e: Event)
    requires c in s.calls ==> CallOk(s.calls[c])
    ensures var s' := Step(s, c, e);
      s' != s && c in s'.calls ==>
        && s'.killedTimeout + One(c in s.calls && IsTimedOut(s.calls[c])) ==
          s.killedTimeout + One(IsTimedOut(s'.calls[c]))
        && s'.killedCrash + One(c in s.calls && IsCrashed(s.calls[c])) == s.killedCrash + One(IsCrashed(s'.calls[c]))
        && s'.exitedClean + One(c in s.calls && IsClean(s.calls[c])) == s.exitedClean + One(IsClean(s'.calls[c]))
  {
  }

  lemma RefusalsFollow(s: State, c: nat, e: Event)
    requires c in s.calls ==> CallOk(s.calls[c])
    ensures var s' := Step(s, c, e);
      s' != s && c in s'.calls ==>
        s'.rejectedCap + One(c in s.calls && IsRefused(s.calls[c])) == s.rejectedCap + One(IsRefused(s'.calls[c]))
  {
  }

  lemma StepKeepsLedger(s: State, c: nat, e: Event)
    requires CallsOk(s) && Ledger(s)
    ensures Ledger(Step(s, c, e))
  {
    hide Count; hide Step; hide CallOk; hide IsTimedOut; hide IsCrashed; hide IsClean; hide IsRefused;
    StepPuts(s, c, e);
    PermitsFollow(s, c, e);
    TerminalsFollow(s, c, e);
    RefusalsFollow(s, c, e);
    var s' := Step(s, c, e);
    if s' != s { LedgerPut(s, c, s'.calls[c]); }
  }

  lemma {:induction false} RunKeeps(events: seq<(nat, Event)>)
    ensures CallsOk(Run(events)) && Ledger(Run(events))
  {
    if events == [] {
    } else {
      var s := Run(events[..|events| - 1]);
      RunKeeps(events[..|events| - 1]);
      StepKeepsCalls(s, events[|events| - 1].0, events[|events| - 1].1);
      StepKeepsLedger(s, events[|events| - 1].0, events[|events| - 1].1);
    }
  }

  // ------------------------------------------------------------------ what holds of every run

  function HasFate(k: Call): bool { k.fate.Some? }

  function DidNotTimeOut(k: Call): bool { IsCrashed(k) || IsClean(k) }

  lemma FatesAddUp(calls: map<nat, Call>)
    ensures Count(calls, HasFate) == Count(calls, IsTimedOut) + Count(calls, IsCrashed) + Count(calls, IsClean)
  {
    forall k: Call
      ensures HasFate(k) <==> IsTimedOut(k) || DidNotTimeOut(k)
    {
      if k.fate.Some? {
        match k.fate.value
        case TimedOut =>
        case Crashed =>
        case Clean =>
      }
    }
    CountSplit(calls, HasFate, IsTimedOut, DidNotTimeOut);
    CountSplit(calls, DidNotTimeOut, IsCrashed, IsClean);
  }

  /**
   The ledger, in every state of every run: each spawned worker is in exactly one
   terminal counter or has an unaccounted guard; the two windows in which a
   counter and a guard are briefly out of step are counted exactly.
   */
  lemma LedgerBalances(events: seq<(nat, Event)>)
    ensures var s := Run(events);
      s.spawned + Count(s.calls, InWindow)
        == s.killedTimeout + s.killedCrash + s.exitedClean + Count(s.calls, Unaccounted)
  {
    hide Run; hide Count; hide CallOk;
    RunKeeps(events);
    var s := Run(events);
    FatesAddUp(s.calls);
    forall c | c in s.calls
      ensures var k := s.calls[c];
        && IsCounted(k) == (HasFate(k) || Owing(k)) && !(HasFate(k) && Owing(k))
        && Unaccounted(k) == (Owing(k) || InWindow(k)) && !(Owing(k) && InWindow(k))
    {
      CallSplits(s.calls[c]);
    }
    hide IsCounted; hide HasFate; hide Owing; hide Unaccounted; hide InWindow;
    CountSplit(s.calls, IsCounted, HasFate, Owing);
    CountSplit(s.calls, Unaccounted, Owing, InWindow);
  }

  lemma CallSplits(k: Call)
    requires CallOk(k)
    ensures IsCounted(k) == (HasFate(k) || Owing(k)) && !(HasFate(k) && Owing(k))
    ensures Unaccounted(k) == (Owing(k) || InWindow(k)) && !(Owing(k) && InWindow(k))
  {
  }

  /** Counted as spawned, in no terminal counter yet. */
  function Owing(k: Call): bool { k.pc == Live || k.pc == Dropping }

  /** The plain equation holds exactly when no call is inside such a window; windows hold no suspension point. */
  lemma PlainLedgerIff(events: seq<(nat, Event)>)
    ensures var s := Run(events);
      s.spawned == s.killedTimeout + s.killedCrash + s.exitedClean + Count(s.calls, Unaccounted)
      <==> forall c <- s.calls :: !InWindow(s.calls[c])
  {
    hide Run;
    LedgerBalances(events);
    var calls := Run(events).calls;
    if c :| c in calls && InWindow(calls[c]) {
      assert c in Which(calls, InWindow);
    } else {
      CountNone(calls, InWindow);
    }
  }

  /** Such a window is reachable: a guard made but not yet counted. */
  lemma WindowIsReachable()
    ensures var s := Run([(0, Acquire), (0, Spawn), (0, MakeGuard)]);
      s.spawned != s.killedTimeout + s.killedCrash + s.exitedClean + Count(s.calls, Unaccounted)
  {
    var e: seq<(nat, Event)> := [(0, Acquire), (0, Spawn), (0, MakeGuard)];
    assert e[..2][..1] == e[..1] && e[..1][..0] == [];
    var s1, s2 := Step(Init(), 0, Acquire), Step(Step(Init(), 0, Acquire), 0, Spawn);
    assert Run(e[..1]) == s1;
    assert Run(e[..2]) == s2;
    assert Run(e) == Step(s2, 0, MakeGuard);
    assert InWindow(Run(e).calls[0]);
    PlainLedgerIff(e);
  }

  /** At most two children exist that no kill was sent to, and the windows are never more than two. */
  lemma AtMostTwoUnkilled(events: seq<(nat, Event)>)
    ensures var s := Run(events);
      Count(s.calls, HasUnkilled) <= MAX_CONCURRENT && Count(s.calls, InWindow) <= MAX_CONCURRENT
  {
    RunKeeps(events);
    hide Run; hide Count;
    var s := Run(events);
    CountAtMost(s.calls, HasUnkilled, HoldsPermit);
    CountAtMost(s.calls, InWindow, HoldsPermit);
  }

  function SpawnFailed(k: Call): bool { k.pc == Leaving && !k.counted }

  function Everyone(k: Call): bool { true }

  /**
   When every call has finished: all permits are back, no unkilled child is left, and every call is in exactly one place
   of the ledger.
   */
  lemma BalancedAtRest(events: seq<(nat, Event)>)
    requires var s := Run(events); forall c <- s.calls :: Finished(s.calls[c])
    ensures var s := Run(events);
      && s.permits == MAX_CONCURRENT && Count(s.calls, HasUnkilled) == 0
      && s.spawned == s.killedTimeout + s.killedCrash + s.exitedClean
      && |s.calls| == s.spawned + s.rejectedCap + Count(s.calls, SpawnFailed)
  {
    hide Run; hide Count;
    RunKeeps(events);
    LedgerBalances(events);
    var s := Run(events);
    AtRestNobodyHolds(s);
    AtRestSplit(s);
  }

  lemma AtRestNobodyHolds(s: State)
    requires CallsOk(s) && forall c <- s.calls :: Finished(s.calls[c])
    ensures Count(s.calls, HoldsPermit) == 0 && Count(s.calls, HasUnkilled) == 0
    ensures Count(s.calls, InWindow) == 0 && Count(s.calls, Unaccounted) == 0
  {
  }

  lemma AtRestSplit(s: State)
    requires CallsOk(s) && forall c <- s.calls :: Finished(s.calls[c])
    ensures |s.calls| == Count(s.calls, IsRefused) + Count(s.calls, IsCounted) + Count(s.calls, SpawnFailed)
  {
    assert Which(s.calls, Everyone) == s.calls.Keys;
    assert |s.calls| == Count(s.calls, Everyone);
    hide Count; hide Which;
    CountSplit(s.calls, NotRefused, IsCounted, SpawnFailed);
    CountSplit(s.calls, Everyone, IsRefused, NotRefused);
  }

  function NotRefused(k: Call): bool { k.pc != Refused }

  /** A finished call has bumped exactly one terminal counter if it spawned a worker, and none otherwise. */
  lemma OneTerminalEach(events: seq<(nat, Event)>, c: nat)
    requires c in Run(events).calls && Finished(Run(events).calls[c])
    ensures var k := Run(events).calls[c]; (k.counted <==> k.fate.Some?) && (k.counted <==> k.child == Killed)
  {
    RunKeeps(events);
  }

  lemma FateStep(s: State, c: nat, e: Event, x: nat)
    requires CallsOk(s) && x in s.calls && s.calls[x].fate.Some?
    ensures x in Step(s, c, e).calls && Step(s, c, e).calls[x].fate == s.calls[x].fate
  {
  }

  /** Once a call has bumped a terminal counter it never bumps another. */
  lemma {:induction false} FateIsFinal(before: seq<(nat, Event)>, more: seq<(nat, Event)>, c: nat)
    requires c in Run(before).calls && Run(before).calls[c].fate.Some?
    ensures c in Run(before + more).calls && Run(before + more).calls[c].fate == Run(before).calls[c].fate
  {
    hide Step; hide CallsOk; hide Ledger;
    if more == [] {
      assert before + more == before;
    } else {
      var init := more[..|more| - 1];
      FateIsFinal(before, init, c);
      assert (before + more)[..|before + more| - 1] == before + init;
      RunKeeps(before + init);
      FateStep(Run(before + init), more[|more| - 1].0, more[|more| - 1].1, c);
    }
  }

  // ------------------------------------------------------------------ which events bump which counter

  /** Event `i` of the run is step `e` of call `c`, taken where the call is at `pc`. */
  ghost predicate TakenAt(events: seq<(nat, Event)>, i: int, c: nat, e: Event, pc: Pc) {
    && 0 <= i < |events| && events[i] == (c, e)
    && c in Run(events[..i]).calls && Run(events[..i]).calls[c].pc == pc
  }

  ghost predicate Took(events: seq<(nat, Event)>, c: nat, e: Event, pc: Pc) {
    exists i :: TakenAt(events, i, c, e, pc)
  }

  lemma TakenEarlier(events: seq<(nat, Event)>, n: nat, i: nat, c: nat, e: Event, pc: Pc)
    requires i < n <= |events|
    ensures TakenAt(events[..n], i, c, e, pc) <==> TakenAt(events, i, c, e, pc)
  {
    hide Run;
    assert events[..n][..i] == events[..i];
  }

  lemma TakenRange(events: seq<(nat, Event)>, i: int, c: nat, e: Event, pc: Pc)
    requires TakenAt(events, i, c, e, pc)
    ensures 0 <= i < |events|
  {
    hide Run;
  }

  lemma TookNext(events: seq<(nat, Event)>, c: nat, e: Event, pc: Pc)
    requires events != []
    ensures var n := |events| - 1;
      Took(events, c, e, pc) <==> Took(events[..n], c, e, pc) || TakenAt(events, n, c, e, pc)
  {
    hide TakenAt;
    var n := |events| - 1;
    if Took(events[..n], c, e, pc) {
      var i :| TakenAt(events[..n], i, c, e, pc);
      TakenRange(events[..n], i, c, e, pc);
      TakenEarlier(events, n, i, c, e, pc);
    }
    if Took(events, c, e, pc) && !TakenAt(events, n, c, e, pc) {
      var i :| TakenAt(events, i, c, e, pc);
      TakenRange(events, i, c, e, pc);
      TakenEarlier(events, n, i, c, e, pc);
    }
  }

  lemma NewFate(s: State, x: nat, e: Event, c: nat)
    requires CallsOk(s)
    ensures var s' := Step(s, x, e);
      c in s'.calls ==>
        var before := if c in s.calls then s.calls[c].fate else None;
        s'.calls[c].fate ==
          if x == c && c in s.calls && e == TimeOut && s.calls[c].pc == Live then Some(TimedOut)
          else if x == c && c in s.calls && e == Finish && s.calls[c].pc == Live then Some(Clean)
          else if x == c && c in s.calls && e == DropCounts && s.calls[c].pc == Dropping then Some(Crashed)
          else before
  {
  }

  lemma NoFateWhileOwing(s: State, c: nat)
    requires CallsOk(s) && c in s.calls && (s.calls[c].pc == Live || s.calls[c].pc == Dropping)
    ensures s.calls[c].fate == None
  {
  }

  lemma CallStays(s: State, x: nat, e: Event, c: nat)
    requires c in s.calls
    ensures c in Step(s, x, e).calls
  {
  }

  lemma {:induction false} NeverCalled(events: seq<(nat, Event)>, c: nat, e: Event, pc: Pc)
    requires c !in Run(events).calls
    ensures !Took(events, c, e, pc)
  {
    if events != [] {
      var n := |events| - 1;
      if c in Run(events[..n]).calls { CallStays(Run(events[..n]), events[n].0, events[n].1, c); }
      NeverCalled(events[..n], c, e, pc);
      TookNext(events, c, e, pc);
    }
  }

  /**
   In every run a call is in the timeout counter if and only if it timed out while talking to the worker, in the clean
   counter if and only if it finished there, and in the crash counter if and only if its guard was dropped unaccounted.
   */
  lemma {:induction false} FateIff(events: seq<(nat, Event)>, c: nat)
    requires c in Run(events).calls
    ensures var fate := Run(events).calls[c].fate;
      && (fate == Some(TimedOut) <==> Took(events, c, TimeOut, Live))
      && (fate == Some(Clean) <==> Took(events, c, Finish, Live))
      && (fate == Some(Crashed) <==> Took(events, c, DropCounts, Dropping))
  {
    var n := |events| - 1;
    var s, x, e := Run(events[..n]), events[n].0, events[n].1;
    RunKeeps(events[..n]);
    NewFate(s, x, e, c);
    TookNext(events, c, TimeOut, Live);
    TookNext(events, c, Finish, Live);
    TookNext(events, c, DropCounts, Dropping);
    hide Took; hide Step;
    if c in s.calls {
      FateIff(events[..n], c);
      if s.calls[c].pc == Live || s.calls[c].pc == Dropping { NoFateWhileOwing(s, c); }
    } else {
      NeverCalled(events[..n], c, TimeOut, Live);
      NeverCalled(events[..n], c, Finish, Live);
      NeverCalled(events[..n], c, DropCounts, Dropping);
    }
    hide CallsOk; hide Ledger;
  }

  lemma IntoDropping(s: State, x: nat, e: Event, c: nat)
    requires c in Step(s, x, e).calls && Step(s, x, e).calls[c].pc == Dropping
    ensures c in s.calls && (s.calls[c].pc == Dropping || (x == c && e == Abort && s.calls[c].pc == Live))
  {
  }

  /** A guard is dropped unaccounted only after the call was abandoned while talking to the worker. */
  lemma {:induction false} DroppingWasAborted(events: seq<(nat, Event)>, c: nat)
    requires c in Run(events).calls && Run(events).calls[c].pc == Dropping
    ensures Took(events, c, Abort, Live)
  {
    var n := |events| - 1;
    var s := Run(events[..n]);
    IntoDropping(s, events[n].0, events[n].1, c);
    TookNext(events, c, Abort, Live);
    hide Took; hide Step;
    if s.calls[c].pc == Dropping { DroppingWasAborted(events[..n], c); }
  }

  lemma CrashedWasAborted(events: seq<(nat, Event)>, c: nat)
    requires c in Run(events).calls && Run(events).calls[c].fate == Some(Crashed)
    ensures Took(events, c, Abort, Live)
  {
    FateIff(events, c);
    hide Run;
    var i :| TakenAt(events, i, c, DropCounts, Dropping);
    DroppingWasAborted(events[..i], c);
    var j :| TakenAt(events[..i], j, c, Abort, Live);
    assert events[..i][..j] == events[..j];
    assert TakenAt(events, j, c, Abort, Live);
  }

  // ------------------------------------------------------------------ a call from end to end

  /** A new call gets a permit if and only if fewer than two are out. */
  lemma AcquireIff(events: seq<(nat, Event)>, c: nat)
    requires c !in Run(events).calls
    ensures var s, s' := Run(events), Step(Run(events), c, Acquire);
      && c in s'.calls && (s'.calls[c].permit <==> Count(s.calls, HoldsPermit) < MAX_CONCURRENT)
      && (s'.calls[c].pc == if s'.calls[c].permit then Permitted else Refusing)
  {
    RunKeeps(events);
    hide Run; hide Count;
  }

  /** Steps of one call with nothing in between. */
  function Play(s: State, c: nat, steps: seq<Event>): State
    decreases |steps|
  {
    if steps == [] then s else Play(Step(s, c, steps[0]), c, steps[1..])
  }

  lemma {:induction false} PlayConcat(s: State, c: nat, x: seq<Event>, y: seq<Event>)
    ensures Play(s, c, x + y) == Play(Play(s, c, x), c, y)
    decreases |x|
  {
    hide Step;
    if x == [] {
      assert x + y == y;
    } else {
      assert (x + y)[1..] == x[1..] + y;
      PlayConcat(Step(s, c, x[0]), c, x[1..], y);
    }
  }

  const STARTING: seq<Event> := [Spawn, MakeGuard, CountSpawn]

  function Ending(f: Fate): seq<Event> {
    match f
    case TimedOut => [TimeOut, MarkAccounted, Kill, Reaped]
    case Clean => [Finish, MarkAccounted, Kill, Reaped]
    case Crashed => [Abort, DropCounts, DropKills]
  }

  const LEAVING: seq<Event> := [ReleasePermit, DropSpentGuard]

  lemma PlayOne(s: State, c: nat, e: Event, rest: seq<Event>)
    ensures Play(s, c, [e] + rest) == Play(Step(s, c, e), c, rest)
  {
    hide Step;
    assert ([e] + rest)[1..] == rest;
  }

  lemma Play3(s: State, c: nat, a: Event, b: Event, d: Event)
    ensures Play(s, c, [a, b, d]) == Step(Step(Step(s, c, a), c, b), c, d)
  {
    hide Step;
    assert [a, b, d] == [a] + [b, d] && [b, d] == [b] + [d] && [d] == [d] + [];
    PlayOne(s, c, a, [b, d]);
    PlayOne(Step(s, c, a), c, b, [d]);
    PlayOne(Step(Step(s, c, a), c, b), c, d, []);
  }

  lemma Play4(s: State, c: nat, a: Event, b: Event, d: Event, e: Event)
    ensures Play(s, c, [a, b, d, e]) == Step(Step(Step(Step(s, c, a), c, b), c, d), c, e)
  {
    hide Step;
    assert [a, b, d, e] == [a] + [b, d, e];
    PlayOne(s, c, a, [b, d, e]);
    Play3(Step(s, c, a), c, b, d, e);
  }

  lemma PutTwice(s: State, c: nat, k: Call, l: Call)
    ensures Put(Put(s, c, k), c, l) == Put(s, c, l)
  {
    assert s.calls[c := k][c := l] == s.calls[c := l];
  }

  lemma PlayStarting(s: State, c: nat)
    requires c in s.calls && s.calls[c].pc == Permitted && CallOk(s.calls[c])
    ensures Play(s, c, STARTING) ==
      Put(s.(spawned := s.spawned + 1), c, Call(Live, true, Unkilled, true, None, Some(false)))
  {
    Play3(s, c, Spawn, MakeGuard, CountSpawn);
    hide Play;
    var s1 := Step(s, c, Spawn);
    var s2 := Step(s1, c, MakeGuard);
    assert s.calls[c := s1.calls[c]][c := s2.calls[c]] == s.calls[c := s2.calls[c]];
  }

  /** One more in the counter of that fate. */
  function Bump(s: State, f: Fate): State {
    match f
    case TimedOut => s.(killedTimeout := s.killedTimeout + 1)
    case Clean => s.(exitedClean := s.exitedClean + 1)
    case Crashed => s.(killedCrash := s.killedCrash + 1)
  }

  /** Once its counter is bumped, the child is killed and reaped. */
  lemma Reap(s: State, c: nat, f: Fate)
    requires c in s.calls && s.calls[c] == Call(Bumped, true, Unkilled, true, Some(f), Some(false))
    ensures Step(Step(Step(s, c, MarkAccounted), c, Kill), c, Reaped) ==
      Put(s, c, Call(Leaving, true, Killed, true, Some(f), Some(true)))
  {
    var k1, k2 := Call(Marked, true, Unkilled, true, Some(f), Some(true)),
      Call(Reaping, true, Killed, true, Some(f), Some(true));
    assert Step(s, c, MarkAccounted) == Put(s, c, k1);
    PutTwice(s, c, k1, k2);
    assert Step(Put(s, c, k1), c, Kill) == Put(s, c, k2);
    PutTwice(s, c, k2, Call(Leaving, true, Killed, true, Some(f), Some(true)));
  }

  lemma PlayBumped(s: State, c: nat, f: Fate, e: Event)
    requires c in s.calls && s.calls[c].pc == Live && CallOk(s.calls[c])
    requires (e == TimeOut && f == TimedOut) || (e == Finish && f == Clean)
    ensures Play(s, c, [e, MarkAccounted, Kill, Reaped]) ==
      Put(Bump(s, f), c, Call(Leaving, true, Killed, true, Some(f), Some(true)))
  {
    Play4(s, c, e, MarkAccounted, Kill, Reaped);
    hide Play;
    var k := Call(Bumped, true, Unkilled, true, Some(f), Some(false));
    assert Step(s, c, e) == Put(Bump(s, f), c, k);
    hide Step;
    Reap(Put(Bump(s, f), c, k), c, f);
    PutTwice(Bump(s, f), c, k, Call(Leaving, true, Killed, true, Some(f), Some(true)));
  }

  lemma PlayCrashed(s: State, c: nat)
    requires c in s.calls && s.calls[c].pc == Live && CallOk(s.calls[c])
    ensures Play(s, c, [Abort, DropCounts, DropKills]) ==
      Put(Bump(s, Crashed), c, Call(Leaving, true, Killed, true, Some(Crashed), None))
  {
    Play3(s, c, Abort, DropCounts, DropKills);
    hide Play;
    var k1, k2 := s.calls[c].(pc := Dropping), Call(Dropped, true, Unkilled, true, Some(Crashed), None);
    assert Step(s, c, Abort) == Put(s, c, k1);
    PutTwice(Bump(s, Crashed), c, k1, k2);
    assert Step(Put(s, c, k1), c, DropCounts) == Put(Bump(s, Crashed), c, k2);
    PutTwice(Bump(s, Crashed), c, k2, Call(Leaving, true, Killed, true, Some(Crashed), None));
  }

  lemma PlayEnding(s: State, c: nat, f: Fate)
    requires c in s.calls && s.calls[c].pc == Live && CallOk(s.calls[c])
    ensures var guard := if f == Crashed then None else Some(true);
      Play(s, c, Ending(f)) == Put(Bump(s, f), c, Call(Leaving, true, Killed, true, Some(f), guard))
  {
    hide Play; hide Step; hide CallOk;
    match f
    case TimedOut => PlayBumped(s, c, f, TimeOut);
    case Clean => PlayBumped(s, c, f, Finish);
    case Crashed => PlayCrashed(s, c);
  }

  lemma LeavingSteps(s: State, c: nat)
    requires c in s.calls && s.calls[c].pc == Leaving && s.calls[c].permit
    ensures Step(Step(s, c, ReleasePermit), c, DropSpentGuard) ==
      Put(s.(permits := s.permits + 1), c, s.calls[c].(permit := false, guard := None))
  {
    var k, freed := s.calls[c].(permit := false), s.(permits := s.permits + 1);
    assert Step(s, c, ReleasePermit) == Put(freed, c, k);
    PutTwice(freed, c, k, k.(guard := None));
  }

  lemma PlayLeaving(s: State, c: nat)
    requires c in s.calls && s.calls[c].pc == Leaving && s.calls[c].permit
    ensures Play(s, c, LEAVING) ==
      Put(s.(permits := s.permits + 1), c, s.calls[c].(permit := false, guard := None))
  {
    LeavingSteps(s, c);
    hide Step; hide Put;
    assert LEAVING == [ReleasePermit] + [DropSpentGuard] && [DropSpentGuard] == [DropSpentGuard] + [];
    PlayOne(s, c, ReleasePermit, [DropSpentGuard]);
    PlayOne(Step(s, c, ReleasePermit), c, DropSpentGuard, []);
  }

  lemma PlayToEnd(s: State, c: nat, f: Fate)
    requires c in s.calls && s.calls[c].pc == Permitted && CallOk(s.calls[c])
    ensures var guard := if f == Crashed then None else Some(true);
      Play(s, c, STARTING + Ending(f)) ==
      Put(Bump(s, f).(spawned := s.spawned + 1), c, Call(Leaving, true, Killed, true, Some(f), guard))
  {
    hide Play; hide Step; hide Ending;
    PlayConcat(s, c, STARTING, Ending(f));
    PlayStarting(s, c);
    var k, guard := Call(Live, true, Unkilled, true, None, Some(false)), if f == Crashed then None else Some(true);
    var s1 := Put(s.(spawned := s.spawned + 1), c, k);
    PlayEnding(s1, c, f);
    BumpPut(s.(spawned := s.spawned + 1), c, k, f);
    PutTwice(Bump(s.(spawned := s.spawned + 1), f), c, k, Call(Leaving, true, Killed, true, Some(f), guard));
  }

  lemma BumpPut(s: State, c: nat, k: Call, f: Fate)
    ensures Bump(Put(s, c, k), f) == Put(Bump(s, f), c, k)
  {
  }

  /**
   A permitted call can end in each of the three ways, and then it has finished, its child was killed, its permit is
   back, and exactly `spawned` and the counter of its fate are one higher.
   */
  lemma WholeCall(s: State, c: nat, f: Fate)
    requires c in s.calls && s.calls[c].pc == Permitted && CallOk(s.calls[c])
    ensures var s' := Play(s, c, STARTING + Ending(f) + LEAVING);
      && s' == Put(Bump(s, f).(permits := s.permits + 1, spawned := s.spawned + 1), c,
                   Call(Leaving, false, Killed, true, Some(f), None))
      && Finished(s'.calls[c])
  {
    hide Play; hide Step; hide Ending; hide CallOk;
    PlayConcat(s, c, STARTING + Ending(f), LEAVING);
    PlayToEnd(s, c, f);
    var guard := if f == Crashed then None else Some(true);
    var s1, k := Bump(s, f).(spawned := s.spawned + 1), Call(Leaving, true, Killed, true, Some(f), guard);
    PlayLeaving(Put(s1, c, k), c);
    PutTwice(s1.(permits := s.permits + 1), c, k, k.(permit := false, guard := None));
  }

  /** A refused call only counts its refusal; one whose spawn fails counts nothing and gives its permit back. */
  lemma OtherEnds(s: State, c: nat)
    requires c in s.calls && CallOk(s.calls[c])
    ensures s.calls[c].pc == Refusing ==>
      Step(s, c, CountRefusal) == Put(s.(rejectedCap := s.rejectedCap + 1), c, s.calls[c].(pc := Refused))
    ensures s.calls[c].pc == Permitted ==>
      Play(Step(s, c, SpawnFails), c, LEAVING) ==
      Put(s.(permits := s.permits + 1), c, Call(Leaving, false, NoChild, false, None, None))
  {
    if s.calls[c].pc == Permitted {
      var k := s.calls[c].(pc := Leaving);
      assert Step(s, c, SpawnFails) == Put(s, c, k);
      PlayLeaving(Put(s, c, k), c);
      hide Play; hide Step;
      PutTwice(s.(permits := s.permits + 1), c, k, k.(permit := false, guard := None));
    }
  }

  /** Abandoned while the killed child is being reaped, a call leaves as if it had been reaped. */
  lemma AbortWhileReaping(s: State, c: nat)
    requires c in s.calls && s.calls[c].pc == Reaping
    ensures Step(s, c, Abort) == Step(s, c, Reaped) && Step(s, c, Abort).calls[c].pc == Leaving
  {
  }
}
