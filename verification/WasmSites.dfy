/**
 The side tables and use chains of the stack-to-SSA pass are sound, and the
 constants it records can be false only in one way.
 */
module WasmSites {
  import opened Basics
  import opened WasmSsa
  import opened WasmSound

  // ------------------------------------------------------------------ the tables name what was consumed

  function Nth(stack: seq<Val>, i: nat): Val { if i < |stack| then stack[|stack| - 1 - i] else Val(I32, 0) }

  /** What a run would record at an operator: the values it reads, writes, addresses with or tests. */
  function SiteAt(op: Op, pos: nat, m: Machine, m': Machine): seq<Site<Val>>
    requires m.Running? && m'.Running?
  {
    match op
    case LocalGet(i) => if i < |m.locals| then [LocalLoad(pos, i, m.locals[i])] else []
    case LocalSet(i) => [LocalStore(pos, i, Nth(m.stack, 0))]
    case LocalTee(i) => [LocalStore(pos, i, Nth(m.stack, 0))]
    case GlobalGet(i) => [GlobalLoad(pos, i, Nth(m'.stack, 0))]
    case GlobalSet(i) => [GlobalStore(pos, i, Nth(m.stack, 0))]
    case Load(w, _) => [MemoryOp(pos, Nth(m.stack, 0), Width(w), false)]
    case Store(w) => [MemoryOp(pos, Nth(m.stack, 1), Width(w), true)]
    case BrIf => [BranchCondition(pos, Nth(m.stack, 0))]
    case _ => []
  }

  function ConcreteSites(env: Env, orc: Oracle, ops: seq<Op>, pos: seq<nat>, locals: seq<Val>, k: nat): seq<Site<Val>>
    requires k <= |ops| && |pos| == |ops| + 1
  {
    if k == 0 then [] else
      var m, m' := Run(env, orc, ops, locals, k - 1), Run(env, orc, ops, locals, k);
      ConcreteSites(env, orc, ops, pos, locals, k - 1) +
      if m.Running? && m'.Running? then SiteAt(ops[k - 1], pos[k - 1], m, m') else []
  }

  /** The value a name stands for. */
  function ValueOf(rho: seq<Val>, n: Name): Val { if n.version < |rho| then rho[n.version] else Val(I32, 0) }

  function Meant(rho: seq<Val>, site: Site<Name>): Site<Val> {
    match site
    case LocalLoad(at, i, n) => LocalLoad(at, i, ValueOf(rho, n))
    case LocalStore(at, i, n) => LocalStore(at, i, ValueOf(rho, n))
    case GlobalLoad(at, i, n) => GlobalLoad(at, i, ValueOf(rho, n))
    case GlobalStore(at, i, n) => GlobalStore(at, i, ValueOf(rho, n))
    case MemoryOp(at, n, w, st) => MemoryOp(at, ValueOf(rho, n), w, st)
    case TableIndex(at, n) => TableIndex(at, ValueOf(rho, n))
    case BranchCondition(at, n) => BranchCondition(at, ValueOf(rho, n))
    case CallSite(at, fn) => CallSite(at, fn)
  }

  function MeantAll(rho: seq<Val>, sites: seq<Site<Name>>): seq<Site<Val>> {
    seq(|sites|, i requires 0 <= i < |sites| => Meant(rho, sites[i]))
  }

  /** The names of an entry are of values defined so far. */
  predicate SiteKnown(n: nat, site: Site<Name>) {
    match site
    case MemoryOp(_, a, _, _) => a.version < n
    case CallSite(_, _) => true
    case _ => site.value.version < n
  }

  predicate SitesKnown(n: nat, sites: seq<Site<Name>>) { forall i :: 0 <= i < |sites| ==> SiteKnown(n, sites[i]) }

  /** Later definitions do not change what earlier entries mean. */
  lemma MeantStays(rho: seq<Val>, more: seq<Val>, sites: seq<Site<Name>>)
    requires SitesKnown(|rho|, sites)
    ensures MeantAll(rho + more, sites) == MeantAll(rho, sites) && SitesKnown(|rho + more|, sites)
  {
    forall i | 0 <= i < |sites|
      ensures Meant(rho + more, sites[i]) == Meant(rho, sites[i]) && SiteKnown(|rho + more|, sites[i])
    {
      assert SiteKnown(|rho|, sites[i]);
    }
  }

  lemma MeantConcat(rho: seq<Val>, a: seq<Site<Name>>, b: seq<Site<Name>>)
    ensures MeantAll(rho, a + b) == MeantAll(rho, a) + MeantAll(rho, b)
  {
  }

  /** The entries an operator adds when its operands are there. */
  function NewSites(s: Sym, op: Op, pos: nat, at: nat): seq<Site<Name>>
    requires Arity(op) <= |s.stack| && (op.LocalGet? ==> op.index in s.locals)
  {
    var h := |s.stack|;
    match op
    case LocalGet(i) => [LocalLoad(pos, i, s.locals[i])]
    case LocalSet(i) => [LocalStore(pos, i, s.stack[h - 1])]
    case LocalTee(i) => [LocalStore(pos, i, s.stack[h - 1])]
    case GlobalGet(i) => [GlobalLoad(pos, i, Name(at, |s.values|))]
    case GlobalSet(i) => [GlobalStore(pos, i, s.stack[h - 1])]
    case Load(w, _) => [MemoryOp(pos, s.stack[h - 1], Width(w), false)]
    case Store(w) => [MemoryOp(pos, s.stack[h - 2], Width(w), true)]
    case BrIf => [BranchCondition(pos, s.stack[h - 1])]
    case _ => []
  }

  lemma TraceSites(s: Sym, t: Trace, op: Op, pos: nat, at: nat)
    requires Straight(op) && Arity(op) <= |s.stack| && (op.LocalGet? ==> op.index in s.locals)
    ensures TraceStep(s, t, op, pos, at).sites == t.sites + NewSites(s, op, pos, at)
  {
    hide Used;
  }

  /** Each new entry names the value the operator consumed or produced. */
  lemma NewSitesMean(env: Env, orc: Oracle, k: nat, op: Op, s: Sym, m: Machine, rho: seq<Val>, pos: nat, at: nat)
    requires m.Running? && CanStep(env, op, m) && Rel(s, m.stack, m.locals, rho)
    requires op.LocalGet? ==> op.index in s.locals
    requires Exec(env, orc, k, op, m).Running?
    ensures Arity(op) <= |s.stack|
    ensures var m' := Exec(env, orc, k, op, m);
      var rho' := Recorded(op, m', rho);
      SitesKnown(|rho'|, NewSites(s, op, pos, at)) && MeantAll(rho', NewSites(s, op, pos, at)) == SiteAt(op, pos, m, m')
  {
    hide Exec; hide CanStep; hide Rel;
    var m' := Exec(env, orc, k, op, m);
    OperandsThere(env, op, s, m, rho);
    var h := |s.stack|;
    if op.GlobalGet? {
      ExecDefines(env, orc, k, op, m);
      RelHolds(s, m.stack, m.locals, rho, 0, 0);
    } else if op.LocalGet? {
      RelHolds(s, m.stack, m.locals, rho, 0, op.index);
    } else if Arity(op) > 0 {
      RelHolds(s, m.stack, m.locals, rho, h - 1, 0);
      if op.Store? { RelHolds(s, m.stack, m.locals, rho, h - 2, 0); }
    }
    RecordedExtends(op, m', rho);
  }

  lemma OperandsThere(env: Env, op: Op, s: Sym, m: Machine, rho: seq<Val>)
    requires m.Running? && CanStep(env, op, m) && Rel(s, m.stack, m.locals, rho)
    ensures |s.stack| == |m.stack| && Arity(op) <= |s.stack| && |rho| == |s.values|
  {
    hide Inputs; hide Immediate; hide TypedState;
    ArityIsInputs(env, op, Types(m.stack));
    RelHeight(s, m.stack, m.locals, rho);
  }

  lemma RecordedExtends(op: Op, m': Machine, rho: seq<Val>)
    ensures var rho' := Recorded(op, m', rho);
      |rho'| >= |rho| && rho'[..|rho|] == rho && forall i :: 0 <= i < |rho| ==> rho'[i] == rho[i]
  {
  }

  /**
   On every run of a validated straight-line body that reads only parameters and locals already set, each entry of the
   side tables names exactly the value the operator at its site read, wrote, addressed with or tested, in order.
   */
  lemma {:induction false} SitesSound(env: Env, orc: Oracle, ops: seq<Op>, pos: seq<nat>, locals: seq<Val>, k: nat)
    requires Entry(env, locals) && k <= |ops| && |pos| == |ops| + 1
    requires TypesAt(env, ops, k).Some? && ReadsSet(ops, env.params, k)
    requires Run(env, orc, ops, locals, k).Running?
    ensures var sites, rho := TraceRun(ops, pos, env.params, k).sites, Meaning(env, orc, ops, locals, k);
      SitesKnown(|rho|, sites) && MeantAll(rho, sites) == ConcreteSites(env, orc, ops, pos, locals, k)
  {
    hide TraceStep; hide Exec; hide Rel; hide Entry; hide SymRun; hide SiteAt; hide Inputs; hide Outputs;
    hide Immediate;
    if k == 0 {
      StartSites(env.params);
    } else {
      RunningBefore(env, orc, ops, locals, k - 1, k);
      SitesSound(env, orc, ops, pos, locals, k - 1);
      SiteStep(env, orc, ops, pos, locals, k - 1);
    }
  }

  lemma {:induction false} StartSites(n: nat)
    ensures TraceStart(n).sites == [] && |TraceStart(n).uses| == n && TraceStart(n).uses == seq(n, _ => [])
  {
    if n > 0 { StartSites(n - 1); }
  }

  /** What is known before operator `k`, and that it can step. */
  lemma ReadyToStep(env: Env, orc: Oracle, ops: seq<Op>, pos: seq<nat>, locals: seq<Val>, k: nat)
    requires Entry(env, locals) && k < |ops| && |pos| == |ops| + 1
    requires TypesAt(env, ops, k + 1).Some? && ReadsSet(ops, env.params, k + 1)
    requires Run(env, orc, ops, locals, k + 1).Running?
    ensures Run(env, orc, ops, locals, k).Running? && TypesAt(env, ops, k).Some? && End !in ops[..k] && Straight(ops[k])
    ensures var s, m, rho := SymRun(ops, pos, env.params, k), Run(env, orc, ops, locals, k),
      Meaning(env, orc, ops, locals, k);
      && CanStep(env, ops[k], m) && Rel(s, m.stack, m.locals, rho)
      && (ops[k].LocalGet? ==> ops[k].index in s.locals)
      && Run(env, orc, ops, locals, k + 1) == Exec(env, orc, k, ops[k], m)
      && Meaning(env, orc, ops, locals, k + 1) == Recorded(ops[k], Exec(env, orc, k, ops[k], m), rho)
  {
    hide Rel; hide Exec; hide Inputs; hide Outputs; hide Immediate; hide TypedState; hide SymRun; hide Entry;
    RunningBefore(env, orc, ops, locals, k, k + 1);
    NoEnd(env, ops, k);
    AnalysisSound(env, orc, ops, pos, locals, k);
    NeverStuck(env, orc, ops, locals, k);
    if ops[k].LocalGet? { assert IsSet(ops, env.params, k, ops[k].index); }
  }

  lemma SiteStep(env: Env, orc: Oracle, ops: seq<Op>, pos: seq<nat>, locals: seq<Val>, k: nat)
    requires Entry(env, locals) && k < |ops| && |pos| == |ops| + 1
    requires TypesAt(env, ops, k + 1).Some? && ReadsSet(ops, env.params, k + 1)
    requires Run(env, orc, ops, locals, k + 1).Running?
    requires var sites, rho := TraceRun(ops, pos, env.params, k).sites, Meaning(env, orc, ops, locals, k);
      SitesKnown(|rho|, sites) && MeantAll(rho, sites) == ConcreteSites(env, orc, ops, pos, locals, k)
    ensures var sites, rho := TraceRun(ops, pos, env.params, k + 1).sites, Meaning(env, orc, ops, locals, k + 1);
      SitesKnown(|rho|, sites) && MeantAll(rho, sites) == ConcreteSites(env, orc, ops, pos, locals, k + 1)
  {
    ReadyToStep(env, orc, ops, pos, locals, k);
    hide TraceStep; hide Exec; hide Rel; hide Entry; hide SymRun; hide SiteAt; hide CanStep; hide TypesAt;
    hide ReadsSet;
    hide Run; hide Meaning; hide SitesKnown; hide MeantAll; hide NewSites; hide Straight;
    var s, m, rho := SymRun(ops, pos, env.params, k), Run(env, orc, ops, locals, k), Meaning(env, orc, ops, locals, k);
    var t, op := TraceRun(ops, pos, env.params, k), ops[k];
    NewSitesMean(env, orc, k, op, s, m, rho, pos[k], pos[k + 1]);
    TraceSites(s, t, op, pos[k], pos[k + 1]);
    var added, rho' := NewSites(s, op, pos[k], pos[k + 1]), Recorded(op, Exec(env, orc, k, op, m), rho);
    GrownSites(rho, rho', t.sites, added, op, Exec(env, orc, k, op, m));
  }

  lemma GrownSites(rho: seq<Val>, rho': seq<Val>, sites: seq<Site<Name>>, more: seq<Site<Name>>, op: Op, m': Machine)
    requires rho' == Recorded(op, m', rho) && SitesKnown(|rho|, sites) && SitesKnown(|rho'|, more)
    ensures SitesKnown(|rho'|, sites + more)
      && MeantAll(rho', sites + more) == MeantAll(rho, sites) + MeantAll(rho', more)
  {
    hide MeantAll; hide SiteKnown;
    RecordedExtends(op, m', rho);
    assert rho' == rho + rho'[|rho|..];
    MeantStays(rho, rho'[|rho|..], sites);
    MeantConcat(rho', sites, more);
  }

  // ------------------------------------------------------------------ every use is filed where it belongs

  /** The use a pop makes. */
  function PoppedUse(s: Sym, at: nat): seq<(nat, Name)> {
    match Pop(s, at).1 case Some(n) => [(at, n)] case None => []
  }

  /**
   The uses an operator makes, in the order they are recorded: each an offset and the name of the slot or local
   consumed.
   */
  function OpUses(s: Sym, op: Op, pos: nat, at: nat): seq<(nat, Name)> {
    var one := PoppedUse(s, at);
    var two := one + PoppedUse(Pop(s, at).0, at);
    match op
    case LocalGet(i) => if i in s.locals then [(pos, s.locals[i])] else []
    case Store(_) => if |two| == 2 then two + [(pos, two[0].1)] else two
    case _ => if Arity(op) == 2 then two else if Arity(op) == 1 || op.BrTable? || op.Return? then one else []
  }

  /** All uses made by the first `k` operators. */
  function UseLog(ops: seq<Op>, pos: seq<nat>, params: nat, k: nat): seq<(nat, Name)>
    requires k <= |ops| && |pos| == |ops| + 1
  {
    if k == 0 then [] else
      var log := UseLog(ops, pos, params, k - 1);
      if End in ops[..k - 1] then log
      else log + OpUses(SymRun(ops, pos, params, k - 1), ops[k - 1], pos[k - 1], pos[k])
  }

  /** The offsets of the uses of version `i`, in order. */
  function Offsets(log: seq<(nat, Name)>, i: nat): seq<nat> {
    if log == [] then [] else
      var last := log[|log| - 1];
      Offsets(log[..|log| - 1], i) + if last.1.version == i then [last.0] else []
  }

  lemma OffsetsNext(log: seq<(nat, Name)>, off: nat, n: Name, i: nat)
    ensures Offsets(log + [(off, n)], i) == Offsets(log, i) + if n.version == i then [off] else []
  {
    assert (log + [(off, n)])[..|log|] == log;
  }

  lemma {:induction false} OffsetsNone(log: seq<(nat, Name)>, i: nat)
    requires forall k :: 0 <= k < |log| ==> log[k].1.version < i
    ensures Offsets(log, i) == []
  {
    if log != [] { OffsetsNone(log[..|log| - 1], i); }
  }

  /** Each value's chain is the offsets of its uses in the log. */
  predicate Filed(n: nat, uses: seq<seq<nat>>, log: seq<(nat, Name)>) {
    && |uses| == n && (forall k :: 0 <= k < |log| ==> log[k].1.version < n)
    && forall i :: 0 <= i < n ==> uses[i] == Offsets(log, i)
  }

  /** In every body the names on the stack and in the locals are of facts recorded under their versions. */
  predicate StackKnown(s: Sym) {
    Numbered(s.values, 0) && (forall i :: 0 <= i < |s.stack| ==> Known(s.values, s.stack[i]))
    && forall i <- s.locals :: Known(s.values, s.locals[i])
  }

  lemma {:induction false} FindsNumbered(values: seq<Fact>, base: nat, k: nat)
    requires Numbered(values, base) && k < |values|
    ensures FindFact(values, values[k].name) == k
  {
    if k > 0 {
      assert values[0].name.version != values[k].name.version;
      assert values[1..][k - 1] == values[k];
      FindsNumbered(values[1..], base + 1, k - 1);
    }
  }

  lemma FileOne(values: seq<Fact>, uses: seq<seq<nat>>, log: seq<(nat, Name)>, n: Name, off: nat)
    requires Numbered(values, 0) && Known(values, n) && Filed(|values|, uses, log)
    ensures Filed(|values|, Used(values, uses, n, off), log + [(off, n)])
  {
    FindsNumbered(values, 0, n.version);
    hide FindFact; hide Offsets;
    forall i: nat | i < |values|
      ensures Offsets(log + [(off, n)], i) == Offsets(log, i) + if n.version == i then [off] else []
    {
      OffsetsNext(log, off, n, i);
    }
  }

  lemma FileNew(n: nat, uses: seq<seq<nat>>, log: seq<(nat, Name)>)
    requires Filed(n, uses, log)
    ensures Filed(n + 1, uses + [[]], log)
  {
    OffsetsNone(log, n);
    hide Offsets;
  }

  lemma PopFiles(s: Sym, t: Trace, at: nat, log: seq<(nat, Name)>)
    requires StackKnown(s) && Filed(|s.values|, t.uses, log)
    ensures Filed(|s.values|, PopUses(s, t, at).uses, log + PoppedUse(s, at))
    ensures StackKnown(Pop(s, at).0) && Pop(s, at).0.values == s.values
  {
    hide Used; hide Filed;
    if s.stack != [] {
      FileOne(s.values, t.uses, log, s.stack[|s.stack| - 1], at);
    } else {
      assert log + [] == log;
    }
  }

  /** The operators that pop two, then perhaps define a value. */
  lemma TwiceFiles(s: Sym, t: Trace, at: nat, log: seq<(nat, Name)>)
    requires StackKnown(s) && Filed(|s.values|, t.uses, log)
    ensures var two := PoppedUse(s, at) + PoppedUse(Pop(s, at).0, at);
      Filed(|s.values|, TwiceUses(s, t, at).uses, log + two)
  {
    hide StackKnown; hide Filed; hide PopUses; hide PoppedUse; hide Pop;
    PopFiles(s, t, at, log);
    var one := PoppedUse(s, at);
    PopFiles(Pop(s, at).0, PopUses(s, t, at), at, log + one);
    assert log + one + PoppedUse(Pop(s, at).0, at) == log + (one + PoppedUse(Pop(s, at).0, at));
  }

  lemma StoreFiles(s: Sym, t: Trace, op: Op, pos: nat, at: nat, log: seq<(nat, Name)>)
    requires StackKnown(s) && Filed(|s.values|, t.uses, log) && op.Store?
    ensures Filed(|s.values|, TraceStep(s, t, op, pos, at).uses, log + OpUses(s, op, pos, at))
  {
    TwiceFiles(s, t, at, log);
    hide Filed; hide Used;
    var two := PoppedUse(s, at) + PoppedUse(Pop(s, at).0, at);
    if |two| == 2 {
      FileOne(s.values, TwiceUses(s, t, at).uses, log + two, two[0].1, pos);
      assert log + two + [(pos, two[0].1)] == log + (two + [(pos, two[0].1)]);
    }
  }

  lemma LocalFiles(s: Sym, t: Trace, op: Op, pos: nat, at: nat, log: seq<(nat, Name)>)
    requires StackKnown(s) && Filed(|s.values|, t.uses, log) && op.LocalGet?
    ensures Filed(|s.values|, TraceStep(s, t, op, pos, at).uses, log + OpUses(s, op, pos, at))
  {
    hide Filed; hide Used;
    if op.index in s.locals {
      FileOne(s.values, t.uses, log, s.locals[op.index], pos);
    } else {
      assert log + [] == log;
    }
  }

  /** One operator files its uses, and a new value starts without any. */
  lemma StepFiles(s: Sym, t: Trace, op: Op, pos: nat, at: nat, log: seq<(nat, Name)>)
    requires StackKnown(s) && Filed(|s.values|, t.uses, log)
    ensures Filed(|SymStep(s, op, pos, at).values|, TraceStep(s, t, op, pos, at).uses, log + OpUses(s, op, pos, at))
  {
    StepValues(s, op, pos, at);
    hide SymStep; hide StackKnown; hide Filed; hide PopUses; hide PoppedUse; hide Used; hide Pop;
    if op.LocalGet? {
      LocalFiles(s, t, op, pos, at, log);
    } else if op.Store? {
      StoreFiles(s, t, op, pos, at, log);
    } else if Arity(op) == 2 {
      TwiceFiles(s, t, at, log);
      FileNew(|s.values|, TwiceUses(s, t, at).uses, log + OpUses(s, op, pos, at));
    } else if Arity(op) == 1 || op.BrTable? || op.Return? {
      PopFiles(s, t, at, log);
      PopNothing(s, t, at);
      FileNew(|s.values|, PopUses(s, t, at).uses, log + OpUses(s, op, pos, at));
    } else {
      assert log + [] == log;
      FileNew(|s.values|, t.uses, log);
    }
  }

  lemma PopNothing(s: Sym, t: Trace, at: nat)
    ensures Pop(s, at).1.None? ==> PopUses(s, t, at) == t
  {
  }

  /** A defining operator adds one fact and the others none; facts are never changed. */
  lemma StepValues(s: Sym, op: Op, pos: nat, at: nat)
    ensures var v := SymStep(s, op, pos, at).values;
      |v| == |s.values| + (if Defines(op) then 1 else 0) && s.values <= v
  {
    hide ConstOf; hide Fold;
  }

  lemma PopTidy(s: Sym, at: nat)
    requires StackKnown(s)
    ensures StackKnown(Pop(s, at).0) && Pop(s, at).0.values == s.values && Pop(s, at).0.locals == s.locals
    ensures Pop(s, at).1.Some? ==> Known(s.values, Pop(s, at).1.value)
  {
  }

  lemma DefineTidy(s: Sym, at: nat, c: Option<int>)
    requires StackKnown(s)
    ensures StackKnown(Define(s, at, c))
  {
    var values := s.values + [Fact(Name(at, |s.values|), c)];
    assert forall n: Name :: Known(s.values, n) ==> Known(values, n);
  }

  lemma LocalTidy(s: Sym, op: Op, pos: nat, at: nat)
    requires StackKnown(s) && (op.LocalGet? || op.LocalSet? || op.LocalTee?)
    ensures StackKnown(SymStep(s, op, pos, at))
  {
    PopTidy(s, at);
  }

  lemma StepTidy(s: Sym, op: Op, pos: nat, at: nat)
    requires StackKnown(s)
    ensures StackKnown(SymStep(s, op, pos, at))
  {
    hide Pop; hide Define; hide ConstOf; hide Fold;
    if op.LocalGet? || op.LocalSet? || op.LocalTee? {
      LocalTidy(s, op, pos, at);
    } else {
      PopTidy(s, at);
      PopTidy(Pop(s, at).0, at);
      forall x: Sym, c: Option<int> {:trigger Define(x, at, c)} | StackKnown(x) ensures StackKnown(Define(x, at, c)) {
        DefineTidy(x, at, c);
      }
      NoteTidy(s);
      hide StackKnown;
    }
  }

  lemma NoteTidy(s: Sym)
    requires StackKnown(s)
    ensures forall notes :: StackKnown(s.(notes := notes))
  {
  }

  lemma {:induction false} StartKnown(n: nat)
    ensures StackKnown(SymStart(n))
  {
    if n > 0 {
      StartKnown(n - 1);
      StartCount(n - 1);
      StartStack(n - 1);
      var v := SymStart(n - 1).values;
      assert forall m: Name :: Known(v, m) ==> Known(SymStart(n).values, m);
    }
  }

  lemma {:induction false} StartFiled(n: nat)
    ensures Filed(n, TraceStart(n).uses, [])
  {
    hide Filed;
    if n > 0 {
      StartFiled(n - 1);
      FileNew(n - 1, TraceStart(n - 1).uses, []);
    } else {
      NothingFiled();
    }
  }

  lemma NothingFiled()
    ensures Filed(0, [], [])
  {
  }

  /**
   In every body at all, the use chain of each value is, in order, the offsets recorded for exactly those operators that
   consumed a slot or local named by it.
   */
  lemma {:induction false} UsesAreFiled(ops: seq<Op>, pos: seq<nat>, params: nat, k: nat)
    requires k <= |ops| && |pos| == |ops| + 1
    ensures StackKnown(SymRun(ops, pos, params, k))
    ensures Filed(|SymRun(ops, pos, params, k).values|, TraceRun(ops, pos, params, k).uses, UseLog(ops, pos, params, k))
  {
    hide SymStep; hide TraceStep; hide OpUses; hide StackKnown; hide Filed; hide SymStart; hide TraceStart;
    if k == 0 {
      StartKnown(params);
      StartFiled(params);
      StartCount(params);
    } else {
      UsesAreFiled(ops, pos, params, k - 1);
      if End !in ops[..k - 1] {
        var s, t := SymRun(ops, pos, params, k - 1), TraceRun(ops, pos, params, k - 1);
        StepTidy(s, ops[k - 1], pos[k - 1], pos[k]);
        StepFiles(s, t, ops[k - 1], pos[k - 1], pos[k], UseLog(ops, pos, params, k - 1));
      }
    }
  }

  /** The values an operator consumes in a run, in the same order. */
  function ConsumedAt(op: Op, pos: nat, at: nat, m: Machine): seq<(nat, Val)>
    requires m.Running?
  {
    var one, two := [(at, Nth(m.stack, 0))], [(at, Nth(m.stack, 0)), (at, Nth(m.stack, 1))];
    match op
    case LocalGet(i) => if i < |m.locals| then [(pos, m.locals[i])] else []
    case Store(_) => two + [(pos, Nth(m.stack, 0))]
    case _ => if Arity(op) == 2 then two else if Arity(op) == 1 then one else []
  }

  function Consumed(env: Env, orc: Oracle, ops: seq<Op>, pos: seq<nat>, locals: seq<Val>, k: nat): seq<(nat, Val)>
    requires k <= |ops| && |pos| == |ops| + 1
  {
    if k == 0 then [] else
      var m := Run(env, orc, ops, locals, k - 1);
      Consumed(env, orc, ops, pos, locals, k - 1) +
      if m.Running? then ConsumedAt(ops[k - 1], pos[k - 1], pos[k], m) else []
  }

  function MeantUses(rho: seq<Val>, log: seq<(nat, Name)>): seq<(nat, Val)> {
    seq(|log|, i requires 0 <= i < |log| => (log[i].0, ValueOf(rho, log[i].1)))
  }

  predicate LogKnown(n: nat, log: seq<(nat, Name)>) { forall i :: 0 <= i < |log| ==> log[i].1.version < n }

  /** With enough on the stack every pop succeeds. */
  lemma OpUsesAre(s: Sym, op: Op, pos: nat, at: nat)
    requires Straight(op) && Arity(op) <= |s.stack| && (op.LocalGet? ==> op.index in s.locals)
    ensures var u, h := OpUses(s, op, pos, at), |s.stack|;
      && (op.LocalGet? ==> u == [(pos, s.locals[op.index])])
      && (Arity(op) == 1 ==> u == [(at, s.stack[h - 1])])
      && (Arity(op) == 2 ==> u == [(at, s.stack[h - 1]), (at, s.stack[h - 2])]
                                + if op.Store? then [(pos, s.stack[h - 1])] else [])
      && (Arity(op) == 0 && !op.LocalGet? ==> u == [])
  {
  }

  lemma SlotMeans(s: Sym, m: Machine, rho: seq<Val>, i: nat)
    requires m.Running? && Rel(s, m.stack, m.locals, rho) && |s.stack| == |m.stack| && i < |s.stack|
    ensures var n := s.stack[|s.stack| - 1 - i]; n.version < |rho| && ValueOf(rho, n) == Nth(m.stack, i)
  {
    hide Rel;
    RelHolds(s, m.stack, m.locals, rho, |s.stack| - 1 - i, 0);
  }

  lemma PopsMean(s: Sym, op: Op, m: Machine, rho: seq<Val>, pos: nat, at: nat)
    requires m.Running? && Rel(s, m.stack, m.locals, rho) && |s.stack| == |m.stack|
    requires Straight(op) && Arity(op) <= |s.stack| && !op.LocalGet?
    ensures LogKnown(|rho|, OpUses(s, op, pos, at))
    ensures MeantUses(rho, OpUses(s, op, pos, at)) == ConsumedAt(op, pos, at, m)
  {
    OpUsesAre(s, op, pos, at);
    var a := Arity(op);
    if a > 0 { SlotMeans(s, m, rho, 0); }
    if a > 1 { SlotMeans(s, m, rho, 1); }
    hide Rel; hide OpUses; hide ValueOf; hide Nth; hide Straight;
  }

  lemma ReadMeans(s: Sym, op: Op, m: Machine, rho: seq<Val>, pos: nat, at: nat)
    requires m.Running? && Rel(s, m.stack, m.locals, rho) && op.LocalGet? && op.index in s.locals
    ensures LogKnown(|rho|, OpUses(s, op, pos, at))
    ensures MeantUses(rho, OpUses(s, op, pos, at)) == ConsumedAt(op, pos, at, m)
  {
    RelHolds(s, m.stack, m.locals, rho, 0, op.index);
    hide Rel;
    assert OpUses(s, op, pos, at) == [(pos, s.locals[op.index])];
    hide OpUses;
  }

  /** What an operator consumes is what the names in its slots stand for. */
  lemma OpUsesMean(env: Env, op: Op, s: Sym, m: Machine, rho: seq<Val>, pos: nat, at: nat)
    requires m.Running? && CanStep(env, op, m) && Rel(s, m.stack, m.locals, rho)
    requires op.LocalGet? ==> op.index in s.locals
    ensures LogKnown(|rho|, OpUses(s, op, pos, at))
    ensures MeantUses(rho, OpUses(s, op, pos, at)) == ConsumedAt(op, pos, at, m)
  {
    OperandsThere(env, op, s, m, rho);
    assert Straight(op);
    hide CanStep; hide Rel;
    hide OpUses; hide ConsumedAt; hide LogKnown; hide MeantUses;
    if op.LocalGet? {
      ReadMeans(s, op, m, rho, pos, at);
    } else {
      PopsMean(s, op, m, rho, pos, at);
    }
  }

  lemma GrownUses(rho: seq<Val>, rho': seq<Val>, log: seq<(nat, Name)>, more: seq<(nat, Name)>)
    requires rho <= rho' && LogKnown(|rho|, log) && LogKnown(|rho|, more)
    ensures LogKnown(|rho'|, log + more) && MeantUses(rho', log + more) == MeantUses(rho, log) + MeantUses(rho, more)
  {
    forall i | 0 <= i < |log + more| ensures ValueOf(rho', (log + more)[i].1) == ValueOf(rho, (log + more)[i].1) {
      assert (log + more)[i].1.version < |rho|;
    }
  }

  /**
   On every run of a validated straight-line body that reads only parameters and locals already set, the value consumed
   at each use is the one its name stands for; with `UsesAreFiled`, the chain of value `i` lists the uses of that value
   alone.
   */
  lemma {:induction false} UsesSound(env: Env, orc: Oracle, ops: seq<Op>, pos: seq<nat>, locals: seq<Val>, k: nat)
    requires Entry(env, locals) && k <= |ops| && |pos| == |ops| + 1
    requires TypesAt(env, ops, k).Some? && ReadsSet(ops, env.params, k)
    requires Run(env, orc, ops, locals, k).Running?
    ensures var log, rho := UseLog(ops, pos, env.params, k), Meaning(env, orc, ops, locals, k);
      LogKnown(|rho|, log) && MeantUses(rho, log) == Consumed(env, orc, ops, pos, locals, k)
  {
    hide Exec; hide Rel; hide Inputs; hide Outputs; hide Immediate; hide OpUses; hide ConsumedAt; hide SymRun;
    if k > 0 {
      RunningBefore(env, orc, ops, locals, k - 1, k);
      UsesSound(env, orc, ops, pos, locals, k - 1);
      UseStep(env, orc, ops, pos, locals, k - 1);
    }
  }

  lemma UseStep(env: Env, orc: Oracle, ops: seq<Op>, pos: seq<nat>, locals: seq<Val>, k: nat)
    requires Entry(env, locals) && k < |ops| && |pos| == |ops| + 1
    requires TypesAt(env, ops, k + 1).Some? && ReadsSet(ops, env.params, k + 1)
    requires Run(env, orc, ops, locals, k + 1).Running?
    requires var log, rho := UseLog(ops, pos, env.params, k), Meaning(env, orc, ops, locals, k);
      LogKnown(|rho|, log) && MeantUses(rho, log) == Consumed(env, orc, ops, pos, locals, k)
    ensures var log, rho := UseLog(ops, pos, env.params, k + 1), Meaning(env, orc, ops, locals, k + 1);
      LogKnown(|rho|, log) && MeantUses(rho, log) == Consumed(env, orc, ops, pos, locals, k + 1)
  {
    ReadyToStep(env, orc, ops, pos, locals, k);
    hide Exec; hide Rel; hide Entry; hide SymRun; hide CanStep; hide TypesAt; hide ReadsSet; hide Run; hide Meaning;
    hide LogKnown; hide MeantUses; hide OpUses; hide ConsumedAt;
    var s, m, rho := SymRun(ops, pos, env.params, k), Run(env, orc, ops, locals, k), Meaning(env, orc, ops, locals, k);
    OpUsesMean(env, ops[k], s, m, rho, pos[k], pos[k + 1]);
    RecordedExtends(ops[k], Exec(env, orc, k, ops[k], m), rho);
    GrownUses(rho, Meaning(env, orc, ops, locals, k + 1), UseLog(ops, pos, env.params, k),
              OpUses(s, ops[k], pos[k], pos[k + 1]));
  }

  // ------------------------------------------------------------------ which offsets are recorded

  /**
   A use is recorded at its own operator's offset exactly if it is a local read or the second use of a stored value.
   */
  lemma UseOffsetIff(s: Sym, op: Op, pos: nat, at: nat, i: nat)
    requires pos != at && i < |OpUses(s, op, pos, at)|
    ensures var off := OpUses(s, op, pos, at)[i].0;
      (off == pos <==> op.LocalGet? || (op.Store? && i == 2)) && (off == at <==> off != pos)
  {
  }

  /** In every body the definition offset of an operator's value is the offset after it, so never its own. */
  lemma DefinitionOffset(ops: seq<Op>, pos: seq<nat>, params: nat, k: nat, p: nat)
    requires p < k <= |ops| && |pos| == |ops| + 1 && End !in ops[..p] && Defines(ops[p])
    ensures var i, v := params + DefCount(ops, p), SymRun(ops, pos, params, k).values;
      i < |v| && v[i].name.defOffset == pos[p + 1]
  {
    hide SymStep; hide SymRun;
    ValuesCount(ops, pos, params, p);
    StepDefines(SymRun(ops, pos, params, p), ops[p], pos[p], pos[p + 1]);
    SymRunNext(ops, pos, params, p);
    ValuesPersist(ops, pos, params, p + 1, k);
  }

  lemma SymRunNext(ops: seq<Op>, pos: seq<nat>, params: nat, p: nat)
    requires p < |ops| && |pos| == |ops| + 1 && End !in ops[..p]
    ensures SymRun(ops, pos, params, p + 1) == SymStep(SymRun(ops, pos, params, p), ops[p], pos[p], pos[p + 1])
  {
    hide SymStep;
  }

  lemma StepDefines(s: Sym, op: Op, pos: nat, at: nat)
    requires Defines(op)
    ensures var v := SymStep(s, op, pos, at).values; |v| == |s.values| + 1 && v[|s.values|].name == Name(at, |s.values|)
  {
    hide ConstOf; hide Fold;
  }

  lemma {:induction false} ValuesPersist(ops: seq<Op>, pos: seq<nat>, params: nat, j: nat, k: nat)
    requires j <= k <= |ops| && |pos| == |ops| + 1
    ensures SymRun(ops, pos, params, j).values <= SymRun(ops, pos, params, k).values
    decreases k
  {
    hide SymStep;
    if j < k {
      ValuesPersist(ops, pos, params, j, k - 1);
      StepValues(SymRun(ops, pos, params, k - 1), ops[k - 1], pos[k - 1], pos[k]);
    }
  }

  lemma {:induction false} ValuesCount(ops: seq<Op>, pos: seq<nat>, params: nat, k: nat)
    requires k <= |ops| && |pos| == |ops| + 1 && End !in ops[..k]
    ensures |SymRun(ops, pos, params, k).values| == params + DefCount(ops, k)
  {
    hide SymStep;
    if k == 0 {
      StartCount(params);
    } else {
      assert ops[..k] == ops[..k - 1] + [ops[k - 1]];
      ValuesCount(ops, pos, params, k - 1);
      StepValues(SymRun(ops, pos, params, k - 1), ops[k - 1], pos[k - 1], pos[k]);
    }
  }

  // ------------------------------------------------------------------ which constants can be false

  /** The number of values defined by the first `k` operators. */
  function DefCount(ops: seq<Op>, k: nat): nat
    requires k <= |ops|
  {
    if k == 0 then 0 else DefCount(ops, k - 1) + if Defines(ops[k - 1]) then 1 else 0
  }

  /**
   In any validated body, bad reads or not, facts and values stay aligned: both lists grow with the defining operators.
   */
  lemma {:induction false} Aligned(env: Env, orc: Oracle, ops: seq<Op>, pos: seq<nat>, locals: seq<Val>, k: nat)
    requires Entry(env, locals) && k <= |ops| && |pos| == |ops| + 1
    requires TypesAt(env, ops, k).Some? && Run(env, orc, ops, locals, k).Running?
    ensures |SymRun(ops, pos, env.params, k).values| == env.params + DefCount(ops, k)
    ensures |Meaning(env, orc, ops, locals, k)| == env.params + DefCount(ops, k)
  {
    hide SymStep; hide Exec; hide Inputs; hide Outputs; hide Immediate;
    if k == 0 {
      StartCount(env.params);
    } else {
      RunningBefore(env, orc, ops, locals, k - 1, k);
      Aligned(env, orc, ops, pos, locals, k - 1);
      NoEnd(env, ops, k);
      NoEnd(env, ops, k - 1);
      StepValues(SymRun(ops, pos, env.params, k - 1), ops[k - 1], pos[k - 1], pos[k]);
      DefinesLeavesOne(env, orc, ops, locals, k - 1);
    }
  }

  lemma DefinesLeavesOne(env: Env, orc: Oracle, ops: seq<Op>, locals: seq<Val>, k: nat)
    requires Entry(env, locals) && k < |ops| && TypesAt(env, ops, k + 1).Some?
      && Run(env, orc, ops, locals, k + 1).Running?
    ensures Defines(ops[k]) ==> Run(env, orc, ops, locals, k + 1).stack != []
  {
    hide Exec; hide Inputs; hide Outputs; hide Immediate; hide TypedState; hide Entry;
    RunningBefore(env, orc, ops, locals, k, k + 1);
    NeverStuck(env, orc, ops, locals, k);
    if Defines(ops[k]) { ExecDefines(env, orc, k, ops[k], Run(env, orc, ops, locals, k)); }
  }

  /** Facts and meanings once recorded do not change. */
  lemma {:induction false} Persists(env: Env, orc: Oracle, ops: seq<Op>, pos: seq<nat>, locals: seq<Val>, j: nat,
                                    k: nat)
    requires j <= k <= |ops| && |pos| == |ops| + 1 && env.params <= |locals|
    ensures SymRun(ops, pos, env.params, j).values <= SymRun(ops, pos, env.params, k).values
    ensures Meaning(env, orc, ops, locals, j) <= Meaning(env, orc, ops, locals, k)
    decreases k
  {
    hide SymStep; hide Run;
    if j < k {
      Persists(env, orc, ops, pos, locals, j, k - 1);
      StepValues(SymRun(ops, pos, env.params, k - 1), ops[k - 1], pos[k - 1], pos[k]);
    }
  }

  /** The constants a constant operator records, and that no operator but these and the folds records any. */
  lemma RecordedConstant(s: Sym, op: Op, pos: nat, at: nat)
    requires Defines(op)
    ensures |SymStep(s, op, pos, at).values| == |s.values| + 1
    ensures var c := SymStep(s, op, pos, at).values[|s.values|].constant;
      && (op.I32Const? || op.I64Const? ==> c == Some(op.value)) && (op.F32Const? || op.F64Const? ==> c == Some(op.bits))
      && (c.Some? ==> op.I32Const? || op.I64Const? || op.F32Const? || op.F64Const? || (op.I32Binary? && Folds(op.op)))
  {
    hide ConstOf; hide Wrap32;
  }

  /** A constant operator leaves the value it names. */
  lemma ConstLeaves(env: Env, orc: Oracle, k: nat, op: Op, m: Machine)
    requires CanStep(env, op, m) && (op.I32Const? || op.I64Const? || op.F32Const? || op.F64Const?)
    ensures var m' := Exec(env, orc, k, op, m);
      m'.Running? && m'.stack != [] &&
      Repr(m'.stack[|m'.stack| - 1]) == if op.I32Const? || op.I64Const? then op.value else op.bits
  {
  }

  /**
   In any run of a validated straight-line body, the constant recorded for the value of operator `p` is true unless
   the operator is a fold after a read of an unset local.
   */
  lemma ConstantTrueUnlessLateFold(env: Env, orc: Oracle, ops: seq<Op>, pos: seq<nat>, locals: seq<Val>, k: nat, p: nat)
    requires Entry(env, locals) && k <= |ops| && |pos| == |ops| + 1
    requires TypesAt(env, ops, k).Some? && Run(env, orc, ops, locals, k).Running?
    requires p < k && Defines(ops[p]) && (ops[p].I32Binary? ==> ReadsSet(ops, env.params, p))
    ensures var i := env.params + DefCount(ops, p);
      && i < |SymRun(ops, pos, env.params, k).values| && i < |Meaning(env, orc, ops, locals, k)|
      && var c := SymRun(ops, pos, env.params, k).values[i].constant;
         c.Some? ==> c.value == Repr(Meaning(env, orc, ops, locals, k)[i])
  {
    hide SymStep; hide Exec; hide TypesAt; hide Run; hide Meaning; hide SymRun;
    RunningBefore(env, orc, ops, locals, p + 1, k);
    Persists(env, orc, ops, pos, locals, p + 1, k);
    Aligned(env, orc, ops, pos, locals, p + 1);
    var i, v := env.params + DefCount(ops, p), SymRun(ops, pos, env.params, p + 1).values;
    var rho := Meaning(env, orc, ops, locals, p + 1);
    assert DefCount(ops, p + 1) == DefCount(ops, p) + 1;
    if ops[p].I32Binary? {
      FoldIsTrue(env, orc, ops, pos, locals, p, i);
    } else {
      NotFoldIsTrue(env, orc, ops, pos, locals, p, i);
    }
    assert SymRun(ops, pos, env.params, k).values[i] == v[i] && Meaning(env, orc, ops, locals, k)[i] == rho[i];
  }

  lemma FoldIsTrue(env: Env, orc: Oracle, ops: seq<Op>, pos: seq<nat>, locals: seq<Val>, p: nat, i: nat)
    requires Entry(env, locals) && p < |ops| && |pos| == |ops| + 1
    requires TypesAt(env, ops, p + 1).Some? && Run(env, orc, ops, locals, p + 1).Running?
    requires ops[p].I32Binary? && ReadsSet(ops, env.params, p)
    requires i < |SymRun(ops, pos, env.params, p + 1).values| && i < |Meaning(env, orc, ops, locals, p + 1)|
    ensures var c := SymRun(ops, pos, env.params, p + 1).values[i].constant;
      c.Some? ==> c.value == Repr(Meaning(env, orc, ops, locals, p + 1)[i])
  {
    hide SymRun; hide TypesAt; hide Run; hide Meaning; hide IsSet;
    assert ReadsSet(ops, env.params, p + 1);
    AnalysisSound(env, orc, ops, pos, locals, p + 1);
    hide StackRel; hide LocalsRel; hide KnowsSet;
  }

  lemma NotFoldIsTrue(env: Env, orc: Oracle, ops: seq<Op>, pos: seq<nat>, locals: seq<Val>, p: nat, i: nat)
    requires Entry(env, locals) && p < |ops| && |pos| == |ops| + 1
    requires TypesAt(env, ops, p + 1).Some? && Run(env, orc, ops, locals, p + 1).Running?
    requires Defines(ops[p]) && !ops[p].I32Binary? && i == env.params + DefCount(ops, p)
    requires i < |SymRun(ops, pos, env.params, p + 1).values| && i < |Meaning(env, orc, ops, locals, p + 1)|
    ensures var c := SymRun(ops, pos, env.params, p + 1).values[i].constant;
      c.Some? ==> c.value == Repr(Meaning(env, orc, ops, locals, p + 1)[i])
  {
    hide SymStep; hide Exec; hide Inputs; hide Outputs; hide Immediate; hide TypedState; hide Repr;
    RunningBefore(env, orc, ops, locals, p, p + 1);
    NoEnd(env, ops, p);
    Aligned(env, orc, ops, pos, locals, p);
    NeverStuck(env, orc, ops, locals, p);
    var s, m, op := SymRun(ops, pos, env.params, p), Run(env, orc, ops, locals, p), ops[p];
    RecordedConstant(s, op, pos[p], pos[p + 1]);
    DefinesLeavesOne(env, orc, ops, locals, p);
    if op.I32Const? || op.I64Const? || op.F32Const? || op.F64Const? {
      ConstLeaves(env, orc, p, op, m);
    }
  }

  // ------------------------------------------------------------------ which late folds are false

  /** The constants the pass finds for the two operands of a fold: those of the names on top of its stack. */
  function FoldOperands(s: Sym, at: nat): (Option<int>, Option<int>) {
    var (s1, b) := Pop(s, at);
    var (s2, a) := Pop(s1, at);
    (ConstOf(s2.values, a), ConstOf(s2.values, b))
  }

  lemma SameRemainder(x: int, y: int)
    ensures Wrap32(x) == Wrap32(y) <==> (x - y) % TWO32 == 0
  {
    var d := x % TWO32 - y % TWO32;
    var k := x / TWO32 - y / TWO32;
    assert x - y == d + k * TWO32;
    ModShift(d, k, TWO32);
  }

  /** The value a fold leaves is the wrapped result of its actual operands. */
  lemma FoldLeaves(env: Env, orc: Oracle, k: nat, op: Op, m: Machine)
    requires CanStep(env, op, m) && op.I32Binary? && Folds(op.op)
    ensures |m.stack| >= 2
    ensures var m' := Exec(env, orc, k, op, m);
      m'.Running? && m'.stack != [] &&
      Repr(m'.stack[|m'.stack| - 1]) == Wrap32(Arith(op.op, Repr(Nth(m.stack, 1)), Repr(Nth(m.stack, 0))))
  {
    var h := |m.stack|;
    assert EndsWith(Types(m.stack), [I32, I32]);
    assert Types(m.stack)[h - 2..] == [I32, I32];
    var a, b := m.stack[h - 2], m.stack[h - 1];
    assert a.ty == I32 && b.ty == I32 && InRange(a) && InRange(b);
    assert m.stack[h - 2..] == [a, b];
    FoldIsWrapAround(op.op, a.bits, b.bits);
    FoldIs(op.op, Signed32(a.bits), Signed32(b.bits));
    hide Fold; hide TypedState; hide Wrap32;
  }

  lemma FoldIs(op: BinOp, x: int, y: int)
    requires Folds(op)
    ensures Fold(op, Some(x), Some(y)) == Some(Wrap32(Arith(op, x, y)))
  {
    hide Wrap32;
  }

  /**
   Whatever was read before, the constant recorded for a fold is true if and only if the constants the pass took for its
   operands give the same result, modulo 2^32, as the operands the run had.
   */
  lemma FoldTrueIff(env: Env, orc: Oracle, ops: seq<Op>, pos: seq<nat>, locals: seq<Val>, p: nat)
    requires Entry(env, locals) && p < |ops| && |pos| == |ops| + 1
    requires TypesAt(env, ops, p + 1).Some? && Run(env, orc, ops, locals, p + 1).Running?
    requires ops[p].I32Binary? && Folds(ops[p].op)
    ensures Run(env, orc, ops, locals, p).Running?
    ensures var s, m, i := SymRun(ops, pos, env.params, p), Run(env, orc, ops, locals, p),
        env.params + DefCount(ops, p);
      var v, rho, xy := SymRun(ops, pos, env.params, p + 1).values, Meaning(env, orc, ops, locals, p + 1),
        FoldOperands(s, pos[p + 1]);
      && i < |v| && i < |rho| && (v[i].constant.Some? <==> xy.0.Some? && xy.1.Some?)
      && (v[i].constant.Some? ==>
            (v[i].constant.value == Repr(rho[i]) <==>
               (Arith(ops[p].op, xy.0.value, xy.1.value)
                - Arith(ops[p].op, Repr(Nth(m.stack, 1)), Repr(Nth(m.stack, 0)))) % TWO32 == 0))
  {
    hide SymStep; hide Exec; hide Inputs; hide Outputs; hide Immediate; hide TypedState; hide Repr; hide Wrap32;
    hide FoldOperands; hide Arith;
    RunningBefore(env, orc, ops, locals, p, p + 1);
    NoEnd(env, ops, p);
    Aligned(env, orc, ops, pos, locals, p);
    NeverStuck(env, orc, ops, locals, p);
    var s, m, op := SymRun(ops, pos, env.params, p), Run(env, orc, ops, locals, p), ops[p];
    FoldRecords(s, op, pos[p], pos[p + 1]);
    FoldLeaves(env, orc, p, op, m);
    var xy := FoldOperands(s, pos[p + 1]);
    if xy.0.Some? && xy.1.Some? {
      SameRemainder(Arith(op.op, xy.0.value, xy.1.value), Arith(op.op, Repr(Nth(m.stack, 1)), Repr(Nth(m.stack, 0))));
    }
  }

  lemma FoldRecords(s: Sym, op: Op, pos: nat, at: nat)
    requires op.I32Binary? && Folds(op.op)
    ensures var v, xy := SymStep(s, op, pos, at).values, FoldOperands(s, at);
      && |v| == |s.values| + 1
      && v[|s.values|].constant ==
         if xy.0.Some? && xy.1.Some? then Some(Wrap32(Arith(op.op, xy.0.value, xy.1.value))) else None
  {
    hide Wrap32; hide ConstOf;
  }
}
