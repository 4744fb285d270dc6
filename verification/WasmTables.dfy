/**
 What `analyze_values` records in every body at all, validated or not: the effect of each operator on the symbolic
 stack, the notes, the texts of the values, their constants and the side tables.
 */
module WasmTables {
  import opened Basics
  import opened Texts
  import opened Selections
  import opened WasmSsa
  import opened WasmSound
  import opened WasmSites

  // ------------------------------------------------------------------ the stack

  /** How many operands the pass pops for an operator. */
  function Pops(op: Op): nat {
    if op.I32Binary? || op.I32Compare? || op.Store? then 2
    else if op.LocalSet? || op.LocalTee? || op.GlobalSet? || op.Load? || op.I32Eqz? then 1
    else if op.BrIf? || op.BrTable? || op.Return? || op.Drop? then 1
    else 0
  }

  function Top(s: Sym): Option<Name> { if s.stack == [] then None else Some(s.stack[|s.stack| - 1]) }

  /** How many slots stay, and how many are missing. */
  function Kept(s: Sym, op: Op): nat { if Pops(op) <= |s.stack| then |s.stack| - Pops(op) else 0 }

  function Missing(s: Sym, op: Op): nat { if Pops(op) <= |s.stack| then 0 else Pops(op) - |s.stack| }

  function Pushed(s: Sym, op: Op, at: nat): seq<Name> {
    if Defines(op) then [Name(at, |s.values|)]
    else if op.LocalGet? && op.index in s.locals then [s.locals[op.index]]
    else if op.LocalTee? && s.stack != [] then [s.stack[|s.stack| - 1]]
    else []
  }

  function NotesOf(s: Sym, op: Op, pos: nat, at: nat): seq<Note> {
    if op.Opaque? then [OpaqueOp(pos)] else seq(Missing(s, op), _ => Underflow(at))
  }

  lemma PopsOne(s: Sym, at: nat)
    ensures Pop(s, at).0.stack == (if s.stack == [] then [] else s.stack[..|s.stack| - 1])
    ensures Pop(s, at).0.locals == s.locals && Pop(s, at).0.values == s.values && Pop(s, at).1 == Top(s)
  {
  }

  lemma PopsTwo(s: Sym, at: nat)
    ensures Twice(s, at).stack == s.stack[..if |s.stack| < 2 then 0 else |s.stack| - 2]
    ensures Twice(s, at).locals == s.locals && Twice(s, at).values == s.values
  {
    PopsOne(s, at);
    PopsOne(Pop(s, at).0, at);
    hide Pop;
  }

  lemma Defined(s: Sym, at: nat, c: Option<int>)
    ensures Define(s, at, c).stack == s.stack + [Name(at, |s.values|)] && Define(s, at, c).locals == s.locals
  {
  }

  lemma TwoMove(s: Sym, op: Op, pos: nat, at: nat)
    requires Pops(op) == 2
    ensures var s' := SymStep(s, op, pos, at);
      s'.stack == s.stack[..Kept(s, op)] + Pushed(s, op, at) && s'.locals == s.locals
  {
    hide ConstOf; hide Fold;
    PopsTwo(s, at);
    hide Pop; hide Define;
    forall c ensures Define(Twice(s, at), at, c).stack == Twice(s, at).stack + [Name(at, |s.values|)]
      && Define(Twice(s, at), at, c).locals == s.locals
    {
      Defined(Twice(s, at), at, c);
    }
  }

  /** Every operator pops what it takes, as far as there is anything, and pushes its value; only two write a local. */
  lemma StackMoves(s: Sym, op: Op, pos: nat, at: nat)
    ensures var s' := SymStep(s, op, pos, at);
      && s'.stack == s.stack[..Kept(s, op)] + Pushed(s, op, at)
      && s'.locals == (if (op.LocalSet? || op.LocalTee?) && s.stack != [] then s.locals[op.index := Top(s).value]
                       else s.locals)
  {
    if Pops(op) == 2 {
      TwoMove(s, op, pos, at);
    } else {
      assert s.stack[..|s.stack|] == s.stack && s.stack[..0] == [] && s.stack + [] == s.stack;
      PopsOne(s, at);
      hide Pop; hide ConstOf; hide Fold;
    }
  }

  lemma NotesMove(s: Sym, op: Op, pos: nat, at: nat)
    ensures SymStep(s, op, pos, at).notes == s.notes + NotesOf(s, op, pos, at)
  {
    hide ConstOf; hide Fold;
  }

  /** The pass is silent if and only if it met no opaque operator and no operator without its operands. */
  lemma {:induction false} SilentIff(ops: seq<Op>, pos: seq<nat>, params: nat, k: nat)
    requires k <= |ops| && |pos| == |ops| + 1 && End !in ops[..k]
    ensures SymRun(ops, pos, params, k).notes == [] <==>
      forall p :: 0 <= p < k ==> !ops[p].Opaque? && Pops(ops[p]) <= |SymRun(ops, pos, params, p).stack|
  {
    hide SymStep; hide SymStart;
    if k == 0 {
      StartSilent(params);
    } else {
      assert ops[..k] == ops[..k - 1] + [ops[k - 1]];
      SilentIff(ops, pos, params, k - 1);
      NotesMove(SymRun(ops, pos, params, k - 1), ops[k - 1], pos[k - 1], pos[k]);
    }
  }

  lemma {:induction false} StartSilent(n: nat)
    ensures SymStart(n).notes == []
  {
    if n > 0 { StartSilent(n - 1); }
  }

  // ------------------------------------------------------------------ texts

  /** The type and producer texts of the value an operator defines. */
  function TextOf(op: Op): Option<Label> {
    if op.I32Const? then Some(Label("i32", "i32.const"))
    else if op.I64Const? then Some(Label("i64", "i64.const"))
    else if op.F32Const? then Some(Label("f32", "f32.const"))
    else if op.F64Const? then Some(Label("f64", "f64.const"))
    else if op.GlobalGet? then Some(Label("global", "global.get " + Decimal(op.index)))
    else if op.Load? && op.wide then Some(Label("i64", "load +" + Decimal(op.offset)))
    else if op.Load? then Some(Label("i32", "load +" + Decimal(op.offset)))
    else if op.I32Eqz? then Some(Label("i32", "i32.eqz"))
    else if op.I32Binary? then Some(Label("i32", "i32." + Mnemonic(op.op)))
    else if op == I32Compare(Eq) then Some(Label("i32", "i32.eq"))
    else if op == I32Compare(Ne) then Some(Label("i32", "i32.ne"))
    else if op == I32Compare(LtU) then Some(Label("i32", "i32.lt_u"))
    else if op == I32Compare(GeU) then Some(Label("i32", "i32.ge_u"))
    else None
  }

  function Mnemonic(op: BinOp): string {
    match op
    case Add => "add" case Sub => "sub" case Mul => "mul" case And => "and" case Or => "or" case Xor => "xor"
  }

  lemma TextStep(s: Sym, t: Trace, op: Op, pos: nat, at: nat)
    ensures TraceStep(s, t, op, pos, at).labels ==
      t.labels + match TextOf(op) case Some(x) => [x] case None => []
  {
    hide Used; hide Decimal;
    if op.I32Binary? { BinaryTexts(op.op); }
  }

  lemma BinaryTexts(op: BinOp)
    ensures BinaryText(op) == "i32." + Mnemonic(op)
  {
    match op
    case Add => assert "i32." + "add" == "i32.add";
    case Sub => assert "i32." + "sub" == "i32.sub";
    case Mul => assert "i32." + "mul" == "i32.mul";
    case And => assert "i32." + "and" == "i32.and";
    case Or => assert "i32." + "or" == "i32.or";
    case Xor => assert "i32." + "xor" == "i32.xor";
  }

  function ParamLabel(i: nat): Label { Label("param", "param " + Decimal(i)) }

  lemma {:induction false} ParamTexts(params: nat)
    ensures |TraceStart(params).labels| == params && TraceStart(params).sites == []
    ensures forall i: nat :: i < params ==> TraceStart(params).labels[i] == ParamLabel(i)
  {
    if params > 0 {
      ParamTexts(params - 1);
      ParamStep(params);
      hide TraceStart; hide ParamLabel;
    }
  }

  lemma ParamStep(params: nat)
    requires params > 0
    ensures var t := TraceStart(params - 1);
      TraceStart(params).labels == t.labels + [ParamLabel(params - 1)] && TraceStart(params).sites == t.sites
  {
    hide Decimal;
  }

  /** In every body the texts are those of the parameters and then of the operators that define values, in order. */
  lemma {:induction false} TextsAre(ops: seq<Op>, pos: seq<nat>, params: nat, k: nat)
    requires k <= |ops| && |pos| == |ops| + 1 && End !in ops[..k]
    ensures var labels := TraceRun(ops, pos, params, k).labels;
      && params <= |labels| && Picked(ops[..k], TextOf, labels[params..])
      && forall i: nat :: i < params ==> labels[i] == ParamLabel(i)
  {
    hide ParamLabel; hide TraceStep; hide TraceStart; hide SymRun; hide Decimal; hide Picked; hide TextOf;
    var labels := TraceRun(ops, pos, params, k).labels;
    if k == 0 {
      ParamTexts(params);
      PickedNone(TextOf);
      assert ops[..0] == [] && labels[params..] == [];
    } else {
      assert ops[..k] == ops[..k - 1] + [ops[k - 1]];
      TextsAre(ops, pos, params, k - 1);
      var t, less := TraceRun(ops, pos, params, k - 1), TraceRun(ops, pos, params, k - 1).labels;
      TextStep(SymRun(ops, pos, params, k - 1), t, ops[k - 1], pos[k - 1], pos[k]);
      PickedNext(ops[..k - 1], TextOf, less[params..], ops[k - 1]);
      var more := match TextOf(ops[k - 1]) case Some(x) => [x] case None => [];
      assert labels == less + more && labels[params..] == less[params..] + more;
    }
  }

  // ------------------------------------------------------------------ constants

  /** In every body a constant operator's value has that constant, and nothing but a fold has one besides. */
  lemma ConstantsAre(ops: seq<Op>, pos: seq<nat>, params: nat, k: nat, p: nat)
    requires p < k <= |ops| && |pos| == |ops| + 1 && End !in ops[..p] && Defines(ops[p])
    ensures var i, v := params + DefCount(ops, p), SymRun(ops, pos, params, k).values;
      && i < |v|
      && (ops[p].I32Const? || ops[p].I64Const? ==> v[i].constant == Some(ops[p].value))
      && (ops[p].F32Const? || ops[p].F64Const? ==> v[i].constant == Some(ops[p].bits))
      && (ops[p].GlobalGet? || ops[p].Load? || ops[p].I32Eqz? || ops[p].I32Compare? ==> v[i].constant == None)
  {
    hide SymStep; hide SymRun;
    ValuesCount(ops, pos, params, p);
    ConstantStep(SymRun(ops, pos, params, p), ops[p], pos[p], pos[p + 1]);
    SymRunNext(ops, pos, params, p);
    ValuesPersist(ops, pos, params, p + 1, k);
  }

  lemma ConstantStep(s: Sym, op: Op, pos: nat, at: nat)
    requires Defines(op)
    ensures var v := SymStep(s, op, pos, at).values; var i := |s.values|;
      && |v| == i + 1
      && (op.I32Const? || op.I64Const? ==> v[i].constant == Some(op.value))
      && (op.F32Const? || op.F64Const? ==> v[i].constant == Some(op.bits))
      && (op.GlobalGet? || op.Load? || op.I32Eqz? || op.I32Compare? ==> v[i].constant == None)
  {
    hide ConstOf; hide Fold;
  }

  // ------------------------------------------------------------------ side tables

  /** What an operator enters in a side table, by the stack and the locals it meets. */
  function EntryOf(s: Sym, op: Op, pos: nat, at: nat): Option<Site<Name>> {
    if op.Call? then Some(CallSite(pos, op.fn))
    else if op.GlobalGet? then Some(GlobalLoad(pos, op.index, Name(at, |s.values|)))
    else if op.LocalGet? && op.index in s.locals then Some(LocalLoad(pos, op.index, s.locals[op.index]))
    else if Pops(op) > |s.stack| then None
    else if op.LocalSet? || op.LocalTee? then Some(LocalStore(pos, op.index, Top(s).value))
    else if op.GlobalSet? then Some(GlobalStore(pos, op.index, Top(s).value))
    else if op.Load? then Some(MemoryOp(pos, Top(s).value, if op.wide then 8 else 4, false))
    else if op.Store? then Some(MemoryOp(pos, s.stack[|s.stack| - 2], if op.wide then 8 else 4, true))
    else if op.BrIf? then Some(BranchCondition(pos, Top(s).value))
    else if op.BrTable? then Some(TableIndex(pos, Top(s).value))
    else None
  }

  lemma SiteStepOf(s: Sym, t: Trace, op: Op, pos: nat, at: nat)
    ensures TraceStep(s, t, op, pos, at).sites ==
      t.sites + match EntryOf(s, op, pos, at) case Some(x) => [x] case None => []
  {
    hide Used; hide Decimal;
  }

  function EntryAt(ops: seq<Op>, pos: seq<nat>, params: nat): (f: nat -> Option<Site<Name>>)
    requires |pos| == |ops| + 1
  {
    (p: nat) => if p < |ops| then EntryOf(SymRun(ops, pos, params, p), ops[p], pos[p], pos[p + 1]) else None
  }

  function UpTo(n: nat): seq<nat> { seq(n, i requires 0 <= i < n => i) }

  /** In every body the side tables hold, in order, exactly what each operator enters by the stack it meets. */
  lemma {:induction false} SitesAre(ops: seq<Op>, pos: seq<nat>, params: nat, k: nat)
    requires k <= |ops| && |pos| == |ops| + 1 && End !in ops[..k]
    ensures Picked(UpTo(k), EntryAt(ops, pos, params), TraceRun(ops, pos, params, k).sites)
  {
    hide TraceStep; hide TraceStart; hide SymRun; hide Picked; hide EntryOf;
    var pick := EntryAt(ops, pos, params);
    if k == 0 {
      ParamTexts(params);
      PickedNone(pick);
      assert UpTo(0) == [];
    } else {
      assert ops[..k] == ops[..k - 1] + [ops[k - 1]];
      SitesAre(ops, pos, params, k - 1);
      var t := TraceRun(ops, pos, params, k - 1);
      SiteStepOf(SymRun(ops, pos, params, k - 1), t, ops[k - 1], pos[k - 1], pos[k]);
      var last: nat := k - 1;
      PickedNext<nat, Site<Name>>(UpTo(last), pick, t.sites, last);
      assert UpTo(k) == UpTo(k - 1) + [k - 1];
    }
  }

  /** Operator `p` enters `x`. */
  ghost predicate Enters(ops: seq<Op>, pos: seq<nat>, params: nat, p: nat, x: Site<Name>) {
    p < |ops| && |pos| == |ops| + 1 && EntryOf(SymRun(ops, pos, params, p), ops[p], pos[p], pos[p + 1]) == Some(x)
  }

  lemma SiteIff(ops: seq<Op>, pos: seq<nat>, params: nat, k: nat, x: Site<Name>)
    requires k <= |ops| && |pos| == |ops| + 1 && End !in ops[..k]
    ensures x in TraceRun(ops, pos, params, k).sites <==> exists p: nat :: p < k && Enters(ops, pos, params, p, x)
  {
    SitesAre(ops, pos, params, k);
    PickedMembers(UpTo(k), EntryAt(ops, pos, params), TraceRun(ops, pos, params, k).sites, x);
    forall p: nat | p < k
      ensures EntryAt(ops, pos, params)(UpTo(k)[p]) == Some(x) <==> Enters(ops, pos, params, p, x)
    {
      EntersThere(ops, pos, params, k, p, x);
    }
    hide Picked; hide TraceRun; hide EntryAt; hide Enters;
    assert |UpTo(k)| == k;
    hide UpTo;
    if q :| 0 <= q < |UpTo(k)| && EntryAt(ops, pos, params)(UpTo(k)[q]) == Some(x) {
      assert Enters(ops, pos, params, q, x);
    }
  }

  lemma EntersThere(ops: seq<Op>, pos: seq<nat>, params: nat, k: nat, p: nat, x: Site<Name>)
    requires p < k <= |ops| && |pos| == |ops| + 1
    ensures EntryAt(ops, pos, params)(UpTo(k)[p]) == Some(x) <==> Enters(ops, pos, params, p, x)
  {
    hide SymRun; hide EntryOf;
    assert UpTo(k)[p] == p;
  }

  /** Operator `p` is a call of `fn` at offset `at`. */
  ghost predicate CallAt(ops: seq<Op>, pos: seq<nat>, p: nat, at: nat, fn: nat) {
    p < |ops| && |pos| == |ops| + 1 && ops[p] == Call(fn) && pos[p] == at
  }

  /** Operator `p` is a `br_table` at offset `at` that meets `v` on top of the stack. */
  ghost predicate TableAt(ops: seq<Op>, pos: seq<nat>, params: nat, p: nat, at: nat, v: Name) {
    p < |ops| && |pos| == |ops| + 1 && ops[p] == BrTable && pos[p] == at && Top(SymRun(ops, pos, params, p)) == Some(v)
  }

  lemma EntersIff(ops: seq<Op>, pos: seq<nat>, params: nat, p: nat, at: nat, fn: nat, v: Name)
    ensures Enters(ops, pos, params, p, CallSite(at, fn)) <==> CallAt(ops, pos, p, at, fn)
    ensures Enters(ops, pos, params, p, TableIndex(at, v)) <==> TableAt(ops, pos, params, p, at, v)
  {
    hide SymRun;
  }

  /** A call is listed if and only if there is a call of that function at that offset. */
  lemma CallListedIff(ops: seq<Op>, pos: seq<nat>, params: nat, k: nat, at: nat, fn: nat)
    requires k <= |ops| && |pos| == |ops| + 1 && End !in ops[..k]
    ensures CallSite(at, fn) in TraceRun(ops, pos, params, k).sites <==>
      exists p: nat :: p < k && CallAt(ops, pos, p, at, fn)
  {
    SiteIff(ops, pos, params, k, CallSite(at, fn));
    hide TraceRun; hide Enters; hide CallAt; hide TableAt;
    forall p: nat ensures Enters(ops, pos, params, p, CallSite(at, fn)) <==> CallAt(ops, pos, p, at, fn) {
      EntersIff(ops, pos, params, p, at, fn, Name(0, 0));
    }
  }

  /** A table index is listed if and only if a `br_table` at that offset met it on top of the stack. */
  lemma TableIndexListedIff(ops: seq<Op>, pos: seq<nat>, params: nat, k: nat, at: nat, v: Name)
    requires k <= |ops| && |pos| == |ops| + 1 && End !in ops[..k]
    ensures TableIndex(at, v) in TraceRun(ops, pos, params, k).sites <==>
      exists p: nat :: p < k && TableAt(ops, pos, params, p, at, v)
  {
    SiteIff(ops, pos, params, k, TableIndex(at, v));
    hide TraceRun; hide Enters; hide CallAt; hide TableAt;
    forall p: nat ensures Enters(ops, pos, params, p, TableIndex(at, v)) <==> TableAt(ops, pos, params, p, at, v) {
      EntersIff(ops, pos, params, p, at, 0, v);
    }
  }

  // ------------------------------------------------------------------ the operators read

  /** All operators are read up to the first `end`, which is counted. */
  lemma {:induction false} ReadCountIs(ops: seq<Op>, p: nat)
    requires p <= |ops| && End !in ops[..p]
    ensures p < |ops| && ops[p] == End ==> ReadCount(ops) == p + 1
    ensures p == |ops| ==> ReadCount(ops) == p
  {
    if p > 0 {
      assert ops[0] == ops[..p][0];
      assert ops[1..][..p - 1] == ops[..p][1..];
      ReadCountIs(ops[1..], p - 1);
    }
  }
}
