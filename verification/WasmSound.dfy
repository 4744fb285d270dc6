/**
 The stack-to-SSA pass is sound.  `Exec` gives the WebAssembly meaning of
 straight-line operators (section 4.3.2 of the WebAssembly Core Specification 1.0
 for the 32-bit arithmetic); the operators that are never folded, and loads and
 globals, take their values from an arbitrary oracle, so every claim holds for all
 their meanings.
 */
module WasmSound {
  import opened Basics
  import opened WasmSsa

  // ------------------------------------------------------------------ the WebAssembly meaning

  /** A value: its type and its bit pattern. */
  datatype Val = Val(ty: Ty, bits: nat)

  const TWO64 := 0x1_0000_0000_0000_0000
  const TWO63 := 0x8000_0000_0000_0000

  function Modulus(ty: Ty): (m: nat)
    ensures m > 0
  {
    if ty.I32? || ty.F32? then TWO32 else TWO64
  }

  predicate InRange(v: Val) { v.bits < Modulus(v.ty) }

  /** How the analysis writes a value as a constant: integers signed, floats by their bits. */
  function Repr(v: Val): int {
    match v.ty
    case I32 => Signed32(v.bits)
    case I64 => if v.bits < TWO63 then v.bits else v.bits - TWO64
    case _ => v.bits
  }

  /** Local and global types; the first `params` locals are parameters. */
  datatype Env = Env(locals: seq<Ty>, params: nat, globals: seq<Ty>)

  function IntTy(wide: bool): Ty { if wide then I64 else I32 }

  /** Straight-line operators; `br_if` is one on the path where it falls through. */
  predicate Straight(op: Op) { !op.BrTable? && !op.Call? && !op.Return? && !op.End? && !op.Opaque? }

  /** The operand types, given the types on the stack (only `drop` depends on them). */
  function Inputs(env: Env, op: Op, tys: seq<Ty>): seq<Ty> {
    match op
    case LocalSet(i) => if i < |env.locals| then [env.locals[i]] else []
    case LocalTee(i) => if i < |env.locals| then [env.locals[i]] else []
    case GlobalSet(i) => if i < |env.globals| then [env.globals[i]] else []
    case Load(_, _) => [I32]
    case Store(w) => [I32, IntTy(w)]
    case I32Binary(_) => [I32, I32]
    case I32Eqz => [I32]
    case I32Compare(_) => [I32, I32]
    case BrIf => [I32]
    case Drop => if tys == [] then [I32] else [tys[|tys| - 1]]
    case _ => []
  }

  function Outputs(env: Env, op: Op): seq<Ty> {
    match op
    case I32Const(_) => [I32]
    case I64Const(_) => [I64]
    case F32Const(_) => [F32]
    case F64Const(_) => [F64]
    case LocalGet(i) => if i < |env.locals| then [env.locals[i]] else []
    case LocalTee(i) => if i < |env.locals| then [env.locals[i]] else []
    case GlobalGet(i) => if i < |env.globals| then [env.globals[i]] else []
    case Load(w, _) => [IntTy(w)]
    case I32Binary(_) => [I32]
    case I32Eqz => [I32]
    case I32Compare(_) => [I32]
    case _ => []
  }

  /** Immediates are in range, as decoding guarantees, and indices exist. */
  predicate Immediate(env: Env, op: Op) {
    match op
    case I32Const(v) => -TWO31 <= v < TWO31
    case I64Const(v) => -TWO63 <= v < TWO63
    case F32Const(b) => b < TWO32
    case F64Const(b) => b < TWO64
    case LocalGet(i) => i < |env.locals|
    case LocalSet(i) => i < |env.locals|
    case LocalTee(i) => i < |env.locals|
    case GlobalGet(i) => i < |env.globals|
    case GlobalSet(i) => i < |env.globals|
    case _ => true
  }

  predicate EndsWith<T(==)>(s: seq<T>, t: seq<T>) { |t| <= |s| && s[|s| - |t|..] == t }

  /** Validation: the stack types after the first `k` operators. */
  function TypesAt(env: Env, ops: seq<Op>, k: nat): Option<seq<Ty>>
    requires k <= |ops|
  {
    if k == 0 then Some([]) else
      match TypesAt(env, ops, k - 1)
      case None => None
      case Some(tys) =>
        var op := ops[k - 1];
        var ins := Inputs(env, op, tys);
        if Straight(op) && Immediate(env, op) && EndsWith(tys, ins) then Some(TypesAfter(env, op, tys)) else None
  }

  function TypesAfter(env: Env, op: Op, tys: seq<Ty>): seq<Ty>
    requires EndsWith(tys, Inputs(env, op, tys))
  {
    tys[..|tys| - |Inputs(env, op, tys)|] + Outputs(env, op)
  }

  /** The meaning of what is not computed here: the bits produced at step `k`, or a trap. */
  type Oracle = (nat, Op, seq<Val>) -> Option<nat>

  /** Running, gone (it trapped or took a branch), or stuck for want of operands of the right types. */
  datatype Machine = Running(stack: seq<Val>, locals: seq<Val>) | Gone | Stuck

  function Types(vs: seq<Val>): (r: seq<Ty>)
    ensures |r| == |vs| && forall i :: 0 <= i < |vs| ==> r[i] == vs[i].ty
  {
    seq(|vs|, i requires 0 <= i < |vs| => vs[i].ty)
  }

  predicate Folds(op: BinOp) { op.Add? || op.Sub? || op.Mul? }

  function Arith(op: BinOp, x: int, y: int): int {
    if op.Add? then x + y else if op.Sub? then x - y else x * y
  }

  /** A value from outside, fitted to the operator's result type. */
  function Outside(env: Env, op: Op, answer: Option<nat>): Option<seq<Val>> {
    match answer
    case None => None
    case Some(bits) =>
      var outs := Outputs(env, op);
      Some(if outs == [] then [] else [Val(outs[0], bits % Modulus(outs[0]))])
  }

  /** The values an operator leaves in place of its operands, or that the run is gone. */
  function Results(env: Env, orc: Oracle, k: nat, op: Op, locals: seq<Val>, args: seq<Val>): Option<seq<Val>>
    requires Straight(op) && Immediate(env, op) && |locals| == |env.locals|
    requires |args| == |Inputs(env, op, Types(args))|
  {
    match op
    case I32Const(v) => Some([Val(I32, v % TWO32)])
    case I64Const(v) => Some([Val(I64, v % TWO64)])
    case F32Const(b) => Some([Val(F32, b)])
    case F64Const(b) => Some([Val(F64, b)])
    case LocalGet(i) => Some([locals[i]])
    case LocalTee(_) => Some(args)
    case LocalSet(_) => Some([])
    case GlobalSet(_) => Some([])
    case Drop => Some([])
    case I32Binary(o) =>
      if Folds(o) then Some([Val(I32, Arith(o, args[0].bits, args[1].bits) % TWO32)])
      else Outside(env, op, orc(k, op, args))
    case BrIf => if args[0].bits == 0 then Some([]) else None
    case _ => Outside(env, op, orc(k, op, args))
  }

  function Exec(env: Env, orc: Oracle, k: nat, op: Op, m: Machine): Machine {
    if !m.Running? then m
    else
      var ins := Inputs(env, op, Types(m.stack));
      if !(Straight(op) && Immediate(env, op) && |m.locals| == |env.locals| && EndsWith(Types(m.stack), ins)) then Stuck
      else
        var cut := |m.stack| - |ins|;
        var args := m.stack[cut..];
        match Results(env, orc, k, op, m.locals, args)
        case None => Gone
        case Some(vs) =>
          Running(m.stack[..cut] + vs,
                  if op.LocalSet? || op.LocalTee? then m.locals[op.index := args[0]] else m.locals)
  }

  /** Parameters are arbitrary, declared locals start at zero. */
  predicate Entry(env: Env, locals: seq<Val>) {
    && env.params <= |env.locals| == |locals|
    && (forall i :: 0 <= i < |locals| ==> locals[i].ty == env.locals[i] && InRange(locals[i]))
    && (forall i :: env.params <= i < |locals| ==> locals[i].bits == 0)
  }

  function Run(env: Env, orc: Oracle, ops: seq<Op>, locals: seq<Val>, k: nat): Machine
    requires k <= |ops|
  {
    if k == 0 then Running([], locals)
    else Exec(env, orc, k - 1, ops[k - 1], Run(env, orc, ops, locals, k - 1))
  }

  /** Operators that make a new SSA name. */
  predicate Defines(op: Op) {
    op.I32Const? || op.I64Const? || op.F32Const? || op.F64Const? || op.GlobalGet? || op.Load?
    || op.I32Binary? || op.I32Eqz? || op.I32Compare?
  }

  /** What each SSA name stands for in a run: the parameters, then what each defining operator left on top. */
  function Meaning(env: Env, orc: Oracle, ops: seq<Op>, locals: seq<Val>, k: nat): seq<Val>
    requires k <= |ops| && env.params <= |locals|
  {
    if k == 0 then locals[..env.params] else
      var before := Meaning(env, orc, ops, locals, k - 1);
      var m := Run(env, orc, ops, locals, k);
      if Defines(ops[k - 1]) && m.Running? && m.stack != [] then before + [m.stack[|m.stack| - 1]] else before
  }

  // ------------------------------------------------------------------ constants

  /** Folding on signed constants agrees with arithmetic on bit patterns, wrap-around included. */
  lemma FoldIsWrapAround(op: BinOp, a: nat, b: nat)
    requires a < TWO32 && b < TWO32 && Folds(op)
    ensures Fold(op, Some(Signed32(a)), Some(Signed32(b))) == Some(Signed32(Arith(op, a, b) % TWO32))
  {
    ShiftIsExact(op, a, b);
    ModShift(Arith(op, a, b), ShiftOf(op, a, b), TWO32);
    hide ShiftOf;
  }

  /** How many multiples of 2^32 separate the signed and the unsigned result. */
  function ShiftOf(op: BinOp, a: nat, b: nat): int
    requires a < TWO32 && b < TWO32
  {
    var i, j := if a < TWO31 then 0 else 1, if b < TWO31 then 0 else 1;
    match op
    case Add => -i - j
    case Sub => j - i
    case _ => if i == 0 then 0 - j * a else if j == 0 then 0 - b else TWO32 - a - b
  }

  lemma ShiftIsExact(op: BinOp, a: nat, b: nat)
    requires a < TWO32 && b < TWO32 && Folds(op)
    ensures Arith(op, Signed32(a), Signed32(b)) == Arith(op, a, b) + ShiftOf(op, a, b) * TWO32
  {
  }

  predicate Numbered(values: seq<Fact>, base: nat) {
    forall i :: 0 <= i < |values| ==> values[i].name.version == base + i
  }

  /** A name held by the analysis is that of the value it numbers. */
  predicate Known(values: seq<Fact>, n: Name) { n.version < |values| && values[n.version].name == n }

  /** Versions make names unique, so looking a name up finds its own fact. */
  lemma {:induction false} ConstOfFinds(values: seq<Fact>, base: nat, k: nat)
    requires Numbered(values, base) && k < |values|
    ensures ConstOf(values, Some(values[k].name)) == values[k].constant
  {
    if k > 0 {
      assert values[0].name.version != values[k].name.version;
      assert values[1..][k - 1] == values[k];
      ConstOfFinds(values[1..], base + 1, k - 1);
    }
  }

  lemma {:induction false} TypesSound(env: Env, orc: Oracle, k: nat, op: Op, m: Machine)
    requires m.Running? && TypedState(env, m)
    requires Straight(op) && Immediate(env, op) && EndsWith(Types(m.stack), Inputs(env, op, Types(m.stack)))
    ensures var m' := Exec(env, orc, k, op, m); !m'.Stuck? && (m'.Running? ==> TypedState(env, m'))
  {
  }

  lemma TypesFollow(env: Env, orc: Oracle, k: nat, op: Op, m: Machine)
    requires m.Running? && TypedState(env, m)
    requires Straight(op) && Immediate(env, op) && EndsWith(Types(m.stack), Inputs(env, op, Types(m.stack)))
    ensures var m', tys := Exec(env, orc, k, op, m), Types(m.stack);
      m'.Running? ==> Types(m'.stack) == TypesAfter(env, op, tys)
  {
  }

  predicate TypedState(env: Env, m: Machine) {
    m.Running? && |m.locals| == |env.locals|
    && (forall i :: 0 <= i < |m.locals| ==> m.locals[i].ty == env.locals[i] && InRange(m.locals[i]))
    && (forall i :: 0 <= i < |m.stack| ==> InRange(m.stack[i]))
  }

  // ------------------------------------------------------------------ simulation

  predicate StackRel(values: seq<Fact>, names: seq<Name>, stack: seq<Val>, rho: seq<Val>) {
    |names| == |stack| && |rho| == |values|
    && forall i :: 0 <= i < |names| ==> Known(values, names[i]) && stack[i] == rho[names[i].version]
  }

  predicate LocalsRel(values: seq<Fact>, names: map<nat, Name>, locals: seq<Val>, rho: seq<Val>) {
    |rho| == |values|
    && forall i <- names :: i < |locals| && Known(values, names[i]) && locals[i] == rho[names[i].version]
  }

  /** Every recorded constant is the value its name stands for. */
  predicate ConstantsTrue(values: seq<Fact>, rho: seq<Val>) {
    |rho| == |values|
    && forall i :: 0 <= i < |values| && values[i].constant.Some? ==> values[i].constant.value == Repr(rho[i])
  }

  predicate Rel(s: Sym, stack: seq<Val>, locals: seq<Val>, rho: seq<Val>) {
    && Numbered(s.values, 0) && s.notes == []
    && ConstantsTrue(s.values, rho)
    && StackRel(s.values, s.stack, stack, rho)
    && LocalsRel(s.values, s.locals, locals, rho)
  }

  function Shorter(s: Sym, n: nat): Sym
    requires n <= |s.stack|
  {
    s.(stack := s.stack[..|s.stack| - n])
  }

  lemma RelShorter(s: Sym, stack: seq<Val>, locals: seq<Val>, rho: seq<Val>, n: nat)
    requires Rel(s, stack, locals, rho) && n <= |stack|
    ensures Rel(Shorter(s, n), stack[..|stack| - n], locals, rho)
  {
  }

  lemma RelHeight(s: Sym, stack: seq<Val>, locals: seq<Val>, rho: seq<Val>)
    requires Rel(s, stack, locals, rho)
    ensures |s.stack| == |stack|
  {
  }

  lemma RelDefine(s: Sym, stack: seq<Val>, locals: seq<Val>, rho: seq<Val>, at: nat, c: Option<int>, v: Val)
    requires Rel(s, stack, locals, rho) && (c.Some? ==> c.value == Repr(v))
    ensures Rel(Define(s, at, c), stack + [v], locals, rho + [v])
  {
  }

  /** The constant of a name on the symbolic stack is that of the value in the same slot. */
  lemma ConstOnStack(s: Sym, stack: seq<Val>, locals: seq<Val>, rho: seq<Val>, i: nat)
    requires Rel(s, stack, locals, rho) && i < |stack|
    ensures var c := ConstOf(s.values, Some(s.stack[i])); c.Some? ==> c.value == Repr(stack[i])
  {
    ConstOfFinds(s.values, 0, s.stack[i].version);
  }

  /** A typed, running step whose operands are there. */
  predicate CanStep(env: Env, op: Op, m: Machine) {
    m.Running? && TypedState(env, m) && Straight(op) && Immediate(env, op)
    && EndsWith(Types(m.stack), Inputs(env, op, Types(m.stack)))
  }

  function Recorded(op: Op, m': Machine, rho: seq<Val>): seq<Val> {
    if Defines(op) && m'.Running? && m'.stack != [] then rho + [m'.stack[|m'.stack| - 1]] else rho
  }

  predicate RelAfter(env: Env, orc: Oracle, k: nat, op: Op, s': Sym, m: Machine, rho: seq<Val>) {
    var m' := Exec(env, orc, k, op, m);
    m'.Running? ==> Rel(s', m'.stack, m'.locals, Recorded(op, m', rho))
  }

  lemma StepConst(env: Env, orc: Oracle, k: nat, op: Op, s: Sym, m: Machine, rho: seq<Val>, pos: nat, at: nat)
    requires m.Running? && CanStep(env, op, m) && Rel(s, m.stack, m.locals, rho)
    requires op.I32Const? || op.I64Const? || op.F32Const? || op.F64Const?
    ensures RelAfter(env, orc, k, op, SymStep(s, op, pos, at), m, rho)
  {
    hide Rel;
    var v := Exec(env, orc, k, op, m).stack[|m.stack|];
    RelDefine(s, m.stack, m.locals, rho, at, Some(Repr(v)), v);
    assert m.stack[..|m.stack|] == m.stack;
  }

  function Arity(op: Op): nat {
    if op.I32Binary? || op.I32Compare? || op.Store? then 2
    else if op.Load? || op.I32Eqz? || op.LocalSet? || op.LocalTee? || op.GlobalSet? || op.BrIf? || op.Drop? then 1
    else 0
  }

  lemma ArityIsInputs(env: Env, op: Op, tys: seq<Ty>)
    requires Straight(op) && Immediate(env, op)
    ensures |Inputs(env, op, tys)| == Arity(op)
  {
  }

  /** Operators whose only effect is to pop. */
  predicate OnlyPops(op: Op) { op.GlobalSet? || op.Store? || op.BrIf? || op.Drop? }

  /** What the analysis does when the operands are there. */
  lemma SymPops(s: Sym, op: Op, pos: nat, at: nat)
    requires Arity(op) <= |s.stack|
    ensures OnlyPops(op) ==> SymStep(s, op, pos, at) == Shorter(s, Arity(op))
    ensures op.GlobalGet? || op.Load? || op.I32Eqz? || op.I32Compare? ==>
              SymStep(s, op, pos, at) == Define(Shorter(s, Arity(op)), at, None)
  {
  }

  lemma ResultCount(env: Env, orc: Oracle, k: nat, op: Op, locals: seq<Val>, args: seq<Val>)
    requires Straight(op) && Immediate(env, op) && |locals| == |env.locals|
    requires |args| == |Inputs(env, op, Types(args))|
    ensures var r := Results(env, orc, k, op, locals, args);
      r.Some? ==> (Defines(op) ==> |r.value| == 1) && (OnlyPops(op) ==> r.value == [])
  {
  }

  /** A defining operator replaces its operands by one value. */
  lemma ExecDefines(env: Env, orc: Oracle, k: nat, op: Op, m: Machine)
    requires CanStep(env, op, m) && Defines(op)
    ensures Arity(op) <= |m.stack|
    ensures var m' := Exec(env, orc, k, op, m);
      m'.Running? ==> m'.locals == m.locals && m'.stack != []
                      && m'.stack == m.stack[..|m.stack| - Arity(op)] + [m'.stack[|m'.stack| - 1]]
  {
    hide Results; hide Inputs; hide Immediate; hide Outputs;
    assert |m.locals| == |env.locals|;
    hide TypedState;
    ArityIsInputs(env, op, Types(m.stack));
    var args := m.stack[|m.stack| - Arity(op)..];
    ArityIsInputs(env, op, Types(args));
    ResultCount(env, orc, k, op, m.locals, args);
  }

  lemma ExecPops(env: Env, orc: Oracle, k: nat, op: Op, m: Machine)
    requires CanStep(env, op, m) && OnlyPops(op)
    ensures Arity(op) <= |m.stack|
    ensures var m' := Exec(env, orc, k, op, m);
      m'.Running? ==> m'.locals == m.locals && m'.stack == m.stack[..|m.stack| - Arity(op)]
  {
    hide Results; hide Inputs; hide Immediate; hide Outputs;
    assert |m.locals| == |env.locals|;
    hide TypedState;
    ArityIsInputs(env, op, Types(m.stack));
    var args := m.stack[|m.stack| - Arity(op)..];
    ArityIsInputs(env, op, Types(args));
    ResultCount(env, orc, k, op, m.locals, args);
  }

  /** The operators that pop their operands and define a value the analysis knows nothing of. */
  lemma StepUnknown(env: Env, orc: Oracle, k: nat, op: Op, s: Sym, m: Machine, rho: seq<Val>, pos: nat, at: nat)
    requires m.Running? && CanStep(env, op, m) && Rel(s, m.stack, m.locals, rho)
    requires op.GlobalGet? || op.Load? || op.I32Eqz? || op.I32Compare?
    ensures RelAfter(env, orc, k, op, SymStep(s, op, pos, at), m, rho)
  {
    hide Exec; hide CanStep; hide Rel; hide SymStep; hide Arity;
    ExecDefines(env, orc, k, op, m);
    RelHeight(s, m.stack, m.locals, rho);
    var n := Arity(op);
    RelShorter(s, m.stack, m.locals, rho, n);
    var m' := Exec(env, orc, k, op, m);
    SymPops(s, op, pos, at);
    if m'.Running? {
      RelDefine(Shorter(s, n), m.stack[..|m.stack| - n], m.locals, rho, at, None, m'.stack[|m'.stack| - 1]);
    }
  }

  /** What a folded operator leaves, and what the analysis folds. */
  lemma ExecFolds(env: Env, orc: Oracle, k: nat, op: Op, m: Machine, x: Option<int>, y: Option<int>)
    requires CanStep(env, op, m) && op.I32Binary? && |m.stack| >= 2
    requires x.Some? ==> x.value == Repr(m.stack[|m.stack| - 2])
    requires y.Some? ==> y.value == Repr(m.stack[|m.stack| - 1])
    ensures var m', c := Exec(env, orc, k, op, m), Fold(op.op, x, y);
      m'.Running? && m'.stack != [] && c.Some? ==> c.value == Repr(m'.stack[|m'.stack| - 1])
  {
    var h := |m.stack|;
    var a, b := m.stack[h - 2], m.stack[h - 1];
    assert EndsWith(Types(m.stack), [I32, I32]);
    assert Types(m.stack)[h - 2..] == [I32, I32];
    assert a.ty == I32 && b.ty == I32;
    assert InRange(a) && InRange(b);
    if Fold(op.op, x, y).Some? {
      FoldIsWrapAround(op.op, a.bits, b.bits);
      hide Fold; hide TypedState;
      assert m.stack[h - 2..] == [a, b];
    }
  }

  lemma StepBinary(env: Env, orc: Oracle, k: nat, op: Op, s: Sym, m: Machine, rho: seq<Val>, pos: nat, at: nat)
    requires m.Running? && CanStep(env, op, m) && Rel(s, m.stack, m.locals, rho) && op.I32Binary?
    ensures RelAfter(env, orc, k, op, SymStep(s, op, pos, at), m, rho)
  {
    hide Exec; hide CanStep; hide Fold; hide Rel; hide ConstOf;
    ExecDefines(env, orc, k, op, m);
    RelHeight(s, m.stack, m.locals, rho);
    var h := |m.stack|;
    RelShorter(s, m.stack, m.locals, rho, 2);
    ConstOnStack(s, m.stack, m.locals, rho, h - 2);
    ConstOnStack(s, m.stack, m.locals, rho, h - 1);
    var x, y := ConstOf(s.values, Some(s.stack[h - 2])), ConstOf(s.values, Some(s.stack[h - 1]));
    var c := Fold(op.op, x, y);
    assert SymStep(s, op, pos, at) == Define(Shorter(s, 2), at, c);
    hide SymStep;
    ExecFolds(env, orc, k, op, m, x, y);
    var m' := Exec(env, orc, k, op, m);
    if m'.Running? {
      RelDefine(Shorter(s, 2), m.stack[..h - 2], m.locals, rho, at, c, m'.stack[|m'.stack| - 1]);
    }
  }

  lemma StepPop(env: Env, orc: Oracle, k: nat, op: Op, s: Sym, m: Machine, rho: seq<Val>, pos: nat, at: nat)
    requires m.Running? && CanStep(env, op, m) && Rel(s, m.stack, m.locals, rho) && OnlyPops(op)
    ensures RelAfter(env, orc, k, op, SymStep(s, op, pos, at), m, rho)
  {
    hide Exec; hide CanStep; hide Rel; hide SymStep; hide Arity;
    ExecPops(env, orc, k, op, m);
    RelHeight(s, m.stack, m.locals, rho);
    RelShorter(s, m.stack, m.locals, rho, Arity(op));
    SymPops(s, op, pos, at);
  }

  /** `local.get`, concretely. */
  lemma ExecGet(env: Env, orc: Oracle, k: nat, op: Op, m: Machine)
    requires CanStep(env, op, m) && op.LocalGet?
    ensures op.index < |m.locals| && Exec(env, orc, k, op, m) == Running(m.stack + [m.locals[op.index]], m.locals)
  {
  }

  lemma SetResult(env: Env, orc: Oracle, k: nat, op: Op, locals: seq<Val>, args: seq<Val>)
    requires Straight(op) && Immediate(env, op) && |locals| == |env.locals|
    requires |args| == |Inputs(env, op, Types(args))| && (op.LocalSet? || op.LocalTee?)
    ensures Results(env, orc, k, op, locals, args) == Some(if op.LocalSet? then [] else args)
  {
  }

  /** `local.set` and `local.tee`, concretely. */
  lemma ExecSet(env: Env, orc: Oracle, k: nat, op: Op, m: Machine)
    requires CanStep(env, op, m) && (op.LocalSet? || op.LocalTee?)
    ensures op.index < |m.locals| && m.stack != []
    ensures var top := m.stack[|m.stack| - 1];
      Exec(env, orc, k, op, m) ==
      Running(m.stack[..|m.stack| - 1] + (if op.LocalSet? then [] else [top]), m.locals[op.index := top])
  {
    hide Results; hide Inputs; hide Outputs;
    assert |m.locals| == |env.locals| && op.index < |env.locals|;
    hide TypedState; hide Immediate;
    ArityIsInputs(env, op, Types(m.stack));
    var h := |m.stack|;
    var args := m.stack[h - 1..];
    assert args == [m.stack[h - 1]];
    ArityIsInputs(env, op, Types(args));
    SetResult(env, orc, k, op, m.locals, args);
  }

  lemma StepLocal(env: Env, orc: Oracle, k: nat, op: Op, s: Sym, m: Machine, rho: seq<Val>, pos: nat, at: nat)
    requires m.Running? && CanStep(env, op, m) && Rel(s, m.stack, m.locals, rho)
    requires op.LocalGet? || op.LocalSet? || op.LocalTee?
    requires op.LocalGet? ==> op.index in s.locals
    ensures RelAfter(env, orc, k, op, SymStep(s, op, pos, at), m, rho)
  {
    hide Exec; hide CanStep; hide Rel;
    RelHeight(s, m.stack, m.locals, rho);
    var h := |m.stack|;
    if op.LocalGet? {
      ExecGet(env, orc, k, op, m);
      RelHolds(s, m.stack, m.locals, rho, 0, op.index);
      RelPush(s, m.stack, m.locals, rho, s.locals[op.index]);
    } else {
      ExecSet(env, orc, k, op, m);
      RelShorter(s, m.stack, m.locals, rho, 1);
      RelHolds(s, m.stack, m.locals, rho, h - 1, op.index);
      RelSet(Shorter(s, 1), m.stack[..h - 1], m.locals, rho, op.index, s.stack[h - 1]);
      if op.LocalTee? {
        RelPush(Shorter(s, 1).(locals := s.locals[op.index := s.stack[h - 1]]), m.stack[..h - 1],
                m.locals[op.index := m.stack[h - 1]], rho, s.stack[h - 1]);
      }
      assert m.stack[..h - 1] + [] == m.stack[..h - 1];
    }
  }

  /** The name in a stack slot or a local stands for the value there. */
  lemma RelHolds(s: Sym, stack: seq<Val>, locals: seq<Val>, rho: seq<Val>, i: nat, j: nat)
    requires Rel(s, stack, locals, rho)
    ensures |rho| == |s.values|
    ensures i < |stack| && i < |s.stack| ==> Known(s.values, s.stack[i]) && stack[i] == rho[s.stack[i].version]
    ensures j in s.locals ==> j < |locals| && Known(s.values, s.locals[j]) && locals[j] == rho[s.locals[j].version]
  {
  }

  lemma RelPush(s: Sym, stack: seq<Val>, locals: seq<Val>, rho: seq<Val>, n: Name)
    requires Rel(s, stack, locals, rho) && Known(s.values, n)
    ensures Rel(s.(stack := s.stack + [n]), stack + [rho[n.version]], locals, rho)
  {
  }

  lemma RelSet(s: Sym, stack: seq<Val>, locals: seq<Val>, rho: seq<Val>, i: nat, n: Name)
    requires Rel(s, stack, locals, rho) && Known(s.values, n) && i < |locals|
    ensures Rel(s.(locals := s.locals[i := n]), stack, locals[i := rho[n.version]], rho)
  {
  }

  /** One operator: the symbolic and the concrete step stay in step. */
  lemma StepRel(env: Env, orc: Oracle, k: nat, op: Op, s: Sym, m: Machine, rho: seq<Val>, pos: nat, at: nat)
    requires m.Running? && CanStep(env, op, m) && Rel(s, m.stack, m.locals, rho)
    requires op.LocalGet? ==> op.index in s.locals
    ensures RelAfter(env, orc, k, op, SymStep(s, op, pos, at), m, rho)
  {
    hide SymStep; hide Rel; hide Exec; hide Inputs; hide RelAfter; hide Immediate; hide Outputs;
    match op
    case I32Const(_) => StepConst(env, orc, k, op, s, m, rho, pos, at);
    case I64Const(_) => StepConst(env, orc, k, op, s, m, rho, pos, at);
    case F32Const(_) => StepConst(env, orc, k, op, s, m, rho, pos, at);
    case F64Const(_) => StepConst(env, orc, k, op, s, m, rho, pos, at);
    case I32Binary(_) => StepBinary(env, orc, k, op, s, m, rho, pos, at);
    case LocalGet(_) => StepLocal(env, orc, k, op, s, m, rho, pos, at);
    case LocalSet(_) => StepLocal(env, orc, k, op, s, m, rho, pos, at);
    case LocalTee(_) => StepLocal(env, orc, k, op, s, m, rho, pos, at);
    case GlobalGet(_) => StepUnknown(env, orc, k, op, s, m, rho, pos, at);
    case Load(_, _) => StepUnknown(env, orc, k, op, s, m, rho, pos, at);
    case I32Eqz => StepUnknown(env, orc, k, op, s, m, rho, pos, at);
    case I32Compare(_) => StepUnknown(env, orc, k, op, s, m, rho, pos, at);
    case _ => StepPop(env, orc, k, op, s, m, rho, pos, at);
  }

  // ------------------------------------------------------------------ whole bodies

  predicate Writes(op: Op, i: nat) { (op.LocalSet? || op.LocalTee?) && op.index == i }

  /** Local `i` is a parameter or has been written by the first `k` operators. */
  predicate IsSet(ops: seq<Op>, params: nat, k: nat, i: nat)
    requires k <= |ops|
  {
    i < params || exists j :: 0 <= j < k && Writes(ops[j], i)
  }

  /** Each of the first `k` operators reads only parameters and locals already written. */
  predicate ReadsSet(ops: seq<Op>, params: nat, k: nat)
    requires k <= |ops|
  {
    forall j :: 0 <= j < k && ops[j].LocalGet? ==> IsSet(ops, params, j, ops[j].index)
  }

  lemma StoppedStays(env: Env, orc: Oracle, k: nat, op: Op, m: Machine)
    requires !m.Running?
    ensures Exec(env, orc, k, op, m) == m
  {
  }

  lemma EntryTyped(env: Env, locals: seq<Val>)
    requires Entry(env, locals)
    ensures TypedState(env, Running([], locals)) && Types([]) == []
  {
  }

  /** Type soundness: a validated body is never stuck, and its stack has the validated types. */
  lemma {:induction false} NeverStuck(env: Env, orc: Oracle, ops: seq<Op>, locals: seq<Val>, k: nat)
    requires Entry(env, locals) && k <= |ops| && TypesAt(env, ops, k).Some?
    ensures var m := Run(env, orc, ops, locals, k);
      !m.Stuck? && (m.Running? ==> TypedState(env, m) && Types(m.stack) == TypesAt(env, ops, k).value)
  {
    hide Exec; hide Inputs; hide Outputs; hide Immediate; hide TypedState; hide TypesAfter; hide EndsWith;
    hide Straight; hide Entry;
    if k == 0 {
      EntryTyped(env, locals);
    } else {
      NeverStuck(env, orc, ops, locals, k - 1);
      var m := Run(env, orc, ops, locals, k - 1);
      if m.Running? {
        TypesSound(env, orc, k - 1, ops[k - 1], m);
        TypesFollow(env, orc, k - 1, ops[k - 1], m);
      } else {
        StoppedStays(env, orc, k - 1, ops[k - 1], m);
      }
    }
  }

  lemma {:induction false} NoEnd(env: Env, ops: seq<Op>, k: nat)
    requires k <= |ops| && TypesAt(env, ops, k).Some?
    ensures End !in ops[..k]
    ensures k > 0 ==> TypesAt(env, ops, k - 1).Some?
  {
    hide Inputs; hide Outputs; hide Immediate;
    if k > 0 {
      NoEnd(env, ops, k - 1);
      assert ops[..k] == ops[..k - 1] + [ops[k - 1]];
    }
  }

  /** Seeding one more parameter. */
  lemma RelParam(s: Sym, locals: seq<Val>, n: nat)
    requires n < |locals| && |s.values| == n && s.stack == [] && Rel(s, [], locals, locals[..n])
    ensures var name := Name(0, n);
      Rel(s.(values := s.values + [Fact(name, None)], locals := s.locals[n := name]), [], locals, locals[..n + 1])
  {
  }

  lemma {:induction false} StartRel(locals: seq<Val>, n: nat)
    requires n <= |locals|
    ensures Rel(SymStart(n), [], locals, locals[..n])
  {
    if n > 0 {
      StartCount(n - 1);
      StartStack(n - 1);
      StartRel(locals, n - 1);
      RelParam(SymStart(n - 1), locals, n - 1);
    }
  }

  lemma {:induction false} StartStack(n: nat)
    ensures SymStart(n).stack == []
  {
    if n > 0 { StartStack(n - 1); }
  }

  lemma {:induction false} StartLocals(n: nat)
    ensures forall i: nat :: i in SymStart(n).locals <==> i < n
  {
    if n > 0 { StartLocals(n - 1); }
  }

  /** Which locals the analysis knows. */
  ghost predicate KnowsSet(s: Sym, ops: seq<Op>, params: nat, k: nat)
    requires k <= |ops|
  {
    forall i: nat :: i in s.locals <==> IsSet(ops, params, k, i)
  }

  lemma StepKnows(s: Sym, ops: seq<Op>, params: nat, k: nat, pos: nat, at: nat)
    requires k < |ops| && KnowsSet(s, ops, params, k) && Arity(ops[k]) <= |s.stack|
    ensures KnowsSet(SymStep(s, ops[k], pos, at), ops, params, k + 1)
  {
  }

  /**
   The analysis is sound: on any run of a validated straight-line body that reads
   only parameters and locals already set, at every step the symbolic and the
   concrete stacks have the same height, each name stands for the value in its
   slot, every constant is true, and nothing is reported.
   */
  lemma {:induction false} AnalysisSound(env: Env, orc: Oracle, ops: seq<Op>, pos: seq<nat>, locals: seq<Val>, k: nat)
    requires Entry(env, locals) && k <= |ops| && |pos| == |ops| + 1
    requires TypesAt(env, ops, k).Some? && ReadsSet(ops, env.params, k)
    requires Run(env, orc, ops, locals, k).Running?
    ensures var s, m, rho := SymRun(ops, pos, env.params, k), Run(env, orc, ops, locals, k),
      Meaning(env, orc, ops, locals, k);
      Rel(s, m.stack, m.locals, rho) && KnowsSet(s, ops, env.params, k)
  {
    hide SymStep; hide Exec; hide Rel; hide Inputs; hide Outputs; hide Immediate; hide TypedState;
    if k == 0 {
      StartRel(locals, env.params);
      StartLocals(env.params);
    } else {
      NoEnd(env, ops, k);
      NoEnd(env, ops, k - 1);
      RunningBefore(env, orc, ops, locals, k - 1, k);
      AnalysisSound(env, orc, ops, pos, locals, k - 1);
      NeverStuck(env, orc, ops, locals, k - 1);
      SoundStep(env, orc, ops, pos, locals, k - 1);
    }
  }

  lemma SoundStep(env: Env, orc: Oracle, ops: seq<Op>, pos: seq<nat>, locals: seq<Val>, k: nat)
    requires Entry(env, locals) && k < |ops| && |pos| == |ops| + 1
    requires TypesAt(env, ops, k + 1).Some? && TypesAt(env, ops, k).Some? && ReadsSet(ops, env.params, k + 1)
      && End !in ops[..k]
    requires Run(env, orc, ops, locals, k).Running? && Run(env, orc, ops, locals, k + 1).Running?
    requires var s, m, rho := SymRun(ops, pos, env.params, k), Run(env, orc, ops, locals, k),
      Meaning(env, orc, ops, locals, k);
      Rel(s, m.stack, m.locals, rho) && KnowsSet(s, ops, env.params, k)
      && TypedState(env, m) && Types(m.stack) == TypesAt(env, ops, k).value
    ensures var s, m, rho := SymRun(ops, pos, env.params, k + 1), Run(env, orc, ops, locals, k + 1),
      Meaning(env, orc, ops, locals, k + 1);
      Rel(s, m.stack, m.locals, rho) && KnowsSet(s, ops, env.params, k + 1)
  {
    hide Rel; hide SymStep; hide Exec; hide Inputs; hide Outputs; hide Immediate; hide TypedState; hide Straight;
    var s, m, rho := SymRun(ops, pos, env.params, k), Run(env, orc, ops, locals, k), Meaning(env, orc, ops, locals, k);
    var op := ops[k];
    assert CanStep(env, op, m);
    if op.LocalGet? {
      assert IsSet(ops, env.params, k, op.index);
    }
    StepRel(env, orc, k, op, s, m, rho, pos[k], pos[k + 1]);
    ArityIsInputs(env, op, Types(m.stack));
    RelHeight(s, m.stack, m.locals, rho);
    StepKnows(s, ops, env.params, k, pos[k], pos[k + 1]);
  }

  /** An operator defines at most one value, under the next version. */
  lemma StepNumbered(s: Sym, op: Op, pos: nat, at: nat)
    requires Numbered(s.values, 0)
    ensures Numbered(SymStep(s, op, pos, at).values, 0)
  {
  }

  /** In every body at all, names are unique: the i-th value has version i. */
  lemma {:induction false} VersionsUnique(ops: seq<Op>, pos: seq<nat>, params: nat, k: nat)
    requires k <= |ops| && |pos| == |ops| + 1
    ensures Numbered(SymRun(ops, pos, params, k).values, 0)
  {
    if k == 0 {
      StartNumbered(params);
    } else {
      hide SymStep;
      VersionsUnique(ops, pos, params, k - 1);
      StepNumbered(SymRun(ops, pos, params, k - 1), ops[k - 1], pos[k - 1], pos[k]);
    }
  }

  lemma {:induction false} StartNumbered(n: nat)
    ensures Numbered(SymStart(n).values, 0)
  {
    if n > 0 { StartNumbered(n - 1); StartCount(n - 1); }
  }

  lemma {:induction false} RunningBefore(env: Env, orc: Oracle, ops: seq<Op>, locals: seq<Val>, j: nat, k: nat)
    requires j <= k <= |ops|
    requires Run(env, orc, ops, locals, k).Running? && TypesAt(env, ops, k).Some?
    ensures Run(env, orc, ops, locals, j).Running? && TypesAt(env, ops, j).Some?
    decreases k
  {
    hide Inputs; hide Outputs; hide Immediate; hide Results;
    if j < k { RunningBefore(env, orc, ops, locals, j, k - 1); }
  }

  /** The two stacks have the same height after `j` operators. */
  predicate SameHeight(env: Env, orc: Oracle, ops: seq<Op>, pos: seq<nat>, locals: seq<Val>, j: nat)
    requires j <= |ops| && |pos| == |ops| + 1
  {
    var m := Run(env, orc, ops, locals, j);
    m.Running? && |SymRun(ops, pos, env.params, j).stack| == |m.stack|
  }

  /** Reading a local that was never set pushes nothing: the analysis falls one behind at that operator. */
  lemma BadReadFallsBehind(env: Env, orc: Oracle, ops: seq<Op>, pos: seq<nat>, locals: seq<Val>, j: nat)
    requires Entry(env, locals) && j < |ops| && |pos| == |ops| + 1
    requires TypesAt(env, ops, j + 1).Some? && ReadsSet(ops, env.params, j)
    requires Run(env, orc, ops, locals, j + 1).Running?
    requires ops[j].LocalGet? && !IsSet(ops, env.params, j, ops[j].index)
    ensures Run(env, orc, ops, locals, j).Running?
    ensures |Run(env, orc, ops, locals, j + 1).stack| == |SymRun(ops, pos, env.params, j + 1).stack| + 1
  {
    RunningBefore(env, orc, ops, locals, j, j + 1);
    NoEnd(env, ops, j);
    AnalysisSound(env, orc, ops, pos, locals, j);
    NeverStuck(env, orc, ops, locals, j);
    var m := Run(env, orc, ops, locals, j);
    assert CanStep(env, ops[j], m);
    ExecGet(env, orc, j, ops[j], m);
    RelHeight(SymRun(ops, pos, env.params, j), m.stack, m.locals, Meaning(env, orc, ops, locals, j));
  }

  /** The first operator that reads a local not yet set. */
  function FirstBadRead(ops: seq<Op>, params: nat, k: nat): (j: nat)
    requires k <= |ops| && !ReadsSet(ops, params, k)
    ensures j < k && ops[j].LocalGet? && !IsSet(ops, params, j, ops[j].index) && ReadsSet(ops, params, j)
  {
    if ReadsSet(ops, params, k - 1) then k - 1 else FirstBadRead(ops, params, k - 1)
  }

  /**
   Exactly when the analysis keeps step: on a run of a validated straight-line body
   the two stacks have the same height throughout if and only if every
   `local.get` reads a parameter or a local already set.
   */
  lemma HeightsAgreeIff(env: Env, orc: Oracle, ops: seq<Op>, pos: seq<nat>, locals: seq<Val>, k: nat)
    requires Entry(env, locals) && k <= |ops| && |pos| == |ops| + 1
    requires TypesAt(env, ops, k).Some? && Run(env, orc, ops, locals, k).Running?
    ensures (forall j :: 0 <= j <= k ==> SameHeight(env, orc, ops, pos, locals, j)) <==> ReadsSet(ops, env.params, k)
  {
    hide TypesAt; hide Run; hide SymRun; hide Entry; hide Meaning; hide KnowsSet;
    if ReadsSet(ops, env.params, k) {
      forall j | 0 <= j <= k
        ensures SameHeight(env, orc, ops, pos, locals, j)
      {
        RunningBefore(env, orc, ops, locals, j, k);
        AnalysisSound(env, orc, ops, pos, locals, j);
      }
    } else {
      var j := FirstBadRead(ops, env.params, k);
      RunningBefore(env, orc, ops, locals, j + 1, k);
      BadReadFallsBehind(env, orc, ops, pos, locals, j);
      assert !SameHeight(env, orc, ops, pos, locals, j + 1);
    }
  }

  /** The whole answer: for a validated body and its closing `end`, the recorded facts hold of the run. */
  lemma AnalyzeIsSound(env: Env, orc: Oracle, body: seq<Op>, pos: seq<nat>, locals: seq<Val>)
    requires Entry(env, locals) && |pos| == |body| + 2 && |body| < MAX_OPERATORS
    requires TypesAt(env, body, |body|).Some? && ReadsSet(body, env.params, |body|)
    requires Run(env, orc, body, locals, |body|).Running?
    ensures var r, m := Analyze(body + [End], pos, env.params), Run(env, orc, body, locals, |body|);
      r.Ok? && Rel(r.sym, m.stack, m.locals, Meaning(env, orc, body, locals, |body|))
  {
    hide TypesAt; hide ReadsSet; hide Run; hide Rel; hide SymRun; hide Meaning; hide Entry; hide KnowsSet;
    var n := |body|;
    NoEnd(env, body, n);
    var ops := body + [End];
    assert ops[..n] == body[..n];
    AnalysisSound(env, orc, body, pos[..n + 1], locals, n);
    StopAtEnd(ops, pos, env.params, n, n + 1);
    SymRunPrefix(body, pos, env.params, n);
  }

  lemma {:induction false} SymRunPrefix(body: seq<Op>, pos: seq<nat>, params: nat, k: nat)
    requires k <= |body| && |pos| == |body| + 2
    ensures SymRun(body + [End], pos, params, k) == SymRun(body, pos[..|body| + 1], params, k)
  {
    hide SymStep;
    if k > 0 {
      SymRunPrefix(body, pos, params, k - 1);
      assert (body + [End])[..k - 1] == body[..k - 1];
    }
  }
}
