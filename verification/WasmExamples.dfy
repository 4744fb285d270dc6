/**
 Three small bodies: a fold that wraps around, a read of an unset local that the pass
 misses, and the false constant such a read can lead to.
 */
module WasmExamples {
  import opened Basics
  import opened WasmSsa
  import opened WasmSound
  import opened WasmSites

  // ------------------------------------------------------------------ one operator at a time

  lemma TypesZero(env: Env, ops: seq<Op>)
    ensures TypesAt(env, ops, 0) == Some([])
  {
  }

  predicate Pushes(env: Env, op: Op) {
    || (op.I32Const? && -TWO31 <= op.value < TWO31)
    || (op.LocalGet? && op.index < |env.locals| && env.locals[op.index] == I32)
  }

  lemma PushAfter(env: Env, op: Op, tys: seq<Ty>)
    requires Pushes(env, op)
    ensures Straight(op) && Immediate(env, op) && EndsWith(tys, Inputs(env, op, tys))
      && TypesAfter(env, op, tys) == tys + [I32]
  {
    assert tys[..|tys|] == tys && tys[|tys|..] == [];
  }

  lemma PushTypes(env: Env, ops: seq<Op>, k: nat, tys: seq<Ty>)
    requires k < |ops| && TypesAt(env, ops, k) == Some(tys) && Pushes(env, ops[k])
    ensures TypesAt(env, ops, k + 1) == Some(tys + [I32])
  {
    hide EndsWith; hide TypesAfter; hide Inputs; hide Outputs; hide Pushes; hide Immediate; hide Straight;
    PushAfter(env, ops[k], tys);
  }

  lemma AddTypes(env: Env, tys: seq<Ty>)
    ensures var t := tys + [I32, I32];
      EndsWith(t, Inputs(env, I32Binary(Add), t)) && TypesAfter(env, I32Binary(Add), t) == tys + [I32]
  {
    var t := tys + [I32, I32];
    assert t[|tys|..] == [I32, I32] && t[..|tys|] == tys;
  }

  lemma AddTypesAt(env: Env, ops: seq<Op>, k: nat, tys: seq<Ty>)
    requires k < |ops| && TypesAt(env, ops, k) == Some(tys + [I32, I32]) && ops[k] == I32Binary(Add)
    ensures TypesAt(env, ops, k + 1) == Some(tys + [I32])
  {
    AddTypes(env, tys);
    hide EndsWith; hide TypesAfter; hide Inputs; hide Outputs;
  }

  lemma ConstRuns(env: Env, orc: Oracle, k: nat, v: int, stack: seq<Val>, locals: seq<Val>)
    requires -TWO31 <= v < TWO31 && |locals| == |env.locals|
    ensures Exec(env, orc, k, I32Const(v), Running(stack, locals)) == Running(stack + [Val(I32, v % TWO32)], locals)
  {
    assert stack[..|stack|] == stack && stack[|stack|..] == [];
  }

  lemma GetRuns(env: Env, orc: Oracle, k: nat, i: nat, stack: seq<Val>, locals: seq<Val>)
    requires i < |locals| == |env.locals|
    ensures Exec(env, orc, k, LocalGet(i), Running(stack, locals)) == Running(stack + [locals[i]], locals)
  {
    assert stack[..|stack|] == stack && stack[|stack|..] == [];
  }

  lemma AddResult(env: Env, orc: Oracle, k: nat, locals: seq<Val>, args: seq<Val>)
    requires |args| == 2 && |locals| == |env.locals|
    ensures Results(env, orc, k, I32Binary(Add), locals, args) ==
      Some([Val(I32, (args[0].bits + args[1].bits) % TWO32)])
  {
  }

  /** An operator that leaves the locals alone puts its results in place of its operands. */
  lemma ExecIs(env: Env, orc: Oracle, k: nat, op: Op, stack: seq<Val>, args: seq<Val>, locals: seq<Val>, vs: seq<Val>)
    requires Straight(op) && Immediate(env, op) && |locals| == |env.locals| && !op.LocalSet? && !op.LocalTee?
    requires |Inputs(env, op, Types(stack + args))| == |args| == |Inputs(env, op, Types(args))|
    requires EndsWith(Types(stack + args), Inputs(env, op, Types(stack + args)))
    requires Results(env, orc, k, op, locals, args) == Some(vs)
    ensures Exec(env, orc, k, op, Running(stack + args, locals)) == Running(stack + vs, locals)
  {
    hide Results; hide Inputs; hide EndsWith; hide Immediate;
    assert (stack + args)[|stack|..] == args && (stack + args)[..|stack|] == stack;
  }

  lemma AddRuns(env: Env, orc: Oracle, k: nat, stack: seq<Val>, a: nat, b: nat, locals: seq<Val>)
    requires |locals| == |env.locals|
    ensures Exec(env, orc, k, I32Binary(Add), Running(stack + [Val(I32, a), Val(I32, b)], locals))
            == Running(stack + [Val(I32, (a + b) % TWO32)], locals)
  {
    hide Results; hide Inputs; hide Outputs; hide EndsWith; hide Exec; hide TypesAfter;
    var args := [Val(I32, a), Val(I32, b)];
    assert Types(stack + args) == Types(stack) + [I32, I32];
    AddTypes(env, Types(stack));
    ArityIsInputs(env, I32Binary(Add), Types(stack + args));
    ArityIsInputs(env, I32Binary(Add), Types(args));
    AddResult(env, orc, k, locals, args);
    ExecIs(env, orc, k, I32Binary(Add), stack, args, locals, [Val(I32, (a + b) % TWO32)]);
  }

  lemma SymStepAt(ops: seq<Op>, pos: seq<nat>, k: nat)
    requires k < |ops| && |pos| == |ops| + 1 && End !in ops
    ensures SymRun(ops, pos, 0, 0) == Sym([], [], map[], [])
    ensures SymRun(ops, pos, 0, k + 1) == SymStep(SymRun(ops, pos, 0, k), ops[k], pos[k], pos[k + 1])
  {
    hide SymStep;
  }

  lemma ConstStep(values: seq<Fact>, stack: seq<Name>, v: int, pos: nat, at: nat)
    ensures var n := Name(at, |values|);
      SymStep(Sym(values, stack, map[], []), I32Const(v), pos, at) ==
        Sym(values + [Fact(n, Some(v))], stack + [n], map[], [])
  {
  }

  /** The pass adds two constants on top of its stack. */
  lemma AddStep(f: Fact, g: Fact, pos: nat, at: nat)
    requires f.name.version == 0 && g.name.version == 1 && f.constant.Some? && g.constant.Some?
    ensures SymStep(Sym([f, g], [f.name, g.name], map[], []), I32Binary(Add), pos, at)
            == Sym([f, g, Fact(Name(at, 2), Some(Wrap32(f.constant.value + g.constant.value)))], [Name(at, 2)],
                   map[], [])
  {
    hide Wrap32; hide ConstOf;
    var values := [f, g];
    assert Numbered(values, 0);
    ConstOfFinds(values, 0, 0);
    ConstOfFinds(values, 0, 1);
    assert [f.name, g.name][..1] == [f.name] && [f.name][..0] == [];
  }

  // ------------------------------------------------------------------ wrap-around

  /** One added to the largest 32-bit integer. */
  const OVERFLOW: seq<Op> := [I32Const(TWO31 - 1), I32Const(1), I32Binary(Add)]

  const NO_LOCALS := Env([], 0, [])

  lemma OverflowTypes()
    ensures TypesAt(NO_LOCALS, OVERFLOW, 3) == Some([I32])
  {
    hide TypesAt;
    var none: seq<Ty> := [];
    TypesZero(NO_LOCALS, OVERFLOW);
    PushTypes(NO_LOCALS, OVERFLOW, 0, none);
    PushTypes(NO_LOCALS, OVERFLOW, 1, none + [I32]);
    assert none + [I32] + [I32] == none + [I32, I32] && none + [I32] == [I32];
    AddTypesAt(NO_LOCALS, OVERFLOW, 2, none);
  }

  lemma OverflowRuns(orc: Oracle)
    ensures Run(NO_LOCALS, orc, OVERFLOW, [], 3) == Running([Val(I32, TWO31)], [])
  {
    hide Exec;
    var none: seq<Val>, a, b := [], Val(I32, TWO31 - 1), Val(I32, 1);
    ConstRuns(NO_LOCALS, orc, 0, TWO31 - 1, none, []);
    ConstRuns(NO_LOCALS, orc, 1, 1, [a], []);
    AddRuns(NO_LOCALS, orc, 2, none, TWO31 - 1, 1, []);
    assert none + [a] == [a] && [a] + [b] == [a, b] && none + [a, b] == [a, b]
      && none + [Val(I32, TWO31)] == [Val(I32, TWO31)];
    assert Run(NO_LOCALS, orc, OVERFLOW, [], 1) == Running([a], []);
    assert Run(NO_LOCALS, orc, OVERFLOW, [], 2) == Running([a, b], []);
  }

  lemma OverflowConstant(pos: seq<nat>)
    requires |pos| == 4
    ensures var v := SymRun(OVERFLOW, pos, 0, 3).values; |v| == 3 && v[2].constant == Some(-TWO31)
  {
    hide SymStep; hide SymRun;
    var f, g := Fact(Name(pos[1], 0), Some(TWO31 - 1)), Fact(Name(pos[2], 1), Some(1));
    SymStepAt(OVERFLOW, pos, 0);
    SymStepAt(OVERFLOW, pos, 1);
    SymStepAt(OVERFLOW, pos, 2);
    ConstStep([], [], TWO31 - 1, pos[0], pos[1]);
    ConstStep([f], [f.name], 1, pos[1], pos[2]);
    AddStep(f, g, pos[2], pos[3]);
    assert [] + [f] == [f] && [] + [f.name] == [f.name] && [f] + [g] == [f, g]
      && [f.name] + [g.name] == [f.name, g.name];
  }

  /** It is a body the theorems apply to: run, it leaves the smallest integer, and that is the constant recorded. */
  lemma OverflowIsFolded(orc: Oracle, pos: seq<nat>)
    requires |pos| == 4
    ensures TypesAt(NO_LOCALS, OVERFLOW, 3).Some? && ReadsSet(OVERFLOW, 0, 3) && Entry(NO_LOCALS, [])
    ensures Run(NO_LOCALS, orc, OVERFLOW, [], 3) == Running([Val(I32, TWO31)], [])
    ensures var v := SymRun(OVERFLOW, pos, 0, 3).values; |v| == 3 && v[2].constant == Some(-TWO31)
  {
    hide TypesAt; hide Run; hide SymRun;
    OverflowTypes();
    OverflowRuns(orc);
    OverflowConstant(pos);
  }

  // ------------------------------------------------------------------ an unset local

  const ONE_LOCAL := Env([I32], 0, [])
  const ZERO := Val(I32, 0)

  /** The shortest body on which the two stacks part: a declared local read before it is set. */
  lemma UnsetReadExample(orc: Oracle, pos: seq<nat>)
    requires |pos| == 2
    ensures var ops := [LocalGet(0)];
      && Entry(ONE_LOCAL, [ZERO]) && TypesAt(ONE_LOCAL, ops, 1).Some?
      && Run(ONE_LOCAL, orc, ops, [ZERO], 1) == Running([ZERO], [ZERO])
      && SymRun(ops, pos, 0, 1).stack == []
  {
    var ops: seq<Op>, none: seq<Val> := [LocalGet(0)], [];
    hide TypesAt; hide Exec;
    TypesZero(ONE_LOCAL, ops);
    PushTypes(ONE_LOCAL, ops, 0, []);
    GetRuns(ONE_LOCAL, orc, 0, 0, none, [ZERO]);
    assert none + [ZERO] == [ZERO];
    assert Run(ONE_LOCAL, orc, ops, [ZERO], 0) == Running(none, [ZERO]);
    SymStepAt(ops, pos, 0);
  }

  /** With the same read between two constants, an addition of the second to what the local holds. */
  const MISREAD: seq<Op> := [I32Const(7), LocalGet(0), I32Const(3), I32Binary(Add)]

  lemma MisreadTypes()
    ensures TypesAt(ONE_LOCAL, MISREAD, 4).Some?
  {
    hide TypesAt;
    var none: seq<Ty> := [];
    TypesZero(ONE_LOCAL, MISREAD);
    PushTypes(ONE_LOCAL, MISREAD, 0, none);
    var one := none + [I32];
    PushTypes(ONE_LOCAL, MISREAD, 1, one);
    PushTypes(ONE_LOCAL, MISREAD, 2, one + [I32]);
    assert one + [I32] + [I32] == one + [I32, I32];
    AddTypesAt(ONE_LOCAL, MISREAD, 3, one);
  }

  lemma MisreadRuns(orc: Oracle)
    ensures Run(ONE_LOCAL, orc, MISREAD, [ZERO], 4) == Running([Val(I32, 7), Val(I32, 3)], [ZERO])
  {
    hide Exec;
    var none: seq<Val>, a, b := [], Val(I32, 7), Val(I32, 3);
    ConstRuns(ONE_LOCAL, orc, 0, 7, none, [ZERO]);
    GetRuns(ONE_LOCAL, orc, 1, 0, [a], [ZERO]);
    ConstRuns(ONE_LOCAL, orc, 2, 3, [a, ZERO], [ZERO]);
    AddRuns(ONE_LOCAL, orc, 3, [a], 0, 3, [ZERO]);
    assert none + [a] == [a] && [a] + [ZERO] == [a, ZERO] && [a, ZERO] + [b] == [a] + [ZERO, b] && [a] + [b] == [a, b];
    assert Run(ONE_LOCAL, orc, MISREAD, [ZERO], 1) == Running([a], [ZERO]);
    assert Run(ONE_LOCAL, orc, MISREAD, [ZERO], 2) == Running([a, ZERO], [ZERO]);
    assert Run(ONE_LOCAL, orc, MISREAD, [ZERO], 3) == Running([a] + [ZERO, b], [ZERO]);
  }

  lemma MisreadConstant(pos: seq<nat>)
    requires |pos| == 5
    ensures var v := SymRun(MISREAD, pos, 0, 4).values; |v| == 3 && v[2].constant == Some(10)
  {
    hide SymStep; hide SymRun;
    var f, g := Fact(Name(pos[1], 0), Some(7)), Fact(Name(pos[3], 1), Some(3));
    SymStepAt(MISREAD, pos, 0);
    SymStepAt(MISREAD, pos, 1);
    SymStepAt(MISREAD, pos, 2);
    SymStepAt(MISREAD, pos, 3);
    ConstStep([], [], 7, pos[0], pos[1]);
    UnsetStep([f], [f.name], 0, pos[1], pos[2]);
    ConstStep([f], [f.name], 3, pos[2], pos[3]);
    AddStep(f, g, pos[3], pos[4]);
    assert [] + [f] == [f] && [] + [f.name] == [f.name] && [f] + [g] == [f, g]
      && [f.name] + [g.name] == [f.name, g.name];
  }

  lemma UnsetStep(values: seq<Fact>, stack: seq<Name>, i: nat, pos: nat, at: nat)
    ensures SymStep(Sym(values, stack, map[], []), LocalGet(i), pos, at) == Sym(values, stack, map[], [])
  {
  }

  /** The run leaves 3 where the pass records the constant 10. */
  lemma FalseConstantExample(orc: Oracle, pos: seq<nat>)
    requires |pos| == 5
    ensures Entry(ONE_LOCAL, [ZERO]) && TypesAt(ONE_LOCAL, MISREAD, 4).Some?
    ensures Run(ONE_LOCAL, orc, MISREAD, [ZERO], 4) == Running([Val(I32, 7), Val(I32, 3)], [ZERO])
    ensures var v, rho := SymRun(MISREAD, pos, 0, 4).values, Meaning(ONE_LOCAL, orc, MISREAD, [ZERO], 4);
      |v| == 3 == |rho| && v[2].constant == Some(10) && Repr(rho[2]) == 3
  {
    hide TypesAt; hide Run; hide SymRun; hide Meaning; hide DefCount; hide Exec;
    MisreadTypes();
    MisreadRuns(orc);
    MisreadConstant(pos);
    RunningBefore(ONE_LOCAL, orc, MISREAD, [ZERO], 3, 4);
    Aligned(ONE_LOCAL, orc, MISREAD, pos, [ZERO], 3);
    MisreadCounts();
    LastMeaning(ONE_LOCAL, orc, MISREAD, [ZERO], 3);
  }

  lemma MisreadCounts()
    ensures DefCount(MISREAD, 3) == 2
  {
    assert DefCount(MISREAD, 1) == 1 && DefCount(MISREAD, 2) == 1;
  }

  lemma LastMeaning(env: Env, orc: Oracle, ops: seq<Op>, locals: seq<Val>, k: nat)
    requires k < |ops| && env.params <= |locals| && Defines(ops[k])
    requires var m := Run(env, orc, ops, locals, k + 1); m.Running? && m.stack != []
    ensures var m := Run(env, orc, ops, locals, k + 1);
      Meaning(env, orc, ops, locals, k + 1) == Meaning(env, orc, ops, locals, k) + [m.stack[|m.stack| - 1]]
  {
    hide Run;
  }
}
