/**
 Operand-stack-to-SSA analysis with constant folding (`analyze_values`).

 `SymStep` and `TraceStep` are one turn of the program's loop: the first keeps the
 operand stack, the locals and the constants, the second the descriptions, use
 chains and side tables.
 */
module WasmSsa {
  import opened Basics
  import opened Texts

  datatype Ty = I32 | I64 | F32 | F64

  datatype BinOp = Add | Sub | Mul | And | Or | Xor

  datatype Test = Eq | Ne | LtU | GeU

  datatype Op =
    | I32Const(value: int) | I64Const(value: int) | F32Const(bits: nat) | F64Const(bits: nat)
    | LocalGet(index: nat) | LocalSet(index: nat) | LocalTee(index: nat)
    | GlobalGet(index: nat) | GlobalSet(index: nat)
    | Load(wide: bool, offset: nat) | Store(wide: bool)
    | I32Binary(op: BinOp) | I32Eqz | I32Compare(test: Test)
    | Drop
    | BrIf | BrTable | Call(fn: nat) | Return | End | Opaque

  // ------------------------------------------------------------------ the symbolic pass

  /** An SSA name: the offset recorded at its definition, and its number. */
  datatype Name = Name(defOffset: nat, version: nat)

  datatype Fact = Fact(name: Name, constant: Option<int>)

  datatype Note = Underflow(at: nat) | OpaqueOp(at: nat)

  datatype Sym = Sym(values: seq<Fact>, stack: seq<Name>, locals: map<nat, Name>, notes: seq<Note>)

  const TWO32 := 0x1_0000_0000
  const TWO31 := 0x8000_0000

  /** The signed reading of a 32-bit pattern. */
  function Signed32(n: int): int { if n < TWO31 then n else n - TWO32 }

  /** `x as i32`, for any integer `x`. */
  function Wrap32(x: int): int { Signed32(x % TWO32) }

  function Define(s: Sym, at: nat, c: Option<int>): Sym {
    var name := Name(at, |s.values|);
    s.(values := s.values + [Fact(name, c)], stack := s.stack + [name])
  }

  /** `pop_use!`: the popped name, or a note. */
  function Pop(s: Sym, at: nat): (Sym, Option<Name>) {
    if s.stack == [] then (s.(notes := s.notes + [Underflow(at)]), None)
    else (s.(stack := s.stack[..|s.stack| - 1]), Some(s.stack[|s.stack| - 1]))
  }

  /** `const_of`: the constant of the first fact with this name. */
  function ConstOf(values: seq<Fact>, v: Option<Name>): Option<int> {
    match v
    case None => None
    case Some(n) =>
      if values == [] then None
      else if values[0].name == n then values[0].constant
      else ConstOf(values[1..], v)
  }

  function Fold(op: BinOp, x: Option<int>, y: Option<int>): Option<int> {
    if x.None? || y.None? then None else
      match op
      case Add => Some(Wrap32(x.value + y.value))
      case Sub => Some(Wrap32(x.value - y.value))
      case Mul => Some(Wrap32(x.value * y.value))
      case _ => None
  }

  function Twice(s: Sym, at: nat): Sym { Pop(Pop(s, at).0, at).0 }

  /** One turn of the loop, at operator offset `pos`; names and notes carry the offset `at` after the operator. */
  function SymStep(s: Sym, op: Op, pos: nat, at: nat): Sym {
    match op
    case I32Const(v) => Define(s, at, Some(v))
    case I64Const(v) => Define(s, at, Some(v))
    case F32Const(b) => Define(s, at, Some(b))
    case F64Const(b) => Define(s, at, Some(b))
    case LocalGet(i) => if i in s.locals then s.(stack := s.stack + [s.locals[i]]) else s
    case LocalSet(i) =>
      var (s', v) := Pop(s, at);
      (match v case Some(n) => s'.(locals := s'.locals[i := n]) case None => s')
    case LocalTee(i) =>
      var (s', v) := Pop(s, at);
      (match v case Some(n) => s'.(locals := s'.locals[i := n], stack := s'.stack + [n]) case None => s')
    case GlobalGet(_) => Define(s, at, None)
    case GlobalSet(_) => Pop(s, at).0
    case Load(_, _) => Define(Pop(s, at).0, at, None)
    case Store(_) => Twice(s, at)
    case I32Binary(o) =>
      var (s1, b) := Pop(s, at);
      var (s2, a) := Pop(s1, at);
      Define(s2, at, Fold(o, ConstOf(s2.values, a), ConstOf(s2.values, b)))
    case I32Eqz => Define(Pop(s, at).0, at, None)
    case I32Compare(_) => Define(Twice(s, at), at, None)
    case BrIf => Pop(s, at).0
    case BrTable => Pop(s, at).0
    case Call(_) => s
    case Return => Pop(s, at).0
    case Drop => Pop(s, at).0
    case End => s
    case Opaque => s.(notes := s.notes + [OpaqueOp(pos)])
  }

  /** The parameters, one name each (lines 64-78). */
  function SymStart(params: nat): Sym {
    if params == 0 then Sym([], [], map[], []) else
      var s := SymStart(params - 1);
      var name := Name(0, params - 1);
      s.(values := s.values + [Fact(name, None)], locals := s.locals[params - 1 := name])
  }

  /** The state after `k` operators; `pos` holds the offset of each operator and the offset after the last. */
  function SymRun(ops: seq<Op>, pos: seq<nat>, params: nat, k: nat): Sym
    requires k <= |ops| && |pos| == |ops| + 1
  {
    if k == 0 then SymStart(params) else
      var s := SymRun(ops, pos, params, k - 1);
      if End in ops[..k - 1] then s else SymStep(s, ops[k - 1], pos[k - 1], pos[k])
  }

  // ------------------------------------------------------------------ use chains and side tables

  /** An entry of a side table: a site and the values it names. */
  datatype Site<V> =
    | LocalLoad(at: nat, index: nat, value: V) | LocalStore(at: nat, index: nat, value: V)
    | GlobalLoad(at: nat, index: nat, value: V) | GlobalStore(at: nat, index: nat, value: V)
    | MemoryOp(at: nat, address: V, width: nat, isStore: bool)
    | TableIndex(at: nat, value: V)
    | BranchCondition(at: nat, value: V)
    | CallSite(at: nat, fn: nat)

  /** The `ty` and `produced_by` texts of a value. */
  datatype Label = Label(ty: string, producer: string)

  /**
   What is recorded beside the constants: per value its texts and its use chain, and the side tables.  The tables are
   one list in order of recording; each of the program's eight vectors is the list of its own kind of entry.
   */
  datatype Trace = Trace(labels: seq<Label>, uses: seq<seq<nat>>, sites: seq<Site<Name>>)

  /** The position of the first fact with this name, or the number of facts. */
  function FindFact(values: seq<Fact>, n: Name): nat {
    if values == [] || values[0].name == n then 0 else 1 + FindFact(values[1..], n)
  }

  /** `f.uses.push(off)` for the fact with this name, if there is one. */
  function Used(values: seq<Fact>, uses: seq<seq<nat>>, n: Name, off: nat): seq<seq<nat>> {
    var i := FindFact(values, n);
    if i < |uses| then uses[i := uses[i] + [off]] else uses
  }

  /** The use that a pop records. */
  function PopUses(s: Sym, t: Trace, at: nat): Trace {
    match Pop(s, at).1
    case None => t
    case Some(n) => t.(uses := Used(s.values, t.uses, n, at))
  }

  function TwiceUses(s: Sym, t: Trace, at: nat): Trace { PopUses(Pop(s, at).0, PopUses(s, t, at), at) }

  function Labelled(t: Trace, text: Label): Trace { t.(labels := t.labels + [text], uses := t.uses + [[]]) }

  function Noted(t: Trace, site: Site<Name>): Trace { t.(sites := t.sites + [site]) }

  function Width(wide: bool): nat { if wide then 8 else 4 }

  function BinaryText(op: BinOp): string {
    match op
    case Add => "i32.add" case Sub => "i32.sub" case Mul => "i32.mul"
    case And => "i32.and" case Or => "i32.or" case Xor => "i32.xor"
  }

  function TestText(t: Test): string {
    match t case Eq => "i32.eq" case Ne => "i32.ne" case LtU => "i32.lt_u" case GeU => "i32.ge_u"
  }

  /** One turn of the loop, from the symbolic state before it. */
  function TraceStep(s: Sym, t: Trace, op: Op, pos: nat, at: nat): Trace {
    var top := Pop(s, at).1;
    match op
    case I32Const(_) => Labelled(t, Label("i32", "i32.const"))
    case I64Const(_) => Labelled(t, Label("i64", "i64.const"))
    case F32Const(_) => Labelled(t, Label("f32", "f32.const"))
    case F64Const(_) => Labelled(t, Label("f64", "f64.const"))
    case LocalGet(i) =>
      if i !in s.locals then t
      else Noted(t.(uses := Used(s.values, t.uses, s.locals[i], pos)), LocalLoad(pos, i, s.locals[i]))
    case LocalSet(i) => if top.None? then t else Noted(PopUses(s, t, at), LocalStore(pos, i, top.value))
    case LocalTee(i) => if top.None? then t else Noted(PopUses(s, t, at), LocalStore(pos, i, top.value))
    case GlobalGet(i) =>
      Noted(Labelled(t, Label("global", "global.get " + Decimal(i))), GlobalLoad(pos, i, Name(at, |s.values|)))
    case GlobalSet(i) => if top.None? then t else Noted(PopUses(s, t, at), GlobalStore(pos, i, top.value))
    case Load(w, off) =>
      var t' := Labelled(PopUses(s, t, at), Label(if w then "i64" else "i32", "load +" + Decimal(off)));
      if top.None? then t' else Noted(t', MemoryOp(pos, top.value, Width(w), false))
    case Store(w) =>
      var t', address := TwiceUses(s, t, at), Pop(Pop(s, at).0, at).1;
      if top.None? || address.None? then t'
      else Noted(t'.(uses := Used(s.values, t'.uses, top.value, pos)), MemoryOp(pos, address.value, Width(w), true))
    case I32Binary(o) => Labelled(TwiceUses(s, t, at), Label("i32", BinaryText(o)))
    case I32Eqz => Labelled(PopUses(s, t, at), Label("i32", "i32.eqz"))
    case I32Compare(c) => Labelled(TwiceUses(s, t, at), Label("i32", TestText(c)))
    case BrIf => if top.None? then t else Noted(PopUses(s, t, at), BranchCondition(pos, top.value))
    case BrTable => if top.None? then t else Noted(PopUses(s, t, at), TableIndex(pos, top.value))
    case Call(fn) => Noted(t, CallSite(pos, fn))
    case Return => PopUses(s, t, at)
    case Drop => PopUses(s, t, at)
    case End => t
    case Opaque => t
  }

  function TraceStart(params: nat): Trace {
    if params == 0 then Trace([], [], [])
    else Labelled(TraceStart(params - 1), Label("param", "param " + Decimal(params - 1)))
  }

  function TraceRun(ops: seq<Op>, pos: seq<nat>, params: nat, k: nat): Trace
    requires k <= |ops| && |pos| == |ops| + 1
  {
    if k == 0 then TraceStart(params) else
      var t := TraceRun(ops, pos, params, k - 1);
      if End in ops[..k - 1] then t else TraceStep(SymRun(ops, pos, params, k - 1), t, ops[k - 1], pos[k - 1], pos[k])
  }

  // ------------------------------------------------------------------ the program

  const MAX_OPERATORS := 5_000_000

  datatype Result = Ok(sym: Sym, trace: Trace, operators: nat) | Budget

  /** The operators read: up to and including the first `end`. */
  function ReadCount(ops: seq<Op>): nat {
    if ops == [] then 0 else if ops[0] == End then 1 else 1 + ReadCount(ops[1..])
  }

  function Bound(ops: seq<Op>): nat { if |ops| > MAX_OPERATORS then MAX_OPERATORS else |ops| }

  /** What `analyze_values` returns: the state at the first `end`, or at the end of the body. */
  function Analyze(ops: seq<Op>, pos: seq<nat>, params: nat): Result
    requires |pos| == |ops| + 1
  {
    if |ops| > MAX_OPERATORS && End !in ops[..MAX_OPERATORS] then Budget
    else Ok(SymRun(ops, pos, params, Bound(ops)), TraceRun(ops, pos, params, Bound(ops)), ReadCount(ops))
  }

  /**
   The pass's variables: the facts so far with their texts and uses, the operand stack, the locals, the next version,
   the tables.
   */
  class Interpreter {
    var values: seq<Fact>
    var labels: seq<Label>
    var uses: seq<seq<nat>>
    var stack: seq<Name>
    var locals: map<nat, Name>
    var version: nat
    var notes: seq<Note>
    var sites: seq<Site<Name>>

    ghost predicate Is(s: Sym, t: Trace)
      reads this
    {
      && values == s.values && stack == s.stack && locals == s.locals && notes == s.notes && version == |values|
      && labels == t.labels && uses == t.uses && sites == t.sites
    }

    ghost function State(): Sym
      reads this
    {
      Sym(values, stack, locals, notes)
    }

    ghost function Record(): Trace
      reads this
    {
      Trace(labels, uses, sites)
    }

    /** Seeds one name per parameter (lines 64-78). */
    constructor (params: nat)
      ensures Is(SymStart(params), TraceStart(params))
    {
      values, labels, uses, stack, locals, version, notes, sites := [], [], [], [], map[], 0, [], [];
      new;
      for i := 0 to params
        invariant Is(SymStart(i), TraceStart(i)) && version == i
      {
        var name := Name(0, version);
        version := version + 1;
        values := values + [Fact(name, None)];
        labels := labels + [Label("param", "param " + Decimal(i))];
        uses := uses + [[]];
        locals := locals[i := name];
      }
    }

    /** `def_val!`. */
    method DefVal(at: nat, constant: Option<int>, text: Label)
      requires version == |values|
      modifies this
      ensures Is(Define(old(State()), at, constant), Labelled(old(Record()), text))
    {
      var name := Name(at, version);
      version := version + 1;
      values := values + [Fact(name, constant)];
      labels := labels + [text];
      uses := uses + [[]];
      stack := stack + [name];
    }

    /** `find(|f| f.name == v)` and `f.uses.push(off)`. */
    method AddUse(n: Name, off: nat)
      requires version == |values|
      modifies this`uses
      ensures Is(old(State()), old(Record()).(uses := Used(values, old(uses), n, off)))
    {
      var i := 0;
      while i < |values| && values[i].name != n
        invariant i <= |values| && FindFact(values, n) == i + FindFact(values[i..], n)
      {
        assert values[i..][1..] == values[i + 1..];
        i := i + 1;
      }
      if i < |uses| {
        uses := uses[i := uses[i] + [off]];
      }
    }

    /** `pop_use!`. */
    method PopUse(at: nat) returns (v: Option<Name>)
      requires version == |values|
      modifies this`stack, this`notes, this`uses
      ensures Is(Pop(old(State()), at).0, PopUses(old(State()), old(Record()), at)) && v == Pop(old(State()), at).1
    {
      hide Used;
      if stack == [] {
        notes := notes + [Underflow(at)];
        v := None;
      } else {
        v := Some(stack[|stack| - 1]);
        stack := stack[..|stack| - 1];
        AddUse(v.value, at);
      }
    }

    method Binary(op: BinOp, pos: nat, at: nat)
      requires version == |values|
      modifies this
      ensures Is(SymStep(old(State()), I32Binary(op), pos, at),
                 TraceStep(old(State()), old(Record()), I32Binary(op), pos, at))
    {
      hide Pop; hide Define; hide PopUses; hide Labelled; hide ConstOf;
      var b := PopUse(at);
      var a := PopUse(at);
      var x, y := ConstOf(values, a), ConstOf(values, b);
      var folded := None;
      if x.Some? && y.Some? {
        match op {
          case Add => folded := Some(Wrap32(x.value + y.value));
          case Sub => folded := Some(Wrap32(x.value - y.value));
          case Mul => folded := Some(Wrap32(x.value * y.value));
          case _ =>
        }
      }
      DefVal(at, folded, Label("i32", BinaryText(op)));
    }

    method LocalOp(op: Op, pos: nat, at: nat)
      requires version == |values| && (op.LocalGet? || op.LocalSet? || op.LocalTee?)
      modifies this
      ensures Is(SymStep(old(State()), op, pos, at), TraceStep(old(State()), old(Record()), op, pos, at))
    {
      hide Used;
      if op.LocalGet? {
        if op.index in locals {
          var v := locals[op.index];
          AddUse(v, pos);
          sites := sites + [LocalLoad(pos, op.index, v)];
          stack := stack + [v];
        }
        return;
      }
      var v := PopUse(at);
      if v.Some? {
        sites := sites + [LocalStore(pos, op.index, v.value)];
        locals := locals[op.index := v.value];
        if op.LocalTee? {
          stack := stack + [v.value];
        }
      }
    }

    /** Loads and stores. */
    method MemoryAccess(op: Op, pos: nat, at: nat)
      requires version == |values| && (op.Load? || op.Store?)
      modifies this
      ensures Is(SymStep(old(State()), op, pos, at), TraceStep(old(State()), old(Record()), op, pos, at))
    {
      hide Used;
      if op.Load? {
        var address := PopUse(at);
        DefVal(at, None, Label(if op.wide then "i64" else "i32", "load +" + Decimal(op.offset)));
        if address.Some? {
          sites := sites + [MemoryOp(pos, address.value, Width(op.wide), false)];
        }
      } else {
        var value := PopUse(at);
        var address := PopUse(at);
        if value.Some? && address.Some? {
          AddUse(value.value, pos);
          sites := sites + [MemoryOp(pos, address.value, Width(op.wide), true)];
        }
      }
    }

    /** The operators that only pop. */
    method Consume(op: Op, pos: nat, at: nat)
      requires version == |values| && (op.GlobalSet? || op.BrIf? || op.BrTable? || op.Return? || op.Drop?)
      modifies this
      ensures Is(SymStep(old(State()), op, pos, at), TraceStep(old(State()), old(Record()), op, pos, at))
    {
      hide Used;
      var v := PopUse(at);
      if v.Some? {
        if op.GlobalSet? {
          sites := sites + [GlobalStore(pos, op.index, v.value)];
        } else if op.BrIf? {
          sites := sites + [BranchCondition(pos, v.value)];
        } else if op.BrTable? {
          sites := sites + [TableIndex(pos, v.value)];
        }
      }
    }

    /** Tests, which pop one or two operands and define a value. */
    method Compare(op: Op, pos: nat, at: nat)
      requires version == |values| && (op.I32Eqz? || op.I32Compare?)
      modifies this
      ensures Is(SymStep(old(State()), op, pos, at), TraceStep(old(State()), old(Record()), op, pos, at))
    {
      hide Pop; hide Define; hide PopUses; hide Labelled;
      var _ := PopUse(at);
      if op.I32Compare? {
        var _ := PopUse(at);
      }
      DefVal(at, None, Label("i32", if op.I32Eqz? then "i32.eqz" else TestText(op.test)));
    }

    /** One turn of the loop. */
    method Turn(op: Op, pos: nat, at: nat)
      requires version == |values|
      modifies this
      ensures Is(SymStep(old(State()), op, pos, at), TraceStep(old(State()), old(Record()), op, pos, at))
    {
      hide ConstOf; hide Fold; hide Pop; hide Define; hide PopUses; hide Labelled; hide Used;
      match op
      case I32Const(v) => DefVal(at, Some(v), Label("i32", "i32.const"));
      case I64Const(v) => DefVal(at, Some(v), Label("i64", "i64.const"));
      case F32Const(b) => DefVal(at, Some(b), Label("f32", "f32.const"));
      case F64Const(b) => DefVal(at, Some(b), Label("f64", "f64.const"));
      case LocalGet(_) => LocalOp(op, pos, at);
      case LocalSet(_) => LocalOp(op, pos, at);
      case LocalTee(_) => LocalOp(op, pos, at);
      case GlobalGet(i) => GlobalRead(i, pos, at);
      case Load(_, _) => MemoryAccess(op, pos, at);
      case Store(_) => MemoryAccess(op, pos, at);
      case I32Binary(o) => Binary(o, pos, at);
      case I32Eqz => Compare(op, pos, at);
      case I32Compare(_) => Compare(op, pos, at);
      case Opaque => notes := notes + [OpaqueOp(pos)];
      case Call(fn) => sites := sites + [CallSite(pos, fn)];
      case End =>
      case _ => Consume(op, pos, at);
    }

    method GlobalRead(i: nat, pos: nat, at: nat)
      requires version == |values|
      modifies this
      ensures Is(SymStep(old(State()), GlobalGet(i), pos, at),
                 TraceStep(old(State()), old(Record()), GlobalGet(i), pos, at))
    {
      DefVal(at, None, Label("global", "global.get " + Decimal(i)));
      sites := sites + [GlobalLoad(pos, i, stack[|stack| - 1])];
    }
  }

  /** `analyze_values`. */
  method AnalyzeValues(ops: seq<Op>, pos: seq<nat>, params: nat) returns (r: Result)
    requires |pos| == |ops| + 1
    ensures r == Analyze(ops, pos, params)
  {
    hide SymStep; hide SymStart; hide TraceStep; hide TraceStart;
    var it := new Interpreter(params);
    var k, count := 0, 0;
    assert ops[0..] == ops;
    while k < |ops|
      invariant k == count <= |ops| && k <= MAX_OPERATORS
      invariant ReadCount(ops) == count + ReadCount(ops[k..])
      invariant it.Is(SymRun(ops, pos, params, k), TraceRun(ops, pos, params, k)) && End !in ops[..k]
    {
      assert ops[k..][1..] == ops[k + 1..];
      count := count + 1;
      if count > MAX_OPERATORS {
        return Budget;
      }
      if ops[k] == End {
        StopAtEnd(ops, pos, params, k, Bound(ops));
        assert ops[k] in ops[..k + 1];
        break;
      }
      it.Turn(ops[k], pos[k], pos[k + 1]);
      assert ops[..k + 1] == ops[..k] + [ops[k]];
      k := k + 1;
    }
    return Ok(Sym(it.values, it.stack, it.locals, it.notes), Trace(it.labels, it.uses, it.sites), count);
  }

  lemma {:induction false} StartCount(params: nat)
    ensures |SymStart(params).values| == params
  {
    if params > 0 { StartCount(params - 1); }
  }

  lemma EndStep(s: Sym, t: Trace, pos: nat, at: nat)
    ensures SymStep(s, End, pos, at) == s && TraceStep(s, t, End, pos, at) == t
  {
  }

  /** Nothing happens from the first `end` on. */
  lemma {:induction false} StopAtEnd(ops: seq<Op>, pos: seq<nat>, params: nat, k: nat, j: nat)
    requires |pos| == |ops| + 1 && k < j <= |ops| && ops[k] == End && End !in ops[..k]
    ensures SymRun(ops, pos, params, j) == SymRun(ops, pos, params, k)
    ensures TraceRun(ops, pos, params, j) == TraceRun(ops, pos, params, k)
    decreases j
  {
    hide SymStep; hide TraceStep;
    EndStep(SymRun(ops, pos, params, k), TraceRun(ops, pos, params, k), pos[k], pos[k + 1]);
    if k + 1 < j {
      assert ops[..j - 1][k] == End;
      StopAtEnd(ops, pos, params, k, j - 1);
    }
  }
}
