/**
 Structured control-flow recovery for WebAssembly bodies (`analyze_body`).

 A body is a sequence of operators with their offsets.  `RunOps` is the meaning
 of the scan, `AnalyzeBody` the loop the program runs, and `Regions`, `Found`
 and the other functions over `Body` say what there is to recover from a nested
 program (control instructions, section 2.4.5 of the WebAssembly Core
 Specification 1.0).
 */
module WasmCfg {
  import opened Basics

  datatype Kind = KBlock | KLoop | KIf(hasElse: bool) | KTry

  datatype Op =
    | Block | Loop | If | Else | Try | End
    | Br(depth: nat) | BrIf(depth: nat) | BrTable(targets: seq<nat>, default: nat)
    | Call(fn: nat) | CallIndirect(ty: nat, table: nat) | ReturnCall(fn: nat) | ReturnCallIndirect
    | Other

  datatype Region = Region(id: nat, kind: Kind, start: nat, end: nat, parent: Option<nat>, sources: seq<nat>)

  datatype Note =
    | TryConstruct(pos: nat) | OutOfRange(pos: nat, depth: nat) | TailCall(pos: nat) | TailCallIndirect(pos: nat)
    | Unclosed(count: nat)

  /** Calls, indirect calls, branch tables and diagnostics, each in order. */
  datatype Extras = Extras(
    calls: seq<(nat, nat)>,
    indirectCalls: seq<(nat, nat, nat)>,
    brTables: seq<(nat, seq<nat>)>,
    notes: seq<Note>)

  datatype Cfg = Cfg(regions: seq<Region>, extras: Extras)

  datatype Error = TooManyOperators | TooManyRegions

  datatype Result = Ok(cfg: Cfg) | Err(error: Error)

  const MAX_OPERATORS := 5_000_000
  const MAX_REGION_ID := 1_000_000

  // ------------------------------------------------------------ the scan, as a function

  /**
   The state of the scan.  `regions` carries no branch sources; the branches are
   in `log`, in order, as (offset, target region).  `fault` and `done` stop the scan.
   */
  datatype Scan = Scan(
    stack: seq<nat>,
    regions: seq<Region>,
    log: seq<(nat, nat)>,
    rest: Extras,
    done: bool,
    fault: bool)

  const START := Scan([0], [], [], Extras([], [], [], []), false, false)

  /** `resolve_label`. */
  function ResolveLabel(stack: seq<nat>, depth: nat): Option<nat> {
    if depth < |stack| then Some(stack[|stack| - 1 - depth]) else None
  }

  function NextId(s: Scan): nat { |s.regions| + 1 }

  function TopOf(stack: seq<nat>): Option<nat> {
    if stack == [] then None else Some(stack[|stack| - 1])
  }

  function Open(s: Scan, pos: nat, kind: Kind): Scan {
    if kind == KBlock && NextId(s) + 1 > MAX_REGION_ID then s.(fault := true)
    else
      var r := Region(NextId(s), kind, pos, 0, TopOf(s.stack), []);
      s.(regions := s.regions + [r], stack := s.stack + [NextId(s)])
  }

  /** Change the region with this id, if there is one. */
  function Amend(regions: seq<Region>, id: nat, f: Region -> Region): seq<Region> {
    if 1 <= id <= |regions| then regions[id - 1 := f(regions[id - 1])] else regions
  }

  function MarkElse(r: Region): Region {
    if r.kind.KIf? then r.(kind := KIf(true)) else r
  }

  function CloseAt(pos: nat): Region -> Region { (r: Region) => r.(end := pos) }

  /** The in-range targets of a `br_table`, in order (lines 165-173). */
  function Resolved(stack: seq<nat>, depths: seq<nat>): seq<nat> {
    if depths == [] then [] else
      Resolved(stack, depths[..|depths| - 1]) +
      match ResolveLabel(stack, depths[|depths| - 1]) case Some(t) => [t] case None => []
  }

  function Hits(pos: nat, targets: seq<nat>): seq<(nat, nat)> {
    seq(|targets|, i requires 0 <= i < |targets| => (pos, targets[i]))
  }

  function Branch(s: Scan, pos: nat, depth: nat): Scan {
    match ResolveLabel(s.stack, depth)
    case Some(t) => s.(log := s.log + [(pos, t)])
    case None => s.(rest := s.rest.(notes := s.rest.notes + [OutOfRange(pos, depth)]))
  }

  /** The effect of an operator that neither opens nor closes a region. */
  function Leaf(s: Scan, pos: nat, op: Op): Scan {
    match op
    case Br(d) => Branch(s, pos, d)
    case BrIf(d) => Branch(s, pos, d)
    case BrTable(ts, d) =>
      var targets := Resolved(s.stack, ts + [d]);
      s.(log := s.log + Hits(pos, targets), rest := s.rest.(brTables := s.rest.brTables + [(pos, targets)]))
    case Call(f) => s.(rest := s.rest.(calls := s.rest.calls + [(pos, f)]))
    case CallIndirect(y, t) => s.(rest := s.rest.(indirectCalls := s.rest.indirectCalls + [(pos, y, t)]))
    case ReturnCall(f) =>
      s.(rest := s.rest.(calls := s.rest.calls + [(pos, f)], notes := s.rest.notes + [TailCall(pos)]))
    case ReturnCallIndirect => s.(rest := s.rest.(notes := s.rest.notes + [TailCallIndirect(pos)]))
    case _ => s
  }

  function Close(s: Scan, pos: nat): Scan {
    if s.stack == [] then s else
      var id, stack := s.stack[|s.stack| - 1], s.stack[..|s.stack| - 1];
      s.(stack := stack, regions := Amend(s.regions, id, CloseAt(pos)), done := stack == [])
  }

  function Step(s: Scan, pos: nat, op: Op): Scan {
    match op
    case Block => Open(s, pos, KBlock)
    case Loop => Open(s, pos, KLoop)
    case If => Open(s, pos, KIf(false))
    case Try => var s' := Open(s, pos, KTry); s'.(rest := s'.rest.(notes := s'.rest.notes + [TryConstruct(pos)]))
    case Else => if s.stack == [] then s else s.(regions := Amend(s.regions, s.stack[|s.stack| - 1], MarkElse))
    case End => Close(s, pos)
    case _ => Leaf(s, pos, op)
  }

  /** Scan the operators from `i` up to `j`. */
  function RunOps(s: Scan, pos: seq<nat>, ops: seq<Op>, i: nat, j: nat): Scan
    requires j <= |ops| == |pos|
    decreases j - i
  {
    if i >= j || s.done || s.fault then s else RunOps(Step(s, pos[i], ops[i]), pos, ops, i + 1, j)
  }

  lemma {:induction false} RunSplit(s: Scan, pos: seq<nat>, ops: seq<Op>, i: nat, k: nat, j: nat)
    requires i <= k <= j <= |ops| == |pos|
    ensures RunOps(s, pos, ops, i, j) == RunOps(RunOps(s, pos, ops, i, k), pos, ops, k, j)
    decreases k - i
  {
    hide Step;
    if i < k && !s.done && !s.fault {
      RunSplit(Step(s, pos[i], ops[i]), pos, ops, i + 1, k, j);
    }
  }

  // ---------------------------------------------------------------- nested programs

  datatype Body = Nil | Cons(head: Node, tail: Body)

  /** A control construct or a plain operator. */
  datatype Node = Plain(op: Op) | Nest(kind: NestKind, body: Body) | IfElse(yes: Body, no: Body)

  datatype NestKind = NBlock | NLoop | NIf | NTry

  /** Plain nodes hold no structure. */
  predicate WellNested(b: Body) {
    match b
    case Nil => true
    case Cons(n, rest) => WellNestedNode(n) && WellNested(rest)
  }

  predicate WellNestedNode(n: Node) {
    match n
    case Plain(op) => !(op.Block? || op.Loop? || op.If? || op.Else? || op.Try? || op.End?)
    case Nest(_, b) => WellNested(b)
    case IfElse(y, m) => WellNested(y) && WellNested(m)
  }

  function OpenOp(k: NestKind): Op {
    match k case NBlock => Block case NLoop => Loop case NIf => If case NTry => Try
  }

  function KindOf(k: NestKind): Kind {
    match k case NBlock => KBlock case NLoop => KLoop case NIf => KIf(false) case NTry => KTry
  }

  function Flatten(b: Body): seq<Op> {
    match b
    case Nil => []
    case Cons(n, rest) => FlattenNode(n) + Flatten(rest)
  }

  function FlattenNode(n: Node): seq<Op> {
    match n
    case Plain(op) => [op]
    case Nest(k, b) => [OpenOp(k)] + Flatten(b) + [End]
    case IfElse(y, m) => [If] + Flatten(y) + [Else] + Flatten(m) + [End]
  }

  /** The number of constructs. */
  function Count(b: Body): nat {
    match b case Nil => 0 case Cons(n, rest) => CountNode(n) + Count(rest)
  }

  function CountNode(n: Node): nat {
    match n
    case Plain(_) => 0
    case Nest(_, b) => 1 + Count(b)
    case IfElse(y, m) => 1 + Count(y) + Count(m)
  }

  /** No `block` gets an id that the scan refuses; `id` is the next free one. */
  predicate BlockIdsFit(b: Body, id: nat) {
    match b
    case Nil => true
    case Cons(n, rest) => NodeIdsFit(n, id) && BlockIdsFit(rest, id + CountNode(n))
  }

  predicate NodeIdsFit(n: Node, id: nat) {
    match n
    case Plain(_) => true
    case Nest(k, b) => (k == NBlock ==> id + 1 <= MAX_REGION_ID) && BlockIdsFit(b, id + 1)
    case IfElse(y, m) => BlockIdsFit(y, id + 1) && BlockIdsFit(m, id + 1 + Count(y))
  }

  // ------------------------------------------------------------------ what there is to recover

  /** The labels in scope, innermost first. */
  datatype Env = Outermost(id: nat) | Inner(id: nat, outer: Env)

  /** The lexically enclosing label at the given depth. */
  function Lookup(env: Env, depth: nat): Option<nat> {
    if depth == 0 then Some(env.id) else
      match env case Outermost(_) => None case Inner(_, outer) => Lookup(outer, depth - 1)
  }

  function LookupAll(env: Env, depths: seq<nat>): seq<nat> {
    if depths == [] then [] else
      LookupAll(env, depths[..|depths| - 1]) +
      match Lookup(env, depths[|depths| - 1]) case Some(t) => [t] case None => []
  }

  /** The constructs of `b`, in preorder; `at` is the index of its first operator and `id` its first region id. */
  function Regions(b: Body, pos: seq<nat>, at: nat, id: nat, parent: nat): (r: seq<Region>)
    requires at + |Flatten(b)| <= |pos|
    ensures |r| == Count(b)
  {
    match b
    case Nil => []
    case Cons(n, rest) =>
      NodeRegions(n, pos, at, id, parent) + Regions(rest, pos, at + |FlattenNode(n)|, id + CountNode(n), parent)
  }

  function NodeRegions(n: Node, pos: seq<nat>, at: nat, id: nat, parent: nat): (r: seq<Region>)
    requires at + |FlattenNode(n)| <= |pos|
    ensures |r| == CountNode(n)
  {
    match n
    case Plain(_) => []
    case Nest(k, b) =>
      [Region(id, KindOf(k), pos[at], pos[at + 1 + |Flatten(b)|], Some(parent), [])] +
        Regions(b, pos, at + 1, id + 1, id)
    case IfElse(y, m) =>
      [Region(id, KIf(true), pos[at], pos[at + 2 + |Flatten(y)| + |Flatten(m)|], Some(parent), [])] +
      Regions(y, pos, at + 1, id + 1, id) +
      Regions(m, pos, at + 2 + |Flatten(y)|, id + 1 + Count(y), id)
  }

  /** What else the scan finds: branches in order, and the lists of the result. */
  datatype Findings = Findings(log: seq<(nat, nat)>, rest: Extras)

  const NOTHING := Findings([], Extras([], [], [], []))

  function Join(a: Extras, b: Extras): Extras {
    Extras(a.calls + b.calls, a.indirectCalls + b.indirectCalls, a.brTables + b.brTables, a.notes + b.notes)
  }

  function Both(a: Findings, b: Findings): Findings { Findings(a.log + b.log, Join(a.rest, b.rest)) }

  function FoundAt(env: Env, pos: nat, op: Op): Findings {
    match op
    case Br(d) => FoundBranch(env, pos, d)
    case BrIf(d) => FoundBranch(env, pos, d)
    case BrTable(ts, d) =>
      var targets := LookupAll(env, ts + [d]);
      Findings(Hits(pos, targets), NOTHING.rest.(brTables := [(pos, targets)]))
    case Call(f) => Findings([], NOTHING.rest.(calls := [(pos, f)]))
    case CallIndirect(y, t) => Findings([], NOTHING.rest.(indirectCalls := [(pos, y, t)]))
    case ReturnCall(f) => Findings([], NOTHING.rest.(calls := [(pos, f)], notes := [TailCall(pos)]))
    case ReturnCallIndirect => Findings([], NOTHING.rest.(notes := [TailCallIndirect(pos)]))
    case _ => NOTHING
  }

  function FoundBranch(env: Env, pos: nat, depth: nat): Findings {
    match Lookup(env, depth)
    case Some(t) => Findings([(pos, t)], NOTHING.rest)
    case None => Findings([], NOTHING.rest.(notes := [OutOfRange(pos, depth)]))
  }

  function Found(b: Body, pos: seq<nat>, at: nat, id: nat, env: Env): Findings
    requires at + |Flatten(b)| <= |pos|
  {
    match b
    case Nil => NOTHING
    case Cons(n, rest) =>
      Both(FoundNode(n, pos, at, id, env), Found(rest, pos, at + |FlattenNode(n)|, id + CountNode(n), env))
  }

  function FoundNode(n: Node, pos: seq<nat>, at: nat, id: nat, env: Env): Findings
    requires at + |FlattenNode(n)| <= |pos|
  {
    match n
    case Plain(op) => FoundAt(env, pos[at], op)
    case Nest(k, b) =>
      Both(if k == NTry then Findings([], NOTHING.rest.(notes := [TryConstruct(pos[at])])) else NOTHING,
           Found(b, pos, at + 1, id + 1, Inner(id, env)))
    case IfElse(y, m) =>
      Both(Found(y, pos, at + 1, id + 1, Inner(id, env)),
           Found(m, pos, at + 2 + |Flatten(y)|, id + 1 + Count(y), Inner(id, env)))
  }

  // ----------------------------------------------------------- the scan undoes flattening

  /** The label stack that goes with an environment. */
  function StackOf(env: Env): seq<nat> {
    match env case Outermost(id) => [id] case Inner(id, outer) => StackOf(outer) + [id]
  }

  /** `resolve_label` finds the lexically enclosing label. */
  lemma {:induction false} ResolveIsLookup(env: Env, depth: nat)
    ensures ResolveLabel(StackOf(env), depth) == Lookup(env, depth)
  {
    if depth > 0 && env.Inner? {
      ResolveIsLookup(env.outer, depth - 1);
    }
  }

  lemma {:induction false} ResolvedIsLookupAll(env: Env, depths: seq<nat>)
    ensures Resolved(StackOf(env), depths) == LookupAll(env, depths)
  {
    if depths != [] {
      ResolvedIsLookupAll(env, depths[..|depths| - 1]);
      ResolveIsLookup(env, depths[|depths| - 1]);
    }
  }

  /** The state after recovering `regions` and `found` from state `s`. */
  function After(s: Scan, regions: seq<Region>, found: Findings): Scan {
    s.(regions := s.regions + regions, log := s.log + found.log, rest := Join(s.rest, found.rest))
  }

  lemma LeafIsFound(s: Scan, pos: nat, op: Op, env: Env)
    requires s.stack == StackOf(env)
    ensures Leaf(s, pos, op) == After(s, [], FoundAt(env, pos, op))
  {
    hide ResolveLabel; hide Lookup; hide Resolved; hide LookupAll; hide StackOf;
    match op {
      case Br(d) => BranchIsFound(s, pos, d, env);
      case BrIf(d) => BranchIsFound(s, pos, d, env);
      case BrTable(ts, d) => ResolvedIsLookupAll(env, ts + [d]);
      case _ =>
    }
  }

  lemma BranchIsFound(s: Scan, pos: nat, d: nat, env: Env)
    requires s.stack == StackOf(env)
    ensures Branch(s, pos, d) == After(s, [], FoundBranch(env, pos, d))
  {
    hide ResolveLabel; hide Lookup; hide StackOf;
    ResolveIsLookup(env, d);
  }

  lemma AfterAfter(s: Scan, r1: seq<Region>, f1: Findings, r2: seq<Region>, f2: Findings)
    ensures After(After(s, r1, f1), r2, f2) == After(s, r1 + r2, Both(f1, f2))
  {
  }

  /** `code` stands at index `at` of the body. */
  ghost predicate CodeAt(ops: seq<Op>, at: nat, code: seq<Op>) {
    at + |code| <= |ops| && ops[at..at + |code|] == code
  }

  lemma CodeSplit(ops: seq<Op>, at: nat, a: seq<Op>, b: seq<Op>)
    requires CodeAt(ops, at, a + b)
    ensures CodeAt(ops, at, a) && CodeAt(ops, at + |a|, b)
  {
    assert ops[at..at + |a|] == (a + b)[..|a|];
    assert ops[at + |a|..at + |a| + |b|] == (a + b)[|a|..];
  }

  lemma CodeHead(ops: seq<Op>, at: nat, op: Op)
    requires CodeAt(ops, at, [op])
    ensures at < |ops| && ops[at] == op
  {
  }

  ghost predicate Running(s: Scan, env: Env) {
    !s.done && !s.fault && s.stack == StackOf(env)
  }

  /** Opening a construct: the region is listed, unclosed, under its parent. */
  lemma OpenStep(s: Scan, pos: nat, k: NestKind, env: Env)
    requires Running(s, env) && (k == NBlock ==> NextId(s) + 1 <= MAX_REGION_ID)
    ensures var s' := Step(s, pos, OpenOp(k));
            var open := Region(NextId(s), KindOf(k), pos, 0, Some(env.id), []);
            var found := if k == NTry then Findings([], NOTHING.rest.(notes := [TryConstruct(pos)])) else NOTHING;
            && s' == After(s, [open], found).(stack := s.stack + [NextId(s)])
            && Running(s', Inner(NextId(s), env)) && NextId(s') == NextId(s) + 1
  {
  }

  lemma OneOp(s: Scan, pos: seq<nat>, ops: seq<Op>, at: nat)
    requires at < |ops| == |pos| && !s.done && !s.fault
    ensures RunOps(s, pos, ops, at, at + 1) == Step(s, pos[at], ops[at])
  {
  }

  lemma {:induction false} RunBody(s: Scan, b: Body, pos: seq<nat>, ops: seq<Op>, at: nat, env: Env)
    requires Running(s, env) && WellNested(b) && BlockIdsFit(b, NextId(s))
    requires |ops| == |pos| && CodeAt(ops, at, Flatten(b))
    ensures RunOps(s, pos, ops, at, at + |Flatten(b)|) ==
            After(s, Regions(b, pos, at, NextId(s), env.id), Found(b, pos, at, NextId(s), env))
    decreases b
  {
    hide Step;
    hide RunOps;
    hide After;
    hide FoundNode;
    hide NodeRegions;
    hide FlattenNode;
    hide WellNestedNode;
    hide NodeIdsFit;
    hide CountNode;
    hide CodeAt;
    hide Running;
    hide NextId;
    match b {
      case Nil =>
        CodeFits(ops, at, []);
        RunNothing(s, pos, ops, at);
      case Cons(n, rest) =>
        var k := |FlattenNode(n)|;
        CodeSplit(ops, at, FlattenNode(n), Flatten(rest));
        CodeFits(ops, at, Flatten(b));
        RunSplit(s, pos, ops, at, at + k, at + |Flatten(b)|);
        RunNode(s, n, pos, ops, at, env);
        var r1, f1 := NodeRegions(n, pos, at, NextId(s), env.id), FoundNode(n, pos, at, NextId(s), env);
        var s' := After(s, r1, f1);
        AfterRuns(s, r1, f1, env);
        RunBody(s', rest, pos, ops, at + k, env);
        AfterAfter(s, r1, f1, Regions(rest, pos, at + k, NextId(s'), env.id),
                   Found(rest, pos, at + k, NextId(s'), env));
    }
  }

  lemma CodeFits(ops: seq<Op>, at: nat, code: seq<Op>)
    requires CodeAt(ops, at, code)
    ensures at + |code| <= |ops|
  {
  }

  lemma RunNothing(s: Scan, pos: seq<nat>, ops: seq<Op>, at: nat)
    requires at <= |ops| == |pos|
    ensures RunOps(s, pos, ops, at, at) == After(s, [], NOTHING)
  {
  }

  lemma AfterRuns(s: Scan, regions: seq<Region>, found: Findings, env: Env)
    requires Running(s, env)
    ensures Running(After(s, regions, found), env) && NextId(After(s, regions, found)) == NextId(s) + |regions|
  {
  }

  lemma {:induction false} RunNode(s: Scan, n: Node, pos: seq<nat>, ops: seq<Op>, at: nat, env: Env)
    requires Running(s, env) && WellNestedNode(n) && NodeIdsFit(n, NextId(s))
    requires |ops| == |pos| && CodeAt(ops, at, FlattenNode(n))
    ensures RunOps(s, pos, ops, at, at + |FlattenNode(n)|) ==
            After(s, NodeRegions(n, pos, at, NextId(s), env.id), FoundNode(n, pos, at, NextId(s), env))
    decreases n, 2
  {
    hide Step;
    hide RunOps;
    hide After;
    hide Found;
    hide FoundAt;
    hide Regions;
    hide Running;
    match n {
      case Plain(op) =>
        RunPlain(s, op, pos, ops, at, env);
      case Nest(k, b) =>
        RunNest(s, k, b, pos, ops, at, env);
      case IfElse(y, m) =>
        RunIfElse(s, y, m, pos, ops, at, env);
    }
  }

  lemma RunPlain(s: Scan, op: Op, pos: seq<nat>, ops: seq<Op>, at: nat, env: Env)
    requires Running(s, env) && WellNestedNode(Plain(op))
    requires |ops| == |pos| && CodeAt(ops, at, [op])
    ensures RunOps(s, pos, ops, at, at + 1) == After(s, [], FoundAt(env, pos[at], op))
  {
    hide Leaf;
    hide After;
    hide FoundAt;
    hide RunOps;
    CodeHead(ops, at, op);
    OneOp(s, pos, ops, at);
    LeafIsFound(s, pos[at], op, env);
  }

  /** Closing a construct after its inside: the net effect on the state before it was opened. */
  lemma NestResult(s: Scan, s1: Scan, s2: Scan, pos: nat, open: Region, first: Findings, inner: seq<Region>,
                   found: Findings, env: Env)
    requires Running(s, env) && Running(s1, Inner(NextId(s), env))
    requires s1 == After(s, [open], first).(stack := s.stack + [NextId(s)])
    requires s2 == After(s1, inner, found)
    ensures Step(s2, pos, End) == After(s, [open.(end := pos)] + inner, Both(first, found))
  {
  }

  lemma {:induction false} RunNest(s: Scan, k: NestKind, b: Body, pos: seq<nat>, ops: seq<Op>, at: nat, env: Env)
    requires Running(s, env) && WellNested(b) && NodeIdsFit(Nest(k, b), NextId(s))
    requires |ops| == |pos| && CodeAt(ops, at, FlattenNode(Nest(k, b)))
    ensures RunOps(s, pos, ops, at, at + |FlattenNode(Nest(k, b))|) ==
            After(s, NodeRegions(Nest(k, b), pos, at, NextId(s), env.id),
                  FoundNode(Nest(k, b), pos, at, NextId(s), env))
    decreases Nest(k, b), 0
  {
    hide Step;
    hide RunOps;
    hide Found;
    hide Regions;
    hide After;
    hide CodeAt;
    hide Flatten;
    hide WellNested;
    var id, n := NextId(s), |Flatten(b)|;
    CodeFits(ops, at, FlattenNode(Nest(k, b)));
    CodeSplit(ops, at, [OpenOp(k)] + Flatten(b), [End]);
    CodeSplit(ops, at, [OpenOp(k)], Flatten(b));
    CodeHead(ops, at, OpenOp(k));
    CodeHead(ops, at + 1 + n, End);
    RunSplit(s, pos, ops, at, at + 1, at + n + 2);
    OneOp(s, pos, ops, at);
    OpenStep(s, pos[at], k, env);
    var s1 := Step(s, pos[at], OpenOp(k));
    var open := Region(id, KindOf(k), pos[at], 0, Some(env.id), []);
    var first := if k == NTry then Findings([], NOTHING.rest.(notes := [TryConstruct(pos[at])])) else NOTHING;
    RunSplit(s1, pos, ops, at + 1, at + 1 + n, at + n + 2);
    RunBody(s1, b, pos, ops, at + 1, Inner(id, env));
    var inner, found := Regions(b, pos, at + 1, id + 1, id), Found(b, pos, at + 1, id + 1, Inner(id, env));
    var s2 := RunOps(s1, pos, ops, at + 1, at + 1 + n);
    AfterRuns(s1, inner, found, Inner(id, env));
    OneOp(s2, pos, ops, at + 1 + n);
    NestResult(s, s1, s2, pos[at + 1 + n], open, first, inner, found, env);
  }

  /** The two halves of an `if`/`else`: the mark goes to the region, the findings add up. */
  lemma ElseResult(s: Scan, s1: Scan, s2: Scan, pos: nat, open: Region, ry: seq<Region>, fy: Findings, env: Env)
    requires Running(s, env) && Running(s1, Inner(NextId(s), env)) && open.kind == KIf(false)
    requires s1 == After(s, [open], NOTHING).(stack := s.stack + [NextId(s)])
    requires s2 == After(s1, ry, fy)
    ensures Step(s2, pos, Else) ==
            After(After(s, [open.(kind := KIf(true))], NOTHING).(stack := s.stack + [NextId(s)]), ry, fy)
    ensures Running(Step(s2, pos, Else), Inner(NextId(s), env))
    ensures NextId(Step(s2, pos, Else)) == NextId(s) + 1 + |ry|
  {
  }

  /** The state after the first arm of an `if`/`else` and its `else`. */
  function AfterElse(s: Scan, y: Body, pos: seq<nat>, at: nat, env: Env): Scan
    requires at + 1 + |Flatten(y)| <= |pos|
  {
    var id := NextId(s);
    var open := Region(id, KIf(true), pos[at], 0, Some(env.id), []);
    After(After(s, [open], NOTHING).(stack := s.stack + [id]), Regions(y, pos, at + 1, id + 1, id),
          Found(y, pos, at + 1, id + 1, Inner(id, env)))
  }

  lemma {:induction false} RunFirstArm(s: Scan, y: Body, m: Body, pos: seq<nat>, ops: seq<Op>, at: nat, env: Env)
    requires Running(s, env) && WellNested(y) && BlockIdsFit(y, NextId(s) + 1)
    requires |ops| == |pos| && CodeAt(ops, at, FlattenNode(IfElse(y, m)))
    ensures var a, c, id := |Flatten(y)|, |Flatten(m)|, NextId(s);
      && at + a + c + 3 <= |ops|
      && var s3 := AfterElse(s, y, pos, at, env);
      && Running(s3, Inner(id, env)) && NextId(s3) == id + 1 + Count(y)
      && RunOps(s, pos, ops, at, at + a + c + 3) == RunOps(s3, pos, ops, at + 2 + a, at + a + c + 3)
    decreases IfElse(y, m), 0
  {
    hide Step; hide RunOps; hide Found; hide Regions; hide After; hide CodeAt; hide Flatten; hide WellNested;
    hide BlockIdsFit;
    var id, a, c := NextId(s), |Flatten(y)|, |Flatten(m)|;
    var end := at + a + c + 3;
    IfElseCode(ops, at, y, m);
    hide FlattenNode;
    var open := Region(id, KIf(false), pos[at], 0, Some(env.id), []);
    RunSplit(s, pos, ops, at, at + 1, end);
    OneOp(s, pos, ops, at);
    OpenStep(s, pos[at], NIf, env);
    var s1 := Step(s, pos[at], If);
    RunSplit(s1, pos, ops, at + 1, at + 1 + a, end);
    RunBody(s1, y, pos, ops, at + 1, Inner(id, env));
    var ry, fy := Regions(y, pos, at + 1, id + 1, id), Found(y, pos, at + 1, id + 1, Inner(id, env));
    var s2 := RunOps(s1, pos, ops, at + 1, at + 1 + a);
    AfterRuns(s1, ry, fy, Inner(id, env));
    RunSplit(s2, pos, ops, at + 1 + a, at + 2 + a, end);
    OneOp(s2, pos, ops, at + 1 + a);
    ElseResult(s, s1, s2, pos[at + 1 + a], open, ry, fy, env);
  }

  lemma {:induction false} RunIfElse(s: Scan, y: Body, m: Body, pos: seq<nat>, ops: seq<Op>, at: nat, env: Env)
    requires Running(s, env) && WellNested(y) && WellNested(m) && NodeIdsFit(IfElse(y, m), NextId(s))
    requires |ops| == |pos| && CodeAt(ops, at, FlattenNode(IfElse(y, m)))
    ensures RunOps(s, pos, ops, at, at + |FlattenNode(IfElse(y, m))|) ==
            After(s, NodeRegions(IfElse(y, m), pos, at, NextId(s), env.id),
                  FoundNode(IfElse(y, m), pos, at, NextId(s), env))
    decreases IfElse(y, m), 1
  {
    hide Step; hide RunOps; hide Found; hide Regions; hide After; hide CodeAt; hide Flatten; hide WellNested;
    hide BlockIdsFit;
    var id, a, c := NextId(s), |Flatten(y)|, |Flatten(m)|;
    var end := at + a + c + 3;
    IfElseCode(ops, at, y, m);
    RunFirstArm(s, y, m, pos, ops, at, env);
    var s3 := AfterElse(s, y, pos, at, env);
    var open := Region(id, KIf(true), pos[at], 0, Some(env.id), []);
    var ry, fy := Regions(y, pos, at + 1, id + 1, id), Found(y, pos, at + 1, id + 1, Inner(id, env));
    RunSplit(s3, pos, ops, at + 2 + a, at + 2 + a + c, end);
    RunBody(s3, m, pos, ops, at + 2 + a, Inner(id, env));
    var s4 := RunOps(s3, pos, ops, at + 2 + a, at + 2 + a + c);
    var rm := Regions(m, pos, at + 2 + a, id + 1 + Count(y), id);
    var fm := Found(m, pos, at + 2 + a, id + 1 + Count(y), Inner(id, env));
    AfterRuns(s3, rm, fm, Inner(id, env));
    OneOp(s4, pos, ops, at + 2 + a + c);
    IfElseResult(s, s3, s4, pos[at + 2 + a + c], open, ry, fy, rm, fm, env);
  }

  lemma IfElseCode(ops: seq<Op>, at: nat, y: Body, m: Body)
    requires CodeAt(ops, at, FlattenNode(IfElse(y, m)))
    ensures var a, c := |Flatten(y)|, |Flatten(m)|;
            && at + a + c + 3 <= |ops|
            && ops[at] == If && ops[at + 1 + a] == Else && ops[at + 2 + a + c] == End
            && CodeAt(ops, at + 1, Flatten(y)) && CodeAt(ops, at + 2 + a, Flatten(m))
  {
    hide CodeAt;
    hide Flatten;
    CodeFits(ops, at, FlattenNode(IfElse(y, m)));
    CodeSplit(ops, at, [If] + Flatten(y) + [Else] + Flatten(m), [End]);
    CodeSplit(ops, at, [If] + Flatten(y) + [Else], Flatten(m));
    CodeSplit(ops, at, [If] + Flatten(y), [Else]);
    CodeSplit(ops, at, [If], Flatten(y));
    CodeHead(ops, at, If);
    CodeHead(ops, at + 1 + |Flatten(y)|, Else);
    CodeHead(ops, at + 2 + |Flatten(y)| + |Flatten(m)|, End);
  }

  lemma IfElseResult(s: Scan, s3: Scan, s4: Scan, pos: nat, open: Region, ry: seq<Region>, fy: Findings,
                     rm: seq<Region>, fm: Findings, env: Env)
    requires Running(s, env) && Running(s3, Inner(NextId(s), env))
    requires s3 == After(After(s, [open], NOTHING).(stack := s.stack + [NextId(s)]), ry, fy)
    requires s4 == After(s3, rm, fm)
    ensures Step(s4, pos, End) == After(s, [open.(end := pos)] + ry + rm, Both(fy, fm))
  {
    hide Step;
    var s1 := After(s, [open], NOTHING).(stack := s.stack + [NextId(s)]);
    AfterAfter(s1, ry, fy, rm, fm);
    NestResult(s, s1, s4, pos, open, NOTHING, ry + rm, Both(fy, fm), env);
    assert [open.(end := pos)] + (ry + rm) == [open.(end := pos)] + ry + rm;
    NothingFirst(Both(fy, fm));
  }

  lemma NothingFirst(f: Findings)
    ensures Both(NOTHING, f) == f
  {
  }

  // ------------------------------------------------------------------- the program

  /** The offsets in the log that target region `id`. */
  function SourcesOf(log: seq<(nat, nat)>, id: nat): seq<nat> {
    if log == [] then [] else
      SourcesOf(log[..|log| - 1], id) + if log[|log| - 1].1 == id then [log[|log| - 1].0] else []
  }

  /** The regions with their branch sources. */
  function Decorate(regions: seq<Region>, log: seq<(nat, nat)>): seq<Region> {
    seq(|regions|, i requires 0 <= i < |regions| => regions[i].(sources := SourcesOf(log, regions[i].id)))
  }

  function Summary(s: Scan): Cfg {
    Cfg(Decorate(s.regions, s.log),
        if |s.stack| > 1 then s.rest.(notes := s.rest.notes + [Unclosed(|s.stack|)]) else s.rest)
  }

  /** What `analyze_body` returns. */
  function Analyze(pos: seq<nat>, ops: seq<Op>): Result
    requires |pos| == |ops|
  {
    var s := RunOps(START, pos, ops, 0, Min(|ops|, MAX_OPERATORS));
    if s.fault then Err(TooManyRegions)
    else if !s.done && |ops| > MAX_OPERATORS then Err(TooManyOperators)
    else Ok(Summary(s))
  }

  /** Regions are numbered from 1 in the order they were opened. */
  predicate Numbered(regions: seq<Region>) {
    forall i :: 0 <= i < |regions| ==> regions[i].id == i + 1
  }

  function AddSource(pos: nat): Region -> Region { (r: Region) => r.(sources := r.sources + [pos]) }

  /** `iter_mut().find(|r| r.id == id)` followed by a change of that region. */
  method FindAndAmend(regions: seq<Region>, id: nat, f: Region -> Region) returns (amended: seq<Region>)
    requires Numbered(regions)
    ensures amended == Amend(regions, id, f)
  {
    for i := 0 to |regions|
      invariant forall k :: 0 <= k < i ==> regions[k].id != id
    {
      if regions[i].id == id {
        return regions[i := f(regions[i])];
      }
    }
    return regions;
  }

  lemma {:induction false} SourcesAppend(log: seq<(nat, nat)>, more: seq<(nat, nat)>, id: nat)
    ensures SourcesOf(log + more, id) == SourcesOf(log, id) + SourcesOf(more, id)
  {
    if more == [] {
      assert log + more == log;
    } else {
      var init, last := more[..|more| - 1], more[|more| - 1];
      SourcesAppend(log, init, id);
      assert (log + more)[..|log + more| - 1] == log + init;
      assert (log + more)[|log + more| - 1] == last;
    }
  }

  lemma DecorateLog(regions: seq<Region>, log: seq<(nat, nat)>, pos: nat, t: nat)
    requires Numbered(regions)
    ensures Amend(Decorate(regions, log), t, AddSource(pos)) == Decorate(regions, log + [(pos, t)])
  {
    forall id: nat
      ensures SourcesOf(log + [(pos, t)], id) == if id == t then SourcesOf(log, id) + [pos] else SourcesOf(log, id)
    {
      SourcesAppend(log, [(pos, t)], id);
      assert [(pos, t)][..0] == [];
    }
    hide SourcesOf;
    var a, b := Amend(Decorate(regions, log), t, AddSource(pos)), Decorate(regions, log + [(pos, t)]);
    forall i | 0 <= i < |regions| ensures a[i] == b[i] {
      assert regions[i].id == i + 1;
    }
  }

  lemma DecorateOpen(regions: seq<Region>, log: seq<(nat, nat)>, r: Region)
    requires r.sources == [] == SourcesOf(log, r.id)
    ensures Decorate(regions + [r], log) == Decorate(regions, log) + [r]
  {
  }

  lemma DecorateClose(regions: seq<Region>, log: seq<(nat, nat)>, id: nat, pos: nat)
    ensures Amend(Decorate(regions, log), id, CloseAt(pos)) == Decorate(Amend(regions, id, CloseAt(pos)), log)
  {
  }

  /** Every id on the stack and in the log has been given out. */
  ghost predicate InRange(s: Scan) {
    && s.stack != []
    && (forall i :: 0 <= i < |s.stack| ==> s.stack[i] <= |s.regions|)
    && (forall i :: 0 <= i < |s.log| ==> s.log[i].1 <= |s.regions|)
  }

  lemma {:induction false} NoSources(log: seq<(nat, nat)>, id: nat)
    requires forall i :: 0 <= i < |log| ==> log[i].1 != id
    ensures SourcesOf(log, id) == []
  {
    if log != [] { NoSources(log[..|log| - 1], id); }
  }

  /** The variables of the program hold what the scan state says. */
  ghost predicate Mirrors(s: Scan, regions: seq<Region>, stack: seq<nat>, open: seq<(nat, nat)>, extras: Extras) {
    && Numbered(s.regions) && InRange(s) && !s.done && !s.fault
    && regions == Decorate(s.regions, s.log) && stack == s.stack && extras == s.rest
    && |open| == |stack| && (forall i :: 0 <= i < |stack| ==> open[i].0 == stack[i])
  }

  lemma MirrorsNumbered(s: Scan, regions: seq<Region>, stack: seq<nat>, open: seq<(nat, nat)>, extras: Extras)
    requires Mirrors(s, regions, stack, open, extras)
    ensures Numbered(regions) && |regions| == |s.regions| && |open| == |stack| && stack != [] && stack == s.stack
    ensures open[|open| - 1].0 == stack[|stack| - 1]
  {
  }

  lemma MirrorsOpen(s: Scan, regions: seq<Region>, stack: seq<nat>, open: seq<(nat, nat)>, extras: Extras, kind: Kind,
                    pos: nat)
    requires Mirrors(s, regions, stack, open, extras) && !(kind == KBlock && NextId(s) + 1 > MAX_REGION_ID)
    ensures Mirrors(Open(s, pos, kind),
                    regions + [Region(|regions| + 1, kind, pos, 0, TopOf(stack), [])],
                    stack + [|regions| + 1], open + [(|regions| + 1, pos)], extras)
  {
    var r := Region(NextId(s), kind, pos, 0, TopOf(s.stack), []);
    NoSources(s.log, NextId(s));
    hide SourcesOf;
    DecorateOpen(s.regions, s.log, r);
  }

  lemma MirrorsElse(s: Scan, regions: seq<Region>, stack: seq<nat>, open: seq<(nat, nat)>, extras: Extras, pos: nat)
    requires Mirrors(s, regions, stack, open, extras)
    ensures Mirrors(Step(s, pos, Else), Amend(regions, stack[|stack| - 1], MarkElse), stack, open, extras)
  {
  }

  lemma MirrorsClose(s: Scan, regions: seq<Region>, stack: seq<nat>, open: seq<(nat, nat)>, extras: Extras, pos: nat)
    requires Mirrors(s, regions, stack, open, extras) && |stack| > 1
    ensures Mirrors(Close(s, pos), Amend(regions, stack[|stack| - 1], CloseAt(pos)),
                    stack[..|stack| - 1], open[..|open| - 1], extras)
  {
  }

  lemma MirrorsBranch(s: Scan, regions: seq<Region>, stack: seq<nat>, open: seq<(nat, nat)>, extras: Extras, pos: nat,
                      t: nat)
    requires Mirrors(s, regions, stack, open, extras) && t <= |s.regions|
    ensures Mirrors(s.(log := s.log + [(pos, t)]), Amend(regions, t, AddSource(pos)), stack, open, extras)
  {
    hide SourcesOf;
    hide Decorate;
    DecorateLog(s.regions, s.log, pos, t);
  }

  /** The locals of `analyze_body`; `s` is the scan state they stand for. */
  class Analyzer {
    var regions: seq<Region>
    var stack: seq<nat>
    var open: seq<(nat, nat)>
    var nextId: nat
    var extras: Extras
    ghost var s: Scan

    ghost predicate Valid()
      reads this
    {
      Mirrors(s, regions, stack, open, extras) && nextId == |regions| + 1
    }

    constructor ()
      ensures Valid() && s == START
    {
      regions, stack, open, nextId := [], [0], [(0, 0)], 1;
      extras := Extras([], [], [], []);
      s := START;
    }

    /** A construct is opened (lines 82-152); only `block` checks the region budget. */
    method Enter(pos: nat, kind: Kind) returns (ok: bool)
      requires Valid()
      modifies this
      ensures ok ==> Valid() && s == Open(old(s), pos, kind)
      ensures !ok ==> Open(old(s), pos, kind).fault
    {
      hide Mirrors;
      MirrorsNumbered(s, regions, stack, open, extras);
      var id := nextId;
      nextId := nextId + 1;
      if kind == KBlock && nextId > MAX_REGION_ID {
        return false;
      }
      MirrorsOpen(s, regions, stack, open, extras, kind, pos);
      regions := regions + [Region(id, kind, pos, 0, TopOf(stack), [])];
      stack := stack + [id];
      open := open + [(id, pos)];
      s := Open(s, pos, kind);
      ok := true;
    }

    method Note(n: Note)
      requires Valid()
      modifies this`extras, this`s
      ensures Valid() && s == old(s).(rest := old(s).rest.(notes := old(s).rest.notes + [n]))
    {
      extras := extras.(notes := extras.notes + [n]);
      s := s.(rest := s.rest.(notes := s.rest.notes + [n]));
    }

    /** `else` marks the enclosing `if` (lines 127-134). */
    method MarkIf(pos: nat)
      requires Valid()
      modifies this
      ensures Valid() && s == Step(old(s), pos, Else)
    {
      hide Mirrors;
      MirrorsNumbered(s, regions, stack, open, extras);
      MirrorsElse(s, regions, stack, open, extras, pos);
      AmendLength(regions, stack[|stack| - 1], MarkElse);
      regions := FindAndAmend(regions, stack[|stack| - 1], MarkElse);
      s := Step(s, pos, Else);
    }

    /** `record_branch`. */
    method RecordBranch(pos: nat, t: nat)
      requires Valid() && t <= |s.regions|
      modifies this`regions, this`s
      ensures Valid() && s == old(s).(log := old(s).log + [(pos, t)])
    {
      hide Mirrors;
      MirrorsNumbered(s, regions, stack, open, extras);
      MirrorsBranch(s, regions, stack, open, extras, pos, t);
      AmendLength(regions, t, AddSource(pos));
      regions := FindAndAmend(regions, t, AddSource(pos));
      s := s.(log := s.log + [(pos, t)]);
    }

    /** `br` and `br_if` (lines 152-163). */
    method BranchTo(pos: nat, depth: nat)
      requires Valid()
      modifies this
      ensures Valid() && s == Branch(old(s), pos, depth)
    {
      match ResolveLabel(stack, depth) {
        case Some(t) => RecordBranch(pos, t);
        case None => Note(OutOfRange(pos, depth));
      }
    }

    /** `br_table`: every target in range is listed and recorded (lines 164-178). */
    method BranchTable(pos: nat, targets: seq<nat>, default: nat)
      requires Valid()
      modifies this
      ensures Valid() && s == Leaf(old(s), pos, BrTable(targets, default))
    {
      hide Mirrors;
      hide Resolved;
      MirrorsFacts(s, regions, stack, open, extras);
      ghost var s0 := s;
      var resolved := ResolveAll(stack, targets, default);
      ResolvedInRange(stack, targets + [default], |s.regions|);
      Append(Extras([], [], [(pos, resolved)], []));
      assert Hits(pos, resolved[..0]) == [] && s0.log + [] == s0.log;
      for i := 0 to |resolved|
        invariant Valid() && s == s0.(rest := s0.rest.(brTables := s0.rest.brTables + [(pos, resolved)]),
                                      log := s0.log + Hits(pos, resolved[..i]))
      {
        RecordBranch(pos, resolved[i]);
        assert Hits(pos, resolved[..i + 1]) == Hits(pos, resolved[..i]) + [(pos, resolved[i])];
        assert s0.log + Hits(pos, resolved[..i]) + [(pos, resolved[i])] == s0.log + Hits(pos, resolved[..i + 1]);
      }
      assert resolved[..|resolved|] == resolved;
    }

    method Append(more: Extras)
      requires Valid()
      modifies this`extras, this`s
      ensures Valid() && s == old(s).(rest := Join(old(s).rest, more))
    {
      extras := Join(extras, more);
      s := s.(rest := Join(s.rest, more));
    }

    /** An operator that neither opens nor closes a region. */
    method PlainOp(pos: nat, op: Op)
      requires Valid() && WellNestedNode(Plain(op))
      modifies this
      ensures Valid() && s == Step(old(s), pos, op)
    {
      hide Mirrors;
      match op {
        case Br(d) => BranchTo(pos, d);
        case BrIf(d) => BranchTo(pos, d);
        case BrTable(ts, d) => BranchTable(pos, ts, d);
        case Call(f) => Append(Extras([(pos, f)], [], [], []));
        case CallIndirect(y, t) => Append(Extras([], [(pos, y, t)], [], []));
        case ReturnCall(f) => Append(Extras([(pos, f)], [], [], [TailCall(pos)]));
        case ReturnCallIndirect => Append(Extras([], [], [], [TailCallIndirect(pos)]));
        case Other =>
      }
    }

    /** One turn of the loop; `go` is false when the region budget is exceeded or the function ended. */
    method Turn(pos: nat, op: Op) returns (ok: bool, last: bool)
      requires Valid()
      modifies this
      ensures ok ==> s == Step(old(s), pos, op) && (last <==> s.done)
      ensures ok && !last ==> Valid()
      ensures ok && last ==> regions == Decorate(s.regions, s.log) && extras == s.rest && stack == s.stack && !s.fault
      ensures !ok ==> Step(old(s), pos, op).fault
    {
      hide Mirrors;
      MirrorsFacts(s, regions, stack, open, extras);
      ok, last := true, false;
      match op {
        case Block => ok := Enter(pos, KBlock);
        case Loop => ok := Enter(pos, KLoop);
        case If => ok := Enter(pos, KIf(false));
        case Try =>
          ok := Enter(pos, KTry);
          if ok { Note(TryConstruct(pos)); }
        case Else => MarkIf(pos);
        case End => last := Exit(pos);
        case _ => PlainOp(pos, op);
      }
      if ok && !last {
        MirrorsFacts(s, regions, stack, open, extras);
      }
    }

    /** `end` closes the innermost construct; closing the function itself ends the scan (lines 199-209). */
    method Exit(pos: nat) returns (last: bool)
      requires Valid()
      modifies this
      ensures s == Close(old(s), pos) && (last <==> s.done)
      ensures !last ==> Valid()
      ensures last ==> regions == Decorate(s.regions, s.log) && extras == s.rest && stack == s.stack && !s.fault
    {
      hide Mirrors;
      MirrorsNumbered(s, regions, stack, open, extras);
      MirrorsFacts(s, regions, stack, open, extras);
      var id := open[|open| - 1].0;
      if |stack| > 1 {
        MirrorsClose(s, regions, stack, open, extras, pos);
      } else {
        MirrorsDecorates(s, regions, stack, open, extras);
        DecorateClose(s.regions, s.log, id, pos);
      }
      AmendLength(regions, id, CloseAt(pos));
      regions := FindAndAmend(regions, id, CloseAt(pos));
      stack := stack[..|stack| - 1];
      open := open[..|open| - 1];
      s := Close(s, pos);
      last := stack == [];
    }
  }

  /** The in-range targets of a `br_table`, default last. */
  method ResolveAll(stack: seq<nat>, targets: seq<nat>, default: nat) returns (resolved: seq<nat>)
    ensures resolved == Resolved(stack, targets + [default])
  {
    hide ResolveLabel; hide Resolved;
    resolved := [];
    ResolvedNone(stack);
    for i := 0 to |targets|
      invariant resolved == Resolved(stack, targets[..i])
    {
      ResolvedNext(stack, targets[..i], targets[i]);
      assert targets[..i + 1] == targets[..i] + [targets[i]];
      var t := ResolveLabel(stack, targets[i]);
      if t.Some? { resolved := resolved + [t.value]; }
    }
    assert targets[..|targets|] == targets;
    ResolvedNext(stack, targets, default);
    var t := ResolveLabel(stack, default);
    if t.Some? { resolved := resolved + [t.value]; }
  }

  lemma ResolvedNone(stack: seq<nat>)
    ensures Resolved(stack, []) == []
  {
  }

  lemma ResolvedNext(stack: seq<nat>, depths: seq<nat>, d: nat)
    ensures var t := ResolveLabel(stack, d);
      Resolved(stack, depths + [d]) == if t.Some? then Resolved(stack, depths) + [t.value] else Resolved(stack, depths)
  {
    hide ResolveLabel;
    assert (depths + [d])[..|depths|] == depths;
  }

  lemma AmendLength(regions: seq<Region>, id: nat, f: Region -> Region)
    ensures |Amend(regions, id, f)| == |regions|
  {
  }

  lemma MirrorsFacts(s: Scan, regions: seq<Region>, stack: seq<nat>, open: seq<(nat, nat)>, extras: Extras)
    requires Mirrors(s, regions, stack, open, extras)
    ensures stack == s.stack && extras == s.rest && |regions| == |s.regions| && !s.done && !s.fault
    ensures forall i :: 0 <= i < |stack| ==> stack[i] <= |s.regions|
  {
  }

  lemma {:induction false} ResolvedInRange(stack: seq<nat>, depths: seq<nat>, n: nat)
    requires forall i :: 0 <= i < |stack| ==> stack[i] <= n
    ensures forall i :: 0 <= i < |Resolved(stack, depths)| ==> Resolved(stack, depths)[i] <= n
  {
    if depths != [] { ResolvedInRange(stack, depths[..|depths| - 1], n); }
  }

  /** `analyze_body`. */
  method AnalyzeBody(pos: seq<nat>, ops: seq<Op>) returns (r: Result)
    requires |pos| == |ops|
    ensures r == Analyze(pos, ops)
  {
    hide Step;
    hide Decorate;
    hide Mirrors;
    var a := new Analyzer();
    ghost var n := Min(|ops|, MAX_OPERATORS);
    ghost var end := RunOps(START, pos, ops, 0, n);
    var last := false;
    for i := 0 to |ops|
      invariant i <= n && !last && a.Valid() && end == RunOps(a.s, pos, ops, i, n)
    {
      MirrorsFacts(a.s, a.regions, a.stack, a.open, a.extras);
      if i + 1 > MAX_OPERATORS {
        return Err(TooManyOperators);
      }
      var ok;
      ok, last := a.Turn(pos[i], ops[i]);
      if !ok {
        return Err(TooManyRegions);
      }
      if last {
        break;
      }
    }
    if !last {
      MirrorsFacts(a.s, a.regions, a.stack, a.open, a.extras);
      MirrorsDecorates(a.s, a.regions, a.stack, a.open, a.extras);
    }
    var unclosed := |a.stack|;
    var extras := a.extras;
    if unclosed > 1 {
      extras := extras.(notes := extras.notes + [Unclosed(unclosed)]);
    }
    r := Ok(Cfg(a.regions, extras));
  }

  lemma MirrorsDecorates(s: Scan, regions: seq<Region>, stack: seq<nat>, open: seq<(nat, nat)>, extras: Extras)
    requires Mirrors(s, regions, stack, open, extras)
    ensures regions == Decorate(s.regions, s.log)
  {
  }

  // ------------------------------------------------------------------ the main results

  /** A function body: the flattened nested program and its final `end`. */
  function Code(b: Body): seq<Op> { Flatten(b) + [End] }

  /** The recovered result. */
  function Recovered(b: Body, pos: seq<nat>): Cfg
    requires |pos| == |Code(b)|
  {
    var f := Found(b, pos, 0, 1, Outermost(0));
    Cfg(Decorate(Regions(b, pos, 0, 1, 0), f.log), f.rest)
  }

  /** Scanning a flattened nested program recovers it, whenever the operator and region budgets allow. */
  lemma AnalyzeUndoesFlatten(b: Body, pos: seq<nat>)
    requires WellNested(b) && |pos| == |Code(b)| <= MAX_OPERATORS && BlockIdsFit(b, 1)
    ensures Analyze(pos, Code(b)) == Ok(Recovered(b, pos))
  {
    hide Step;
    hide RunOps;
    hide After;
    hide Decorate;
    hide WellNested;
    hide BlockIdsFit;
    hide Flatten;
    var ops, n, env := Code(b), |Flatten(b)|, Outermost(0);
    RunStart(b, pos);
    var s := After(START, Regions(b, pos, 0, 1, 0), Found(b, pos, 0, 1, env));
    RunSplit(START, pos, ops, 0, n, n + 1);
    StartRuns(s, Regions(b, pos, 0, 1, 0), Found(b, pos, 0, 1, env));
    OneOp(s, pos, ops, n);
    CloseFunction(s, pos[n]);
  }

  lemma RunStart(b: Body, pos: seq<nat>)
    requires WellNested(b) && |pos| == |Code(b)| && BlockIdsFit(b, 1)
    ensures RunOps(START, pos, Code(b), 0, |Flatten(b)|) ==
            After(START, Regions(b, pos, 0, 1, 0), Found(b, pos, 0, 1, Outermost(0)))
  {
    assert CodeAt(Code(b), 0, Flatten(b));
    RunBody(START, b, pos, Code(b), 0, Outermost(0));
  }

  lemma StartRuns(s: Scan, regions: seq<Region>, found: Findings)
    requires s == After(START, regions, found)
    ensures !s.done && !s.fault && s.stack == [0] && s.regions == regions && s.log == found.log && s.rest == found.rest
  {
  }

  lemma CloseFunction(s: Scan, at: nat)
    requires s.stack == [0] && !s.fault
    ensures Step(s, at, End) == s.(stack := [], done := true)
  {
  }

  // ------------------------------------------------------------- when the budgets are exceeded

  /** A region budget exceeded anywhere stops the scan there. */
  lemma {:induction false} RunBodyFaults(s: Scan, b: Body, pos: seq<nat>, ops: seq<Op>, at: nat, env: Env)
    requires Running(s, env) && WellNested(b) && !BlockIdsFit(b, NextId(s))
    requires |ops| == |pos| && CodeAt(ops, at, Flatten(b))
    ensures RunOps(s, pos, ops, at, at + |Flatten(b)|).fault
    decreases b
  {
    hide Step;
    hide RunOps;
    hide After;
    hide FlattenNode;
    hide WellNestedNode;
    hide NodeIdsFit;
    hide CodeAt;
    hide NextId;
    hide Running;
    match b {
      case Cons(n, rest) =>
        var k := |FlattenNode(n)|;
        CodeSplit(ops, at, FlattenNode(n), Flatten(rest));
        CodeFits(ops, at, Flatten(b));
        RunSplit(s, pos, ops, at, at + k, at + |Flatten(b)|);
        if NodeIdsFit(n, NextId(s)) {
          RunNode(s, n, pos, ops, at, env);
          var r1, f1 := NodeRegions(n, pos, at, NextId(s), env.id), FoundNode(n, pos, at, NextId(s), env);
          AfterRuns(s, r1, f1, env);
          RunBodyFaults(After(s, r1, f1), rest, pos, ops, at + k, env);
        } else {
          RunNodeFaults(s, n, pos, ops, at, env);
          FaultStays(RunOps(s, pos, ops, at, at + k), pos, ops, at + k, at + |Flatten(b)|);
        }
    }
  }

  lemma FaultStays(s: Scan, pos: seq<nat>, ops: seq<Op>, i: nat, j: nat)
    requires s.fault && i <= j <= |ops| == |pos|
    ensures RunOps(s, pos, ops, i, j) == s
  {
  }

  lemma {:induction false} RunNodeFaults(s: Scan, n: Node, pos: seq<nat>, ops: seq<Op>, at: nat, env: Env)
    requires Running(s, env) && WellNestedNode(n) && !NodeIdsFit(n, NextId(s))
    requires |ops| == |pos| && CodeAt(ops, at, FlattenNode(n))
    ensures RunOps(s, pos, ops, at, at + |FlattenNode(n)|).fault
    decreases n, 1
  {
    hide RunOps; hide CodeAt; hide Flatten; hide WellNested; hide BlockIdsFit; hide Running;
    match n {
      case Nest(k, b) => NestFaults(s, k, b, pos, ops, at, env);
      case IfElse(y, m) => IfElseFaults(s, y, m, pos, ops, at, env);
    }
  }

  lemma {:induction false} NestFaults(s: Scan, k: NestKind, b: Body, pos: seq<nat>, ops: seq<Op>, at: nat, env: Env)
    requires Running(s, env) && WellNested(b) && !NodeIdsFit(Nest(k, b), NextId(s))
    requires |ops| == |pos| && CodeAt(ops, at, FlattenNode(Nest(k, b)))
    ensures RunOps(s, pos, ops, at, at + |FlattenNode(Nest(k, b))|).fault
    decreases Nest(k, b), 0
  {
    hide Step; hide RunOps; hide After; hide CodeAt; hide Flatten; hide WellNested; hide BlockIdsFit;
    var id, end := NextId(s), at + |FlattenNode(Nest(k, b))|;
    CodeFits(ops, at, FlattenNode(Nest(k, b)));
    CodeSplit(ops, at, [OpenOp(k)] + Flatten(b), [End]);
    CodeSplit(ops, at, [OpenOp(k)], Flatten(b));
    CodeHead(ops, at, OpenOp(k));
    RunSplit(s, pos, ops, at, at + 1, end);
    OneOp(s, pos, ops, at);
    var s1 := Step(s, pos[at], OpenOp(k));
    if k == NBlock && id + 1 > MAX_REGION_ID {
      OpenFaults(s, pos[at]);
      FaultStays(s1, pos, ops, at + 1, end);
    } else {
      OpenStep(s, pos[at], k, env);
      RunBodyFaults(s1, b, pos, ops, at + 1, Inner(id, env));
      RunSplit(s1, pos, ops, at + 1, at + 1 + |Flatten(b)|, end);
      FaultStays(RunOps(s1, pos, ops, at + 1, at + 1 + |Flatten(b)|), pos, ops, at + 1 + |Flatten(b)|, end);
    }
  }

  lemma {:induction false} IfElseFaults(s: Scan, y: Body, m: Body, pos: seq<nat>, ops: seq<Op>, at: nat, env: Env)
    requires Running(s, env) && WellNested(y) && WellNested(m) && !NodeIdsFit(IfElse(y, m), NextId(s))
    requires |ops| == |pos| && CodeAt(ops, at, FlattenNode(IfElse(y, m)))
    ensures RunOps(s, pos, ops, at, at + |FlattenNode(IfElse(y, m))|).fault
    decreases IfElse(y, m), 0
  {
    hide Step; hide RunOps; hide After; hide CodeAt; hide Flatten; hide WellNested; hide BlockIdsFit; hide Regions;
    hide Found;
    var id, a, c := NextId(s), |Flatten(y)|, |Flatten(m)|;
    var end := at + a + c + 3;
    IfElseCode(ops, at, y, m);
    if BlockIdsFit(y, id + 1) {
      RunFirstArm(s, y, m, pos, ops, at, env);
      var s3 := AfterElse(s, y, pos, at, env);
      hide AfterElse;
      RunBodyFaults(s3, m, pos, ops, at + 2 + a, Inner(id, env));
      RunSplit(s3, pos, ops, at + 2 + a, at + 2 + a + c, end);
      FaultStays(RunOps(s3, pos, ops, at + 2 + a, at + 2 + a + c), pos, ops, at + 2 + a + c, end);
    } else {
      RunSplit(s, pos, ops, at, at + 1, end);
      OneOp(s, pos, ops, at);
      OpenStep(s, pos[at], NIf, env);
      var s1 := Step(s, pos[at], If);
      RunSplit(s1, pos, ops, at + 1, at + 1 + a, end);
      RunBodyFaults(s1, y, pos, ops, at + 1, Inner(id, env));
      FaultStays(RunOps(s1, pos, ops, at + 1, at + 1 + a), pos, ops, at + 1 + a, end);
    }
  }

  lemma OpenFaults(s: Scan, pos: nat)
    requires NextId(s) + 1 > MAX_REGION_ID
    ensures Step(s, pos, Block).fault
  {
  }

  /** How an operator changes the nesting depth. */
  function Weight(op: Op): int {
    match op case Block => 1 case Loop => 1 case If => 1 case Try => 1 case End => -1 case _ => 0
  }

  function Height(ops: seq<Op>): int {
    if ops == [] then 0 else Weight(ops[0]) + Height(ops[1..])
  }

  lemma {:induction false} HeightConcat(a: seq<Op>, b: seq<Op>)
    ensures Height(a + b) == Height(a) + Height(b)
  {
    if a == [] {
      assert a + b == b;
    } else {
      assert (a + b)[1..] == a[1..] + b;
      HeightConcat(a[1..], b);
    }
  }

  /** Flattened programs are balanced and never dip below their start. */
  ghost predicate Balanced(code: seq<Op>) {
    Height(code) == 0 && forall k :: 0 <= k <= |code| ==> Height(code[..k]) >= 0
  }

  lemma BalancedConcat(a: seq<Op>, b: seq<Op>)
    requires Balanced(a) && Balanced(b)
    ensures Balanced(a + b)
  {
    HeightConcat(a, b);
    forall k | 0 <= k <= |a + b| ensures Height((a + b)[..k]) >= 0 {
      if k <= |a| {
        assert (a + b)[..k] == a[..k];
      } else {
        assert (a + b)[..k] == a + b[..k - |a|];
        HeightConcat(a, b[..k - |a|]);
      }
    }
  }

  lemma BalancedNest(open: Op, code: seq<Op>)
    requires Weight(open) == 1 && Balanced(code)
    ensures Balanced([open] + code + [End])
  {
    var all := [open] + code + [End];
    HeightConcat([open] + code, [End]);
    HeightConcat([open], code);
    assert Height([open]) == 1 && Height([End]) == -1;
    forall k | 0 <= k <= |all| ensures Height(all[..k]) >= 0 {
      if k == |all| {
        assert all[..k] == all;
      } else if k > 0 {
        assert all[..k] == [open] + code[..k - 1];
        HeightConcat([open], code[..k - 1]);
      }
    }
  }

  lemma {:induction false} FlattenBalanced(b: Body)
    requires WellNested(b)
    ensures Balanced(Flatten(b))
  {
    match b {
      case Nil =>
      case Cons(n, rest) =>
        NodeBalanced(n);
        FlattenBalanced(rest);
        BalancedConcat(FlattenNode(n), Flatten(rest));
    }
  }

  lemma {:induction false} NodeBalanced(n: Node)
    requires WellNestedNode(n)
    ensures Balanced(FlattenNode(n))
  {
    hide Balanced; hide Flatten;
    match n {
      case Plain(op) =>
        FlatBalanced(op);
      case Nest(k, b) =>
        FlattenBalanced(b);
        BalancedNest(OpenOp(k), Flatten(b));
      case IfElse(y, m) =>
        FlattenBalanced(y);
        FlattenBalanced(m);
        FlatBalanced(Else);
        BalancedConcat(Flatten(y), [Else]);
        BalancedConcat(Flatten(y) + [Else], Flatten(m));
        BalancedNest(If, Flatten(y) + [Else] + Flatten(m));
        assert [If] + (Flatten(y) + [Else] + Flatten(m)) + [End] == FlattenNode(n);
    }
  }

  lemma FlatBalanced(op: Op)
    requires Weight(op) == 0
    ensures Balanced([op])
  {
  }

  lemma StepHeight(s: Scan, pos: nat, op: Op)
    requires !s.done && s.stack != []
    ensures var s' := Step(s, pos, op);
            s'.fault || (|s'.stack| == |s.stack| + Weight(op) && (s'.done <==> s'.stack == []))
    ensures Step(s, pos, op).done ==> Step(s, pos, op).stack == []
  {
  }

  /** A scan does not end while the nesting depth stays positive. */
  lemma {:induction false} NeverDone(s: Scan, pos: seq<nat>, ops: seq<Op>, i: nat, j: nat)
    requires !s.done && s.stack != [] && i <= j <= |ops| == |pos|
    requires forall k :: i <= k <= j ==> |s.stack| + Height(ops[i..k]) >= 1
    ensures !RunOps(s, pos, ops, i, j).done
    decreases j - i
  {
    hide Step;
    if i < j && !s.fault {
      var s' := Step(s, pos[i], ops[i]);
      StepHeight(s, pos[i], ops[i]);
      assert ops[i..i + 1] == [ops[i]];
      assert |s.stack| + Height(ops[i..i + 1]) >= 1;
      assert Height([ops[i]]) == Weight(ops[i]);
      if !s'.fault {
        var next := i + 1;
        forall k | next <= k <= j ensures |s'.stack| + Height(ops[next..k]) >= 1 {
          assert ops[i..k][1..] == ops[next..k];
        }
        NeverDone(s', pos, ops, i + 1, j);
      } else {
        FaultStays(s', pos, ops, i + 1, j);
        StepFaults(s, pos[i], ops[i]);
      }
    }
  }

  lemma StepFaults(s: Scan, pos: nat, op: Op)
    requires !s.done && !s.fault && Step(s, pos, op).fault
    ensures !Step(s, pos, op).done
  {
  }

  /** The exact condition: a flattened program is refused if and only if one of the two budgets is exceeded. */
  lemma AnalyzeAcceptsIff(b: Body, pos: seq<nat>)
    requires WellNested(b) && |pos| == |Code(b)|
    ensures Analyze(pos, Code(b)).Ok? <==> |Code(b)| <= MAX_OPERATORS && BlockIdsFit(b, 1)
  {
    if |Code(b)| <= MAX_OPERATORS && BlockIdsFit(b, 1) {
      AnalyzeUndoesFlatten(b, pos);
    } else if |Code(b)| <= MAX_OPERATORS {
      AnalyzeFaults(b, pos);
    } else {
      var ops := Code(b);
      FlattenBalanced(b);
      forall k | 0 <= k <= MAX_OPERATORS ensures |START.stack| + Height(ops[0..k]) >= 1 {
        assert ops[0..k] == Flatten(b)[..k];
      }
      NeverDone(START, pos, ops, 0, MAX_OPERATORS);
    }
  }

  lemma AnalyzeFaults(b: Body, pos: seq<nat>)
    requires WellNested(b) && |pos| == |Code(b)| <= MAX_OPERATORS && !BlockIdsFit(b, 1)
    ensures Analyze(pos, Code(b)).Err?
  {
    hide Step;
    hide RunOps;
    hide Flatten;
    var ops, n := Code(b), |Flatten(b)|;
    assert CodeAt(ops, 0, Flatten(b));
    assert Running(START, Outermost(0));
    RunBodyFaults(START, b, pos, ops, 0, Outermost(0));
    RunSplit(START, pos, ops, 0, n, n + 1);
    FaultStays(RunOps(START, pos, ops, 0, n), pos, ops, n, n + 1);
  }

  // ------------------------------------------------------------------------- nesting

  ghost predicate Increasing(pos: seq<nat>) {
    forall i, j :: 0 <= i < j < |pos| ==> pos[i] < pos[j]
  }

  /** `s` lies strictly inside `r`. */
  ghost predicate Inside(s: Region, r: Region) { r.start < s.start && s.end < r.end }

  /** `r` ends before `s` starts. */
  ghost predicate Before(r: Region, s: Region) { r.end < s.start }

  /** The regions span a non-empty stretch within the offsets `lo` to `hi`. */
  ghost predicate Within(rs: seq<Region>, lo: nat, hi: nat) {
    forall i :: 0 <= i < |rs| ==> lo <= rs[i].start < rs[i].end <= hi
  }

  ghost predicate LaminarList(rs: seq<Region>) {
    forall i, j :: 0 <= i < j < |rs| ==> rs[i].start < rs[j].start && (Inside(rs[j], rs[i]) || Before(rs[i], rs[j]))
  }

  lemma LaminarConcat(a: seq<Region>, b: seq<Region>, lo: nat, mid: nat, mid': nat, hi: nat)
    requires LaminarList(a) && LaminarList(b) && Within(a, lo, mid) && Within(b, mid', hi) && lo <= mid < mid' <= hi
    ensures LaminarList(a + b) && Within(a + b, lo, hi)
  {
  }

  /** The recovered regions come in order of their start, and any two are nested or apart. */
  lemma {:induction false} RegionsLaminar(b: Body, pos: seq<nat>, at: nat, id: nat, parent: nat)
    requires Increasing(pos) && at + |Flatten(b)| <= |pos|
    ensures LaminarList(Regions(b, pos, at, id, parent))
    ensures Flatten(b) == [] ==> Regions(b, pos, at, id, parent) == []
    ensures Flatten(b) != [] ==> Within(Regions(b, pos, at, id, parent), pos[at], pos[at + |Flatten(b)| - 1])
    decreases b
  {
    hide LaminarList;
    hide Within;
    match b {
      case Nil =>
        NoneLaminar(0, 0);
      case Cons(n, rest) =>
        var k := |FlattenNode(n)|;
        NodeLaminar(n, pos, at, id, parent);
        RegionsLaminar(rest, pos, at + k, id + CountNode(n), parent);
        var a, c := NodeRegions(n, pos, at, id, parent), Regions(rest, pos, at + k, id + CountNode(n), parent);
        if Flatten(rest) == [] {
          assert a + c == a;
        } else {
          LaminarConcat(a, c, pos[at], pos[at + k - 1], pos[at + k], pos[at + |Flatten(b)| - 1]);
        }
    }
  }

  lemma NoneLaminar(lo: nat, hi: nat)
    ensures LaminarList([]) && Within([], lo, hi)
  {
  }

  lemma {:induction false} NodeLaminar(n: Node, pos: seq<nat>, at: nat, id: nat, parent: nat)
    requires Increasing(pos) && at + |FlattenNode(n)| <= |pos|
    ensures LaminarList(NodeRegions(n, pos, at, id, parent)) && FlattenNode(n) != []
    ensures Within(NodeRegions(n, pos, at, id, parent), pos[at], pos[at + |FlattenNode(n)| - 1])
    decreases n
  {
    hide LaminarList;
    hide Within;
    hide Flatten;
    hide Regions;
    match n {
      case Plain(_) =>
        NoneLaminar(pos[at], pos[at]);
      case Nest(k, b) =>
        var m := |Flatten(b)|;
        RegionsLaminar(b, pos, at + 1, id + 1, id);
        NoneLaminar(pos[at] + 1, pos[at] + 1);
        InnerLaminar(NodeRegions(n, pos, at, id, parent)[0], Regions(b, pos, at + 1, id + 1, id), pos, at, m);
      case IfElse(y, m) =>
        var a, c := |Flatten(y)|, |Flatten(m)|;
        RegionsLaminar(y, pos, at + 1, id + 1, id);
        RegionsLaminar(m, pos, at + 2 + a, id + 1 + Count(y), id);
        var ry, rm := Regions(y, pos, at + 1, id + 1, id), Regions(m, pos, at + 2 + a, id + 1 + Count(y), id);
        HalvesLaminar(ry, rm, pos, at, a, c);
        var r := NodeRegions(n, pos, at, id, parent)[0];
        assert [r] + ry + rm == [r] + (ry + rm);
        InnerLaminar(r, ry + rm, pos, at, a + 1 + c);
    }
  }

  lemma InnerLaminar(r: Region, inner: seq<Region>, pos: seq<nat>, at: nat, m: nat)
    requires Increasing(pos) && at + m + 1 < |pos| && r.start == pos[at] && r.end == pos[at + 1 + m]
    requires LaminarList(inner) && (m == 0 ==> inner == []) && (m > 0 ==> Within(inner, pos[at + 1], pos[at + m]))
    ensures LaminarList([r] + inner) && Within([r] + inner, pos[at], pos[at + 1 + m])
  {
  }

  lemma HalvesLaminar(ry: seq<Region>, rm: seq<Region>, pos: seq<nat>, at: nat, a: nat, c: nat)
    requires Increasing(pos) && at + a + c + 2 < |pos|
    requires LaminarList(ry) && LaminarList(rm)
    requires if a == 0 then ry == [] else Within(ry, pos[at + 1], pos[at + a])
    requires if c == 0 then rm == [] else Within(rm, pos[at + 2 + a], pos[at + 1 + a + c])
    ensures LaminarList(ry + rm) && Within(ry + rm, pos[at + 1], pos[at + 1 + a + c])
  {
  }

  /** Region `j` is numbered in order; its parent is `parent` or an earlier region that strictly contains it. */
  ghost predicate ParentOk(rs: seq<Region>, id: nat, parent: nat, j: nat)
    requires j < |rs|
  {
    && rs[j].id == id + j && rs[j].parent.Some?
    && (rs[j].parent.value == parent ||
        (id <= rs[j].parent.value < id + j && Inside(rs[j], rs[rs[j].parent.value - id])))
  }

  /** A recovered region's parent is the function or an earlier region that strictly contains it. */
  lemma {:induction false} ParentContains(b: Body, pos: seq<nat>, at: nat, id: nat, parent: nat, j: nat)
    requires Increasing(pos) && at + |Flatten(b)| <= |pos| && j < |Regions(b, pos, at, id, parent)|
    ensures ParentOk(Regions(b, pos, at, id, parent), id, parent, j)
    decreases b
  {
    hide ParentOk; hide NodeRegions; hide FlattenNode; hide Increasing;
    match b {
      case Cons(n, rest) =>
        var c := CountNode(n);
        if j < c {
          NodeParentContains(n, pos, at, id, parent, j);
          ConsFirstParent(n, rest, pos, at, id, parent, j);
        } else {
          ParentContains(rest, pos, at + |FlattenNode(n)|, id + c, parent, j - c);
          ConsRestParent(n, rest, pos, at, id, parent, j - c);
        }
    }
  }

  /** The property carries over to a longer list that holds `sub` from position `off` on. */
  lemma ParentShift(all: seq<Region>, sub: seq<Region>, off: nat, id: nat, parent: nat, j: nat)
    requires Part(all, off, sub) && j < |sub| && ParentOk(sub, id + off, parent, j)
    ensures ParentOk(all, id, parent, off + j)
  {
    assert all[off + j] == sub[j];
    var q := sub[j].parent.value;
    if q != parent { assert all[off + (q - id - off)] == sub[q - id - off]; }
  }

  /** `sub` stands in `all` from position `off` on. */
  ghost predicate Part(all: seq<Region>, off: nat, sub: seq<Region>) {
    off + |sub| <= |all| && forall k :: 0 <= k < |sub| ==> all[off + k] == sub[k]
  }

  /** The parts of a list of constructs, by position. */
  lemma ConsIndex(n: Node, rest: Body, pos: seq<nat>, at: nat, id: nat, parent: nat)
    requires at + |Flatten(Cons(n, rest))| <= |pos|
    ensures |Flatten(Cons(n, rest))| == |FlattenNode(n)| + |Flatten(rest)|
    ensures var rs, c, d := Regions(Cons(n, rest), pos, at, id, parent), CountNode(n), Count(rest);
      && |rs| == c + d && Part(rs, 0, NodeRegions(n, pos, at, id, parent))
      && Part(rs, c, Regions(rest, pos, at + |FlattenNode(n)|, id + c, parent))
  {
    hide FlattenNode; hide NodeRegions; hide CountNode; hide Part;
    var first := NodeRegions(n, pos, at, id, parent);
    var others := Regions(rest, pos, at + |FlattenNode(n)|, id + CountNode(n), parent);
    assert Regions(Cons(n, rest), pos, at, id, parent) == first + others;
    hide Regions; hide Flatten;
    ConcatParts(first, others);
  }

  lemma ConcatParts(a: seq<Region>, b: seq<Region>)
    ensures Part(a + b, 0, a) && Part(a + b, |a|, b)
  {
  }

  lemma ConsFirstParent(n: Node, rest: Body, pos: seq<nat>, at: nat, id: nat, parent: nat, j: nat)
    requires at + |Flatten(Cons(n, rest))| <= |pos| && at + |FlattenNode(n)| <= |pos| && j < CountNode(n)
    requires ParentOk(NodeRegions(n, pos, at, id, parent), id, parent, j)
    ensures ParentOk(Regions(Cons(n, rest), pos, at, id, parent), id, parent, j)
  {
    hide ParentOk; hide NodeRegions; hide FlattenNode; hide Regions; hide Flatten; hide Count; hide CountNode;
    hide Part;
    ConsIndex(n, rest, pos, at, id, parent);
    ParentShift(Regions(Cons(n, rest), pos, at, id, parent), NodeRegions(n, pos, at, id, parent), 0, id, parent, j);
  }

  lemma ConsRestParent(n: Node, rest: Body, pos: seq<nat>, at: nat, id: nat, parent: nat, j: nat)
    requires at + |Flatten(Cons(n, rest))| <= |pos| && at + |FlattenNode(n)| + |Flatten(rest)| <= |pos|
      && j < Count(rest)
    requires ParentOk(Regions(rest, pos, at + |FlattenNode(n)|, id + CountNode(n), parent),
                      id + CountNode(n), parent, j)
    ensures ParentOk(Regions(Cons(n, rest), pos, at, id, parent), id, parent, CountNode(n) + j)
  {
    hide ParentOk; hide NodeRegions; hide FlattenNode; hide Regions; hide Flatten; hide Count; hide CountNode;
    hide Part;
    ConsIndex(n, rest, pos, at, id, parent);
    var c := CountNode(n);
    ParentShift(Regions(Cons(n, rest), pos, at, id, parent), Regions(rest, pos, at + |FlattenNode(n)|, id + c, parent),
                c, id, parent, j);
  }

  /** A parent found inside a part of a construct is one in the whole construct. */
  lemma PartParent(rs: seq<Region>, part: seq<Region>, off: nat, id: nat, parent: nat, j: nat)
    requires 0 < off <= j < off + |part| <= |rs| && rs[off..off + |part|] == part && Inside(rs[j], rs[0])
    requires ParentOk(part, id + off, id, j - off)
    ensures ParentOk(rs, id, parent, j)
  {
  }

  /** The parts of an if/else, by position. */
  lemma ArmSlices(y: Body, m: Body, pos: seq<nat>, at: nat, id: nat, parent: nat)
    requires at + |FlattenNode(IfElse(y, m))| <= |pos|
    ensures at + 2 + |Flatten(y)| + |Flatten(m)| < |pos|
    ensures var rs, c, d := NodeRegions(IfElse(y, m), pos, at, id, parent), Count(y), Count(m);
      |rs| == 1 + c + d && rs[1..1 + c] == Regions(y, pos, at + 1, id + 1, id)
      && rs[1 + c..1 + c + d] == Regions(m, pos, at + 2 + |Flatten(y)|, id + 1 + c, id)
  {
    hide Flatten; hide Regions; hide Count;
    assert |FlattenNode(IfElse(y, m))| == 3 + |Flatten(y)| + |Flatten(m)|;
    var rs := NodeRegions(IfElse(y, m), pos, at, id, parent);
    ThreeParts(rs[0], Regions(y, pos, at + 1, id + 1, id),
               Regions(m, pos, at + 2 + |Flatten(y)|, id + 1 + Count(y), id));
  }

  lemma ThreeParts(r: Region, a: seq<Region>, b: seq<Region>)
    ensures var s := [r] + a + b;
      s[0] == r && |s| == 1 + |a| + |b| && s[1..1 + |a|] == a && s[1 + |a|..1 + |a| + |b|] == b
  {
  }

  lemma {:induction false} NodeParentContains(n: Node, pos: seq<nat>, at: nat, id: nat, parent: nat, j: nat)
    requires Increasing(pos) && at + |FlattenNode(n)| <= |pos| && j < |NodeRegions(n, pos, at, id, parent)|
    ensures ParentOk(NodeRegions(n, pos, at, id, parent), id, parent, j)
    decreases n, 1
  {
    hide Flatten;
    hide Regions;
    hide Increasing;
    var rs := NodeRegions(n, pos, at, id, parent);
    if j > 0 {
      FirstContains(n, pos, at, id, parent, j);
      match n {
        case Nest(k, b) =>
          var sub := Regions(b, pos, at + 1, id + 1, id);
          assert rs[1..1 + |sub|] == sub;
          hide ParentOk; hide NodeRegions; hide Inside;
          ParentContains(b, pos, at + 1, id + 1, id, j - 1);
          PartParent(rs, sub, 1, id, parent, j);
        case IfElse(y, m) =>
          ArmParent(y, m, pos, at, id, parent, j);
      }
    }
  }

  lemma {:induction false} ArmParent(y: Body, m: Body, pos: seq<nat>, at: nat, id: nat, parent: nat, j: nat)
    requires Increasing(pos) && at + |FlattenNode(IfElse(y, m))| <= |pos|
    requires var rs := NodeRegions(IfElse(y, m), pos, at, id, parent); 0 < j < |rs| && Inside(rs[j], rs[0])
    ensures ParentOk(NodeRegions(IfElse(y, m), pos, at, id, parent), id, parent, j)
    decreases IfElse(y, m), 0
  {
    hide Flatten; hide Regions; hide Increasing; hide ParentOk; hide NodeRegions; hide Inside; hide FlattenNode;
    var rs := NodeRegions(IfElse(y, m), pos, at, id, parent);
    ArmSlices(y, m, pos, at, id, parent);
    var c := Count(y);
    if j <= c {
      ParentContains(y, pos, at + 1, id + 1, id, j - 1);
      PartParent(rs, Regions(y, pos, at + 1, id + 1, id), 1, id, parent, j);
    } else {
      ParentContains(m, pos, at + 2 + |Flatten(y)|, id + 1 + c, id, j - 1 - c);
      PartParent(rs, Regions(m, pos, at + 2 + |Flatten(y)|, id + 1 + c, id), 1 + c, id, parent, j);
    }
  }

  /** The region of a construct strictly contains the regions inside it. */
  lemma FirstContains(n: Node, pos: seq<nat>, at: nat, id: nat, parent: nat, j: nat)
    requires Increasing(pos) && at + |FlattenNode(n)| <= |pos| && 0 < j < |NodeRegions(n, pos, at, id, parent)|
    ensures Inside(NodeRegions(n, pos, at, id, parent)[j], NodeRegions(n, pos, at, id, parent)[0])
  {
    hide Flatten;
    hide Regions;
    NodeLaminar(n, pos, at, id, parent);
    var rs := NodeRegions(n, pos, at, id, parent);
    assert rs[j].end <= pos[at + |FlattenNode(n)| - 1];
    assert rs[0].end == pos[at + |FlattenNode(n)| - 1];
  }
}
