/**
 What `analyze_body` lists for any operator sequence at all, well nested or not: calls, indirect calls, branch tables,
 regions and diagnostics, as far as the scan reads.
 */
module WasmScan {
  import opened Basics
  import opened Selections
  import opened WasmCfg

  /** The scan after `j` operators. */
  function Scanned(pos: seq<nat>, ops: seq<Op>, j: nat): Scan
    requires j <= |ops| == |pos|
  {
    RunOps(START, pos, ops, 0, j)
  }

  /** The scan reads the first `j` operators: the function is not closed and no budget exceeded before. */
  ghost predicate Reads(pos: seq<nat>, ops: seq<Op>, j: nat)
    requires j <= |ops| == |pos|
  {
    forall i :: 0 <= i < j ==> !Scanned(pos, ops, i).done && !Scanned(pos, ops, i).fault
  }

  lemma ScannedNext(pos: seq<nat>, ops: seq<Op>, j: nat)
    requires j < |ops| == |pos| && Reads(pos, ops, j + 1)
    ensures Scanned(pos, ops, j + 1) == Step(Scanned(pos, ops, j), pos[j], ops[j])
  {
    RunSplit(START, pos, ops, 0, j, j + 1);
    hide Step;
    var s := Scanned(pos, ops, j);
    assert !s.done && !s.fault;
    assert RunOps(Step(s, pos[j], ops[j]), pos, ops, j + 1, j + 1) == Step(s, pos[j], ops[j]);
  }

  // ------------------------------------------------------------------ lists

  function Items(pos: seq<nat>, ops: seq<Op>, j: nat): seq<(nat, Op)>
    requires j <= |ops| == |pos|
  {
    seq(j, i requires 0 <= i < j => (pos[i], ops[i]))
  }

  function CallIn(x: (nat, Op)): Option<(nat, nat)> {
    if x.1.Call? || x.1.ReturnCall? then Some((x.0, x.1.fn)) else None
  }

  function IndirectIn(x: (nat, Op)): Option<(nat, nat, nat)> {
    if x.1.CallIndirect? then Some((x.0, x.1.ty, x.1.table)) else None
  }

  function TableIn(x: (nat, Op)): Option<nat> { if x.1.BrTable? then Some(x.0) else None }

  /** The offset and the operator that opens a region. */
  function OpenIn(x: (nat, Op)): Option<(nat, Op)> {
    if x.1.Block? || x.1.Loop? || x.1.If? || x.1.Try? then Some(x) else None
  }

  function Opener(k: Kind): Op { match k case KBlock => Block case KLoop => Loop case KIf(_) => If case KTry => Try }

  function Openings(regions: seq<Region>): seq<(nat, Op)> {
    seq(|regions|, i requires 0 <= i < |regions| => (regions[i].start, Opener(regions[i].kind)))
  }

  function Offsets(tables: seq<(nat, seq<nat>)>): seq<nat> {
    seq(|tables|, i requires 0 <= i < |tables| => tables[i].0)
  }

  function ToSeq<T>(x: Option<T>): seq<T> { match x case Some(y) => [y] case None => [] }

  lemma CallsStep(s: Scan, p: nat, op: Op)
    ensures var s' := Step(s, p, op);
      && s'.rest.calls == s.rest.calls + ToSeq(CallIn((p, op)))
      && s'.rest.indirectCalls == s.rest.indirectCalls + ToSeq(IndirectIn((p, op)))
      && Offsets(s'.rest.brTables) == Offsets(s.rest.brTables) + ToSeq(TableIn((p, op)))
  {
    hide Resolved; hide ResolveLabel; hide Amend;
  }

  lemma AmendKeepsOpenings(regions: seq<Region>, id: nat, f: Region -> Region)
    requires forall r :: f(r).start == r.start && Opener(f(r).kind) == Opener(r.kind)
    ensures Openings(Amend(regions, id, f)) == Openings(regions)
  {
  }

  lemma OpeningsStep(s: Scan, p: nat, op: Op)
    ensures var s' := Step(s, p, op);
      !s'.fault ==> Openings(s'.regions) == Openings(s.regions) + ToSeq(OpenIn((p, op)))
  {
    if op.Else? && s.stack != [] {
      AmendKeepsOpenings(s.regions, s.stack[|s.stack| - 1], MarkElse);
    } else if op.End? && s.stack != [] {
      AmendKeepsOpenings(s.regions, s.stack[|s.stack| - 1], CloseAt(p));
    }
    hide Resolved; hide ResolveLabel; hide Amend;
  }

  /**
   As far as the scan reads, it lists exactly the calls and tail calls with their functions, the indirect calls with
   type and table, the branch tables and the opened regions, each in order with its offset.
   */
  lemma {:induction false} ListsAre(pos: seq<nat>, ops: seq<Op>, j: nat)
    requires j <= |ops| == |pos| && Reads(pos, ops, j) && !Scanned(pos, ops, j).fault
    ensures var s, items := Scanned(pos, ops, j), Items(pos, ops, j);
      && Picked(items, CallIn, s.rest.calls) && Picked(items, IndirectIn, s.rest.indirectCalls)
      && Picked(items, TableIn, Offsets(s.rest.brTables)) && Picked(items, OpenIn, Openings(s.regions))
  {
    hide Picked; hide Step; hide Openings; hide Offsets;
    if j == 0 {
      NothingScanned(pos, ops);
      PickedNone(CallIn);
      PickedNone(IndirectIn);
      PickedNone(TableIn);
      PickedNone(OpenIn);
    } else {
      var s, less, x := Scanned(pos, ops, j - 1), Items(pos, ops, j - 1), (pos[j - 1], ops[j - 1]);
      assert Items(pos, ops, j) == less + [x];
      ListsAre(pos, ops, j - 1);
      ScannedNext(pos, ops, j - 1);
      CallsStep(s, pos[j - 1], ops[j - 1]);
      OpeningsStep(s, pos[j - 1], ops[j - 1]);
      hide Scanned; hide Items; hide Reads; hide CallIn; hide IndirectIn; hide TableIn; hide OpenIn;
      PickedNext(less, CallIn, s.rest.calls, x);
      PickedNext(less, IndirectIn, s.rest.indirectCalls, x);
      PickedNext(less, TableIn, Offsets(s.rest.brTables), x);
      PickedNext(less, OpenIn, Openings(s.regions), x);
    }
  }

  lemma NothingScanned(pos: seq<nat>, ops: seq<Op>)
    requires |ops| == |pos|
    ensures Scanned(pos, ops, 0) == START && Items(pos, ops, 0) == []
    ensures Openings(START.regions) == [] && Offsets(START.rest.brTables) == []
  {
  }

  // ------------------------------------------------------------------ branches

  /** An operator in scope of `stack` branches to region `t`. */
  predicate BranchesTo(stack: seq<nat>, op: Op, t: nat) {
    || ((op.Br? || op.BrIf?) && LabelAt(stack, op.depth, t))
    || (op.BrTable? && exists d :: d in op.targets + [op.default] && LabelAt(stack, d, t))
  }

  predicate LabelAt(stack: seq<nat>, depth: nat, t: nat) { depth < |stack| && stack[|stack| - 1 - depth] == t }

  lemma {:induction false} ResolvedMembers(stack: seq<nat>, depths: seq<nat>, t: nat)
    ensures t in Resolved(stack, depths) <==> exists d :: d in depths && LabelAt(stack, d, t)
  {
    if depths != [] {
      var n := |depths| - 1;
      var less := depths[..n];
      ResolvedMembers(stack, less, t);
      assert depths == less + [depths[n]];
      assert t in Resolved(stack, depths) <==> t in Resolved(stack, less) || LabelAt(stack, depths[n], t);
      hide Resolved;
      if d :| d in less && LabelAt(stack, d, t) { assert d in depths; }
      if LabelAt(stack, depths[n], t) { assert depths[n] in depths; }
    }
  }

  lemma HitsMembers(p: nat, targets: seq<nat>, off: nat, t: nat)
    ensures (off, t) in Hits(p, targets) <==> off == p && t in targets
  {
    if off == p && t in targets {
      var i :| 0 <= i < |targets| && targets[i] == t;
      assert Hits(p, targets)[i] == (off, t);
    }
  }

  lemma LogStep(s: Scan, p: nat, op: Op, off: nat, t: nat)
    ensures (off, t) in Step(s, p, op).log <==> (off, t) in s.log || (off == p && BranchesTo(s.stack, op, t))
  {
    if op.BrTable? {
      var targets := Resolved(s.stack, op.targets + [op.default]);
      ResolvedMembers(s.stack, op.targets + [op.default], t);
      HitsMembers(p, targets, off, t);
    }
    hide Resolved; hide Hits; hide Amend;
  }

  ghost predicate BranchAt(pos: seq<nat>, ops: seq<Op>, i: nat, off: nat, t: nat) {
    i < |ops| == |pos| && pos[i] == off && BranchesTo(Scanned(pos, ops, i).stack, ops[i], t)
  }

  /**
   As far as the scan reads, a branch to a region is noted at an offset if and only if an operator there branches to it.
   */
  lemma {:induction false} BranchNotedIff(pos: seq<nat>, ops: seq<Op>, j: nat, off: nat, t: nat)
    requires j <= |ops| == |pos| && Reads(pos, ops, j)
    ensures (off, t) in Scanned(pos, ops, j).log <==> exists i: nat :: i < j && BranchAt(pos, ops, i, off, t)
  {
    hide Step; hide BranchesTo;
    if j > 0 {
      BranchNotedIff(pos, ops, j - 1, off, t);
      ScannedNext(pos, ops, j - 1);
      LogStep(Scanned(pos, ops, j - 1), pos[j - 1], ops[j - 1], off, t);
      var here := pos[j - 1] == off && BranchesTo(Scanned(pos, ops, j - 1).stack, ops[j - 1], t);
      assert BranchAt(pos, ops, j - 1, off, t) <==> here;
      hide Scanned; hide BranchAt;
    }
  }

  function LabelIn(stack: seq<nat>): (f: nat -> Option<nat>) {
    (d: nat) => if d < |stack| then Some(stack[|stack| - 1 - d]) else None
  }

  lemma {:induction false} ResolvedPicked(stack: seq<nat>, depths: seq<nat>)
    ensures Picked(depths, LabelIn(stack), Resolved(stack, depths))
  {
    hide Picked;
    if depths == [] {
      PickedNone(LabelIn(stack));
    } else {
      var n := |depths| - 1;
      ResolvedPicked(stack, depths[..n]);
      PickedNext(depths[..n], LabelIn(stack), Resolved(stack, depths[..n]), depths[n]);
      assert depths == depths[..n] + [depths[n]];
    }
  }

  /**
   A branch table is listed with exactly its targets in scope, in order and the default last, and branches to each.
   */
  lemma TableTargets(s: Scan, p: nat, op: Op)
    requires op.BrTable?
    ensures var s' := Step(s, p, op); var n := |s.rest.brTables|;
      && |s'.rest.brTables| == n + 1 && s'.rest.brTables[..n] == s.rest.brTables && s'.rest.brTables[n].0 == p
      && Picked(op.targets + [op.default], LabelIn(s.stack), s'.rest.brTables[n].1)
      && s'.log == s.log + Hits(p, s'.rest.brTables[n].1)
  {
    ResolvedPicked(s.stack, op.targets + [op.default]);
    hide Picked; hide Resolved; hide Hits;
  }

  function SourceIn(id: nat): (f: ((nat, nat)) -> Option<nat>) {
    (x: (nat, nat)) => if x.1 == id then Some(x.0) else None
  }

  lemma {:induction false} SourcesPicked(log: seq<(nat, nat)>, id: nat)
    ensures Picked(log, SourceIn(id), SourcesOf(log, id))
  {
    hide Picked;
    if log == [] {
      PickedNone(SourceIn(id));
    } else {
      var n := |log| - 1;
      SourcesPicked(log[..n], id);
      PickedNext(log[..n], SourceIn(id), SourcesOf(log[..n], id), log[n]);
      assert log == log[..n] + [log[n]];
    }
  }

  /** The branch sources of a region are, in order, the offsets of the branches noted to it. */
  lemma SourcesAre(pos: seq<nat>, ops: seq<Op>, i: nat)
    requires |ops| == |pos| && Analyze(pos, ops).Ok? && i < |Analyze(pos, ops).cfg.regions|
    ensures var s, r := Scanned(pos, ops, Min(|ops|, MAX_OPERATORS)), Analyze(pos, ops).cfg.regions[i];
      Picked(s.log, SourceIn(r.id), r.sources)
  {
    var s := Scanned(pos, ops, Min(|ops|, MAX_OPERATORS));
    assert Analyze(pos, ops) == Ok(Summary(s));
    hide RunOps; hide Analyze; hide Scanned;
    SourcesPicked(s.log, s.regions[i].id);
    hide SourcesOf; hide Picked;
  }

  // ------------------------------------------------------------------ height and diagnostics

  predicate Opens(op: Op) { op.Block? || op.Loop? || op.If? || op.Try? }

  /** Each construct opened adds one label, and each `end` takes one. */
  lemma HeightMoves(s: Scan, p: nat, op: Op)
    requires !s.done
    ensures var s' := Step(s, p, op);
      !s'.fault ==>
        && |s'.stack| == (if Opens(op) then |s.stack| + 1 else if op.End? && s.stack != [] then |s.stack| - 1
                          else |s.stack|)
        && (s'.done <==> op.End? && |s.stack| == 1)
  {
    hide Resolved; hide ResolveLabel; hide Amend;
  }

  /** What an operator is reported for, given the number of labels in scope. */
  function NoteOf(height: nat, p: nat, op: Op): Option<Note> {
    if op.Try? then Some(TryConstruct(p))
    else if (op.Br? || op.BrIf?) && op.depth >= height then Some(OutOfRange(p, op.depth))
    else if op.ReturnCall? then Some(TailCall(p))
    else if op.ReturnCallIndirect? then Some(TailCallIndirect(p))
    else None
  }

  lemma NotesStep(s: Scan, p: nat, op: Op)
    ensures Step(s, p, op).rest.notes == s.rest.notes + ToSeq(NoteOf(|s.stack|, p, op))
  {
    hide Resolved; hide Amend;
  }

  /**
   As far as the scan reads, it reports nothing if and only if there is no `try`, no tail call and no branch deeper than
   the labels in scope.
   */
  lemma {:induction false} QuietIff(pos: seq<nat>, ops: seq<Op>, j: nat)
    requires j <= |ops| == |pos| && Reads(pos, ops, j)
    ensures Scanned(pos, ops, j).rest.notes == [] <==>
      forall i :: 0 <= i < j ==> NoteOf(|Scanned(pos, ops, i).stack|, pos[i], ops[i]) == None
  {
    hide Step;
    if j > 0 {
      QuietIff(pos, ops, j - 1);
      ScannedNext(pos, ops, j - 1);
      NotesStep(Scanned(pos, ops, j - 1), pos[j - 1], ops[j - 1]);
      hide Scanned; hide NoteOf;
    }
  }

  lemma ScannedEither(pos: seq<nat>, ops: seq<Op>, j: nat)
    requires j < |ops| == |pos|
    ensures var s := Scanned(pos, ops, j);
      Scanned(pos, ops, j + 1) == if s.done || s.fault then s else Step(s, pos[j], ops[j])
  {
    RunSplit(START, pos, ops, 0, j, j + 1);
    hide Step;
    var s := Scanned(pos, ops, j);
    assert RunOps(Step(s, pos[j], ops[j]), pos, ops, j + 1, j + 1) == Step(s, pos[j], ops[j]);
  }

  lemma {:induction false} NothingUnclosedYet(pos: seq<nat>, ops: seq<Op>, j: nat)
    requires j <= |ops| == |pos|
    ensures forall x :: x in Scanned(pos, ops, j).rest.notes ==> !x.Unclosed?
  {
    hide Step;
    if j > 0 {
      NothingUnclosedYet(pos, ops, j - 1);
      ScannedEither(pos, ops, j - 1);
      NotesStep(Scanned(pos, ops, j - 1), pos[j - 1], ops[j - 1]);
      hide Scanned;
    }
  }

  /**
   A body is reported unclosed, with the number of labels left, if and only if more than the function's own is left.
   */
  lemma UnclosedIff(pos: seq<nat>, ops: seq<Op>, n: nat)
    requires |ops| == |pos| && Analyze(pos, ops).Ok?
    ensures var height := |Scanned(pos, ops, Min(|ops|, MAX_OPERATORS)).stack|;
      Unclosed(n) in Analyze(pos, ops).cfg.extras.notes <==> n == height > 1
  {
    NothingUnclosedYet(pos, ops, Min(|ops|, MAX_OPERATORS));
    var s := Scanned(pos, ops, Min(|ops|, MAX_OPERATORS));
    assert Analyze(pos, ops) == Ok(Summary(s));
    hide RunOps; hide Decorate; hide Analyze; hide Scanned;
  }
}
