/**
 What the worker's content, answers, snapshots and index mean: every cell holds what was last written to it, a snapshot
 brings back what it was taken of, and the index lists the calls.
 */
module WorkerLaws {
  import opened Basics
  import opened Texts
  import opened Selections
  import opened Revision

  // ------------------------------------------------------------------ cells

  function Lookup<K, V>(m: map<K, V>, k: K): Option<V> { if k in m then Some(m[k]) else None }

  /** What one operation makes of the name at `ea`. */
  function NameStep(before: Option<string>, op: Op, ea: nat): Option<string> {
    if op.Rename? && op.ea == ea then Some(op.name)
    else if op.Delete? && op.ea == ea then None
    else if op.Create? && op.ea == ea && before == None then Some("sub_" + HexDigits(ea))
    else before
  }

  function NameAfter(before: Option<string>, ops: seq<Op>, ea: nat): Option<string> {
    if ops == [] then before else NameStep(NameAfter(before, ops[..|ops| - 1], ea), ops[|ops| - 1], ea)
  }

  /** The text of the last comment written at `(ea, rep)`, if any was. */
  function LastComment(ops: seq<Op>, ea: nat, rep: bool): Option<string> {
    if ops == [] then None else
      var op := ops[|ops| - 1];
      if op.Comment? && op.ea == ea && op.repeatable == rep then Some(op.text)
      else LastComment(ops[..|ops| - 1], ea, rep)
  }

  /** The last patch written at `ea`. */
  function LastPatch(ops: seq<Op>, ea: nat): Option<seq<nat>> {
    if ops == [] then None else
      var op := ops[|ops| - 1];
      if op.Patch? && op.ea == ea then op.bytes else LastPatch(ops[..|ops| - 1], ea)
  }

  function OrElse<V>(x: Option<V>, y: Option<V>): Option<V> { if x.Some? then x else y }

  /**
   Replaying operations leaves at each address the name last given to it, at each comment slot the text last written
   there and at each patched address the bytes last written there; everything else is as it was.
   */
  lemma {:induction false} LastWriteWins(c: Content, ops: seq<Op>, ea: nat, rep: bool)
    requires Replay(c, ops).Some?
    ensures var m := Replay(c, ops).value;
      && Lookup(m.names, ea) == NameAfter(Lookup(c.names, ea), ops, ea)
      && Lookup(m.comments, (ea, rep)) == OrElse(LastComment(ops, ea, rep), Lookup(c.comments, (ea, rep)))
      && Lookup(m.bytes, ea) == OrElse(LastPatch(ops, ea), Lookup(c.bytes, ea))
  {
    if ops != [] {
      var n := |ops| - 1;
      hide Change;
      LastWriteWins(c, ops[..n], ea, rep);
      CellStep(Replay(c, ops[..n]).value, ops[n], ea, rep);
    }
  }

  lemma CellStep(c: Content, op: Op, ea: nat, rep: bool)
    requires Change(c, op).Some?
    ensures var m := Change(c, op).value;
      && Lookup(m.names, ea) == NameStep(Lookup(c.names, ea), op, ea)
      && Lookup(m.comments, (ea, rep)) ==
         (if op.Comment? && op.ea == ea && op.repeatable == rep then Some(op.text) else Lookup(c.comments, (ea, rep)))
      && Lookup(m.bytes, ea) == (if op.Patch? && op.ea == ea then op.bytes else Lookup(c.bytes, ea))
      && (op.Patch? ==> op.bytes.Some?)
  {
    hide HexDigits;
  }

  /** Over any run without rollback, the same for the operations the requests applied. */
  lemma RunLastWriteWins(w: Worker, reqs: seq<Request>, i: nat, j: nat, ea: nat, rep: bool)
    requires w.db.Some? && NoRollback(reqs) && i <= j <= |reqs|
    ensures After(w, reqs, i).db.Some? && After(w, reqs, j).db.Some?
    ensures var c, m := After(w, reqs, i).db.value.content, After(w, reqs, j).db.value.content;
      var ops := Log(w, reqs, i, j);
      && Lookup(m.names, ea) == NameAfter(Lookup(c.names, ea), ops, ea)
      && Lookup(m.comments, (ea, rep)) == OrElse(LastComment(ops, ea, rep), Lookup(c.comments, (ea, rep)))
      && Lookup(m.bytes, ea) == OrElse(LastPatch(ops, ea), Lookup(c.bytes, ea))
  {
    RunIsItsLog(w, reqs, i, j);
    hide After; hide Log; hide Entries; hide Replay;
    LastWriteWins(After(w, reqs, i).db.value.content, Log(w, reqs, i, j), ea, rep);
  }

  // ------------------------------------------------------------------ answers

  /** What an operation needs and does not find. */
  predicate Refuses(c: Content, op: Op) {
    || ((op.Rename? || op.Delete? || op.Retype?) && op.ea !in c.names)
    || (op.Retype? && Blank(op.decl))
    || (op.Patch? && op.bytes == None)
    || (op.Resize? && op.start == None && op.end == None)
    || (op.RenameVariable? && forall f <- c.names :: !(f <= op.ea < f + 0x40))
    || (op.CreateStruct? && (Blank(op.name) || op.fields == []))
  }

  predicate Passes(d: Db, g: Guard) { g == Absent || g == Expect(d.revision) }

  /**
   A mutation is applied if and only if the database is open, the guard is absent or current and nothing is missing.
   */
  lemma AppliedIff(w: Worker, op: Op, g: Guard)
    requires w.db.Some?
    ensures var (v, a) := Handle(w, Mutate(op, g)); var d := w.db.value;
      && (a.Applied? <==> d.open && Passes(d, g) && !Refuses(d.content, op))
      && (a.Applied? ==> v.db.Some? && a == Applied(v.db.value.revision) && v.db.value.revision == d.revision + 1)
      && (!a.Applied? ==> v == w)
  {
    hide HexDigits;
  }

  /** What a plan reports is what it did. */
  lemma PlanReports(w: Worker, ops: seq<PlannedOp>, g: Guard)
    requires w.db.Some? && w.db.value.open
    ensures var (v, a) := Handle(w, PlanApply(ops, g)); var d := w.db.value;
      && v.db.Some?
      && (a.Conflict? <==> g.Expect? && g.revision != d.revision)
      && (a.PlanDone? ==> a == PlanDone(|ops|, v.db.value.revision) && v.db.value.revision == d.revision + |ops|)
      && (a.PlanStopped? ==> a.applied < |ops| && v.db.value.revision == d.revision + a.applied
                             && Refuses(v.db.value.content, ops[a.applied]))
      && (a.Conflict? || a.PlanDone? || a.PlanStopped?)
  {
    PlanLeavesPrefix(w, ops, |ops|);
    var (v, n) := PlanRun(w, ops, |ops|);
    if n < |ops| { RefusesIff(v.db.value.content, ops[n]); }
    hide PlanRun; hide Change; hide Refuses; hide Replay; hide Entries;
  }

  lemma RefusesIff(c: Content, op: Op)
    ensures Change(c, op) == None <==> Refuses(c, op)
  {
    hide HexDigits;
  }

  /** The revision read is the current one; opening and closing change nothing else. */
  lemma OpenAndClose(w: Worker)
    requires w.db.Some?
    ensures Handle(w, ReadRevision) == (w, Now(w.db.value.revision))
    ensures Handle(w, Open) == if w.db.value.open then (w, Failed)
      else (w.(db := Some(w.db.value.(open := true))), Fine)
    ensures Handle(w, Close) == (w.(db := Some(w.db.value.(open := false))), Fine)
  {
  }

  // ------------------------------------------------------------------ the audit trail

  function AuditedOp(op: Op): Option<Op> { if op.CreateStruct? then None else Some(op) }

  function OpsOf(trail: seq<Entry>): seq<Op> { seq(|trail|, i requires 0 <= i < |trail| => trail[i].op) }

  /** The entries are numbered, of the operations at positions `at`, with the revision each of them made. */
  ghost predicate TrailAt(start: nat, revision: nat, ops: seq<Op>, trail: seq<Entry>, at: seq<nat>) {
    && PickedAt(ops, AuditedOp, OpsOf(trail), at)
    && (forall i :: 0 <= i < |trail| ==> trail[i].number == start + i && trail[i].revisionAfter == revision + at[i] + 1)
  }

  /** Operations leave entries for all of them but the creations of structures, in order. */
  lemma {:induction false} TrailIsExact(start: nat, revision: nat, ops: seq<Op>) returns (at: seq<nat>)
    ensures |at| == |Entries(start, revision, ops)| && TrailAt(start, revision, ops, Entries(start, revision, ops), at)
  {
    if ops == [] {
      at := [];
    } else {
      var n := |ops| - 1;
      at := TrailIsExact(start, revision, ops[..n]);
      TrailNext(start, revision, ops, Entries(start, revision, ops[..n]), at);
      if Audited(ops[n]) { at := at + [n]; }
    }
  }

  lemma TrailNext(start: nat, revision: nat, ops: seq<Op>, trail: seq<Entry>, at: seq<nat>)
    requires ops != [] && |at| == |trail| && TrailAt(start, revision, ops[..|ops| - 1], trail, at)
    ensures var n := |ops| - 1;
      if Audited(ops[n])
      then TrailAt(start, revision, ops, trail + [Entry(start + |trail|, ops[n], revision + |ops|)], at + [n])
      else TrailAt(start, revision, ops, trail, at)
  {
    var n := |ops| - 1;
    assert forall i :: 0 <= i < |at| ==> ops[..n][at[i]] == ops[at[i]];
    assert forall k :: 0 <= k < n ==> ops[..n][k] == ops[k];
  }

  /** Over any run without rollback the trail grows by exactly the entries of the operations applied. */
  lemma RunTrailIsExact(w: Worker, reqs: seq<Request>, i: nat, j: nat) returns (at: seq<nat>)
    requires w.db.Some? && NoRollback(reqs) && i <= j <= |reqs|
    ensures var a, b := After(w, reqs, i), After(w, reqs, j);
      && a.db.Some? && a.audit <= b.audit && |at| == |b.audit| - |a.audit|
      && TrailAt(|a.audit|, a.db.value.revision, Log(w, reqs, i, j), b.audit[|a.audit|..], at)
  {
    RunIsItsLog(w, reqs, i, j);
    hide After; hide Log; hide TrailAt; hide Entries;
    var a, b := After(w, reqs, i), After(w, reqs, j);
    at := TrailIsExact(|a.audit|, a.db.value.revision, Log(w, reqs, i, j));
    assert b.audit[|a.audit|..] == Entries(|a.audit|, a.db.value.revision, Log(w, reqs, i, j));
  }

  // ------------------------------------------------------------------ snapshots

  /** The snapshots held after `k` requests. */
  function Held(w: Worker, reqs: seq<Request>, k: nat): seq<Snapshot>
    requires k <= |reqs|
  {
    var d := After(w, reqs, k).db;
    if d.Some? then d.value.snapshots else []
  }

  predicate NoSelect(reqs: seq<Request>) { forall k :: 0 <= k < |reqs| ==> !reqs[k].Select? }

  lemma StackStep(w: Worker, r: Request, h: nat)
    requires w.db.Some? && !r.Select? && h <= |w.db.value.snapshots|
    ensures Handle(w, r).0.db.Some?
    ensures var s, s' := w.db.value.snapshots, Handle(w, r).0.db.value.snapshots; h <= |s'| ==> s'[..h] == s[..h]
  {
    if r.PlanApply? {
      if w.db.value.open { PlanLeavesPrefix(w, r.ops, |r.ops|); } else { ClosedPlanStops(w, r.ops, |r.ops|); }
    }
    hide PlanRun; hide Change; hide IndexOf; hide Follows;
  }

  lemma {:induction false} StackStays(w: Worker, reqs: seq<Request>, h: nat, k: nat)
    requires w.db.Some? && NoSelect(reqs) && k <= |reqs| && h <= |w.db.value.snapshots|
    requires forall i :: 0 <= i <= k ==> h <= |Held(w, reqs, i)|
    ensures After(w, reqs, k).db.Some? && Held(w, reqs, k)[..h] == w.db.value.snapshots[..h]
  {
    hide Handle;
    if k > 0 {
      StackStays(w, reqs, h, k - 1);
      StackStep(After(w, reqs, k - 1), reqs[k - 1], h);
    }
  }

  /**
   A snapshot brings back what it was taken of: after any run in which that snapshot stays on the stack, mutations,
   plans and further snapshots with their rollbacks included, and at whose end it is the last one, restoring gives the
   content it was taken of and the revision after its own.
   */
  lemma SnapshotRoundTrip(w: Worker, reqs: seq<Request>)
    requires w.db.Some? && w.db.value.open && NoSelect(reqs)
    requires var taken := Handle(w, SnapshotCreate).0; var h := |w.db.value.snapshots| + 1;
      && (forall i :: 0 <= i <= |reqs| ==> h <= |Held(taken, reqs, i)|) && |Held(taken, reqs, |reqs|)| == h
      && After(taken, reqs, |reqs|).db.Some? && After(taken, reqs, |reqs|).db.value.open
    ensures var v := Handle(After(Handle(w, SnapshotCreate).0, reqs, |reqs|), SnapshotRestore).0; var d := w.db.value;
      v.db == Some(d.(revision := d.revision + 1))
  {
    var d := w.db.value;
    var taken, h := Handle(w, SnapshotCreate).0, |d.snapshots| + 1;
    StackStays(taken, reqs, h, |reqs|);
    var held := Held(taken, reqs, |reqs|);
    assert held[..h] == held && taken.db.value.snapshots[..h] == taken.db.value.snapshots;
    assert held[..|held| - 1] == d.snapshots;
    hide After;
  }

  // ------------------------------------------------------------------ the index

  function CalleeIn(ea: nat): (f: ((nat, nat)) -> Option<nat>) {
    (c: (nat, nat)) => if c.0 == ea then Some(c.1) else None
  }

  function CallerIn(ea: nat): (f: ((nat, nat)) -> Option<nat>) {
    (c: (nat, nat)) => if c.1 == ea then Some(c.0) else None
  }

  lemma {:induction false} CallsPicked(ea: nat, k: nat)
    requires k <= |CALLS|
    ensures Picked(CALLS[..k], CalleeIn(ea), Callees(ea, k)) && Picked(CALLS[..k], CallerIn(ea), Callers(ea, k))
  {
    hide Picked; hide CalleeIn; hide CallerIn;
    if k == 0 {
      PickedNone(CalleeIn(ea));
      PickedNone(CallerIn(ea));
      assert CALLS[..0] == [];
    } else {
      var last := CALLS[k - 1];
      CallsPicked(ea, k - 1);
      PickedNext(CALLS[..k - 1], CalleeIn(ea), Callees(ea, k - 1), last);
      PickedNext(CALLS[..k - 1], CallerIn(ea), Callers(ea, k - 1), last);
      assert CALLS[..k] == CALLS[..k - 1] + [last];
      PickLast(ea, k);
    }
  }

  lemma PickLast(ea: nat, k: nat)
    requires 0 < k <= |CALLS|
    ensures Callees(ea, k) == Callees(ea, k - 1) + match CalleeIn(ea)(CALLS[k - 1]) case Some(y) => [y] case None => []
    ensures Callers(ea, k) == Callers(ea, k - 1) + match CallerIn(ea)(CALLS[k - 1]) case Some(y) => [y] case None => []
  {
  }

  /**
   The index holds exactly the functions named, each with its name, its callees and its callers: `b` is a callee of `a`,
   and `a` a caller of `b`, if and only if the call from `a` to `b` is listed.
   */
  lemma IndexListsCalls(d: Db, a: nat, b: nat)
    ensures var f := IndexOf(d).functions;
      && IndexOf(d).revision == d.revision && f.Keys == d.content.names.Keys
      && (a in f ==> f[a].name == d.content.names[a] && f[a].end == a + 0x40)
      && (a in f ==> (b in f[a].callees <==> (a, b) in CALLS))
      && (b in f ==> (a in f[b].callers <==> (a, b) in CALLS))
  {
    assert CALLS[..|CALLS|] == CALLS;
    CallsPicked(a, |CALLS|);
    CallsPicked(b, |CALLS|);
    PickedMembers(CALLS, CalleeIn(a), Callees(a, |CALLS|), b);
    PickedMembers(CALLS, CallerIn(b), Callers(b, |CALLS|), a);
    hide Picked; hide Callees; hide Callers;
    assert (a, b) in CALLS <==> exists k :: 0 <= k < |CALLS| && CALLS[k] == (a, b);
  }
}
