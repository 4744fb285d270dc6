/**
 The objects behind `Revision`: the in-memory backend and the worker's state,
 whose methods are proved to do what the functions on values say.
 */
module WorkerStates {
  import opened Basics
  import opened Revision
  import opened Texts

  /** What a mutator does: the effect and its new revision, or nothing at all. */
  ghost predicate Did(before: Db, op: Op, after: Db, out: Option<nat>) {
    match Effect(before, op)
    case None => after == before && out == None
    case Some(d) => after == d && out == Some(d.revision)
  }

  class MockBackend {
    var open: bool
    var revision: nat
    var names: map<nat, string>
    var comments: map<(nat, bool), string>
    var bytes: map<nat, seq<nat>>
    var snapshots: seq<Snapshot>

    ghost function View(): Db
      reads this
    {
      Db(open, revision, Content(names, comments, bytes), snapshots)
    }

    constructor ()
      ensures View() == NewDb()
    {
      open, revision, snapshots := false, 0, [];
      names := map[0x401000 := "main", 0x401100 := "helper", 0x401200 := "decrypt_packet",
                   0x401300 := "dispatch", 0x401400 := "call_via_ptr"];
      comments := map[];
      bytes := map[0x401000 := [0x55, 0x48, 0x89, 0xe5, 0xc3], 0x401100 := [0x55, 0xc3]];
    }

    method Bump() returns (r: nat)
      modifies this`revision
      ensures r == revision == old(revision) + 1
    {
      revision := revision + 1;
      r := revision;
    }

    method PatchBytes(ea: nat, decoded: Option<seq<nat>>) returns (out: Option<nat>)
      modifies this
      ensures Did(old(View()), Patch(ea, decoded), View(), out)
    {
      if !open || decoded.None? { return None; }
      bytes := bytes[ea := decoded.value];
      var r := Bump();
      out := Some(r);
    }

    method SetComment(ea: nat, text: string, repeatable: bool) returns (out: Option<nat>)
      modifies this
      ensures Did(old(View()), Comment(ea, text, repeatable), View(), out)
    {
      if !open { return None; }
      comments := comments[(ea, repeatable) := text];
      var r := Bump();
      out := Some(r);
    }

    method RenameFunction(ea: nat, name: string) returns (out: Option<nat>)
      modifies this
      ensures Did(old(View()), Rename(ea, name), View(), out)
    {
      if !open || ea !in names { return None; }
      names := names[ea := name];
      var r := Bump();
      out := Some(r);
    }

    method SetTypeAt(ea: nat, decl: string) returns (out: Option<nat>)
      modifies this
      ensures Did(old(View()), SetType(ea, decl), View(), out)
    {
      if !open { return None; }
      var r := Bump();
      out := Some(r);
    }

    method FuncCreate(ea: nat, end: Option<nat>) returns (out: Option<nat>)
      modifies this
      ensures Did(old(View()), Create(ea, end), View(), out)
    {
      if !open { return None; }
      if ea !in names {
        names := names[ea := "sub_" + HexDigits(ea)];
      }
      var r := Bump();
      out := Some(r);
    }

    method FuncDelete(ea: nat) returns (out: Option<nat>)
      modifies this
      ensures Did(old(View()), Delete(ea), View(), out)
    {
      if !open || ea !in names { return None; }
      names := names - {ea};
      var r := Bump();
      out := Some(r);
    }

    method FuncResize(ea: nat, start: Option<nat>, end: Option<nat>) returns (out: Option<nat>)
      modifies this
      ensures Did(old(View()), Resize(ea, start, end), View(), out)
    {
      if !open || (start.None? && end.None?) { return None; }
      var r := Bump();
      out := Some(r);
    }

    method RenameLocal(ea: nat, defined: nat, name: string) returns (out: Option<nat>)
      modifies this
      ensures Did(old(View()), RenameVariable(ea, defined, name), View(), out)
    {
      if !open || !(exists f <- names :: f <= ea < f + 0x40) { return None; }
      var r := Bump();
      out := Some(r);
    }

    method ApplyPrototype(ea: nat, decl: string) returns (out: Option<nat>)
      modifies this
      ensures Did(old(View()), Retype(ea, decl), View(), out)
    {
      if !open || ea !in names || Blank(decl) { return None; }
      var r := Bump();
      out := Some(r);
    }

    method StructCreate(name: string, fields: seq<string>) returns (out: Option<nat>)
      modifies this
      ensures Did(old(View()), CreateStruct(name, fields), View(), out)
    {
      if !open || Blank(name) || fields == [] { return None; }
      var r := Bump();
      out := Some(r);
    }

    /** The mutator an operation names. */
    method Do(op: Op) returns (out: Option<nat>)
      modifies this
      ensures Did(old(View()), op, View(), out)
    {
      match op
      case Rename(ea, name) => out := RenameFunction(ea, name);
      case Comment(ea, text, rep) => out := SetComment(ea, text, rep);
      case Patch(ea, decoded) => out := PatchBytes(ea, decoded);
      case Create(ea, end) => out := FuncCreate(ea, end);
      case Delete(ea) => out := FuncDelete(ea);
      case SetType(ea, decl) => out := SetTypeAt(ea, decl);
      case Resize(ea, start, end) => out := FuncResize(ea, start, end);
      case RenameVariable(ea, defined, name) => out := RenameLocal(ea, defined, name);
      case Retype(ea, decl) => out := ApplyPrototype(ea, decl);
      case CreateStruct(name, fields) => out := StructCreate(name, fields);
    }

    method TakeSnapshot() returns (ok: bool)
      modifies this`snapshots
      ensures ok == open
      ensures snapshots == if open then old(snapshots) + [Snapshot(revision, Content(names, comments, bytes))]
        else old(snapshots)
    {
      ok := open;
      if open { snapshots := snapshots + [Snapshot(revision, Content(names, comments, bytes))]; }
    }

    method RestoreSnapshot() returns (ok: bool)
      modifies this
      ensures ok == old(open)
      ensures View() == if ok then Restore(old(View())) else old(View())
    {
      ok := open;
      if open && snapshots != [] {
        var snap := snapshots[|snapshots| - 1];
        snapshots := snapshots[..|snapshots| - 1];
        revision := snap.revision;
        names, comments, bytes := snap.content.names, snap.content.comments, snap.content.bytes;
        var _ := Bump();
      }
    }

    /** `build_index`: the functions first, then the call edges on both ends. */
    method BuildIndex() returns (idx: Index)
      ensures idx == IndexOf(View())
    {
      var functions := map ea <- names :: Facts(names[ea], ea + 0x40, [], []);
      for k := 0 to |CALLS|
        invariant functions == FactsOf(names, k)
      {
        var (from, to) := CALLS[k];
        LinkStep(names, k);
        hide FactsOf; hide Callees; hide Callers;
        if from in functions {
          functions := functions[from := functions[from].(callees := functions[from].callees + [to])];
        }
        if to in functions {
          functions := functions[to := functions[to].(callers := functions[to].callers + [from])];
        }
      }
      idx := Index(revision, functions);
    }
  }

  class WorkerState {
    var backend: MockBackend?
    var audit: seq<Entry>
    var index: Option<Index>

    ghost function View(): Worker
      reads this, backend
    {
      Worker(if backend == null then None else Some(backend.View()), audit, index)
    }

    constructor ()
      ensures View() == Worker(None, [], None)
    {
      backend, audit, index := null, [], None;
    }

    /** `check_revision`. */
    method CheckRevision(g: Guard) returns (stop: Option<Response>)
      requires backend != null
      ensures stop == Check(backend.View(), g)
    {
      match g
      case Absent => stop := None;
      case Malformed => stop := Some(BadGuard);
      case Expect(r) => stop := if r != backend.revision then Some(Conflict(r, backend.revision)) else None;
    }

    /** A single mutation: the guard, the backend, the audit trail. */
    method DoMutate(op: Op, g: Guard) returns (a: Response)
      requires backend != null
      modifies this`audit, backend
      ensures backend == old(backend)
      ensures (View(), a) == Handle(old(View()), Mutate(op, g))
    {
      var stop := CheckRevision(g);
      if stop.Some? { return stop.value; }
      var out := backend.Do(op);
      if out.None? { return Failed; }
      if Audited(op) {
        audit := audit + [Entry(|audit|, op, out.value)];
      }
      a := Applied(out.value);
    }

    /** `plan.apply`. */
    method DoPlan(ops: seq<PlannedOp>, g: Guard) returns (a: Response)
      requires backend != null
      modifies this`audit, backend
      ensures backend == old(backend)
      ensures (View(), a) == Handle(old(View()), PlanApply(ops, g))
    {
      hide Effect;
      if g.Expect? {
        var stop := CheckRevision(g);
        if stop.Some? { return stop.value; }
      }
      ghost var w := View();
      var i := 0;
      while i < |ops|
        invariant 0 <= i <= |ops| && backend == old(backend) && backend != null
        invariant PlanRun(w, ops, i) == (View(), i)
      {
        ghost var v := View();
        var out := backend.Do(ops[i]);
        if out.None? {
          assert View() == v;
          StoppedPlan(w, ops, i, |ops|);
          return PlanStopped(i);
        }
        audit := audit + [Entry(|audit|, ops[i], out.value)];
        i := i + 1;
      }
      a := PlanDone(i, backend.revision);
    }

    method DoQuery() returns (a: Response)
      requires backend != null
      modifies this`index
      ensures (View(), a) == Handle(old(View()), IndexQuery)
    {
      var stale := index.None? || index.value.revision != backend.revision;
      if stale {
        var idx := backend.BuildIndex();
        index := Some(idx);
      }
      a := Answer(index.value);
    }

    /** `dispatch`, for the requests modelled. */
    method Dispatch(r: Request) returns (a: Response)
      modifies this, backend
      ensures backend == old(backend) || fresh(backend)
      ensures (View(), a) == Handle(old(View()), r)
    {
      hide Effect; hide PlanRun; hide IndexOf; hide NewDb; hide Check;
      if r.Select? {
        backend := new MockBackend();
        return Fine;
      }
      if backend == null { return NoDb; }
      match r
      case Open =>
        if backend.open { return Failed; }
        backend.open := true;
        return Fine;
      case Close =>
        backend.open := false;
        return Fine;
      case ReadRevision => return Now(backend.revision);
      case Mutate(op, g) => a := DoMutate(op, g);
      case PlanApply(ops, g) => a := DoPlan(ops, g);
      case SnapshotCreate =>
        var ok := backend.TakeSnapshot();
        a := if ok then Fine else Failed;
      case SnapshotRestore =>
        var ok := backend.RestoreSnapshot();
        a := if ok then Fine else Failed;
      case IndexBuild =>
        var idx := backend.BuildIndex();
        index := Some(idx);
        a := Fine;
      case IndexQuery => a := DoQuery();
    }
  }

  lemma CallStep(ea: nat, k: nat)
    requires k < |CALLS|
    ensures Callees(ea, k + 1) == (if ea == CALLS[k].0 then Callees(ea, k) + [CALLS[k].1] else Callees(ea, k))
    ensures Callers(ea, k + 1) == (if ea == CALLS[k].1 then Callers(ea, k) + [CALLS[k].0] else Callers(ea, k))
  {
  }

  /** One call edge, recorded on whichever ends are indexed. */
  function Link(functions: map<nat, Facts>, from: nat, to: nat): map<nat, Facts> {
    var f := if from in functions then functions[from := functions[from].(callees := functions[from].callees + [to])]
      else functions;
    if to in f then f[to := f[to].(callers := f[to].callers + [from])] else f
  }

  lemma LinkStep(names: map<nat, string>, k: nat)
    requires k < |CALLS|
    ensures Link(FactsOf(names, k), CALLS[k].0, CALLS[k].1) == FactsOf(names, k + 1)
  {
    hide Callees; hide Callers;
    var (from, to) := CALLS[k];
    var linked := Link(FactsOf(names, k), from, to);
    forall ea | ea in names ensures ea in linked && linked[ea] == FactsOf(names, k + 1)[ea] {
      CallStep(ea, k);
    }
    assert linked.Keys == names.Keys;
  }

  /** A plan that fails at operation `i` does nothing more. */
  lemma {:induction false} StoppedPlan(w: Worker, ops: seq<Op>, i: nat, k: nat)
    requires w.db.Some? && i < k <= |ops| && PlanRun(w, ops, i).1 == i
    requires Effect(PlanRun(w, ops, i).0.db.value, ops[i]) == None
    ensures PlanRun(w, ops, k) == PlanRun(w, ops, i)
  {
    hide Effect;
    if i + 1 < k { StoppedPlan(w, ops, i, k - 1); }
  }
}
