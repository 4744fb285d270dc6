/**
 Revision-guarded mutations, plans and the revision-keyed analysis index, as
 functions on the worker's state.  `WorkerState.dfy` holds the classes that
 compute them.
 */
module Revision {
  import opened Basics
  import opened Texts

  // ------------------------------------------------------------------ the database

  datatype Content = Content(names: map<nat, string>, comments: map<(nat, bool), string>, bytes: map<nat, seq<nat>>)

  datatype Snapshot = Snapshot(revision: nat, content: Content)

  datatype Db = Db(open: bool, revision: nat, content: Content, snapshots: seq<Snapshot>)

  /** A mutation; a patch carries its decoded bytes, or nothing if its text is not hexadecimal. */
  datatype Op =
    | Rename(ea: nat, name: string)
    | Comment(ea: nat, text: string, repeatable: bool)
    | Patch(ea: nat, bytes: Option<seq<nat>>)
    | Create(ea: nat, end: Option<nat>)
    | Delete(ea: nat)
    | SetType(ea: nat, decl: string)
    | Resize(ea: nat, start: Option<nat>, end: Option<nat>)
    | RenameVariable(ea: nat, defined: nat, name: string)
    | Retype(ea: nat, decl: string)
    | CreateStruct(name: string, fields: seq<string>)

  /** Text that is nothing but white space. */
  predicate Blank(s: string) { forall i :: 0 <= i < |s| ==> s[i] in {' ', '\t', '\n', '\r'} }

  /** `function_at`: some function's 64 bytes hold the address. */
  predicate InFunction(c: Content, ea: nat) { exists f <- c.names :: f <= ea < f + 0x40 }

  /** The operations a plan may hold. */
  type PlannedOp = op: Op | op.Rename? || op.Comment? || op.Patch? || op.Create? || op.Delete? || op.SetType?
    witness Delete(0)

  /** Every mutation is audited but one: creating a structure. */
  predicate Audited(op: Op) { !op.CreateStruct? }

  /** What an operation makes of the content, or nothing if it fails. */
  function Change(c: Content, op: Op): Option<Content> {
    match op
    case Rename(ea, name) => if ea in c.names then Some(c.(names := c.names[ea := name])) else None
    case Comment(ea, text, rep) => Some(c.(comments := c.comments[(ea, rep) := text]))
    case Patch(ea, bytes) => if bytes.Some? then Some(c.(bytes := c.bytes[ea := bytes.value])) else None
    case Create(ea, _) => Some(if ea in c.names then c else c.(names := c.names[ea := "sub_" + HexDigits(ea)]))
    case Delete(ea) => if ea in c.names then Some(c.(names := c.names - {ea})) else None
    case SetType(_, _) => Some(c)
    case Resize(_, start, end) => if start.None? && end.None? then None else Some(c)
    case RenameVariable(ea, _, _) => if InFunction(c, ea) then Some(c) else None
    case Retype(ea, decl) => if ea in c.names && !Blank(decl) then Some(c) else None
    case CreateStruct(name, fields) => if Blank(name) || fields == [] then None else Some(c)
  }

  /** A mutator of the backend: it fails and changes nothing, or changes the content and bumps the revision. */
  function Effect(d: Db, op: Op): Option<Db> {
    if !d.open then None else
      match Change(d.content, op)
      case None => None
      case Some(c) => Some(d.(content := c, revision := d.revision + 1))
  }

  function Restore(d: Db): Db {
    if d.snapshots == [] then d else
      var snap := d.snapshots[|d.snapshots| - 1];
      d.(revision := snap.revision + 1, content := snap.content, snapshots := d.snapshots[..|d.snapshots| - 1])
  }

  function NewDb(): Db {
    Db(false, 0, Content(map[0x401000 := "main", 0x401100 := "helper", 0x401200 := "decrypt_packet",
                             0x401300 := "dispatch", 0x401400 := "call_via_ptr"],
                         map[], map[0x401000 := [0x55, 0x48, 0x89, 0xe5, 0xc3], 0x401100 := [0x55, 0xc3]]), [])
  }

  // ------------------------------------------------------------------ the index

  datatype Facts = Facts(name: string, end: nat, callees: seq<nat>, callers: seq<nat>)

  datatype Index = Index(revision: nat, functions: map<nat, Facts>)

  const CALLS: seq<(nat, nat)> :=
    [(0x401000, 0x401100), (0x401000, 0x401200), (0x401000, 0x401300), (0x401000, 0x401400)]

  function Callees(ea: nat, k: nat): seq<nat>
    requires k <= |CALLS|
  {
    if k == 0 then [] else Callees(ea, k - 1) + if CALLS[k - 1].0 == ea then [CALLS[k - 1].1] else []
  }

  function Callers(ea: nat, k: nat): seq<nat>
    requires k <= |CALLS|
  {
    if k == 0 then [] else Callers(ea, k - 1) + if CALLS[k - 1].1 == ea then [CALLS[k - 1].0] else []
  }

  function FactsOf(names: map<nat, string>, k: nat): map<nat, Facts>
    requires k <= |CALLS|
  {
    map ea <- names :: Facts(names[ea], ea + 0x40, Callees(ea, k), Callers(ea, k))
  }

  /** The index a build makes now. */
  function IndexOf(d: Db): Index { Index(d.revision, FactsOf(d.content.names, |CALLS|)) }

  // ------------------------------------------------------------------ requests

  /** The `expected_revision` parameter: absent or null, an integer, or anything else. */
  datatype Guard = Absent | Expect(revision: nat) | Malformed

  datatype Request =
    | Select | Open | Close | ReadRevision
    | Mutate(op: Op, guard: Guard)
    | PlanApply(ops: seq<PlannedOp>, guard: Guard)
    | SnapshotCreate | SnapshotRestore
    | IndexBuild | IndexQuery

  datatype Response =
    | Fine
    | NoDb
    | Failed
    | BadGuard
    | Conflict(expected: nat, current: nat)
    | Now(revision: nat)
    | Applied(revisionAfter: nat)
    | PlanDone(applied: nat, revisionAfter: nat)
    | PlanStopped(applied: nat)
    | Answer(from: Index)

  /** One line of the audit trail. */
  datatype Entry = Entry(number: nat, op: Op, revisionAfter: nat)

  datatype Worker = Worker(db: Option<Db>, audit: seq<Entry>, index: Option<Index>)

  /** `check_revision`: what stops a single mutation. */
  function Check(d: Db, g: Guard): Option<Response> {
    match g
    case Absent => None
    case Malformed => Some(BadGuard)
    case Expect(r) => if r != d.revision then Some(Conflict(r, d.revision)) else None
  }

  /** `check_plan_revision`: a malformed guard counts as none. */
  function CheckPlan(d: Db, g: Guard): Option<Response> {
    if g.Malformed? then None else Check(d, g)
  }

  function Logged(w: Worker, d: Db, op: Op): Worker {
    w.(db := Some(d), audit := if Audited(op) then w.audit + [Entry(|w.audit|, op, d.revision)] else w.audit)
  }

  function MutateOnce(w: Worker, op: Op): (Worker, Response)
    requires w.db.Some?
  {
    match Effect(w.db.value, op)
    case None => (w, Failed)
    case Some(d) => (Logged(w, d, op), Applied(d.revision))
  }

  /** The worker after the first `k` operations of a plan, stopping at the first that fails. */
  function PlanRun(w: Worker, ops: seq<Op>, k: nat): (Worker, nat)
    requires k <= |ops| && w.db.Some?
    ensures PlanRun(w, ops, k).0.db.Some? && PlanRun(w, ops, k).1 <= k
  {
    if k == 0 then (w, 0) else
      var (v, n) := PlanRun(w, ops, k - 1);
      if n < k - 1 then (v, n) else
        match Effect(v.db.value, ops[k - 1])
        case None => (v, n)
        case Some(d) => (Logged(v, d, ops[k - 1]), k)
  }

  function PlanResponse(w: Worker, ops: seq<Op>): Response
    requires w.db.Some?
  {
    var (v, n) := PlanRun(w, ops, |ops|);
    if n == |ops| then PlanDone(n, v.db.value.revision) else PlanStopped(n)
  }

  function Query(w: Worker): (Worker, Response)
    requires w.db.Some?
  {
    var d := w.db.value;
    if w.index.Some? && w.index.value.revision == d.revision then (w, Answer(w.index.value))
    else (w.(index := Some(IndexOf(d))), Answer(IndexOf(d)))
  }

  /** One request. */
  function Handle(w: Worker, r: Request): (Worker, Response) {
    if r.Select? then (w.(db := Some(NewDb())), Fine)
    else if w.db.None? then (w, NoDb)
    else
      var d := w.db.value;
      match r
      case Open => if d.open then (w, Failed) else (w.(db := Some(d.(open := true))), Fine)
      case Close => (w.(db := Some(d.(open := false))), Fine)
      case ReadRevision => (w, Now(d.revision))
      case Mutate(op, g) =>
        var stop := Check(d, g);
        if stop.Some? then (w, stop.value) else MutateOnce(w, op)
      case PlanApply(ops, g) =>
        var stop := CheckPlan(d, g);
        if stop.Some? then (w, stop.value) else (PlanRun(w, ops, |ops|).0, PlanResponse(w, ops))
      case SnapshotCreate =>
        if !d.open then (w, Failed)
        else (w.(db := Some(d.(snapshots := d.snapshots + [Snapshot(d.revision, d.content)]))), Fine)
      case SnapshotRestore => if !d.open then (w, Failed) else (w.(db := Some(Restore(d))), Fine)
      case IndexBuild => (w.(index := Some(IndexOf(d))), Fine)
      case IndexQuery => Query(w)
  }

  /** The worker after the first `k` requests. */
  function After(w: Worker, reqs: seq<Request>, k: nat): Worker
    requires k <= |reqs|
  {
    if k == 0 then w else Handle(After(w, reqs, k - 1), reqs[k - 1]).0
  }

  // ------------------------------------------------------------------ plans

  /** The content after a list of operations, or nothing if one of them fails. */
  function Replay(c: Content, ops: seq<Op>): Option<Content> {
    if ops == [] then Some(c) else
      match Replay(c, ops[..|ops| - 1])
      case None => None
      case Some(m) => Change(m, ops[|ops| - 1])
  }

  /** The audit entries of operations applied from `revision` on, numbered from `start` on. */
  function Entries(start: nat, revision: nat, ops: seq<Op>): seq<Entry> {
    if ops == [] then [] else
      var init, last := Entries(start, revision, ops[..|ops| - 1]), ops[|ops| - 1];
      init + if Audited(last) then [Entry(start + |init|, last, revision + |ops|)] else []
  }

  lemma {:induction false} EntriesConcat(start: nat, revision: nat, a: seq<Op>, b: seq<Op>)
    ensures var init := Entries(start, revision, a);
      Entries(start, revision, a + b) == init + Entries(start + |init|, revision + |a|, b)
  {
    if b == [] {
      assert a + b == a;
    } else {
      assert (a + b)[..|a + b| - 1] == a + b[..|b| - 1];
      EntriesConcat(start, revision, a, b[..|b| - 1]);
    }
  }

  /** The audit trail has one entry for each operation but the creations of structures. */
  lemma {:induction false} EntriesCount(start: nat, revision: nat, ops: seq<Op>)
    ensures |Entries(start, revision, ops)| <= |ops|
    ensures |Entries(start, revision, ops)| == |ops| <==> forall i :: 0 <= i < |ops| ==> Audited(ops[i])
  {
    if ops != [] { EntriesCount(start, revision, ops[..|ops| - 1]); }
  }

  /** `v` is `w` after exactly these operations, each bumping the revision by one and audited if it ever is. */
  predicate Follows(w: Worker, ops: seq<Op>, v: Worker) {
    w.db.Some? && v.db.Some? &&
    var d, e := w.db.value, v.db.value;
    Replay(d.content, ops) == Some(e.content) && e.revision == d.revision + |ops|
    && v.audit == w.audit + Entries(|w.audit|, d.revision, ops)
  }

  lemma FollowsOne(w: Worker, ops: seq<Op>, v: Worker, op: Op, d: Db)
    requires Follows(w, ops, v) && Effect(v.db.value, op) == Some(d)
    ensures Follows(w, ops + [op], Logged(v, d, op))
  {
  }

  /** One more operation of a plan that has applied all so far. */
  lemma PlanNext(w: Worker, ops: seq<Op>, v: Worker, n: nat)
    requires n < |ops| && v.db.Some? && Follows(w, ops[..n], v) && v.db.value.open
    ensures var e := Effect(v.db.value, ops[n]);
      if e.Some? then Follows(w, ops[..n + 1], Logged(v, e.value, ops[n]))
      else Change(v.db.value.content, ops[n]) == None
  {
    hide Change;
    var e := Effect(v.db.value, ops[n]);
    if e.Some? {
      hide Follows;
      FollowsOne(w, ops[..n], v, ops[n], e.value);
      assert ops[..n + 1] == ops[..n] + [ops[n]];
    }
  }

  /** A plan leaves exactly the effects of its first `n` operations: all of them, or up to the first that fails. */
  lemma {:induction false} PlanLeavesPrefix(w: Worker, ops: seq<Op>, k: nat)
    requires k <= |ops| && w.db.Some? && w.db.value.open
    ensures var (v, n) := PlanRun(w, ops, k);
      Follows(w, ops[..n], v) && v.db.value.open && v.index == w.index && v.db.value.snapshots == w.db.value.snapshots
      && (n < k ==> Change(v.db.value.content, ops[n]) == None)
  {
    hide Change; hide Follows;
    if k == 0 {
      assert ops[..0] == [];
      FollowsNothing(w, w);
    } else {
      PlanLeavesPrefix(w, ops, k - 1);
      var (v, n) := PlanRun(w, ops, k - 1);
      if n == k - 1 { PlanNext(w, ops, v, n); }
    }
  }

  lemma {:induction false} ClosedPlanStops(w: Worker, ops: seq<Op>, k: nat)
    requires k <= |ops| && w.db.Some? && !w.db.value.open
    ensures PlanRun(w, ops, k) == (w, 0)
  {
    if k > 0 { ClosedPlanStops(w, ops, k - 1); }
  }

  // ------------------------------------------------------------------ runs without rollback

  predicate KeepsHistory(r: Request) { !r.Select? && !r.SnapshotRestore? }

  /** The operations a request applies. */
  function AppliedBy(w: Worker, r: Request): seq<Op> {
    if w.db.None? then [] else
      match r
      case Mutate(op, g) => if Check(w.db.value, g).None? && Effect(w.db.value, op).Some? then [op] else []
      case PlanApply(ops, g) => if CheckPlan(w.db.value, g).None? then ops[..PlanRun(w, ops, |ops|).1] else []
      case _ => []
  }

  lemma FollowsNothing(w: Worker, v: Worker)
    requires w.db.Some? && v.db.Some? && v.audit == w.audit
    requires v.db.value.content == w.db.value.content && v.db.value.revision == w.db.value.revision
    ensures Follows(w, [], v)
  {
  }

  /** Every request that is not a rollback leaves exactly the effects of the operations it applied. */
  lemma StepFollows(w: Worker, r: Request)
    requires w.db.Some? && KeepsHistory(r)
    ensures Follows(w, AppliedBy(w, r), Handle(w, r).0)
  {
    hide Change; hide Follows; hide PlanRun; hide IndexOf;
    var v := Handle(w, r).0;
    if r.Mutate? && Check(w.db.value, r.guard).None? && Effect(w.db.value, r.op).Some? {
      FollowsNothing(w, w);
      FollowsOne(w, [], w, r.op, Effect(w.db.value, r.op).value);
      assert [] + [r.op] == [r.op];
    } else if r.PlanApply? && CheckPlan(w.db.value, r.guard).None? {
      if w.db.value.open {
        PlanLeavesPrefix(w, r.ops, |r.ops|);
      } else {
        ClosedPlanStops(w, r.ops, |r.ops|);
        FollowsNothing(w, w);
        assert r.ops[..0] == [];
      }
    } else {
      FollowsNothing(w, v);
    }
  }

  lemma {:induction false} ReplayConcat(c: Content, a: seq<Op>, b: seq<Op>)
    ensures Replay(c, a + b) == match Replay(c, a) { case None => None case Some(m) => Replay(m, b) }
  {
    hide Change;
    if b == [] {
      assert a + b == a;
    } else {
      assert (a + b)[..|a + b| - 1] == a + b[..|b| - 1];
      ReplayConcat(c, a, b[..|b| - 1]);
    }
  }

  lemma FollowsThen(w: Worker, a: seq<Op>, v: Worker, b: seq<Op>, u: Worker)
    requires Follows(w, a, v) && Follows(v, b, u)
    ensures Follows(w, a + b, u)
  {
    ReplayConcat(w.db.value.content, a, b);
    var r, n := w.db.value.revision, |w.audit|;
    EntriesConcat(n, r, a, b);
  }

  predicate NoRollback(reqs: seq<Request>) { forall k :: 0 <= k < |reqs| ==> KeepsHistory(reqs[k]) }

  /** All operations applied by requests `i` to `j - 1`. */
  function Log(w: Worker, reqs: seq<Request>, i: nat, j: nat): seq<Op>
    requires i <= j <= |reqs|
    decreases j
  {
    if i == j then [] else Log(w, reqs, i, j - 1) + AppliedBy(After(w, reqs, j - 1), reqs[j - 1])
  }

  /**
   The database is exactly the effects of the operations applied, in order; the
   revision counts them and the audit trail lists them, one entry each.
   */
  lemma {:induction false} RunIsItsLog(w: Worker, reqs: seq<Request>, i: nat, j: nat)
    requires w.db.Some? && NoRollback(reqs) && i <= j <= |reqs|
    ensures Follows(After(w, reqs, i), Log(w, reqs, i, j), After(w, reqs, j))
    decreases i + j
  {
    hide Handle; hide AppliedBy;
    if i == j {
      if j > 0 { RunIsItsLog(w, reqs, 0, j - 1); StepFollows(After(w, reqs, j - 1), reqs[j - 1]); }
      FollowsNothing(After(w, reqs, j), After(w, reqs, j));
    } else {
      RunIsItsLog(w, reqs, i, j - 1);
      StepFollows(After(w, reqs, j - 1), reqs[j - 1]);
      FollowsThen(After(w, reqs, i), Log(w, reqs, i, j - 1), After(w, reqs, j - 1),
                  AppliedBy(After(w, reqs, j - 1), reqs[j - 1]), After(w, reqs, j));
    }
  }

  /** A revision number determines the content, and moves exactly when something was applied. */
  lemma RevisionDeterminesContent(w: Worker, reqs: seq<Request>, i: nat, j: nat)
    requires w.db.Some? && NoRollback(reqs) && i <= j <= |reqs|
    ensures var a, b := After(w, reqs, i).db, After(w, reqs, j).db;
      && a.Some? && b.Some? && a.value.revision <= b.value.revision
      && (a.value.revision == b.value.revision <==> Log(w, reqs, i, j) == [])
      && (a.value.revision == b.value.revision ==> a.value.content == b.value.content)
  {
    RunIsItsLog(w, reqs, i, j);
    hide After; hide Log;
  }

  /** In a run without rollback the trail gains one entry for each revision if and only if no structure was created. */
  lemma AuditCountsRevisionsIff(w: Worker, reqs: seq<Request>, i: nat, j: nat)
    requires w.db.Some? && NoRollback(reqs) && i <= j <= |reqs|
    ensures var a, b, log := After(w, reqs, i), After(w, reqs, j), Log(w, reqs, i, j);
      && a.db.Some? && b.db.Some? && a.audit <= b.audit
      && (|b.audit| - |a.audit| == b.db.value.revision - a.db.value.revision <==>
        forall k :: 0 <= k < |log| ==> Audited(log[k]))
  {
    RunIsItsLog(w, reqs, i, j);
    hide After; hide Handle; hide Entries;
    var a := After(w, reqs, i);
    EntriesCount(|a.audit|, a.db.value.revision, Log(w, reqs, i, j));
    hide Log;
  }

  /** A run that leaves a revision without an entry. */
  lemma StructIsNotAudited()
    ensures var w, reqs := Worker(Some(NewDb()), [], None), [Open, Mutate(CreateStruct("s", ["f"]), Absent)];
      var v := After(w, reqs, 2); v.db.Some? && v.db.value.revision == 1 && v.audit == []
  {
    var w, reqs := Worker(Some(NewDb()), [], None), [Open, Mutate(CreateStruct("s", ["f"]), Absent)];
    assert After(w, reqs, 1) == Handle(w, Open).0;
    assert "s"[0] == 's' && !Blank("s");
  }

  /** The revision guard of a request, if it carries one. */
  function GuardOf(r: Request): Guard {
    match r case Mutate(_, g) => g case PlanApply(_, g) => g case _ => Absent
  }

  /**
   A request guarded by the revision read after `i` requests is refused exactly when
   something was applied since; refused, it changes nothing, and accepted, the
   content is what it was when the revision was read.
   */
  lemma GuardIsExact(w: Worker, reqs: seq<Request>, i: nat, j: nat)
    requires w.db.Some? && NoRollback(reqs) && i <= j < |reqs|
    requires After(w, reqs, i).db.Some? && GuardOf(reqs[j]) == Expect(After(w, reqs, i).db.value.revision)
    ensures var v := After(w, reqs, j);
      && (Handle(v, reqs[j]).1.Conflict? <==> Log(w, reqs, i, j) != [])
      && (Handle(v, reqs[j]).1.Conflict? ==> Handle(v, reqs[j]).0 == v)
      && (!Handle(v, reqs[j]).1.Conflict? ==> v.db.Some? && v.db.value.content == After(w, reqs, i).db.value.content)
  {
    RevisionDeterminesContent(w, reqs, i, j);
    hide After; hide Log; hide Effect;
  }

  /** Whatever stops a request before its first operation leaves the worker as it was. */
  lemma RefusedChangesNothing(w: Worker, r: Request)
    requires r.Mutate? || r.PlanApply?
    requires var a := Handle(w, r).1; a.NoDb? || a.Failed? || a.BadGuard? || a.Conflict?
    ensures Handle(w, r).0 == w
  {
  }

  /** A plan is refused only for a stale integer: a malformed guard is no guard, where a single mutation refuses it. */
  lemma MalformedGuard(w: Worker, op: Op, ops: seq<PlannedOp>)
    requires w.db.Some?
    ensures Handle(w, PlanApply(ops, Malformed)) == Handle(w, PlanApply(ops, Absent))
    ensures Handle(w, Mutate(op, Malformed)) == (w, BadGuard)
  {
  }

  // ------------------------------------------------------------------ the index

  /** The index is of some revision up to the current one, and of the current content if of the current revision. */
  predicate IndexOk(w: Worker) {
    w.db.Some? && w.index.Some? ==>
      w.index.value.revision <= w.db.value.revision
      && (w.index.value.revision == w.db.value.revision ==> w.index.value == IndexOf(w.db.value))
  }

  lemma StepKeepsIndex(w: Worker, r: Request)
    requires IndexOk(w) && w.db.Some? && KeepsHistory(r)
    ensures IndexOk(Handle(w, r).0)
  {
    StepFollows(w, r);
    hide FactsOf; hide Effect;
    var v := Handle(w, r).0;
    if r.PlanApply? {
      if w.db.value.open { PlanLeavesPrefix(w, r.ops, |r.ops|); } else { ClosedPlanStops(w, r.ops, |r.ops|); }
    }
    assert v.index == w.index || v.index == Some(IndexOf(w.db.value));
    hide Handle; hide AppliedBy; hide PlanRun;
  }

  lemma {:induction false} RunKeepsIndex(w: Worker, reqs: seq<Request>, k: nat)
    requires IndexOk(w) && w.db.Some? && NoRollback(reqs) && k <= |reqs|
    ensures IndexOk(After(w, reqs, k)) && After(w, reqs, k).db.Some?
  {
    hide Handle; hide IndexOk; hide AppliedBy;
    if k > 0 {
      RunKeepsIndex(w, reqs, k - 1);
      StepKeepsIndex(After(w, reqs, k - 1), reqs[k - 1]);
      StepFollows(After(w, reqs, k - 1), reqs[k - 1]);
    }
  }

  /** A query always answers from the index a rebuild would make now. */
  lemma QueryAnswersNow(w: Worker, reqs: seq<Request>, k: nat)
    requires IndexOk(w) && w.db.Some? && NoRollback(reqs) && k <= |reqs|
    ensures var v := After(w, reqs, k); v.db.Some? && Handle(v, IndexQuery).1 == Answer(IndexOf(v.db.value))
  {
    RunKeepsIndex(w, reqs, k);
    hide After; hide FactsOf;
  }
}
