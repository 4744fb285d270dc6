/**
 What a rollback or a new backend does to revision numbers, guards and the index.
 */
module Rollback {
  import opened Basics
  import opened Revision

  // ------------------------------------------------------------------ numbers

  /** Snapshots are of revisions up to the current one, and of the current content if of the current revision. */
  predicate SnapshotsOk(d: Db) {
    forall i :: 0 <= i < |d.snapshots| ==>
      d.snapshots[i].revision <= d.revision
        && (d.snapshots[i].revision == d.revision ==> d.snapshots[i].content == d.content)
  }

  lemma StepKeepsSnapshots(w: Worker, r: Request)
    requires w.db.Some? && SnapshotsOk(w.db.value) && KeepsHistory(r)
    ensures Handle(w, r).0.db.Some? && SnapshotsOk(Handle(w, r).0.db.value)
  {
    StepFollows(w, r);
    var d, e := w.db.value, Handle(w, r).0.db.value;
    if r.PlanApply? {
      if d.open { PlanLeavesPrefix(w, r.ops, |r.ops|); } else { ClosedPlanStops(w, r.ops, |r.ops|); }
    }
    hide Change; hide FactsOf;
    assert e.snapshots == d.snapshots || e == d.(snapshots := d.snapshots + [Snapshot(d.revision, d.content)]);
    hide Handle; hide AppliedBy; hide PlanRun;
  }

  lemma {:induction false} RunKeepsSnapshots(w: Worker, reqs: seq<Request>, k: nat)
    requires w.db.Some? && SnapshotsOk(w.db.value) && NoRollback(reqs) && k <= |reqs|
    ensures After(w, reqs, k).db.Some? && SnapshotsOk(After(w, reqs, k).db.value)
  {
    hide Handle; hide SnapshotsOk;
    if k > 0 {
      RunKeepsSnapshots(w, reqs, k - 1);
      StepKeepsSnapshots(After(w, reqs, k - 1), reqs[k - 1]);
    }
  }

  /**
   The first rollback of a run gives a new revision number exactly when nothing was
   applied since the snapshot, and then it changes nothing; a rollback that changes
   the content always reuses a number.
   */
  lemma RestoreReusesNumbers(w: Worker, reqs: seq<Request>, k: nat)
    requires w.db.Some? && SnapshotsOk(w.db.value) && NoRollback(reqs) && k <= |reqs|
    requires var d := After(w, reqs, k).db; d.Some? && d.value.snapshots != []
    ensures var d := After(w, reqs, k).db.value;
      && (Restore(d).revision > d.revision <==> d.snapshots[|d.snapshots| - 1].revision == d.revision)
      && (Restore(d).content != d.content ==> Restore(d).revision <= d.revision)
  {
    RunKeepsSnapshots(w, reqs, k);
    hide After;
  }

  function StaleRun(): seq<Request> {
    [Open, SnapshotCreate, Mutate(Rename(0x401000, "start"), Absent), IndexBuild, SnapshotRestore]
  }

  /** Where that run stands before its rollback. */
  lemma StaleRunStands(d: Db)
    requires !d.open && d.snapshots == [] && 0x401000 in d.content.names
    ensures var w := Worker(Some(d), [], None);
      var c := d.content.(names := d.content.names[0x401000 := "start"]);
      var d' := Db(true, d.revision + 1, c, [Snapshot(d.revision, d.content)]);
      var v := After(w, StaleRun(), 4);
      v.db == Some(d') && v.index == Some(IndexOf(d'))
  {
    hide IndexOf; hide PlanRun;
    var w, reqs := Worker(Some(d), [], None), StaleRun();
    var d0 := d.(open := true);
    var d1 := d0.(snapshots := [Snapshot(d.revision, d.content)]);
    assert d0.snapshots + [Snapshot(d.revision, d.content)] == d1.snapshots;
    assert After(w, reqs, 1) == w.(db := Some(d0));
    assert After(w, reqs, 2) == w.(db := Some(d1));
    assert After(w, reqs, 3).db == Effect(d1, Rename(0x401000, "start"));
  }

  /**
   Such a run exists: the query then answers with a name that is gone, and a guard read before the rollback is accepted
   after it.
   */
  lemma RestoreCanMislead(d: Db)
    requires !d.open && d.snapshots == [] && 0x401000 in d.content.names && d.content.names[0x401000] != "start"
    ensures var w := Worker(Some(d), [], None);
      var before, v := After(w, StaleRun(), 4), After(w, StaleRun(), 5);
      && v.db.Some? && Handle(v, IndexQuery).1 != Answer(IndexOf(v.db.value))
      && before.db.Some? && before.db.value.content != v.db.value.content
      && Handle(v, Mutate(SetType(0x401000, ""), Expect(before.db.value.revision))).1.Applied?
  {
    hide Handle; hide IndexOf;
    StaleRunStands(d);
    var w := Worker(Some(d), [], None);
    var v := After(w, StaleRun(), 4);
    assert StaleRun()[4] == SnapshotRestore;
    assert After(w, StaleRun(), 5) == Handle(v, SnapshotRestore).0;
    hide After;
    MisledBy(v, d.content);
  }

  lemma MisledBy(v: Worker, c: Content)
    requires v.db.Some? && v.db.value.open && v.index == Some(IndexOf(v.db.value)) && v.db.value.revision > 0
    requires v.db.value.snapshots == [Snapshot(v.db.value.revision - 1, c)]
    requires 0x401000 in c.names && 0x401000 in v.db.value.content.names
      && c.names[0x401000] != v.db.value.content.names[0x401000]
    ensures var u := Handle(v, SnapshotRestore).0;
      && u.db.Some? && Handle(u, IndexQuery).1 != Answer(IndexOf(u.db.value))
      && u.db.value.content == c != v.db.value.content
      && Handle(u, Mutate(SetType(0x401000, ""), Expect(v.db.value.revision))).1.Applied?
  {
    hide PlanRun;
    assert v.index.value.functions[0x401000].name != FactsOf(c.names, |CALLS|)[0x401000].name;
    hide FactsOf;
  }

  /** The database every worker starts with is one for which it happens. */
  lemma NewDbCanBeMisled()
    ensures var d := NewDb();
      !d.open && d.snapshots == [] && 0x401000 in d.content.names && d.content.names[0x401000] != "start"
  {
  }

  // ------------------------------------------------------------------ later queries and guards

  /** A query now answers from the index a rebuild would make now. */
  predicate AnswersNow(v: Worker) { v.db.Some? && Handle(v, IndexQuery).1 == Answer(IndexOf(v.db.value)) }

  /** So does every query after every further run without rollback. */
  ghost predicate AlwaysAnswersNow(v: Worker) {
    forall reqs, k: nat :: NoRollback(reqs) && k <= |reqs| ==> AnswersNow(After(v, reqs, k))
  }

  lemma {:induction false} AfterConcat(v: Worker, a: seq<Request>, b: seq<Request>, k: nat)
    requires k <= |b|
    ensures After(v, a + b, |a| + k) == After(After(v, a, |a|), b, k)
  {
    hide Handle;
    if k > 0 {
      AfterConcat(v, a, b, k - 1);
    } else {
      AfterPrefix(v, a, b, |a|);
    }
  }

  lemma {:induction false} AfterPrefix(v: Worker, a: seq<Request>, b: seq<Request>, k: nat)
    requires k <= |a|
    ensures After(v, a + b, k) == After(v, a, k)
  {
    hide Handle;
    if k > 0 { AfterPrefix(v, a, b, k - 1); }
  }

  /** Requests that bump the revision and change nothing. */
  function Idle(n: nat): seq<Request> { seq(n, _ => Mutate(SetType(0, ""), Absent)) }

  /** `u` is `v` opened and `n` revisions on. */
  predicate Advanced(v: Worker, u: Worker, n: nat) {
    v.db.Some? && u.db.Some? && u.db.value.open && u.index == v.index
    && u.db.value.revision == v.db.value.revision + n && u.db.value.content == v.db.value.content
  }

  lemma {:induction false} IdleRuns(v: Worker, n: nat)
    requires v.db.Some? && v.db.value.open
    ensures NoRollback(Idle(n)) && Advanced(v, After(v, Idle(n), n), n)
  {
    if n > 0 {
      IdleRuns(v, n - 1);
      assert Idle(n) == Idle(n - 1) + Idle(1);
      AfterPrefix(v, Idle(n - 1), Idle(1), n - 1);
      IdleStep(After(v, Idle(n - 1), n - 1));
    }
  }

  lemma IdleStep(u: Worker)
    requires u.db.Some? && u.db.value.open
    ensures Advanced(u, Handle(u, Mutate(SetType(0, ""), Absent)).0, 1)
  {
  }

  /** Any worker with a backend can be opened and then mutated by `op`, which succeeds, and idled for `n` revisions. */
  function Continuation(op: Op, n: nat): seq<Request> { [Open, Mutate(op, Absent)] + Idle(n) }

  lemma OpenStep(v: Worker)
    requires v.db.Some?
    ensures Advanced(v, Handle(v, Open).0, 0)
  {
  }

  lemma ContinuationRuns(v: Worker, op: Op, n: nat)
    requires v.db.Some? && Change(v.db.value.content, op).Some?
    ensures NoRollback(Continuation(op, n))
    ensures var u := After(v, Continuation(op, n), |Continuation(op, n)|);
      && u.db.Some? && u.index == v.index && u.db.value.revision == v.db.value.revision + 1 + n
      && u.db.value.content == Change(v.db.value.content, op).value
  {
    var first: seq<Request> := [Open, Mutate(op, Absent)];
    OpenStep(v);
    var v1 := Handle(v, Open).0;
    assert After(v, first, 1) == v1;
    var v2 := Handle(v1, Mutate(op, Absent)).0;
    assert After(v, first, 2) == v2;
    hide Handle; hide After; hide Change;
    IdleRuns(v2, n);
    AfterConcat(v, first, Idle(n), n);
    assert forall k :: 0 <= k < |Idle(n)| ==> KeepsHistory(Idle(n)[k]);
  }

  /** An address no function has. */
  lemma {:induction false} FreshAddress(taken: set<nat>) returns (ea: nat)
    ensures forall x <- taken :: x < ea
  {
    if taken == {} {
      ea := 0;
    } else {
      var x: nat :| x in taken;
      var rest := FreshAddress(taken - {x});
      ea := if rest <= x then x + 1 else rest;
      assert forall y <- taken :: y == x || y in taken - {x};
    }
  }

  /** Some operation makes the facts differ from the given ones. */
  lemma OpThatDiffers(c: Content, functions: map<nat, Facts>) returns (op: Op)
    ensures Change(c, op).Some? && FactsOf(Change(c, op).value.names, |CALLS|) != functions
  {
    if FactsOf(c.names, |CALLS|) != functions {
      op := SetType(0, "");
    } else {
      var ea := FreshAddress(c.names.Keys);
      op := Create(ea, None);
      var names := Change(c, op).value.names;
      assert ea in FactsOf(names, |CALLS|) && ea !in FactsOf(c.names, |CALLS|);
    }
  }

  /** An index of a future revision can be taken for current when that revision comes. */
  lemma FutureIndexMisleads(v: Worker) returns (reqs: seq<Request>)
    requires v.db.Some? && v.index.Some? && v.index.value.revision > v.db.value.revision
    ensures NoRollback(reqs) && !AnswersNow(After(v, reqs, |reqs|))
  {
    var op := OpThatDiffers(v.db.value.content, v.index.value.functions);
    var n := v.index.value.revision - v.db.value.revision - 1;
    ContinuationRuns(v, op, n);
    reqs := Continuation(op, n);
    hide After; hide FactsOf; hide Change;
  }

  /** Exactly when every later query is answered from the current state, for any worker. */
  lemma AlwaysAnswersNowIff(v: Worker)
    requires v.db.Some?
    ensures AlwaysAnswersNow(v) <==> IndexOk(v)
  {
    hide IndexOf;
    if IndexOk(v) {
      forall reqs, k: nat | NoRollback(reqs) && k <= |reqs| ensures AnswersNow(After(v, reqs, k)) {
        QueryAnswersNow(v, reqs, k);
      }
    } else if v.index.value.revision > v.db.value.revision {
      var reqs := FutureIndexMisleads(v);
      assert !AnswersNow(After(v, reqs, |reqs|));
    } else {
      assert After(v, [], 0) == v && !AnswersNow(v);
      assert NoRollback([]);
    }
  }

  /**
   After a rollback every later query is answered from the current state if and only if there was no index, or it was of
   a revision up to the snapshot's, or it was of the next one and of the snapshot's names.
   */
  lemma QueriesAfterRestoreIff(w: Worker)
    requires w.db.Some? && w.db.value.open && w.db.value.snapshots != []
    ensures var v, snap := Handle(w, SnapshotRestore).0, w.db.value.snapshots[|w.db.value.snapshots| - 1];
      AlwaysAnswersNow(v) <==>
        || w.index.None?
        || w.index.value.revision <= snap.revision
        || (w.index.value.revision == snap.revision + 1
          && w.index.value.functions == FactsOf(snap.content.names, |CALLS|))
  {
    AlwaysAnswersNowIff(Handle(w, SnapshotRestore).0);
    hide FactsOf; hide AlwaysAnswersNow;
  }

  /**
   After selecting a new backend, which keeps the index: if and only if there was none or it was of the new database's
   start.
   */
  lemma QueriesAfterSelectIff(w: Worker)
    ensures AlwaysAnswersNow(Handle(w, Select).0) <==> w.index.None? || w.index.value == IndexOf(NewDb())
  {
    AlwaysAnswersNowIff(Handle(w, Select).0);
    hide FactsOf; hide AlwaysAnswersNow;
    assert NewDb().revision == 0;
  }

  /** Whenever the number `r` is current in a further run without rollback, the content is `c`. */
  ghost predicate NumberMeans(v: Worker, r: nat, c: Content) {
    forall reqs, k: nat :: NoRollback(reqs) && k <= |reqs| ==> Meets(After(v, reqs, k), r, c)
  }

  predicate Meets(u: Worker, r: nat, c: Content) { u.db.Some? && u.db.value.revision == r ==> u.db.value.content == c }

  lemma FutureNumberMisleads(v: Worker, r: nat, c: Content) returns (reqs: seq<Request>)
    requires v.db.Some? && r > v.db.value.revision
    ensures NoRollback(reqs) && !Meets(After(v, reqs, |reqs|), r, c)
  {
    var now, slot := v.db.value.content, (0, false);
    var op := if now != c then SetType(0, "")
              else Comment(0, if slot in now.comments then now.comments[slot] + "!" else "", false);
    var n := r - v.db.value.revision - 1;
    ContinuationRuns(v, op, n);
    reqs := Continuation(op, n);
    hide After;
    if now == c {
      var later := Change(now, op).value;
      assert slot in later.comments && (slot in now.comments ==> |later.comments[slot]| != |now.comments[slot]|);
    }
  }

  lemma NumberMeansIff(v: Worker, r: nat, c: Content)
    requires v.db.Some?
    ensures NumberMeans(v, r, c) <==> r < v.db.value.revision || (r == v.db.value.revision && v.db.value.content == c)
  {
    if r > v.db.value.revision {
      var reqs := FutureNumberMisleads(v, r, c);
      assert !Meets(After(v, reqs, |reqs|), r, c);
    } else {
      forall reqs, k: nat | NoRollback(reqs) && k <= |reqs|
        ensures Meets(After(v, reqs, k), r, c) || (r == v.db.value.revision && v.db.value.content != c)
      {
        RevisionDeterminesContent(v, reqs, 0, k);
        assert After(v, reqs, 0) == v;
      }
      assert After(v, [], 0) == v && NoRollback([]);
      assert Meets(After(v, [], 0), r, c) <==> r < v.db.value.revision || v.db.value.content == c;
    }
  }

  /**
   A guard for a revision and content read before a rollback is never accepted on other content afterwards
   if and only if the revision is up to the snapshot's, or the next one with the snapshot's content.
   */
  lemma GuardsAfterRestoreIff(w: Worker, r: nat, c: Content)
    requires w.db.Some? && w.db.value.open && w.db.value.snapshots != []
    ensures var v, snap := Handle(w, SnapshotRestore).0, w.db.value.snapshots[|w.db.value.snapshots| - 1];
      NumberMeans(v, r, c) <==> r <= snap.revision || (r == snap.revision + 1 && c == snap.content)
  {
    NumberMeansIff(Handle(w, SnapshotRestore).0, r, c);
    hide NumberMeans;
  }

  /**
   After selecting a new backend, a guard for a revision and content read before is never accepted on other content
   if and only if it is for revision 0 and the content a database starts with.
   */
  lemma GuardsAfterSelectIff(w: Worker, r: nat, c: Content)
    ensures NumberMeans(Handle(w, Select).0, r, c) <==> r == 0 && c == NewDb().content
  {
    NumberMeansIff(Handle(w, Select).0, r, c);
    assert NewDb().revision == 0;
    hide NumberMeans;
  }

  // ------------------------------------------------------------------ the audit trail over every run

  /** A request that pops a snapshot. */
  predicate Pops(w: Worker, r: Request) {
    r.SnapshotRestore? && w.db.Some? && w.db.value.open && w.db.value.snapshots != []
  }

  /** The snapshots restored by requests `i` to `j - 1`. */
  function Restores(w: Worker, reqs: seq<Request>, i: nat, j: nat): nat
    requires i <= j <= |reqs|
    decreases j
  {
    if i == j then 0
    else Restores(w, reqs, i, j - 1) + if Pops(After(w, reqs, j - 1), reqs[j - 1]) then 1 else 0
  }

  /** The state changes: the operations applied and the snapshots restored. */
  function Changes(w: Worker, reqs: seq<Request>, i: nat, j: nat): nat
    requires i <= j <= |reqs|
  {
    |Log(w, reqs, i, j)| + Restores(w, reqs, i, j)
  }

  function Structs(ops: seq<Op>): nat {
    if ops == [] then 0 else Structs(ops[..|ops| - 1]) + if Audited(ops[|ops| - 1]) then 0 else 1
  }

  lemma {:induction false} StructsConcat(a: seq<Op>, b: seq<Op>)
    ensures Structs(a + b) == Structs(a) + Structs(b)
  {
    if b == [] {
      assert a + b == a;
    } else {
      assert (a + b)[..|a + b| - 1] == a + b[..|b| - 1];
      StructsConcat(a, b[..|b| - 1]);
    }
  }

  lemma {:induction false} EntriesAndStructs(start: nat, revision: nat, ops: seq<Op>)
    ensures |Entries(start, revision, ops)| + Structs(ops) == |ops|
    ensures Structs(ops) == 0 <==> forall k :: 0 <= k < |ops| ==> Audited(ops[k])
  {
    if ops != [] { EntriesAndStructs(start, revision, ops[..|ops| - 1]); }
  }

  /** Each request audits the operations it applies, structures aside; a rollback and a new backend audit nothing. */
  lemma StepAudits(w: Worker, r: Request)
    ensures var v, ops := Handle(w, r).0, AppliedBy(w, r);
      w.audit <= v.audit && |v.audit| + Structs(ops) == |w.audit| + |ops|
  {
    if w.db.Some? && KeepsHistory(r) {
      StepFollows(w, r);
      hide Handle; hide AppliedBy; hide Entries;
      EntriesAndStructs(|w.audit|, w.db.value.revision, AppliedBy(w, r));
    } else {
      hide PlanRun; hide IndexOf; hide Effect;
    }
  }

  lemma {:induction false} RunAudits(w: Worker, reqs: seq<Request>, i: nat, j: nat)
    requires i <= j <= |reqs|
    ensures var a, b, log := After(w, reqs, i), After(w, reqs, j), Log(w, reqs, i, j);
      a.audit <= b.audit && |b.audit| + Structs(log) == |a.audit| + |log|
    decreases j
  {
    hide Handle; hide AppliedBy;
    if i < j {
      RunAudits(w, reqs, i, j - 1);
      StepAudits(After(w, reqs, j - 1), reqs[j - 1]);
      StructsConcat(Log(w, reqs, i, j - 1), AppliedBy(After(w, reqs, j - 1), reqs[j - 1]));
    }
  }

  /**
   Over every run, rollbacks and new backends included: the audit trail gains one entry for each state change if and
   only if no structure was created and no snapshot was restored.
   */
  lemma AuditCompleteIff(w: Worker, reqs: seq<Request>, i: nat, j: nat)
    requires i <= j <= |reqs|
    ensures var a, b, log := After(w, reqs, i), After(w, reqs, j), Log(w, reqs, i, j);
      && a.audit <= b.audit
      && (|b.audit| - |a.audit| == Changes(w, reqs, i, j) <==>
            (forall k :: 0 <= k < |log| ==> Audited(log[k])) && Restores(w, reqs, i, j) == 0)
  {
    RunAudits(w, reqs, i, j);
    EntriesAndStructs(0, 0, Log(w, reqs, i, j));
    hide After; hide Log; hide Structs;
  }

  /** A run that changes the revision by a rollback alone and audits nothing. */
  lemma RestoreIsNotAudited()
    ensures var w, reqs := Worker(Some(NewDb()), [], None), [Open, SnapshotCreate, SnapshotRestore];
      var v := After(w, reqs, 3); v.db.Some? && v.db.value.revision == 1 && v.audit == []
  {
    hide NewDb;
    NewDbStarts();
    var d := NewDb();
    var w, reqs := Worker(Some(d), [], None), [Open, SnapshotCreate, SnapshotRestore];
    var snap := Snapshot(0, d.content);
    assert d.snapshots + [snap] == [snap];
    assert After(w, reqs, 1) == w.(db := Some(d.(open := true)));
    assert After(w, reqs, 2) == w.(db := Some(d.(open := true, snapshots := [snap])));
  }

  lemma NewDbStarts()
    ensures !NewDb().open && NewDb().revision == 0 && NewDb().snapshots == []
  {
  }

  /** Selecting a backend sets the revision back to 0 and leaves the trail as it is. */
  lemma SelectKeepsTrail(w: Worker)
    ensures var v := Handle(w, Select).0; v.audit == w.audit && v.db.Some? && v.db.value.revision == 0
  {
    NewDbStarts();
  }
}
