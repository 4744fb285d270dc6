/**
 In which order the rows of a block diff come.  Rows of one kind are said to be
 ordered by address; the sort key is the text of the address in the first
 function, which an `added` row does not have.
 */
module DiffOrder {
  import opened Basics
  import opened ShapeHash
  import opened Sorting
  import opened Texts
  import opened BlockDiff
  import opened DiffReport

  function Address(r: Row): nat {
    if r.a.Some? then r.a.value.ea else if r.b.Some? then r.b.value.ea else 0
  }

  predicate InAddressOrder(rows: seq<Row>, k: Kind) {
    forall i, j :: 0 <= i < j < |rows| && rows[i].kind == k && rows[j].kind == k ==>
      Address(rows[i]) <= Address(rows[j])
  }

  /** If `x` has fewer digits than `y`, it is at most the leading digits of `y`. */
  predicate Fits(x: nat, y: nat) {
    var m, n := |HexDigits(x)|, |HexDigits(y)|;
    m < n ==> x <= Leading(y, n - m)
  }

  // ------------------------------------------------------------------ text order and address order

  lemma {:induction false} MoreDigits(x: nat, y: nat)
    requires x <= y
    ensures |HexDigits(x)| <= |HexDigits(y)|
  {
    if x >= 16 { MoreDigits(x / 16, y / 16); }
  }

  lemma HexInjective(x: nat, y: nat)
    requires Hex(x) == Hex(y)
    ensures x == y
  {
    assert Hex(x)[2..] == HexDigits(x) && Hex(y)[2..] == HexDigits(y);
    SameLengthOrder(x, y);
  }

  /** For the smaller of two addresses, coming first by text is fitting. */
  lemma FitsIsTextOrder(x: nat, y: nat)
    requires x <= y
    ensures Fits(x, y) <==> LexLeq(Hex(x), Hex(y))
  {
    hide HexDigits; hide Hex; hide LexLeq;
    MoreDigits(x, y);
    TextOrder(x, y);
    if |HexDigits(x)| == |HexDigits(y)| { assert Leading(y, 0) == y; }
  }

  /** Only the smaller of two addresses can fail to fit. */
  lemma FitsUpward(x: nat, y: nat)
    requires y <= x
    ensures Fits(x, y)
  {
    hide HexDigits;
    MoreDigits(y, x);
  }

  /** Rows that are not `added` carry their address in the first function. */
  predicate Addressed(rows: seq<Row>) {
    forall i :: 0 <= i < |rows| && rows[i].kind != Added ==> rows[i].a.Some?
  }

  predicate AllFit(rows: seq<Row>, k: Kind) {
    forall i, j :: 0 <= i < |rows| && 0 <= j < |rows| && rows[i].kind == k && rows[j].kind == k ==>
      Fits(Address(rows[i]), Address(rows[j]))
  }

  /**
   Sorted rows of a kind are in address order if and only if each shorter address is at most the leading digits of each
   longer one.
   */
  lemma SortedOrderIff(rows: seq<Row>, k: Kind)
    requires SortedBy(RowLeq, rows) && Addressed(rows) && k != Added
    ensures InAddressOrder(rows, k) <==> AllFit(rows, k)
  {
    hide Fits; hide Hex; hide LexLeq;
    forall i, j | 0 <= i < j < |rows| && rows[i].kind == k && rows[j].kind == k
      ensures var x, y := Address(rows[i]), Address(rows[j]); x <= y <==> Fits(x, y) && Fits(y, x)
    {
      var x, y := Address(rows[i]), Address(rows[j]);
      assert RowLeq(rows[i], rows[j]);
      assert LexLeq(Hex(x), Hex(y));
      if x <= y {
        FitsIsTextOrder(x, y);
        FitsUpward(y, x);
      } else {
        FitsIsTextOrder(y, x);
        if LexLeq(Hex(y), Hex(x)) {
          LexAntisymmetric(Hex(x), Hex(y));
          HexInjective(x, y);
        }
      }
    }
    assert forall i :: 0 <= i < |rows| ==> Fits(Address(rows[i]), Address(rows[i])) by {
      forall i | 0 <= i < |rows| ensures Fits(Address(rows[i]), Address(rows[i])) {
        FitsUpward(Address(rows[i]), Address(rows[i]));
      }
    }
  }

  // ------------------------------------------------------------------ the rows of a report

  /** Where a row that is not `added` comes from. */
  predicate FromA(a: seq<Block>, rows: seq<Row>) {
    forall i :: 0 <= i < |rows| && rows[i].kind != Added ==> rows[i].a.Some? && rows[i].a.value in a
  }

  lemma {:induction false} RemovedFromA(a: seq<Block>, used: set<nat>, n: nat)
    requires n <= |a|
    ensures FromA(a, RemovedRows(a, used, n))
  {
    if n > 0 { RemovedFromA(a, used, n - 1); }
  }

  lemma RowsFromA(a: seq<Block>, b: seq<Block>, pairs: Pairs, usedA: set<nat>, usedB: set<nat>)
    requires Within(pairs, |a|, |b|)
    ensures FromA(a, AllRows(a, b, pairs, usedA, usedB))
  {
    hide KindOf; hide Similarity;
    PairCount(a, b, pairs);
    RemovedFromA(a, usedA, |a|);
    AddedCount(b, usedB, |b|);
  }

  /** The rows of a report are sorted and are rows of the mapping. */
  lemma ReportRows(a: seq<Block>, b: seq<Block>, pairs: Pairs, usedA: set<nat>, usedB: set<nat>, maxRows: nat)
    requires Within(pairs, |a|, |b|)
    ensures var rows := ReportOf(a, b, pairs, usedA, usedB, maxRows).rows; SortedBy(RowLeq, rows) && FromA(a, rows)
  {
    hide AllRows; hide RowLeq; hide CountKind; hide Sort;
    var all := AllRows(a, b, pairs, usedA, usedB);
    var sorted := Sort(RowLeq, all);
    RowOrder();
    SortSorted(RowLeq, all);
    SameMembers(sorted, all);
    RowsFromA(a, b, pairs, usedA, usedB);
    forall i | 0 <= i < |sorted| && sorted[i].kind != Added ensures sorted[i].a.Some? && sorted[i].a.value in a {
      assert sorted[i] in all;
    }
  }

  /**
   In every report, cut or not, the rows of a kind other than `added` are in address order
   if and only if each shorter address among them is at most the leading digits of each longer one.
   */
  lemma ReportOrderIff(a: seq<Block>, b: seq<Block>, pairs: Pairs, usedA: set<nat>, usedB: set<nat>, maxRows: nat,
                       k: Kind)
    requires Within(pairs, |a|, |b|) && k != Added
    ensures var rows := ReportOf(a, b, pairs, usedA, usedB, maxRows).rows; InAddressOrder(rows, k) <==> AllFit(rows, k)
  {
    hide ReportOf; hide Fits;
    ReportRows(a, b, pairs, usedA, usedB, maxRows);
    SortedOrderIff(ReportOf(a, b, pairs, usedA, usedB, maxRows).rows, k);
  }

  predicate BlocksFit(a: seq<Block>) {
    forall i, j :: 0 <= i < |a| && 0 <= j < |a| ==> Fits(a[i].ea, a[j].ea)
  }

  /** Every report against any other list has its rows in address order, those of kind `added` aside. */
  ghost predicate AlwaysInOrder(a: seq<Block>) {
    forall b, t, pairs, n, usedA, usedB, maxRows: nat, k ::
      Mapping(a, b, t, pairs, n, usedA, usedB) && k != Added ==> Ordered(a, b, pairs, usedA, usedB, maxRows, k)
  }

  predicate Ordered(a: seq<Block>, b: seq<Block>, pairs: Pairs, usedA: set<nat>, usedB: set<nat>, maxRows: nat,
                    k: Kind) {
    Within(pairs, |a|, |b|) && InAddressOrder(ReportOf(a, b, pairs, usedA, usedB, maxRows).rows, k)
  }

  lemma FitIsEnough(a: seq<Block>, b: seq<Block>, pairs: Pairs, usedA: set<nat>, usedB: set<nat>, maxRows: nat, k: Kind)
    requires BlocksFit(a) && Within(pairs, |a|, |b|) && k != Added
    ensures InAddressOrder(ReportOf(a, b, pairs, usedA, usedB, maxRows).rows, k)
  {
    hide ReportOf; hide Fits;
    var rows := ReportOf(a, b, pairs, usedA, usedB, maxRows).rows;
    ReportRows(a, b, pairs, usedA, usedB, maxRows);
    ReportOrderIff(a, b, pairs, usedA, usedB, maxRows, k);
    forall i, j | 0 <= i < |rows| && 0 <= j < |rows| && rows[i].kind == k && rows[j].kind == k
      ensures Fits(Address(rows[i]), Address(rows[j]))
    {
      assert rows[i].a.value in a && rows[j].a.value in a;
    }
  }

  /** Against an empty list every block is removed. */
  lemma NothingToMap(a: seq<Block>, t: real)
    ensures Mapping(a, [], t, [], 0, {}, {})
  {
    hide Shape; hide Similarity;
    assert Hashes([]) == [];
    assert PairHashes(a, []) == [];
  }

  lemma {:induction false} AllRemoved(a: seq<Block>, n: nat)
    requires n <= |a|
    ensures |RemovedRows(a, {}, n)| == n
    ensures forall i :: 0 <= i < n ==> RemovedRows(a, {}, n)[i] == Row(Removed, Some(a[i]), None, None)
  {
    if n > 0 { AllRemoved(a, n - 1); }
  }

  /** Then the report has one row for each block. */
  lemma RemovedReport(a: seq<Block>, i: nat) returns (p: nat)
    requires i < |a|
    ensures var rows := ReportOf(a, [], [], {}, {}, |a|).rows;
      p < |rows| && rows[p] == Row(Removed, Some(a[i]), None, None)
  {
    hide RowLeq; hide CountKind;
    var all := AllRows(a, [], [], {}, {});
    AllRemoved(a, |a|);
    assert all == RemovedRows(a, {}, |a|);
    hide Sort;
    SameMembers(Sort(RowLeq, all), all);
    assert all[i] in Sort(RowLeq, all);
    p :| 0 <= p < |all| && Sort(RowLeq, all)[p] == all[i];
  }

  lemma FitIsNeeded(a: seq<Block>)
    requires AlwaysInOrder(a)
    ensures BlocksFit(a)
  {
    hide ReportOf; hide Fits; hide Mapping;
    NothingToMap(a, 0.0);
    var rows := ReportOf(a, [], [], {}, {}, |a|).rows;
    assert Ordered(a, [], [], {}, {}, |a|, Removed);
    ReportOrderIff(a, [], [], {}, {}, |a|, Removed);
    forall i, j | 0 <= i < |a| && 0 <= j < |a| ensures Fits(a[i].ea, a[j].ea) {
      var p := RemovedReport(a, i);
      var q := RemovedReport(a, j);
      assert Fits(Address(rows[p]), Address(rows[q]));
    }
  }

  /**
   What a caller can check beforehand: the equal, modified and removed rows are in address order
   against every other list if and only if each shorter address of the first list is at most the
   leading digits of each longer one.
   */
  lemma AlwaysInOrderIff(a: seq<Block>)
    ensures AlwaysInOrder(a) <==> BlocksFit(a)
  {
    hide ReportOf; hide Fits; hide Mapping;
    if AlwaysInOrder(a) { FitIsNeeded(a); }
    if BlocksFit(a) {
      forall b, t, pairs, n, usedA, usedB, maxRows: nat, k | Mapping(a, b, t, pairs, n, usedA, usedB) && k != Added
        ensures Ordered(a, b, pairs, usedA, usedB, maxRows, k)
      {
        MappingWithin(a, b, t, pairs, n, usedA, usedB);
        FitIsEnough(a, b, pairs, usedA, usedB, maxRows, k);
      }
    }
  }

  lemma MappingWithin(a: seq<Block>, b: seq<Block>, t: real, pairs: Pairs, n: nat, usedA: set<nat>, usedB: set<nat>)
    requires Mapping(a, b, t, pairs, n, usedA, usedB)
    ensures Within(pairs, |a|, |b|)
  {
  }

  // ------------------------------------------------------------------ added rows

  function OfKind(rows: seq<Row>, k: Kind): (r: seq<Row>) {
    if rows == [] then [] else
      var last := rows[|rows| - 1];
      OfKind(rows[..|rows| - 1], k) + if last.kind == k then [last] else []
  }

  lemma {:induction false} OfKindMembers(rows: seq<Row>, k: Kind, r: Row)
    ensures r in OfKind(rows, k) <==> r in rows && r.kind == k
  {
    if rows != [] {
      assert rows == rows[..|rows| - 1] + [rows[|rows| - 1]];
      OfKindMembers(rows[..|rows| - 1], k, r);
    }
  }

  lemma {:induction false} OfKindConcat(s: seq<Row>, r: seq<Row>, k: Kind)
    ensures OfKind(s + r, k) == OfKind(s, k) + OfKind(r, k)
  {
    if r == [] {
      assert s + r == s;
    } else {
      assert (s + r)[..|s + r| - 1] == s + r[..|r| - 1];
      OfKindConcat(s, r[..|r| - 1], k);
    }
  }

  lemma OfKindOne(x: Row, k: Kind)
    ensures OfKind([x], k) == if x.kind == k then [x] else []
  {
    assert [x][..0] == [];
  }

  lemma {:induction false} OfKindAll(s: seq<Row>, k: Kind)
    requires forall i :: 0 <= i < |s| ==> s[i].kind == k
    ensures OfKind(s, k) == s
  {
    if s != [] {
      OfKindAll(s[..|s| - 1], k);
      assert s == s[..|s| - 1] + [s[|s| - 1]];
    }
  }

  lemma {:induction false} OfKindNone(s: seq<Row>, k: Kind)
    requires forall i :: 0 <= i < |s| ==> s[i].kind != k
    ensures OfKind(s, k) == []
  {
    if s != [] { OfKindNone(s[..|s| - 1], k); }
  }

  /** Being in address order is a matter of the rows of the kind alone. */
  lemma {:induction false} OrderOfKind(rows: seq<Row>, k: Kind)
    ensures InAddressOrder(rows, k) <==> InAddressOrder(OfKind(rows, k), k)
  {
    if rows != [] {
      var init, last, of := rows[..|rows| - 1], rows[|rows| - 1], OfKind(rows[..|rows| - 1], k);
      OrderOfKind(init, k);
      OrderSnoc(init, last, k);
      assert rows == init + [last];
      if last.kind == k {
        OrderSnoc(of, last, k);
        forall r ensures r in of <==> r in init && r.kind == k { OfKindMembers(init, k, r); }
      } else {
        assert of + [] == of;
      }
    }
  }

  lemma OrderSnoc(rows: seq<Row>, x: Row, k: Kind)
    ensures InAddressOrder(rows + [x], k) <==>
            && InAddressOrder(rows, k)
            && (x.kind == k ==> forall r :: r in rows && r.kind == k ==> Address(r) <= Address(x))
  {
    var s := rows + [x];
    assert forall i :: 0 <= i < |rows| ==> s[i] == rows[i];
    if InAddressOrder(s, k) && x.kind == k {
      forall r | r in rows && r.kind == k ensures Address(r) <= Address(x) {
        var i :| 0 <= i < |rows| && rows[i] == r;
        assert s[i] == r && s[|rows|] == x;
      }
    }
    if InAddressOrder(s, k) {
      forall i, j | 0 <= i < j < |rows| && rows[i].kind == k && rows[j].kind == k
        ensures Address(rows[i]) <= Address(rows[j])
      {
        assert s[i] == rows[i] && s[j] == rows[j];
      }
    }
  }

  /** Rows keyed by the empty text. */
  predicate AddedKeyed(s: seq<Row>) { forall i :: 0 <= i < |s| && s[i].kind == Added ==> s[i].a == None }

  /** Added rows all have the empty key, so inserting one puts it after those already there. */
  lemma {:induction false} InsertKeepsAdded(s: seq<Row>, x: Row)
    requires AddedKeyed(s) && (x.kind == Added ==> x.a == None)
    ensures OfKind(Insert(RowLeq, s, x), Added) == OfKind(s, Added) + if x.kind == Added then [x] else []
  {
    hide RowLeq; hide OfKind;
    OfKindOne(x, Added);
    if s == [] || RowLeq(s[|s| - 1], x) {
      OfKindConcat(s, [x], Added);
    } else {
      var rest, last := s[..|s| - 1], s[|s| - 1];
      InsertKeepsAdded(rest, x);
      OfKindConcat(Insert(RowLeq, rest, x), [last], Added);
      OfKindConcat(rest, [last], Added);
      OfKindOne(last, Added);
      assert s == rest + [last];
      if last.kind == Added && x.kind == Added { AddedLeq(last, x); }
    }
  }

  lemma AddedLeq(x: Row, y: Row)
    requires x.kind == Added && x.a == None && y.kind == Added && y.a == None
    ensures RowLeq(x, y)
  {
  }

  /** The sort leaves the added rows in the order of the second list. */
  lemma {:induction false} SortKeepsAdded(s: seq<Row>)
    requires AddedKeyed(s)
    ensures OfKind(Sort(RowLeq, s), Added) == OfKind(s, Added)
  {
    hide RowLeq;
    if s != [] {
      var rest, last := s[..|s| - 1], s[|s| - 1];
      SortKeepsAdded(rest);
      var sorted := Sort(RowLeq, rest);
      SameMembers(sorted, rest);
      forall i | 0 <= i < |sorted| && sorted[i].kind == Added ensures sorted[i].a == None {
        assert sorted[i] in rest;
      }
      InsertKeepsAdded(sorted, last);
    }
  }

  lemma {:induction false} CutOfKind(s: seq<Row>, m: nat, k: Kind)
    requires m <= |s|
    ensures OfKind(s[..m], k) <= OfKind(s, k)
  {
    if m < |s| {
      CutOfKind(s[..|s| - 1], m, k);
      assert s[..|s| - 1][..m] == s[..m];
    } else {
      assert s[..m] == s;
    }
  }

  lemma AddedAmongAll(a: seq<Block>, b: seq<Block>, pairs: Pairs, usedA: set<nat>, usedB: set<nat>)
    requires Within(pairs, |a|, |b|)
    ensures var all := AllRows(a, b, pairs, usedA, usedB);
      OfKind(all, Added) == AddedRows(b, usedB, |b|) && AddedKeyed(all)
  {
    hide OfKind; hide PairRows; hide RemovedRows; hide AddedRows;
    var p, x, y := PairRows(a, b, pairs), RemovedRows(a, usedA, |a|), AddedRows(b, usedB, |b|);
    RemovedCount(a, usedA, |a|);
    AddedCount(b, usedB, |b|);
    PairsNotAdded(a, b, pairs);
    AddedEmpty(b, usedB, |b|);
    OfKindConcat(p + x, y, Added);
    OfKindConcat(p, x, Added);
    OfKindNone(p, Added);
    OfKindNone(x, Added);
    OfKindAll(y, Added);
  }

  /** Added rows come in the order of the second list, whatever their addresses; a cut keeps the first of them. */
  lemma AddedInInputOrder(a: seq<Block>, b: seq<Block>, pairs: Pairs, usedA: set<nat>, usedB: set<nat>, maxRows: nat)
    requires Within(pairs, |a|, |b|)
    ensures var r := ReportOf(a, b, pairs, usedA, usedB, maxRows);
      && OfKind(r.rows, Added) <= AddedRows(b, usedB, |b|)
      && (!r.truncated ==> OfKind(r.rows, Added) == AddedRows(b, usedB, |b|))
  {
    hide RowLeq; hide CountKind; hide AllRows; hide OfKind; hide Sort; hide AddedRows; hide AddedKeyed;
    var all := AllRows(a, b, pairs, usedA, usedB);
    AddedAmongAll(a, b, pairs, usedA, usedB);
    SortKeepsAdded(all);
    var sorted := Sort(RowLeq, all);
    if |sorted| > maxRows { CutOfKind(sorted, maxRows, Added); }
  }

  lemma PairsNotAdded(a: seq<Block>, b: seq<Block>, pairs: Pairs)
    requires Within(pairs, |a|, |b|)
    ensures forall i :: 0 <= i < |PairRows(a, b, pairs)| ==> PairRows(a, b, pairs)[i].kind != Added
  {
    PairCount(a, b, pairs);
  }

  lemma {:induction false} AddedEmpty(b: seq<Block>, used: set<nat>, n: nat)
    requires n <= |b|
    ensures forall i :: 0 <= i < |AddedRows(b, used, n)| ==> AddedRows(b, used, n)[i].a == None
  {
    if n > 0 { AddedEmpty(b, used, n - 1); }
  }

  /** The blocks of the second list left unused are in address order. */
  predicate UnusedAscend(b: seq<Block>, used: set<nat>, n: nat) {
    forall i, j :: 0 <= i < j < n && j < |b| && i !in used && j !in used ==> b[i].ea <= b[j].ea
  }

  lemma {:induction false} AddedBound(b: seq<Block>, used: set<nat>, n: nat, x: nat)
    requires n <= |b|
    ensures (forall r :: r in AddedRows(b, used, n) ==> Address(r) <= x) <==>
      (forall i :: 0 <= i < n && i !in used ==> b[i].ea <= x)
  {
    if n > 0 {
      AddedBound(b, used, n - 1, x);
      if n - 1 !in used {
        var last := Row(Added, None, Some(b[n - 1]), None);
        assert last in AddedRows(b, used, n) && Address(last) == b[n - 1].ea;
      }
    }
  }

  lemma {:induction false} AddedAscend(b: seq<Block>, used: set<nat>, n: nat)
    requires n <= |b|
    ensures InAddressOrder(AddedRows(b, used, n), Added) <==> UnusedAscend(b, used, n)
  {
    if n > 0 {
      var init, last := AddedRows(b, used, n - 1), Row(Added, None, Some(b[n - 1]), None);
      AddedAscend(b, used, n - 1);
      if n - 1 in used {
        assert AddedRows(b, used, n) == init;
      } else {
        assert AddedRows(b, used, n) == init + [last];
        hide InAddressOrder;
        OrderSnoc(init, last, Added);
        AddedCount(b, used, n - 1);
        AddedBound(b, used, n - 1, b[n - 1].ea);
      }
    }
  }

  /**
   In a report that is not cut, the added rows are in address order if and only if the unused blocks of the second list
   are.
   */
  lemma AddedOrderIff(a: seq<Block>, b: seq<Block>, pairs: Pairs, usedA: set<nat>, usedB: set<nat>, maxRows: nat)
    requires Within(pairs, |a|, |b|) && !ReportOf(a, b, pairs, usedA, usedB, maxRows).truncated
    ensures InAddressOrder(ReportOf(a, b, pairs, usedA, usedB, maxRows).rows, Added) <==> UnusedAscend(b, usedB, |b|)
  {
    hide ReportOf;
    AddedInInputOrder(a, b, pairs, usedA, usedB, maxRows);
    OrderOfKind(ReportOf(a, b, pairs, usedA, usedB, maxRows).rows, Added);
    AddedAscend(b, usedB, |b|);
  }

  /** Every report of any first list against this one has its added rows in address order, cut or not. */
  ghost predicate AlwaysAddedInOrder(b: seq<Block>) {
    forall a, t, pairs, n, usedA, usedB, maxRows: nat ::
      Mapping(a, b, t, pairs, n, usedA, usedB) ==> Ordered(a, b, pairs, usedA, usedB, maxRows, Added)
  }

  predicate Ascends(b: seq<Block>) { forall i, j :: 0 <= i < j < |b| ==> b[i].ea <= b[j].ea }

  lemma AscendingIsEnough(a: seq<Block>, b: seq<Block>, pairs: Pairs, usedA: set<nat>, usedB: set<nat>, maxRows: nat)
    requires Ascends(b) && Within(pairs, |a|, |b|)
    ensures InAddressOrder(ReportOf(a, b, pairs, usedA, usedB, maxRows).rows, Added)
  {
    hide ReportOf;
    var rows := ReportOf(a, b, pairs, usedA, usedB, maxRows).rows;
    AddedInInputOrder(a, b, pairs, usedA, usedB, maxRows);
    AddedAscend(b, usedB, |b|);
    assert InAddressOrder(OfKind(rows, Added), Added);
    OrderOfKind(rows, Added);
  }

  lemma AscendingIsNeeded(b: seq<Block>)
    requires AlwaysAddedInOrder(b)
    ensures Ascends(b)
  {
    hide ReportOf; hide Mapping;
    NothingMapped(b, 0.0);
    assert Ordered([], b, [], {}, {}, |b|, Added);
    NothingIsCut(b);
    AddedOrderIff([], b, [], {}, {}, |b|);
  }

  lemma NothingIsCut(b: seq<Block>)
    ensures !ReportOf([], b, [], {}, {}, |b|).truncated
  {
    hide RowLeq; hide CountKind;
    var all := AllRows([], b, [], {}, {});
    AddedCount(b, {}, |b|);
    SameMembers(Sort(RowLeq, all), all);
  }

  /**
   The added rows are in address order against every first list, cut or not, if and only if the second list ascends.
   */
  lemma AlwaysAddedInOrderIff(b: seq<Block>)
    ensures AlwaysAddedInOrder(b) <==> Ascends(b)
  {
    hide ReportOf; hide Mapping;
    if AlwaysAddedInOrder(b) { AscendingIsNeeded(b); }
    if Ascends(b) {
      forall a, t, pairs, n, usedA, usedB, maxRows: nat | Mapping(a, b, t, pairs, n, usedA, usedB)
        ensures Ordered(a, b, pairs, usedA, usedB, maxRows, Added)
      {
        MappingWithin(a, b, t, pairs, n, usedA, usedB);
        AscendingIsEnough(a, b, pairs, usedA, usedB, maxRows);
      }
    }
  }

  // ------------------------------------------------------------------ two reports out of order

  function At(ea: U64): Block { Block(ea, 0, 0, 0, 0) }

  lemma NotFirst()
    ensures !LexLeq(Hex(0x200), Hex(0x1000))
  {
    assert HexDigits(0x200) == "200" && HexDigits(0x1000) == "1000";
    TextOrder(0x200, 0x1000);
  }

  lemma InsertOne(x: Row, y: Row)
    ensures Insert(RowLeq, [], x) == [x]
    ensures Insert(RowLeq, [x], y) == if RowLeq(x, y) then [x, y] else [y, x]
  {
    hide RowLeq;
    assert [x][..0] == [];
    assert Insert(RowLeq, [], y) == [y];
  }

  lemma SortTwo(x: Row, y: Row)
    ensures Sort(RowLeq, [x, y]) == if RowLeq(x, y) then [x, y] else [y, x]
  {
    hide RowLeq; hide Insert;
    InsertOne(x, y);
    var one, two := [x], [x, y];
    assert two[..1] == one && one[..0] == [];
    assert Sort(RowLeq, one) == one;
  }

  lemma TwoRowReport(a: seq<Block>, b: seq<Block>, x: Row, y: Row)
    requires AllRows(a, b, [], {}, {}) == [x, y]
    ensures ReportOf(a, b, [], {}, {}, 2).rows == if RowLeq(x, y) then [x, y] else [y, x]
  {
    hide RowLeq; hide CountKind; hide Sort; hide AllRows;
    SortTwo(x, y);
  }

  /** Two blocks against none: the row of 0x1000 comes before that of 0x200. */
  lemma RemovedRowsOutOfOrder(t: real)
    ensures var a := [At(0x200), At(0x1000)];
      && Mapping(a, [], t, [], 0, {}, {})
      && ReportOf(a, [], [], {}, {}, 2).rows ==
        [Row(Removed, Some(a[1]), None, None), Row(Removed, Some(a[0]), None, None)]
      && !InAddressOrder(ReportOf(a, [], [], {}, {}, 2).rows, Removed)
  {
    hide Mapping; hide LexLeq; hide Hex; hide ReportOf;
    var a := [At(0x200), At(0x1000)];
    NothingToMap(a, t);
    var r0, r1 := Row(Removed, Some(a[0]), None, None), Row(Removed, Some(a[1]), None, None);
    AllRemoved(a, 2);
    assert AllRows(a, [], [], {}, {}) == [r0, r1];
    NotFirst();
    TwoRowReport(a, [], r0, r1);
    var rows := ReportOf(a, [], [], {}, {}, 2).rows;
    assert Address(rows[0]) == 0x1000 && Address(rows[1]) == 0x200;
  }

  /** None against two blocks: the added rows keep the order of the input. */
  lemma AddedRowsOutOfOrder(t: real)
    ensures var b := [At(2), At(1)];
      && Mapping([], b, t, [], 0, {}, {})
      && ReportOf([], b, [], {}, {}, 2).rows == [Row(Added, None, Some(b[0]), None), Row(Added, None, Some(b[1]), None)]
      && !InAddressOrder(ReportOf([], b, [], {}, {}, 2).rows, Added)
  {
    hide Mapping; hide LexLeq; hide Hex; hide ReportOf;
    var b := [At(2), At(1)];
    NothingMapped(b, t);
    var r0, r1 := Row(Added, None, Some(b[0]), None), Row(Added, None, Some(b[1]), None);
    assert AddedRows(b, {}, 1) == [r0];
    assert AllRows([], b, [], {}, {}) == [r0, r1];
    AddedLeq(r0, r1);
    TwoRowReport([], b, r0, r1);
    var rows := ReportOf([], b, [], {}, {}, 2).rows;
    assert Address(rows[0]) == 2 && Address(rows[1]) == 1;
  }

  lemma NothingMapped(b: seq<Block>, t: real)
    ensures Mapping([], b, t, [], 0, {}, {})
  {
    hide Shape; hide Similarity;
    assert Hashes([]) == [];
    assert PairHashes([], []) == [];
  }
}
