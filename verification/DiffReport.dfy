/**
 The report of a block diff: its rows, their order, the cut at `max_rows` and
 the counts taken after the cut.
 */
module DiffReport {
  import opened Basics
  import opened ShapeHash
  import opened Sorting
  import opened Texts
  import opened BlockDiff

  datatype Row = Row(kind: Kind, a: Option<Block>, b: Option<Block>, similarity: Option<real>)

  datatype Report = Report(blocksA: nat, blocksB: nat, equal: nat, modified: nat, added: nat, removed: nat,
                           rows: seq<Row>, truncated: bool)

  // ------------------------------------------------------------------ rows

  function PairRow(x: Block, y: Block): Row { Row(KindOf(x, y), Some(x), Some(y), Some(Similarity(x, y))) }

  function PairRows(a: seq<Block>, b: seq<Block>, pairs: Pairs): seq<Row>
    requires Within(pairs, |a|, |b|)
  {
    if pairs == [] then [] else
      var last := pairs[|pairs| - 1];
      PairRows(a, b, pairs[..|pairs| - 1]) + [PairRow(a[last.0], b[last.1])]
  }

  /** One `removed` row for each unused block among the first `n`. */
  function RemovedRows(a: seq<Block>, used: set<nat>, n: nat): seq<Row>
    requires n <= |a|
  {
    if n == 0 then []
    else RemovedRows(a, used, n - 1) + if n - 1 in used then [] else [Row(Removed, Some(a[n - 1]), None, None)]
  }

  function AddedRows(b: seq<Block>, used: set<nat>, n: nat): seq<Row>
    requires n <= |b|
  {
    if n == 0 then []
    else AddedRows(b, used, n - 1) + if n - 1 in used then [] else [Row(Added, None, Some(b[n - 1]), None)]
  }

  function AllRows(a: seq<Block>, b: seq<Block>, pairs: Pairs, usedA: set<nat>, usedB: set<nat>): seq<Row>
    requires Within(pairs, |a|, |b|)
  {
    PairRows(a, b, pairs) + RemovedRows(a, usedA, |a|) + AddedRows(b, usedB, |b|)
  }

  // ------------------------------------------------------------------ order

  function Rank(k: Kind): nat {
    match k case Equal => 0 case Modified => 1 case Removed => 2 case Added => 3
  }

  function Text(r: Row): string { if r.a.Some? then Hex(r.a.value.ea) else "" }

  function RowLeq(r: Row, s: Row): bool {
    Rank(r.kind) < Rank(s.kind) || (r.kind == s.kind && LexLeq(Text(r), Text(s)))
  }

  lemma RowOrder()
    ensures TotalPreorder(RowLeq)
  {
    hide Text; hide LexLeq;
    LexOrder();
    assert forall k, l :: Rank(k) == Rank(l) ==> k == l;
  }

  // ------------------------------------------------------------------ counts

  /** How many rows have rank at most `c`. */
  function UpTo(s: seq<Row>, c: nat): (n: nat)
    ensures n <= |s|
  {
    if s == [] then 0 else UpTo(s[..|s| - 1], c) + if Rank(s[|s| - 1].kind) <= c then 1 else 0
  }

  function CountKind(s: seq<Row>, k: Kind): nat {
    if s == [] then 0 else CountKind(s[..|s| - 1], k) + if s[|s| - 1].kind == k then 1 else 0
  }

  lemma {:induction false} KindsAddUp(s: seq<Row>)
    ensures UpTo(s, 0) == CountKind(s, Equal)
    ensures UpTo(s, 1) == UpTo(s, 0) + CountKind(s, Modified)
    ensures UpTo(s, 2) == UpTo(s, 1) + CountKind(s, Removed)
    ensures |s| == UpTo(s, 2) + CountKind(s, Added)
  {
    if s != [] { KindsAddUp(s[..|s| - 1]); }
  }

  lemma {:induction false} UpToConcat(s: seq<Row>, r: seq<Row>, c: nat)
    ensures UpTo(s + r, c) == UpTo(s, c) + UpTo(r, c)
  {
    if r == [] {
      assert s + r == s;
    } else {
      assert (s + r)[..|s + r| - 1] == s + r[..|r| - 1];
      UpToConcat(s, r[..|r| - 1], c);
    }
  }

  lemma {:induction false} UpToInsert(s: seq<Row>, x: Row, c: nat)
    ensures UpTo(Insert(RowLeq, s, x), c) == UpTo(s, c) + UpTo([x], c)
  {
    hide RowLeq; hide UpTo;
    if s == [] || RowLeq(s[|s| - 1], x) {
      UpToConcat(s, [x], c);
    } else {
      var rest, last := s[..|s| - 1], s[|s| - 1];
      UpToInsert(rest, x, c);
      UpToConcat(Insert(RowLeq, rest, x), [last], c);
      UpToConcat(rest, [last], c);
      assert s == rest + [last];
    }
  }

  lemma {:induction false} UpToSort(s: seq<Row>, c: nat)
    ensures UpTo(Sort(RowLeq, s), c) == UpTo(s, c)
  {
    hide RowLeq; hide UpTo;
    if s != [] {
      var rest, last := s[..|s| - 1], s[|s| - 1];
      UpToSort(rest, c);
      UpToInsert(Sort(RowLeq, rest), last, c);
      UpToConcat(rest, [last], c);
      assert s == rest + [last];
    }
  }

  predicate RankSorted(s: seq<Row>) {
    forall i, j :: 0 <= i < j < |s| ==> Rank(s[i].kind) <= Rank(s[j].kind)
  }

  lemma {:induction false} UpToAll(s: seq<Row>, c: nat)
    requires forall i :: 0 <= i < |s| ==> Rank(s[i].kind) <= c
    ensures UpTo(s, c) == |s|
  {
    if s != [] { UpToAll(s[..|s| - 1], c); }
  }

  lemma {:induction false} UpToNone(s: seq<Row>, c: nat)
    requires forall i :: 0 <= i < |s| ==> Rank(s[i].kind) > c
    ensures UpTo(s, c) == 0
  {
    if s != [] { UpToNone(s[..|s| - 1], c); }
  }

  /** Cutting sorted rows keeps the lowest ranks. */
  lemma {:induction false} UpToCut(s: seq<Row>, m: nat, c: nat)
    requires RankSorted(s) && m <= |s|
    ensures UpTo(s[..m], c) == Min(m, UpTo(s, c))
    decreases |s|
  {
    if m == |s| {
      assert s[..m] == s;
    } else {
      var rest, last := s[..|s| - 1], s[|s| - 1];
      UpToCut(rest, m, c);
      assert rest[..m] == s[..m];
      if Rank(last.kind) <= c { UpToAll(rest, c); }
    }
  }

  // ------------------------------------------------------------------ the report

  function Cut(s: seq<Row>, m: nat): seq<Row> { if |s| > m then s[..m] else s }

  function ReportOf(a: seq<Block>, b: seq<Block>, pairs: Pairs, usedA: set<nat>, usedB: set<nat>, maxRows: nat): Report
    requires Within(pairs, |a|, |b|)
  {
    var all := Sort(RowLeq, AllRows(a, b, pairs, usedA, usedB));
    var rows := Cut(all, maxRows);
    Report(|a|, |b|, CountKind(rows, Equal), CountKind(rows, Modified), CountKind(rows, Added),
           CountKind(rows, Removed), rows, |all| > maxRows)
  }

  method CountRows(rows: seq<Row>, k: Kind) returns (n: nat)
    ensures n == CountKind(rows, k)
  {
    n := 0;
    for i := 0 to |rows|
      invariant n == CountKind(rows[..i], k)
    {
      assert rows[..i + 1][..i] == rows[..i];
      if rows[i].kind == k { n := n + 1; }
    }
    assert rows[..|rows|] == rows;
  }

  method CollectRows(a: seq<Block>, b: seq<Block>, pairs: Pairs, usedA: set<nat>, usedB: set<nat>)
      returns (rows: seq<Row>)
    requires Within(pairs, |a|, |b|)
    ensures rows == AllRows(a, b, pairs, usedA, usedB)
  {
    hide KindOf; hide Similarity;
    rows := [];
    for i := 0 to |pairs|
      invariant rows == PairRows(a, b, pairs[..i])
    {
      assert pairs[..i + 1][..i] == pairs[..i];
      rows := rows + [PairRow(a[pairs[i].0], b[pairs[i].1])];
    }
    assert pairs[..|pairs|] == pairs;
    for i := 0 to |a|
      invariant rows == PairRows(a, b, pairs) + RemovedRows(a, usedA, i)
    {
      if i !in usedA { rows := rows + [Row(Removed, Some(a[i]), None, None)]; }
    }
    for i := 0 to |b|
      invariant rows == PairRows(a, b, pairs) + RemovedRows(a, usedA, |a|) + AddedRows(b, usedB, i)
    {
      if i !in usedB { rows := rows + [Row(Added, None, Some(b[i]), None)]; }
    }
  }

  /** `diff_blocks`.  The ghost results are the mapping behind the report. */
  method DiffBlocks(a: seq<Block>, b: seq<Block>, threshold: real, maxRows: nat)
    returns (r: Report, ghost pairs: Pairs, ghost n: nat, ghost usedA: set<nat>, ghost usedB: set<nat>)
    ensures Mapping(a, b, threshold, pairs, n, usedA, usedB) && pairs == MappedPairs(a, b, threshold)
    ensures Within(pairs, |a|, |b|) && r == ReportOf(a, b, pairs, usedA, usedB, maxRows)
    ensures r.blocksA == |a| && r.blocksB == |b|
    ensures !r.truncated <==> r.equal + r.modified + r.removed == |a| && r.equal + r.modified + r.added == |b|
    ensures |r.rows| == r.equal + r.modified + r.removed + r.added <= maxRows
    ensures r.equal + r.modified >= Min(maxRows, |multiset(Hashes(a)) * multiset(Hashes(b))|)
  {
    hide Similarity; hide KindOf; hide Shape; hide Greedy; hide ShapesExhausted; hide Exhausted; hide SameShapes;
    hide RowLeq; hide AllRows; hide MappedPairs;
    var ps, k, ua, ub := MapBlocks(a, b, threshold);
    pairs, n, usedA, usedB := ps, k, ua, ub;
    assert Within(ps, |a|, |b|);
    hide Mapping;
    var raw := CollectRows(a, b, ps, ua, ub);
    var rows := Sort(RowLeq, raw);
    var truncated := |rows| > maxRows;
    rows := Cut(rows, maxRows);
    var e := CountRows(rows, Equal);
    var m := CountRows(rows, Modified);
    var d := CountRows(rows, Added);
    var x := CountRows(rows, Removed);
    r := Report(|a|, |b|, e, m, d, x, rows, truncated);
    ReportFacts(a, b, threshold, pairs, n, usedA, usedB, maxRows);
  }

  // ------------------------------------------------------------------ conservation

  function Below(used: set<nat>, n: nat): set<nat> { set x <- used | x < n }

  lemma BelowNext(used: set<nat>, n: nat)
    ensures |Below(used, n + 1)| == |Below(used, n)| + if n in used then 1 else 0
  {
    if n in used {
      assert Below(used, n + 1) == Below(used, n) + {n};
    } else {
      assert Below(used, n + 1) == Below(used, n);
    }
  }

  lemma {:induction false} RemovedCount(a: seq<Block>, used: set<nat>, n: nat)
    requires n <= |a|
    ensures |RemovedRows(a, used, n)| + |Below(used, n)| == n
    ensures forall i :: 0 <= i < |RemovedRows(a, used, n)| ==> RemovedRows(a, used, n)[i].kind == Removed
  {
    if n == 0 {
      assert Below(used, 0) == {};
    } else {
      RemovedCount(a, used, n - 1);
      BelowNext(used, n - 1);
    }
  }

  lemma {:induction false} AddedCount(b: seq<Block>, used: set<nat>, n: nat)
    requires n <= |b|
    ensures |AddedRows(b, used, n)| + |Below(used, n)| == n
    ensures forall i :: 0 <= i < |AddedRows(b, used, n)| ==> AddedRows(b, used, n)[i].kind == Added
  {
    if n == 0 {
      assert Below(used, 0) == {};
    } else {
      AddedCount(b, used, n - 1);
      BelowNext(used, n - 1);
    }
  }

  lemma {:induction false} PairCount(a: seq<Block>, b: seq<Block>, pairs: Pairs)
    requires Within(pairs, |a|, |b|)
    ensures |PairRows(a, b, pairs)| == |pairs|
    ensures forall i :: 0 <= i < |pairs| ==> PairRows(a, b, pairs)[i] == PairRow(a[pairs[i].0], b[pairs[i].1])
  {
    hide KindOf; hide Similarity;
    if pairs != [] { PairCount(a, b, pairs[..|pairs| - 1]); }
  }

  function FirstsOf(pairs: Pairs): set<nat> {
    if pairs == [] then {} else FirstsOf(pairs[..|pairs| - 1]) + {pairs[|pairs| - 1].0}
  }

  function SecondsOf(pairs: Pairs): set<nat> {
    if pairs == [] then {} else SecondsOf(pairs[..|pairs| - 1]) + {pairs[|pairs| - 1].1}
  }

  lemma {:induction false} SidesMembers(pairs: Pairs, x: nat)
    ensures x in FirstsOf(pairs) <==> UsesA(pairs, x)
    ensures x in SecondsOf(pairs) <==> UsesB(pairs, x)
  {
    if pairs != [] {
      var rest, last := pairs[..|pairs| - 1], pairs[|pairs| - 1];
      SidesMembers(rest, x);
      assert forall i :: 0 <= i < |rest| ==> rest[i] == pairs[i];
    }
  }

  lemma {:induction false} SidesCount(pairs: Pairs)
    requires Injective(pairs)
    ensures |FirstsOf(pairs)| == |pairs| && |SecondsOf(pairs)| == |pairs|
  {
    if pairs != [] {
      var rest, last := pairs[..|pairs| - 1], pairs[|pairs| - 1];
      SidesCount(rest);
      SidesMembers(rest, last.0);
      SidesMembers(rest, last.1);
    }
  }

  lemma UsedCount(pairs: Pairs, usedA: set<nat>, usedB: set<nat>, na: nat, nb: nat)
    requires Matching(pairs, usedA, usedB, na, nb)
    ensures |Below(usedA, na)| == |pairs| && |Below(usedB, nb)| == |pairs|
  {
    SidesCount(pairs);
    forall x: nat
      ensures (x in Below(usedA, na) <==> x in FirstsOf(pairs)) && (x in Below(usedB, nb) <==> x in SecondsOf(pairs))
    {
      SidesMembers(pairs, x);
    }
    assert Below(usedA, na) == FirstsOf(pairs);
    assert Below(usedB, nb) == SecondsOf(pairs);
  }

  function EqualPairs(a: seq<Block>, b: seq<Block>, pairs: Pairs): nat
    requires Within(pairs, |a|, |b|)
  {
    UpTo(PairRows(a, b, pairs), 0)
  }

  /** The rank counts of the rows before sorting. */
  lemma RowTotals(a: seq<Block>, b: seq<Block>, pairs: Pairs, usedA: set<nat>, usedB: set<nat>)
    requires Matching(pairs, usedA, usedB, |a|, |b|)
    ensures var all := AllRows(a, b, pairs, usedA, usedB);
      UpTo(all, 0) == EqualPairs(a, b, pairs) && UpTo(all, 1) == |pairs| && UpTo(all, 2) == |a|
      && |all| == |a| + |b| - |pairs| && |pairs| <= |a| && |pairs| <= |b|
  {
    var p, x, y := PairRows(a, b, pairs), RemovedRows(a, usedA, |a|), AddedRows(b, usedB, |b|);
    UsedCount(pairs, usedA, usedB, |a|, |b|);
    PairCount(a, b, pairs);
    RemovedCount(a, usedA, |a|);
    AddedCount(b, usedB, |b|);
    UpToAll(p, 1);
    UpToAll(p, 2);
    UpToAll(x, 2);
    UpToNone(x, 1);
    UpToNone(x, 0);
    UpToNone(y, 2);
    UpToNone(y, 1);
    UpToNone(y, 0);
    hide UpTo; hide PairRows; hide RemovedRows; hide AddedRows; hide Matching;
    forall c: nat | c < 3 ensures UpTo(AllRows(a, b, pairs, usedA, usedB), c) == UpTo(p, c) + UpTo(x, c) + UpTo(y, c) {
      UpToConcat(p + x, y, c);
      UpToConcat(p, x, c);
    }
  }

  /** Sorting and cutting keep the rows of lowest rank. */
  lemma KeptRows(all: seq<Row>, maxRows: nat, c: nat)
    ensures var rows := Cut(Sort(RowLeq, all), maxRows);
      |rows| == Min(maxRows, |all|) && |Sort(RowLeq, all)| == |all| && UpTo(rows, c) == Min(|rows|, UpTo(all, c))
  {
    hide UpTo;
    var sorted := Sort(RowLeq, all);
    var rows := Cut(sorted, maxRows);
    RowOrder();
    SortSorted(RowLeq, all);
    SameMembers(sorted, all);
    UpToSort(all, c);
    assert RankSorted(sorted);
    hide Sort; hide RowLeq;
    UpToCut(sorted, |rows|, c);
    assert sorted[..|rows|] == rows;
  }

  /** The counts of any report: what the cut keeps, rank by rank. */
  lemma ReportCounts(a: seq<Block>, b: seq<Block>, pairs: Pairs, usedA: set<nat>, usedB: set<nat>, maxRows: nat)
    requires Matching(pairs, usedA, usedB, |a|, |b|)
    ensures var r := ReportOf(a, b, pairs, usedA, usedB, maxRows);
      && |pairs| <= |a| && |pairs| <= |b|
      && r.equal == Min(maxRows, EqualPairs(a, b, pairs))
      && r.equal + r.modified == Min(maxRows, |pairs|)
      && r.equal + r.modified + r.removed == Min(maxRows, |a|)
      && r.equal + r.modified + r.removed + r.added == Min(maxRows, |a| + |b| - |pairs|) == |r.rows|
      && (r.truncated <==> |a| + |b| - |pairs| > maxRows)
  {
    hide UpTo; hide AllRows; hide CountKind; hide EqualPairs; hide Sort; hide RowLeq; hide Cut;
    RowTotals(a, b, pairs, usedA, usedB);
    var all := AllRows(a, b, pairs, usedA, usedB);
    var rows := Cut(Sort(RowLeq, all), maxRows);
    KeptRows(all, maxRows, 0);
    KeptRows(all, maxRows, 1);
    KeptRows(all, maxRows, 2);
    KindsAddUp(rows);
  }

  /** Every block of either side is accounted for exactly when the report is not cut. */
  lemma ConservedIffWhole(a: seq<Block>, b: seq<Block>, pairs: Pairs, usedA: set<nat>, usedB: set<nat>, maxRows: nat)
    requires Matching(pairs, usedA, usedB, |a|, |b|)
    ensures var r := ReportOf(a, b, pairs, usedA, usedB, maxRows);
      !r.truncated <==> r.equal + r.modified + r.removed == |a| && r.equal + r.modified + r.added == |b|
  {
    ReportCounts(a, b, pairs, usedA, usedB, maxRows);
    hide ReportOf; hide Matching;
  }

  /** What every report says, whatever the mapping behind it. */
  lemma ReportFacts(a: seq<Block>, b: seq<Block>, t: real, pairs: Pairs, n: nat, usedA: set<nat>, usedB: set<nat>,
                    maxRows: nat)
    requires Mapping(a, b, t, pairs, n, usedA, usedB)
    ensures Within(pairs, |a|, |b|)
    ensures var r := ReportOf(a, b, pairs, usedA, usedB, maxRows);
      && (!r.truncated <==> r.equal + r.modified + r.removed == |a| && r.equal + r.modified + r.added == |b|)
      && |r.rows| == r.equal + r.modified + r.removed + r.added <= maxRows
      && r.equal + r.modified >= Min(maxRows, |multiset(Hashes(a)) * multiset(Hashes(b))|)
  {
    hide ReportOf; hide Greedy; hide ShapesExhausted; hide Exhausted; hide SameShapes; hide PairHashes; hide Hashes;
    MappingCounts(a, b, t, pairs, n, usedA, usedB);
    ReportCounts(a, b, pairs, usedA, usedB, maxRows);
    ConservedIffWhole(a, b, pairs, usedA, usedB, maxRows);
  }

  // ------------------------------------------------------------------ a list against itself

  predicate CollisionFree(a: seq<Block>) {
    forall i, j :: 0 <= i < |a| && 0 <= j < |a| && Shape(a[i]) == Shape(a[j]) ==> Differences(a[i], a[j]) == 0
  }

  lemma SelfPairsAll(a: seq<Block>, t: real, pairs: Pairs, n: nat, usedA: set<nat>, usedB: set<nat>)
    requires Mapping(a, a, t, pairs, n, usedA, usedB)
    ensures n == |a| == |pairs|
  {
    MappingCounts(a, a, t, pairs, n, usedA, usedB);
    assert multiset(Hashes(a)) * multiset(Hashes(a)) == multiset(Hashes(a));
    UsedCount(pairs, usedA, usedB, |a|, |a|);
    RemovedCount(a, usedA, |a|);
  }

  lemma SelfPairsEqual(a: seq<Block>, pairs: Pairs)
    requires CollisionFree(a) && SameShapes(a, a, pairs)
    ensures EqualPairs(a, a, pairs) == |pairs|
  {
    hide Shape; hide Similarity;
    PairCount(a, a, pairs);
    var rows := PairRows(a, a, pairs);
    forall i | 0 <= i < |rows| ensures Rank(rows[i].kind) <= 0 {
      assert Shape(a[pairs[i].0]) == Shape(a[pairs[i].1]);
      EqualIffAlike(a[pairs[i].0], a[pairs[i].1]);
    }
    UpToAll(rows, 0);
  }

  /** Diffed against itself, a collision-free list gives one `equal` row for each block and nothing else. */
  lemma SelfDiff(a: seq<Block>, t: real, pairs: Pairs, n: nat, usedA: set<nat>, usedB: set<nat>, maxRows: nat)
    requires CollisionFree(a) && Mapping(a, a, t, pairs, n, usedA, usedB) && maxRows >= |a|
    ensures var r := ReportOf(a, a, pairs, usedA, usedB, maxRows);
      r.equal == |a| && r.modified == 0 && r.removed == 0 && r.added == 0 && !r.truncated
  {
    hide ReportOf; hide CollisionFree; hide EqualPairs; hide Shape; hide Greedy; hide Exhausted; hide ShapesExhausted;
    SelfPairsAll(a, t, pairs, n, usedA, usedB);
    assert pairs[..n] == pairs;
    hide Matching;
    SelfPairsEqual(a, pairs);
    ReportCounts(a, a, pairs, usedA, usedB, maxRows);
  }

  /** A list without collisions is one case of the exact condition: every bucket reads alike from both ends. */
  predicate Palindromes(a: seq<Block>) {
    forall i :: 0 <= i < |a| ==> Mirrored(a, i)
  }

  /** Block `i` agrees with the one as far from the end of their bucket as `i` is from its start. */
  predicate Mirrored(a: seq<Block>, i: nat)
    requires i < |a|
  {
    var p := Partner(a, a, i);
    p.Some? && p.value < |a| && Differences(a[i], a[p.value]) == 0
  }

  /** In terms of the bucket: the positions of a shape, read from both ends. */
  lemma MirroredMeans(a: seq<Block>, i: nat)
    requires i < |a|
    ensures var q := Positions(a, Shape(a[i]), |a|); var r := |Positions(a, Shape(a[i]), i)|;
      r < |q| && q[r] == i && Partner(a, a, i) == Some(q[|q| - 1 - r]) && q[|q| - 1 - r] < |a|
  {
    hide Shape;
    PositionsAt(a, Shape(a[i]), i, |a|);
    PositionsBelow(a, Shape(a[i]), |a|);
  }

  lemma {:induction false} PositionsAt(a: seq<Block>, h: U64, i: nat, n: nat)
    requires i < n <= |a| && Shape(a[i]) == h
    ensures |Positions(a, h, i)| < |Positions(a, h, n)| && Positions(a, h, n)[|Positions(a, h, i)|] == i
    decreases n
  {
    hide Shape;
    if i < n - 1 { PositionsAt(a, h, i, n - 1); }
  }

  lemma {:induction false} PositionsBelow(a: seq<Block>, h: U64, n: nat)
    requires n <= |a|
    ensures forall k :: 0 <= k < |Positions(a, h, n)| ==> Positions(a, h, n)[k] < n
  {
    hide Shape;
    if n > 0 { PositionsBelow(a, h, n - 1); }
  }

  /** Against itself every block is paired in pass 1, with its partner. */
  lemma {:induction false} SelfExact(a: seq<Block>, i: nat)
    requires i <= |a|
    ensures var p := ExactPairs(a, a, i);
      |p| == i && forall k :: 0 <= k < i ==> p[k].0 == k && Partner(a, a, k) == Some(p[k].1) && p[k].1 < |a|
  {
    hide Partner;
    if i > 0 {
      SelfExact(a, i - 1);
      MirroredMeans(a, i - 1);
    }
  }

  lemma {:induction false} AllTaken(a: seq<Block>, b: seq<Block>, t: real, start: Pairs, i: nat)
    requires i <= |a| && forall k: nat :: k < |a| ==> k in Firsts(start)
    ensures GreedyPairs(a, b, t, start, i) == start
  {
    hide Best; hide Firsts;
    if i > 0 { AllTaken(a, b, t, start, i - 1); }
  }

  lemma SelfMapped(a: seq<Block>, t: real)
    ensures MappedPairs(a, a, t) == ExactPairs(a, a, |a|)
  {
    hide Partner; hide ExactPairs;
    SelfExact(a, |a|);
    var p := ExactPairs(a, a, |a|);
    forall k: nat | k < |a| ensures k in Firsts(p) {
      assert p[k] in p;
    }
    AllTaken(a, a, t, p, |a|);
  }

  /**
   The report of a list against itself holds only equal rows, one for each block, if and only if every bucket of equal
   shapes reads alike from both ends.
   */
  lemma SelfDiffIff(a: seq<Block>, t: real, n: nat, usedA: set<nat>, usedB: set<nat>, maxRows: nat)
    requires Mapping(a, a, t, MappedPairs(a, a, t), n, usedA, usedB) && maxRows >= |a|
    ensures Within(MappedPairs(a, a, t), |a|, |a|)
    ensures var r := ReportOf(a, a, MappedPairs(a, a, t), usedA, usedB, maxRows);
      && r.equal + r.modified == |a| && r.removed == 0 && r.added == 0 && !r.truncated
      && (r.modified == 0 <==> Palindromes(a))
  {
    hide ReportOf; hide EqualPairs; hide Shape; hide Greedy; hide Exhausted; hide ShapesExhausted; hide MappedPairs;
    hide SameShapes; hide PairHashes; hide Hashes; hide Palindromes; hide ExactPairs;
    var pairs := MappedPairs(a, a, t);
    SelfMapped(a, t);
    SelfExact(a, |a|);
    ReportCounts(a, a, pairs, usedA, usedB, maxRows);
    hide Mapping; hide Matching;
    EqualIffPalindromes(a, pairs);
  }

  lemma EqualIffPalindromes(a: seq<Block>, pairs: Pairs)
    requires Within(pairs, |a|, |a|) && pairs == ExactPairs(a, a, |a|)
    ensures EqualPairs(a, a, pairs) <= |a| && (EqualPairs(a, a, pairs) == |a| <==> Palindromes(a))
  {
    hide Shape; hide Similarity; hide ExactPairs; hide Partner; hide UpTo;
    SelfExact(a, |a|);
    PairCount(a, a, pairs);
    var rows := PairRows(a, a, pairs);
    forall k | 0 <= k < |a| ensures Rank(rows[k].kind) <= 0 <==> Mirrored(a, k) {
      EqualIffAlike(a[pairs[k].0], a[pairs[k].1]);
    }
    hide PairRows; hide Mirrored;
    if Palindromes(a) {
      UpToAll(rows, 0);
    } else {
      var k :| 0 <= k < |a| && !Mirrored(a, k);
      UpToMisses(rows, 0, k);
    }
  }

  lemma {:induction false} UpToMisses(s: seq<Row>, c: nat, k: nat)
    requires k < |s| && Rank(s[k].kind) > c
    ensures UpTo(s, c) < |s|
  {
    if k < |s| - 1 { UpToMisses(s[..|s| - 1], c, k); }
  }

  /** Two blocks of one shape and different content. */
  const COLLISION: seq<Block> := [Cancelling(0x10, 1), Cancelling(0x20, 2)]

  lemma CollisionNotMirrored()
    ensures !Mirrored(COLLISION, 0)
  {
    var a := COLLISION;
    hide Mix;
    ShapesCollide(a[0], a[1]);
    assert Differences(a[0], a[1]) > 0;
    hide Shape; hide Cancelling; hide Differences;
    var h := Shape(a[0]);
    assert Positions(a, h, 0) == [] && Positions(a, h, 1) == [0] && Positions(a, h, 2) == [0, 1];
  }

  /** Their list is not equal to itself throughout, in any report that has room for it. */
  lemma SelfDiffCanDiffer(t: real, n: nat, usedA: set<nat>, usedB: set<nat>, maxRows: nat)
    requires Mapping(COLLISION, COLLISION, t, MappedPairs(COLLISION, COLLISION, t), n, usedA, usedB) && maxRows >= 2
    ensures Within(MappedPairs(COLLISION, COLLISION, t), 2, 2)
    ensures ReportOf(COLLISION, COLLISION, MappedPairs(COLLISION, COLLISION, t), usedA, usedB, maxRows).modified > 0
  {
    CollisionNotMirrored();
    hide Mapping; hide MappedPairs; hide Within; hide ReportOf; hide Mirrored;
    SelfDiffIff(COLLISION, t, n, usedA, usedB, maxRows);
  }

  // ------------------------------------------------------------------ what the rows say

  /** A row shows a pair with all there is to say about it, or an unused block of one side. */
  ghost predicate RowOk(a: seq<Block>, b: seq<Block>, pairs: Pairs, usedA: set<nat>, usedB: set<nat>, r: Row) {
    match r.kind
    case Removed => exists i :: RemovedAt(a, usedA, r, i)
    case Added => exists j :: AddedAt(b, usedB, r, j)
    case _ => exists k :: PairAt(a, b, pairs, r, k)
  }

  ghost predicate RemovedAt(a: seq<Block>, usedA: set<nat>, r: Row, i: int) {
    0 <= i < |a| && i !in usedA && r == Row(Removed, Some(a[i]), None, None)
  }

  ghost predicate AddedAt(b: seq<Block>, usedB: set<nat>, r: Row, j: int) {
    0 <= j < |b| && j !in usedB && r == Row(Added, None, Some(b[j]), None)
  }

  ghost predicate PairAt(a: seq<Block>, b: seq<Block>, pairs: Pairs, r: Row, k: int) {
    && 0 <= k < |pairs| && pairs[k].0 < |a| && pairs[k].1 < |b|
    && var x, y := a[pairs[k].0], b[pairs[k].1];
       r == Row(if Differences(x, y) == 0 then Equal else Modified, Some(x), Some(y), Some(Similarity(x, y)))
  }

  lemma {:induction false} PairRowsAre(a: seq<Block>, b: seq<Block>, pairs: Pairs)
    requires Within(pairs, |a|, |b|)
    ensures |PairRows(a, b, pairs)| == |pairs|
    ensures forall k :: 0 <= k < |pairs| ==> PairAt(a, b, pairs, PairRows(a, b, pairs)[k], k)
  {
    hide Similarity;
    if pairs != [] {
      var n := |pairs| - 1;
      PairRowsAre(a, b, pairs[..n]);
      EqualIffAlike(a[pairs[n].0], b[pairs[n].1]);
      hide KindOf; hide Differences; hide Shape;
      forall k | 0 <= k < n ensures PairAt(a, b, pairs, PairRows(a, b, pairs)[k], k) {
        assert PairAt(a, b, pairs[..n], PairRows(a, b, pairs[..n])[k], k);
      }
      assert KindOf(a[pairs[n].0], b[pairs[n].1]) == Equal || KindOf(a[pairs[n].0], b[pairs[n].1]) == Modified by {
        OnlyTwoKinds(a[pairs[n].0], b[pairs[n].1]);
      }
    }
  }

  lemma OnlyTwoKinds(x: Block, y: Block)
    ensures KindOf(x, y) == Equal || KindOf(x, y) == Modified
  {
  }

  lemma {:induction false} RemovedRowsAre(a: seq<Block>, used: set<nat>, n: nat, r: Row)
    requires n <= |a|
    ensures r in RemovedRows(a, used, n) <==> exists i :: 0 <= i < n && RemovedAt(a, used, r, i)
  {
    if n > 0 {
      RemovedRowsAre(a, used, n - 1, r);
      if r in RemovedRows(a, used, n) && r !in RemovedRows(a, used, n - 1) { assert RemovedAt(a, used, r, n - 1); }
    }
  }

  lemma {:induction false} AddedRowsAre(b: seq<Block>, used: set<nat>, n: nat, r: Row)
    requires n <= |b|
    ensures r in AddedRows(b, used, n) <==> exists j :: 0 <= j < n && AddedAt(b, used, r, j)
  {
    if n > 0 {
      AddedRowsAre(b, used, n - 1, r);
      if r in AddedRows(b, used, n) && r !in AddedRows(b, used, n - 1) { assert AddedAt(b, used, r, n - 1); }
    }
  }

  lemma AllRowsAre(a: seq<Block>, b: seq<Block>, pairs: Pairs, usedA: set<nat>, usedB: set<nat>, r: Row)
    requires Within(pairs, |a|, |b|)
    ensures r in AllRows(a, b, pairs, usedA, usedB) <==> RowOk(a, b, pairs, usedA, usedB, r)
  {
    PairRowsAre(a, b, pairs);
    RemovedRowsAre(a, usedA, |a|, r);
    AddedRowsAre(b, usedB, |b|, r);
    hide PairRows; hide RemovedRows; hide AddedRows; hide Similarity; hide Differences;
    var rows := PairRows(a, b, pairs);
    if r in rows {
      var k :| 0 <= k < |rows| && rows[k] == r;
      assert PairAt(a, b, pairs, r, k);
    }
    if k :| PairAt(a, b, pairs, r, k) {
      assert rows[k] == r;
    }
  }

  /**
   Every row of a report shows a pair of the mapping, equal exactly if all words agree, or an unused block; and a report
   that is not cut shows all of them.
   */
  lemma ReportRows(a: seq<Block>, b: seq<Block>, pairs: Pairs, usedA: set<nat>, usedB: set<nat>, maxRows: nat, r: Row)
    requires Within(pairs, |a|, |b|)
    ensures var report := ReportOf(a, b, pairs, usedA, usedB, maxRows);
      && (r in report.rows ==> RowOk(a, b, pairs, usedA, usedB, r))
      && (!report.truncated ==> (r in report.rows <==> RowOk(a, b, pairs, usedA, usedB, r)))
  {
    AllRowsAre(a, b, pairs, usedA, usedB, r);
    hide RowOk; hide AllRows; hide RowLeq;
    var all := AllRows(a, b, pairs, usedA, usedB);
    SameMembers(Sort(RowLeq, all), all);
  }
}
