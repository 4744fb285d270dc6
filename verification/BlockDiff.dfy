/**
 Mapping the basic blocks of one function onto those of another (`diff_blocks`):
 first by equal shape hash, then greedily by best similarity.
 */
module BlockDiff {
  import opened Basics
  import opened ShapeHash
  import opened Sorting

  /** `similarity`, exactly. */
  function Similarity(a: Block, b: Block): real {
    (if a.mnemonics == b.mnemonics then 0.6 else 0.0)
    + (if a.consts == b.consts then 0.2 else 0.0)
    + (if a.outEdges == b.outEdges && a.inEdges == b.inEdges then 0.2 else 0.0)
  }

  /** Pairs of positions, one in each list. */
  type Pairs = seq<(nat, nat)>

  predicate Injective(pairs: Pairs) {
    forall i, j :: 0 <= i < j < |pairs| ==> pairs[i].0 != pairs[j].0 && pairs[i].1 != pairs[j].1
  }

  predicate Within(pairs: Pairs, na: nat, nb: nat) {
    forall i :: 0 <= i < |pairs| ==> pairs[i].0 < na && pairs[i].1 < nb
  }

  /** The pairs are one-to-one both ways, and the two sets hold exactly the positions they use. */
  ghost predicate Matching(pairs: Pairs, usedA: set<nat>, usedB: set<nat>, na: nat, nb: nat) {
    && Injective(pairs) && Within(pairs, na, nb)
    && (forall x: nat :: x in usedA <==> UsesA(pairs, x))
    && (forall x: nat :: x in usedB <==> UsesB(pairs, x))
  }

  predicate UsesA(pairs: Pairs, x: nat) { exists i :: 0 <= i < |pairs| && pairs[i].0 == x }

  predicate UsesB(pairs: Pairs, x: nat) { exists i :: 0 <= i < |pairs| && pairs[i].1 == x }

  lemma MatchMore(pairs: Pairs, usedA: set<nat>, usedB: set<nat>, na: nat, nb: nat, x: nat, y: nat)
    requires Matching(pairs, usedA, usedB, na, nb) && x < na && y < nb && x !in usedA && y !in usedB
    ensures Matching(pairs + [(x, y)], usedA + {x}, usedB + {y}, na, nb)
  {
    hide UsesA; hide UsesB; hide Injective; hide Within;
    StillInjective(pairs, na, nb, x, y);
    forall z: nat
      ensures (UsesA(pairs + [(x, y)], z) <==> UsesA(pairs, z) || z == x)
        && (UsesB(pairs + [(x, y)], z) <==> UsesB(pairs, z) || z == y)
    {
      UsesMore(pairs, x, y, z);
    }
  }

  lemma StillInjective(pairs: Pairs, na: nat, nb: nat, x: nat, y: nat)
    requires Injective(pairs) && Within(pairs, na, nb) && x < na && y < nb && !UsesA(pairs, x) && !UsesB(pairs, y)
    ensures Injective(pairs + [(x, y)]) && Within(pairs + [(x, y)], na, nb)
  {
    var p := pairs + [(x, y)];
    assert p[|pairs|] == (x, y) && forall i :: 0 <= i < |pairs| ==> p[i] == pairs[i];
  }

  lemma UsesMore(pairs: Pairs, x: nat, y: nat, z: nat)
    ensures UsesA(pairs + [(x, y)], z) <==> UsesA(pairs, z) || z == x
    ensures UsesB(pairs + [(x, y)], z) <==> UsesB(pairs, z) || z == y
  {
    var p := pairs + [(x, y)];
    assert p[|pairs|] == (x, y);
    if UsesA(pairs, z) { var i :| 0 <= i < |pairs| && pairs[i].0 == z; assert p[i].0 == z; }
    if UsesB(pairs, z) { var i :| 0 <= i < |pairs| && pairs[i].1 == z; assert p[i].1 == z; }
  }

  // ------------------------------------------------------------------ pass 1: equal shapes

  function Hashes(s: seq<Block>): (r: seq<U64>)
    ensures |r| == |s| && forall i :: 0 <= i < |s| ==> r[i] == Shape(s[i])
  {
    seq(|s|, i requires 0 <= i < |s| => Shape(s[i]))
  }

  /** The hashes of the first components of the pairs. */
  function PairHashes(a: seq<Block>, pairs: Pairs): seq<U64> {
    seq(|pairs|, i requires 0 <= i < |pairs| => if pairs[i].0 < |a| then Shape(a[pairs[i].0]) else 0)
  }

  function Bucket(shelf: map<U64, seq<nat>>, h: U64): seq<nat> { if h in shelf then shelf[h] else [] }

  /** The list holds exactly the unused positions with this hash among the first `n` blocks, once each. */
  ghost predicate Holds(b: seq<Block>, list: seq<nat>, used: set<nat>, n: nat, h: U64)
    requires n <= |b|
  {
    NoDup(list) && forall x: nat :: x in list <==> x < n && x !in used && Shape(b[x]) == h
  }

  /** The buckets hold the unused positions of the first `n` blocks, by hash. */
  ghost predicate Buckets(b: seq<Block>, shelf: map<U64, seq<nat>>, used: set<nat>, n: nat)
    requires n <= |b|
  {
    forall h: U64 {:trigger Bucket(shelf, h)} :: Holds(b, Bucket(shelf, h), used, n, h)
  }

  lemma PushHolds(b: seq<Block>, list: seq<nat>, n: nat, h: U64)
    requires n < |b| && Holds(b, list, {}, n, h)
    ensures Holds(b, if Shape(b[n]) == h then list + [n] else list, {}, n + 1, h)
  {
    hide Shape;
    assert n !in list;
  }

  lemma PopHolds(b: seq<Block>, list: seq<nat>, used: set<nat>, h: U64)
    requires Holds(b, list, used, |b|, h) && list != []
    ensures var y := list[|list| - 1]; y < |b| && y !in used && Shape(b[y]) == h
    ensures Holds(b, list[..|list| - 1], used + {list[|list| - 1]}, |b|, h)
  {
    hide Shape;
    var k := |list| - 1;
    var init, y := list[..k], list[k];
    assert list == init + [y] && y in list;
    assert y !in init;
    forall x: nat ensures x in init <==> x in list && x != y {}
  }

  lemma OtherHolds(b: seq<Block>, list: seq<nat>, used: set<nat>, h: U64, y: nat)
    requires Holds(b, list, used, |b|, h) && y < |b| && Shape(b[y]) != h
    ensures Holds(b, list, used + {y}, |b|, h)
  {
    hide Shape; hide NoDup;
  }

  lemma BucketPush(b: seq<Block>, shelf: map<U64, seq<nat>>, n: nat)
    requires n < |b| && Buckets(b, shelf, {}, n)
    ensures var h := Shape(b[n]); Buckets(b, shelf[h := Bucket(shelf, h) + [n]], {}, n + 1)
  {
    hide Shape; hide Holds;
    var h := Shape(b[n]);
    var shelf' := shelf[h := Bucket(shelf, h) + [n]];
    forall g: U64 ensures Holds(b, Bucket(shelf', g), {}, n + 1, g) {
      PushHolds(b, Bucket(shelf, g), n, g);
    }
  }

  lemma BucketPop(b: seq<Block>, shelf: map<U64, seq<nat>>, used: set<nat>, h: U64)
    requires Buckets(b, shelf, used, |b|) && h in shelf && shelf[h] != []
    ensures var k := |shelf[h]| - 1; shelf[h][k] < |b| && shelf[h][k] !in used && Shape(b[shelf[h][k]]) == h
    ensures var k := |shelf[h]| - 1; Buckets(b, shelf[h := shelf[h][..k]], used + {shelf[h][k]}, |b|)
  {
    hide Shape; hide Holds;
    var k := |shelf[h]| - 1;
    var y := shelf[h][k];
    assert Bucket(shelf, h) == shelf[h];
    PopHolds(b, shelf[h], used, h);
    var shelf' := shelf[h := shelf[h][..k]];
    forall g: U64 ensures Holds(b, Bucket(shelf', g), used + {y}, |b|, g) {
      if g != h {
        assert Bucket(shelf', g) == Bucket(shelf, g);
        OtherHolds(b, Bucket(shelf, g), used, g, y);
      }
    }
  }

  /** The positions with this hash among the first `n` blocks, ascending. */
  function Positions(b: seq<Block>, h: U64, n: nat): seq<nat>
    requires n <= |b|
  {
    if n == 0 then [] else Positions(b, h, n - 1) + if Shape(b[n - 1]) == h then [n - 1] else []
  }

  /**
   Whom pass 1 pairs block `i` with: the first block of a shape with the last of that shape on the other side, the
   second with the last but one, and so on.
   */
  function Partner(a: seq<Block>, b: seq<Block>, i: nat): Option<nat>
    requires i < |a|
  {
    var h := Shape(a[i]);
    var earlier, there := |Positions(a, h, i)|, Positions(b, h, |b|);
    if earlier < |there| then Some(there[|there| - 1 - earlier]) else None
  }

  /** The pairs of pass 1 for the first `i` blocks. */
  function ExactPairs(a: seq<Block>, b: seq<Block>, i: nat): Pairs
    requires i <= |a|
  {
    if i == 0 then [] else
      var p := Partner(a, b, i - 1);
      ExactPairs(a, b, i - 1) + if p.Some? then [(i - 1, p.value)] else []
  }

  /** What is left of the bucket of `h` after the first `i` blocks. */
  function Remaining(a: seq<Block>, b: seq<Block>, h: U64, i: nat): seq<nat>
    requires i <= |a|
  {
    var gone, there := |Positions(a, h, i)|, Positions(b, h, |b|);
    if gone < |there| then there[..|there| - gone] else []
  }

  ghost predicate Remains(a: seq<Block>, b: seq<Block>, shelf: map<U64, seq<nat>>, i: nat)
    requires i <= |a|
  {
    forall h: U64 {:trigger Bucket(shelf, h)} :: Bucket(shelf, h) == Remaining(a, b, h, i)
  }

  lemma RemainsStart(a: seq<Block>, b: seq<Block>, shelf: map<U64, seq<nat>>)
    requires Shelved(b, shelf, |b|)
    ensures Remains(a, b, shelf, 0)
  {
    forall h: U64 ensures Bucket(shelf, h) == Remaining(a, b, h, 0) {
      var there := Positions(b, h, |b|);
      assert there[..|there|] == there;
    }
  }

  /** A block with a partner takes the last of what remains of its bucket. */
  lemma RemainsTake(a: seq<Block>, b: seq<Block>, shelf: map<U64, seq<nat>>, i: nat)
    requires i < |a| && Remains(a, b, shelf, i)
    requires var h := Shape(a[i]); h in shelf && shelf[h] != []
    ensures var h := Shape(a[i]); var k := |shelf[h]| - 1;
      Partner(a, b, i) == Some(shelf[h][k]) && Remains(a, b, shelf[h := shelf[h][..k]], i + 1)
  {
    hide Shape; hide Positions;
    var h := Shape(a[i]);
    var k, there := |shelf[h]| - 1, Positions(b, h, |b|);
    assert Bucket(shelf, h) == shelf[h];
    var shelf' := shelf[h := shelf[h][..k]];
    forall g: U64 ensures Bucket(shelf', g) == Remaining(a, b, g, i + 1) {
      PositionsNext(a, g, i);
      if g == h {
        assert shelf[h][..k] == there[..k];
      } else {
        assert Bucket(shelf', g) == Bucket(shelf, g);
      }
    }
  }

  lemma RemainsSkip(a: seq<Block>, b: seq<Block>, shelf: map<U64, seq<nat>>, i: nat)
    requires i < |a| && Remains(a, b, shelf, i) && Bucket(shelf, Shape(a[i])) == []
    ensures Partner(a, b, i) == None && Remains(a, b, shelf, i + 1)
  {
    hide Shape; hide Positions;
    forall g: U64 ensures Bucket(shelf, g) == Remaining(a, b, g, i + 1) {
      PositionsNext(a, g, i);
    }
  }

  lemma PositionsNext(b: seq<Block>, h: U64, n: nat)
    requires n < |b|
    ensures Positions(b, h, n + 1) == Positions(b, h, n) + if Shape(b[n]) == h then [n] else []
  {
    hide Shape;
  }

  /** Each bucket is as long as the hash has occurrences in `m`. */
  ghost predicate Sized(shelf: map<U64, seq<nat>>, m: multiset<U64>) {
    forall h: U64 :: |Bucket(shelf, h)| == m[h]
  }

  ghost predicate Shelved(b: seq<Block>, shelf: map<U64, seq<nat>>, n: nat)
    requires n <= |b|
  {
    forall h: U64 {:trigger Bucket(shelf, h)} :: Bucket(shelf, h) == Positions(b, h, n)
  }

  lemma ShelvedPush(b: seq<Block>, shelf: map<U64, seq<nat>>, n: nat)
    requires n < |b| && Shelved(b, shelf, n)
    ensures var h := Shape(b[n]); Shelved(b, shelf[h := Bucket(shelf, h) + [n]], n + 1)
  {
    hide Shape; hide Positions;
    var h := Shape(b[n]);
    var shelf' := shelf[h := Bucket(shelf, h) + [n]];
    forall g: U64 ensures Bucket(shelf', g) == Positions(b, g, n + 1) {
      PositionsNext(b, g, n);
      if g != h { assert Bucket(shelf', g) == Bucket(shelf, g); }
    }
  }

  lemma SizedPush(b: seq<Block>, shelf: map<U64, seq<nat>>, n: nat)
    requires n < |b| && Sized(shelf, multiset(Hashes(b)[..n]))
    ensures var h := Shape(b[n]); Sized(shelf[h := Bucket(shelf, h) + [n]], multiset(Hashes(b)[..n + 1]))
  {
    hide Shape;
    assert Hashes(b)[..n + 1] == Hashes(b)[..n] + [Shape(b[n])];
  }

  method BuildBuckets(b: seq<Block>) returns (shelf: map<U64, seq<nat>>)
    ensures Buckets(b, shelf, {}, |b|) && Sized(shelf, multiset(Hashes(b))) && Shelved(b, shelf, |b|)
  {
    shelf := map[];
    assert Buckets(b, shelf, {}, 0) && Sized(shelf, multiset(Hashes(b)[..0])) && Shelved(b, shelf, 0);
    hide Shape; hide Buckets; hide Sized; hide Shelved;
    for i := 0 to |b|
      invariant Buckets(b, shelf, {}, i) && Sized(shelf, multiset(Hashes(b)[..i])) && Shelved(b, shelf, i)
    {
      var h := ShapeOf(b[i]);
      BucketPush(b, shelf, i);
      SizedPush(b, shelf, i);
      ShelvedPush(b, shelf, i);
      shelf := shelf[h := Bucket(shelf, h) + [i]];
    }
    assert Hashes(b)[..|b|] == Hashes(b);
  }

  /** No unused block of the first `n` has the shape of an unused block on the other side. */
  predicate ShapesExhausted(a: seq<Block>, b: seq<Block>, usedA: set<nat>, usedB: set<nat>, n: nat) {
    forall i, j :: 0 <= i < n && i < |a| && 0 <= j < |b| && i !in usedA && j !in usedB ==> Shape(a[i]) != Shape(b[j])
  }

  predicate SameShapes(a: seq<Block>, b: seq<Block>, pairs: Pairs) {
    Within(pairs, |a|, |b|) && forall i :: 0 <= i < |pairs| ==> Shape(a[pairs[i].0]) == Shape(b[pairs[i].1])
  }

  /** The counts behind one step of pass 1, for every hash. */
  lemma TakeOne(ma: multiset<U64>, mb: multiset<U64>, mp: multiset<U64>, h: U64, left: nat)
    requires mp == ma * mb && left == mb[h] - mp[h]
    ensures (ma + multiset{h}) * mb == if left > 0 then mp + multiset{h} else mp
  {
  }

  /** After `i` blocks the pairs' hashes are the common ones, and the buckets hold the rest of the other side. */
  ghost predicate Counted(a: seq<Block>, b: seq<Block>, shelf: map<U64, seq<nat>>, pairs: Pairs, i: nat)
    requires i <= |a|
  {
    var mp := multiset(PairHashes(a, pairs));
    mp == multiset(Hashes(a)[..i]) * multiset(Hashes(b)) && Sized(shelf, multiset(Hashes(b)) - mp)
  }

  lemma CountTake(a: seq<Block>, b: seq<Block>, shelf: map<U64, seq<nat>>, pairs: Pairs, i: nat, j: nat)
    requires i < |a| && Counted(a, b, shelf, pairs, i)
    requires var h := Shape(a[i]); h in shelf && shelf[h] != []
    ensures var h := Shape(a[i]); Counted(a, b, shelf[h := shelf[h][..|shelf[h]| - 1]], pairs + [(i, j)], i + 1)
  {
    hide Shape;
    var h := Shape(a[i]);
    var mp := multiset(PairHashes(a, pairs));
    assert |Bucket(shelf, h)| == (multiset(Hashes(b)) - mp)[h];
    TakeOne(multiset(Hashes(a)[..i]), multiset(Hashes(b)), mp, h, |Bucket(shelf, h)|);
    assert Hashes(a)[..i + 1] == Hashes(a)[..i] + [h];
    assert PairHashes(a, pairs + [(i, j)]) == PairHashes(a, pairs) + [h];
    forall g: U64
      ensures |Bucket(shelf[h := shelf[h][..|shelf[h]| - 1]], g)| == (multiset(Hashes(b)) - (mp + multiset{h}))[g]
    {
      assert |Bucket(shelf, g)| == (multiset(Hashes(b)) - mp)[g];
    }
  }

  lemma CountSkip(a: seq<Block>, b: seq<Block>, shelf: map<U64, seq<nat>>, pairs: Pairs, i: nat)
    requires i < |a| && Counted(a, b, shelf, pairs, i) && Bucket(shelf, Shape(a[i])) == []
    ensures Counted(a, b, shelf, pairs, i + 1)
  {
    hide Shape;
    var h := Shape(a[i]);
    var mp := multiset(PairHashes(a, pairs));
    assert |Bucket(shelf, h)| == (multiset(Hashes(b)) - mp)[h];
    TakeOne(multiset(Hashes(a)[..i]), multiset(Hashes(b)), mp, h, 0);
    assert Hashes(a)[..i + 1] == Hashes(a)[..i] + [h];
  }

  lemma CountStart(a: seq<Block>, b: seq<Block>, shelf: map<U64, seq<nat>>)
    requires Sized(shelf, multiset(Hashes(b)))
    ensures Counted(a, b, shelf, [], 0)
  {
  }

  lemma ExactStart(a: seq<Block>, b: seq<Block>)
    ensures Matching([], {}, {}, |a|, |b|) && SameShapes(a, b, []) && ShapesExhausted(a, b, {}, {}, 0)
    ensures ExactPairs(a, b, 0) == []
  {
  }

  lemma ExactNext(a: seq<Block>, b: seq<Block>, i: nat)
    requires i < |a|
    ensures var p := Partner(a, b, i);
      ExactPairs(a, b, i + 1) == ExactPairs(a, b, i) + if p.Some? then [(i, p.value)] else []
  {
    hide Partner;
  }

  /** Taking a block of the same shape keeps the shapes of the pairs alike. */
  lemma ShapesTake(a: seq<Block>, b: seq<Block>, usedA: set<nat>, usedB: set<nat>, pairs: Pairs, i: nat, j: nat)
    requires i < |a| && j < |b| && Shape(a[i]) == Shape(b[j])
    requires SameShapes(a, b, pairs) && ShapesExhausted(a, b, usedA, usedB, i)
    ensures SameShapes(a, b, pairs + [(i, j)])
    ensures ShapesExhausted(a, b, usedA + {i}, usedB + {j}, i + 1)
  {
    hide Shape;
  }

  lemma ShapesSkip(a: seq<Block>, b: seq<Block>, usedA: set<nat>, usedB: set<nat>, i: nat)
    requires i < |a| && ShapesExhausted(a, b, usedA, usedB, i)
    requires forall j :: 0 <= j < |b| && j !in usedB ==> Shape(b[j]) != Shape(a[i])
    ensures ShapesExhausted(a, b, usedA, usedB, i + 1)
  {
    hide Shape;
  }

  /** Pass 1. */
  method ExactPass(a: seq<Block>, b: seq<Block>) returns (pairs: Pairs, usedA: set<nat>, usedB: set<nat>)
    ensures Matching(pairs, usedA, usedB, |a|, |b|) && SameShapes(a, b, pairs)
    ensures multiset(PairHashes(a, pairs)) == multiset(Hashes(a)) * multiset(Hashes(b))
    ensures ShapesExhausted(a, b, usedA, usedB, |a|)
    ensures pairs == ExactPairs(a, b, |a|)
  {
    hide Shape; hide Counted; hide Buckets; hide Remains; hide Partner; hide Sized; hide Shelved; hide Hashes;
    hide Matching; hide SameShapes; hide ShapesExhausted; hide ExactPairs; hide PairHashes; hide Within;
    pairs, usedA, usedB := [], {}, {};
    var shelf := BuildBuckets(b);
    CountStart(a, b, shelf);
    RemainsStart(a, b, shelf);
    ExactStart(a, b);
    for i := 0 to |a|
      invariant Matching(pairs, usedA, usedB, |a|, |b|) && SameShapes(a, b, pairs)
      invariant forall x <- usedA :: x < i
      invariant Buckets(b, shelf, usedB, |b|)
      invariant Counted(a, b, shelf, pairs, i)
      invariant Remains(a, b, shelf, i) && pairs == ExactPairs(a, b, i)
      invariant ShapesExhausted(a, b, usedA, usedB, i)
    {
      var h := ShapeOf(a[i]);
      ExactNext(a, b, i);
      if h in shelf && shelf[h] != [] {
        var k := |shelf[h]| - 1;
        var j := shelf[h][k];
        BucketPop(b, shelf, usedB, h);
        MatchMore(pairs, usedA, usedB, |a|, |b|, i, j);
        CountTake(a, b, shelf, pairs, i, j);
        RemainsTake(a, b, shelf, i);
        ShapesTake(a, b, usedA, usedB, pairs, i, j);
        shelf := shelf[h := shelf[h][..k]];
        usedA, usedB, pairs := usedA + {i}, usedB + {j}, pairs + [(i, j)];
      } else {
        NoneLeft(b, shelf, usedB, h);
        CountSkip(a, b, shelf, pairs, i);
        RemainsSkip(a, b, shelf, i);
        ShapesSkip(a, b, usedA, usedB, i);
      }
    }
    CountEnd(a, b, shelf, pairs);
  }

  lemma CountEnd(a: seq<Block>, b: seq<Block>, shelf: map<U64, seq<nat>>, pairs: Pairs)
    requires Counted(a, b, shelf, pairs, |a|)
    ensures multiset(PairHashes(a, pairs)) == multiset(Hashes(a)) * multiset(Hashes(b))
  {
    assert Hashes(a)[..|a|] == Hashes(a);
  }

  lemma NoneLeft(b: seq<Block>, shelf: map<U64, seq<nat>>, used: set<nat>, h: U64)
    requires Buckets(b, shelf, used, |b|) && Bucket(shelf, h) == []
    ensures forall j :: 0 <= j < |b| && j !in used ==> Shape(b[j]) != h
  {
    hide Shape;
    assert Holds(b, Bucket(shelf, h), used, |b|, h);
    forall j: nat | j < |b| && j !in used ensures Shape(b[j]) != h {
      assert j !in Bucket(shelf, h);
    }
  }

  // ------------------------------------------------------------------ pass 2: best similarity

  /** `y` is the most similar unused block among the first `n`, at or above the threshold. */
  predicate BestOf(x: Block, b: seq<Block>, used: set<nat>, t: real, n: nat, best: Option<nat>) {
    n <= |b| &&
    match best
    case None => forall j :: 0 <= j < n && j !in used ==> Similarity(x, b[j]) < t
    case Some(y) => y < n && y !in used && t <= Similarity(x, b[y])
                    && forall j :: 0 <= j < n && j !in used ==> Similarity(x, b[j]) <= Similarity(x, b[y])
  }

  /** The choice pass 2 makes: the first of the most similar unused blocks at or above the threshold. */
  function Best(x: Block, b: seq<Block>, used: set<nat>, t: real, n: nat): Option<nat>
    requires n <= |b|
    ensures BestOf(x, b, used, t, n, Best(x, b, used, t, n))
    ensures var y := Best(x, b, used, t, n);
      y.Some? ==> forall j :: 0 <= j < y.value && j !in used ==> Similarity(x, b[j]) < Similarity(x, b[y.value])
  {
    if n == 0 then None else
      var best, s := Best(x, b, used, t, n - 1), Similarity(x, b[n - 1]);
      if n - 1 in used || s < t || (best.Some? && s <= Similarity(x, b[best.value])) then best else Some(n - 1)
  }

  method BestMatch(x: Block, b: seq<Block>, used: set<nat>, t: real) returns (best: Option<nat>)
    ensures best == Best(x, b, used, t, |b|)
  {
    hide Similarity;
    best := None;
    var score := 0.0;
    for j := 0 to |b|
      invariant best == Best(x, b, used, t, j)
      invariant best.Some? ==> score == Similarity(x, b[best.value])
    {
      if j !in used {
        var s := Similarity(x, b[j]);
        if s >= t && (best.None? || s > score) {
          best, score := Some(j), s;
        }
      }
    }
  }

  /** No unused block of the first `n` is similar enough to an unused block on the other side. */
  predicate Exhausted(a: seq<Block>, b: seq<Block>, usedA: set<nat>, usedB: set<nat>, t: real, n: nat) {
    forall i, j :: 0 <= i < n && i < |a| && 0 <= j < |b| && i !in usedA && j !in usedB ==> Similarity(a[i], b[j]) < t
  }

  /**
   From position `n` on: similar enough, of different shapes, and no block left unused would have been a better choice.
   */
  predicate Greedy(a: seq<Block>, b: seq<Block>, usedB: set<nat>, t: real, pairs: Pairs, n: nat) {
    Within(pairs, |a|, |b|) &&
    forall i :: n <= i < |pairs| ==> Chosen(a, b, usedB, t, pairs[i].0, pairs[i].1)
  }

  predicate Chosen(a: seq<Block>, b: seq<Block>, usedB: set<nat>, t: real, x: nat, y: nat) {
    x < |a| && y < |b| && t <= Similarity(a[x], b[y]) && Shape(a[x]) != Shape(b[y])
    && forall j :: 0 <= j < |b| && j !in usedB ==> Similarity(a[x], b[j]) <= Similarity(a[x], b[y])
  }

  /** Using up more blocks spoils no earlier choice. */
  lemma GreedyMore(a: seq<Block>, b: seq<Block>, used: set<nat>, t: real, pairs: Pairs, n: nat, x: nat, y: nat)
    requires Greedy(a, b, used, t, pairs, n) && Chosen(a, b, used, t, x, y)
    ensures Greedy(a, b, used + {y}, t, pairs + [(x, y)], n)
  {
    hide Similarity; hide Shape;
    var p := pairs + [(x, y)];
    forall i | n <= i < |p| ensures Chosen(a, b, used + {y}, t, p[i].0, p[i].1) {
      if i < |pairs| { assert Chosen(a, b, used, t, pairs[i].0, pairs[i].1); }
    }
  }

  function Firsts(pairs: Pairs): set<nat> { set p <- pairs :: p.0 }

  function Seconds(pairs: Pairs): set<nat> { set p <- pairs :: p.1 }

  /**
   The pairs after pass 2 has seen the first `i` blocks: each unpaired one takes the best block unused at that moment.
   */
  function GreedyPairs(a: seq<Block>, b: seq<Block>, t: real, start: Pairs, i: nat): Pairs
    requires i <= |a|
  {
    if i == 0 then start else
      var pairs := GreedyPairs(a, b, t, start, i - 1);
      if i - 1 in Firsts(pairs) then pairs else
        match Best(a[i - 1], b, Seconds(pairs), t, |b|)
        case None => pairs
        case Some(j) => pairs + [(i - 1, j)]
  }

  lemma GreedyFirst(a: seq<Block>, b: seq<Block>, t: real, start: Pairs)
    ensures GreedyPairs(a, b, t, start, 0) == start
  {
  }

  lemma GreedyNext(a: seq<Block>, b: seq<Block>, t: real, start: Pairs, i: nat)
    requires i < |a|
    ensures var pairs := GreedyPairs(a, b, t, start, i); var best := Best(a[i], b, Seconds(pairs), t, |b|);
      GreedyPairs(a, b, t, start, i + 1) ==
      if i in Firsts(pairs) || best.None? then pairs else pairs + [(i, best.value)]
  {
    hide Best;
  }

  /** The pairs of both passes. */
  function MappedPairs(a: seq<Block>, b: seq<Block>, t: real): Pairs {
    GreedyPairs(a, b, t, ExactPairs(a, b, |a|), |a|)
  }

  /**
   Each pair of pass 2 is the first best choice among the blocks unused at that moment, and the pairs come in order.
   */
  lemma {:induction false} ChosenAtTheMoment(a: seq<Block>, b: seq<Block>, t: real, start: Pairs, i: nat, p: nat)
    requires i <= |a| && |start| <= p < |GreedyPairs(a, b, t, start, i)|
    ensures var pairs := GreedyPairs(a, b, t, start, i); var x := pairs[p].0;
      && start <= pairs && x < i
      && Best(a[x], b, Seconds(pairs[..p]), t, |b|) == Some(pairs[p].1)
      && (|start| < p ==> pairs[p - 1].0 < x)
  {
    hide Best; hide Firsts; hide Seconds;
    StartStays(a, b, t, start, i);
    if i > 0 {
      var before, pairs := GreedyPairs(a, b, t, start, i - 1), GreedyPairs(a, b, t, start, i);
      if p < |before| {
        ChosenAtTheMoment(a, b, t, start, i - 1, p);
        assert pairs[..p] == before[..p];
      } else {
        assert pairs[..p] == before;
        if |start| < p { ChosenAtTheMoment(a, b, t, start, i - 1, p - 1); }
      }
    }
  }

  lemma {:induction false} StartStays(a: seq<Block>, b: seq<Block>, t: real, start: Pairs, i: nat)
    requires i <= |a|
    ensures start <= GreedyPairs(a, b, t, start, i)
  {
    hide Best;
    if i > 0 { StartStays(a, b, t, start, i - 1); }
  }

  lemma MatchingWithin(pairs: Pairs, usedA: set<nat>, usedB: set<nat>, na: nat, nb: nat)
    requires Matching(pairs, usedA, usedB, na, nb)
    ensures Within(pairs, na, nb)
  {
  }

  lemma MatchingSides(pairs: Pairs, usedA: set<nat>, usedB: set<nat>, na: nat, nb: nat)
    requires Matching(pairs, usedA, usedB, na, nb)
    ensures usedA == Firsts(pairs) && usedB == Seconds(pairs)
  {
    forall x: nat ensures (x in usedA <==> x in Firsts(pairs)) && (x in usedB <==> x in Seconds(pairs)) {
      assert x in usedA <==> UsesA(pairs, x);
      assert x in usedB <==> UsesB(pairs, x);
      if UsesA(pairs, x) { var i :| 0 <= i < |pairs| && pairs[i].0 == x; assert pairs[i] in pairs; }
      if UsesB(pairs, x) { var i :| 0 <= i < |pairs| && pairs[i].1 == x; assert pairs[i] in pairs; }
    }
  }

  /** What a choice leaves exhausted. */
  lemma ExhaustedNext(a: seq<Block>, b: seq<Block>, usedA: set<nat>, usedB: set<nat>, t: real, i: nat,
                      best: Option<nat>)
    requires i < |a| && Exhausted(a, b, usedA, usedB, t, i)
    ensures i in usedA ==> Exhausted(a, b, usedA, usedB, t, i + 1)
    ensures best.None? && BestOf(a[i], b, usedB, t, |b|, best) ==> Exhausted(a, b, usedA, usedB, t, i + 1)
    ensures best.Some? ==> Exhausted(a, b, usedA + {i}, usedB + {best.value}, t, i + 1)
  {
    hide Similarity;
  }

  /** A choice keeps what pass 2 promises. */
  lemma TakeBest(a: seq<Block>, b: seq<Block>, usedA: set<nat>, usedB: set<nat>, t: real, pairs: Pairs, n: nat,
                 i: nat, j: nat)
    requires i < |a| && i !in usedA && BestOf(a[i], b, usedB, t, |b|, Some(j))
    requires ShapesExhausted(a, b, usedA, usedB, |a|) && Greedy(a, b, usedB, t, pairs, n)
    ensures ShapesExhausted(a, b, usedA + {i}, usedB + {j}, |a|)
    ensures Greedy(a, b, usedB + {j}, t, pairs + [(i, j)], n)
  {
    hide Shape; hide Similarity; hide Greedy; hide Chosen;
    IsChosen(a, b, usedB, t, i, j);
    GreedyMore(a, b, usedB, t, pairs, n, i, j);
  }

  lemma GreedyNone(a: seq<Block>, b: seq<Block>, used: set<nat>, t: real, pairs: Pairs, n: nat)
    requires Within(pairs, |a|, |b|) && n == |pairs|
    ensures Greedy(a, b, used, t, pairs, n)
  {
  }

  /** Pass 2. */
  method BestPass(a: seq<Block>, b: seq<Block>, t: real, pairs0: Pairs, usedA0: set<nat>, usedB0: set<nat>)
    returns (pairs: Pairs, usedA: set<nat>, usedB: set<nat>)
    requires Matching(pairs0, usedA0, usedB0, |a|, |b|) && ShapesExhausted(a, b, usedA0, usedB0, |a|)
    ensures pairs0 <= pairs && Matching(pairs, usedA, usedB, |a|, |b|)
    ensures ShapesExhausted(a, b, usedA, usedB, |a|)
    ensures Greedy(a, b, usedB, t, pairs, |pairs0|)
    ensures Exhausted(a, b, usedA, usedB, t, |a|)
    ensures pairs == GreedyPairs(a, b, t, pairs0, |a|)
  {
    hide Similarity; hide Best; hide Firsts; hide Seconds; hide Matching; hide Within; hide Greedy;
    hide ShapesExhausted;
    MatchingWithin(pairs0, usedA0, usedB0, |a|, |b|);
    GreedyFirst(a, b, t, pairs0);
    GreedyNone(a, b, usedB0, t, pairs0, |pairs0|);
    pairs, usedA, usedB := pairs0, usedA0, usedB0;
    assert Exhausted(a, b, usedA, usedB, t, 0);
    hide GreedyPairs; hide Exhausted;
    for i := 0 to |a|
      invariant pairs0 <= pairs && Matching(pairs, usedA, usedB, |a|, |b|)
      invariant ShapesExhausted(a, b, usedA, usedB, |a|)
      invariant Greedy(a, b, usedB, t, pairs, |pairs0|)
      invariant Exhausted(a, b, usedA, usedB, t, i)
      invariant pairs == GreedyPairs(a, b, t, pairs0, i)
    {
      MatchingSides(pairs, usedA, usedB, |a|, |b|);
      GreedyNext(a, b, t, pairs0, i);
      if i in usedA {
        ExhaustedNext(a, b, usedA, usedB, t, i, None);
        continue;
      }
      var best := BestMatch(a[i], b, usedB, t);
      ExhaustedNext(a, b, usedA, usedB, t, i, best);
      if best.Some? {
        var j := best.value;
        TakeBest(a, b, usedA, usedB, t, pairs, |pairs0|, i, j);
        MatchMore(pairs, usedA, usedB, |a|, |b|, i, j);
        usedA, usedB, pairs := usedA + {i}, usedB + {j}, pairs + [(i, j)];
      }
    }
  }

  lemma IsChosen(a: seq<Block>, b: seq<Block>, used: set<nat>, t: real, x: nat, y: nat)
    requires x < |a| && BestOf(a[x], b, used, t, |b|, Some(y)) && Shape(a[x]) != Shape(b[y])
    ensures Chosen(a, b, used, t, x, y)
  {
  }

  // ------------------------------------------------------------------ the mapping as a whole

  /** What the two passes promise; the first `n` pairs come from pass 1. */
  ghost predicate Mapping(a: seq<Block>, b: seq<Block>, t: real, pairs: Pairs, n: nat, usedA: set<nat>,
                          usedB: set<nat>) {
    && n <= |pairs| && Matching(pairs, usedA, usedB, |a|, |b|)
    && SameShapes(a, b, pairs[..n])
    && multiset(PairHashes(a, pairs[..n])) == multiset(Hashes(a)) * multiset(Hashes(b))
    && Greedy(a, b, usedB, t, pairs, n)
    && ShapesExhausted(a, b, usedA, usedB, |a|) && Exhausted(a, b, usedA, usedB, t, |a|)
  }

  method MapBlocks(a: seq<Block>, b: seq<Block>, t: real)
    returns (pairs: Pairs, n: nat, usedA: set<nat>, usedB: set<nat>)
    ensures Mapping(a, b, t, pairs, n, usedA, usedB)
    ensures pairs == MappedPairs(a, b, t) && n == |ExactPairs(a, b, |a|)|
  {
    hide Matching; hide ExactPairs; hide GreedyPairs; hide Shape; hide Similarity; hide ShapesExhausted;
    hide Exhausted; hide Greedy;
    var exact;
    exact, usedA, usedB := ExactPass(a, b);
    n := |exact|;
    pairs, usedA, usedB := BestPass(a, b, t, exact, usedA, usedB);
    assert pairs[..n] == exact;
  }

  datatype Kind = Equal | Modified | Removed | Added

  function KindOf(x: Block, y: Block): Kind {
    if Similarity(x, y) >= 0.999 then Equal else Modified
  }

  /** Two blocks are reported equal exactly when all four hashed words agree. */
  lemma EqualIffAlike(x: Block, y: Block)
    ensures KindOf(x, y) == Equal <==> Differences(x, y) == 0
    ensures Differences(x, y) == 0 ==> Shape(x) == Shape(y)
  {
  }

  // ------------------------------------------------------------------ what similar means

  predicate SameEdges(x: Block, y: Block) { x.outEdges == y.outEdges && x.inEdges == y.inEdges }

  /** How many of constants and edge shape agree. */
  function Others(x: Block, y: Block): nat {
    (if x.consts == y.consts then 1 else 0) + (if SameEdges(x, y) then 1 else 0)
  }

  /** What agrees between two blocks at or above the threshold. */
  predicate AlikeEnough(t: real, x: Block, y: Block) {
    || t <= 0.0
    || (t <= 0.2 && (x.mnemonics == y.mnemonics || Others(x, y) > 0))
    || (t <= 0.4 && (x.mnemonics == y.mnemonics || (x.consts == y.consts && SameEdges(x, y))))
    || (t <= 0.6 && x.mnemonics == y.mnemonics)
    || (t <= 0.8 && x.mnemonics == y.mnemonics && (x.consts == y.consts || SameEdges(x, y)))
    || (t <= 1.0 && Differences(x, y) == 0)
  }

  /** Blocks are similar enough exactly by which of their words agree. */
  lemma SimilarIff(t: real, x: Block, y: Block)
    ensures Similarity(x, y) >= t <==> AlikeEnough(t, x, y)
  {
  }

  /** The mnemonics decide first, then how many of constants and edge shape agree. */
  lemma MoreSimilarIff(x: Block, y: Block, z: Block)
    ensures Similarity(x, y) > Similarity(x, z) <==>
      || (x.mnemonics == y.mnemonics && x.mnemonics != z.mnemonics)
      || ((x.mnemonics == y.mnemonics <==> x.mnemonics == z.mnemonics) && Others(x, y) > Others(x, z))
  {
  }

  /** In every mapping the pairs of pass 2 are alike enough, and no two blocks left over are. */
  lemma SecondPassIff(a: seq<Block>, b: seq<Block>, t: real, pairs: Pairs, n: nat, usedA: set<nat>, usedB: set<nat>)
    requires Mapping(a, b, t, pairs, n, usedA, usedB)
    ensures forall k :: n <= k < |pairs| ==>
      pairs[k].0 < |a| && pairs[k].1 < |b| && AlikeEnough(t, a[pairs[k].0], b[pairs[k].1])
    ensures forall i, j :: 0 <= i < |a| && 0 <= j < |b| && i !in usedA && j !in usedB ==> !AlikeEnough(t, a[i], b[j])
  {
    hide Similarity; hide AlikeEnough; hide Shape; hide Matching; hide SameShapes; hide ShapesExhausted;
    forall k | n <= k < |pairs|
      ensures pairs[k].0 < |a| && pairs[k].1 < |b| && AlikeEnough(t, a[pairs[k].0], b[pairs[k].1])
    {
      assert Chosen(a, b, usedB, t, pairs[k].0, pairs[k].1);
      SimilarIff(t, a[pairs[k].0], b[pairs[k].1]);
    }
    forall i, j | 0 <= i < |a| && 0 <= j < |b| && i !in usedA && j !in usedB ensures !AlikeEnough(t, a[i], b[j]) {
      SimilarIff(t, a[i], b[j]);
    }
  }

  /** Above 0.4 pass 2 pairs only blocks with the same mnemonics, and up to 0.6 it leaves no two of them over. */
  lemma SecondPassKeepsMnemonics(a: seq<Block>, b: seq<Block>, t: real, pairs: Pairs, n: nat, usedA: set<nat>,
                                 usedB: set<nat>)
    requires Mapping(a, b, t, pairs, n, usedA, usedB)
    ensures t > 0.4 ==> forall k :: n <= k < |pairs| ==>
      pairs[k].0 < |a| && pairs[k].1 < |b| && a[pairs[k].0].mnemonics == b[pairs[k].1].mnemonics
    ensures t <= 0.6 ==> forall i, j :: 0 <= i < |a| && 0 <= j < |b| && i !in usedA && j !in usedB ==>
      a[i].mnemonics != b[j].mnemonics
  {
    hide Mapping;
    SecondPassIff(a, b, t, pairs, n, usedA, usedB);
  }

  /** Every pair found by similarity is reported modified. */
  lemma SecondPassIsModified(a: seq<Block>, b: seq<Block>, t: real, pairs: Pairs, n: nat, usedA: set<nat>,
                             usedB: set<nat>, i: nat)
    requires Mapping(a, b, t, pairs, n, usedA, usedB) && n <= i < |pairs|
    ensures pairs[i].0 < |a| && pairs[i].1 < |b| && KindOf(a[pairs[i].0], b[pairs[i].1]) == Modified
  {
  }

  /** A pair found by shape is reported modified only if at least two of the words collide. */
  lemma FirstPassModifiedIsCollision(a: seq<Block>, b: seq<Block>, t: real, pairs: Pairs, n: nat, usedA: set<nat>,
                                     usedB: set<nat>, i: nat)
    requires Mapping(a, b, t, pairs, n, usedA, usedB) && i < n
    ensures pairs[i].0 < |a| && pairs[i].1 < |b|
    ensures KindOf(a[pairs[i].0], b[pairs[i].1]) == Modified <==> Differences(a[pairs[i].0], b[pairs[i].1]) >= 2
  {
    hide Shape; hide Matching; hide Similarity;
    assert pairs[..n][i] == pairs[i];
    var x, y := a[pairs[i].0], b[pairs[i].1];
    EqualIffAlike(x, y);
    if Differences(x, y) == 1 { OneChangeChangesShape(x, y); }
  }

  /**
   The number of pairs found by shape, and their hashes, depend only on which blocks there are, not on their order.
   */
  lemma FirstPassOrderFree(a: seq<Block>, b: seq<Block>, t: real, pairs: Pairs, n: nat,
                           usedA: set<nat>, usedB: set<nat>, a': seq<Block>, b': seq<Block>, t': real, pairs': Pairs,
                           n': nat, usedA': set<nat>, usedB': set<nat>)
    requires Mapping(a, b, t, pairs, n, usedA, usedB) && Mapping(a', b', t', pairs', n', usedA', usedB')
    requires multiset(a) == multiset(a') && multiset(b) == multiset(b')
    ensures multiset(PairHashes(a, pairs[..n])) == multiset(PairHashes(a', pairs'[..n'])) && n == n'
  {
    hide Mapping;
    MappingCounts(a, b, t, pairs, n, usedA, usedB);
    MappingCounts(a', b', t', pairs', n', usedA', usedB');
    HashesPermute(a, a');
    HashesPermute(b, b');
  }

  lemma MappingCounts(a: seq<Block>, b: seq<Block>, t: real, pairs: Pairs, n: nat, usedA: set<nat>, usedB: set<nat>)
    requires Mapping(a, b, t, pairs, n, usedA, usedB)
    ensures n <= |pairs| && multiset(PairHashes(a, pairs[..n])) == multiset(Hashes(a)) * multiset(Hashes(b))
    ensures n == |multiset(Hashes(a)) * multiset(Hashes(b))|
  {
  }

  lemma HashesConcat(s: seq<Block>, r: seq<Block>)
    ensures Hashes(s + r) == Hashes(s) + Hashes(r)
  {
  }

  lemma HashesCons(x: Block, s: seq<Block>)
    ensures multiset(Hashes([x] + s)) == multiset{Shape(x)} + multiset(Hashes(s))
  {
    HashesConcat([x], s);
    assert Hashes([x]) == [Shape(x)];
    hide Hashes;
  }

  /** Taking out one element. */
  lemma TakeOut(r: seq<Block>, k: nat)
    requires k < |r|
    ensures multiset(r) == multiset{r[k]} + multiset(r[..k] + r[k + 1..])
    ensures multiset(Hashes(r)) == multiset{Shape(r[k])} + multiset(Hashes(r[..k] + r[k + 1..]))
  {
    hide Hashes;
    var x, u, v := r[k], r[..k], r[k + 1..];
    assert r == u + ([x] + v);
    HashesConcat(u, [x] + v);
    HashesConcat(u, v);
    HashesCons(x, v);
  }

  lemma {:induction false} HashesPermute(s: seq<Block>, r: seq<Block>)
    requires multiset(s) == multiset(r)
    ensures multiset(Hashes(s)) == multiset(Hashes(r))
    decreases |s|
  {
    hide Hashes; hide Shape;
    SameMembers(s, r);
    if s == [] {
      assert s == r;
    } else {
      var n := |s| - 1;
      assert s[n] in r;
      var k :| 0 <= k < |r| && r[k] == s[n];
      TakeOut(r, k);
      TakeOut(s, n);
      var rest, init := r[..k] + r[k + 1..], s[..n] + s[n + 1..];
      assert |init| == n;
      SameRest(s[n], multiset(init), multiset(rest));
      HashesPermute(init, rest);
    }
  }

  lemma SameRest(x: Block, m: multiset<Block>, k: multiset<Block>)
    requires multiset{x} + m == multiset{x} + k
    ensures m == k
  {
    assert m == (multiset{x} + m) - multiset{x};
    assert k == (multiset{x} + k) - multiset{x};
  }
}
