/**
 The sorts the program takes from its standard library, as stable insertion
 sorts over a total preorder.
 */
module Sorting {

  ghost predicate TotalPreorder<T(!new)>(leq: (T, T) -> bool) {
    && (forall x, y :: leq(x, y) || leq(y, x))
    && (forall x, y, z :: leq(x, y) && leq(y, z) ==> leq(x, z))
  }

  ghost predicate SortedBy<T>(leq: (T, T) -> bool, s: seq<T>) {
    forall i, j :: 0 <= i < j < |s| ==> leq(s[i], s[j])
  }

  ghost predicate NoDup<T(!new)>(s: seq<T>) {
    forall i, j :: 0 <= i < j < |s| ==> s[i] != s[j]
  }

  /** Put `x` after every element that may precede it. */
  function Insert<T(!new)>(leq: (T, T) -> bool, s: seq<T>, x: T): (r: seq<T>)
    ensures multiset(r) == multiset(s) + multiset{x}
  {
    if s == [] || leq(s[|s| - 1], x) then
      s + [x]
    else
      assert s == s[..|s| - 1] + [s[|s| - 1]];
      Insert(leq, s[..|s| - 1], x) + [s[|s| - 1]]
  }

  lemma {:induction false} InsertSorted<T(!new)>(leq: (T, T) -> bool, s: seq<T>, x: T)
    requires TotalPreorder(leq) && SortedBy(leq, s)
    ensures SortedBy(leq, Insert(leq, s, x))
  {
    if s == [] {
    } else if leq(s[|s| - 1], x) {
      forall i | 0 <= i < |s| ensures leq(s[i], x) {
        assert i < |s| - 1 ==> leq(s[i], s[|s| - 1]);
      }
    } else {
      var rest, last := s[..|s| - 1], s[|s| - 1];
      InsertSorted(leq, rest, x);
      var r := Insert(leq, rest, x);
      forall i | 0 <= i < |r| ensures leq(r[i], last) {
        assert r[i] in multiset(r);
        assert leq(x, last);
        if r[i] != x {
          assert r[i] in rest;
        }
      }
    }
  }

  function Sort<T(!new)>(leq: (T, T) -> bool, s: seq<T>): (r: seq<T>)
    ensures multiset(r) == multiset(s)
  {
    if s == [] then [] else
      assert s == s[..|s| - 1] + [s[|s| - 1]];
      Insert(leq, Sort(leq, s[..|s| - 1]), s[|s| - 1])
  }

  lemma {:induction false} SortSorted<T(!new)>(leq: (T, T) -> bool, s: seq<T>)
    requires TotalPreorder(leq)
    ensures SortedBy(leq, Sort(leq, s))
  {
    if s != [] {
      SortSorted(leq, s[..|s| - 1]);
      InsertSorted(leq, Sort(leq, s[..|s| - 1]), s[|s| - 1]);
    }
  }

  /** Elements that may stand in either order stand as `before` says. */
  ghost predicate TiesKept<T(!new)>(leq: (T, T) -> bool, before: (T, T) -> bool, s: seq<T>) {
    forall i, j :: 0 <= i < j < |s| && leq(s[j], s[i]) ==> before(s[i], s[j])
  }

  lemma {:induction false} InsertStable<T(!new)>(leq: (T, T) -> bool, before: (T, T) -> bool, s: seq<T>, x: T)
    requires TiesKept(leq, before, s) && forall y :: y in s ==> before(y, x)
    ensures TiesKept(leq, before, Insert(leq, s, x))
  {
    if s != [] && !leq(s[|s| - 1], x) {
      var rest, last := s[..|s| - 1], s[|s| - 1];
      InsertStable(leq, before, rest, x);
      var r := Insert(leq, rest, x);
      forall i | 0 <= i < |r| && leq(last, r[i]) ensures before(r[i], last) {
        assert r[i] in multiset(r);
        if r[i] != x {
          assert r[i] in rest;
          var k :| 0 <= k < |rest| && rest[k] == r[i];
          assert s[k] == r[i];
        }
      }
    }
  }

  /** The sort is stable. */
  lemma {:induction false} SortStable<T(!new)>(leq: (T, T) -> bool, before: (T, T) -> bool, s: seq<T>)
    requires forall i, j :: 0 <= i < j < |s| ==> before(s[i], s[j])
    ensures TiesKept(leq, before, Sort(leq, s))
  {
    if s != [] {
      var rest, last := s[..|s| - 1], s[|s| - 1];
      SortStable(leq, before, rest);
      forall y | y in Sort(leq, rest) ensures before(y, last) {
        assert y in multiset(Sort(leq, rest));
        assert y in rest;
        var k :| 0 <= k < |rest| && rest[k] == y;
        assert s[k] == y;
      }
      InsertStable(leq, before, Sort(leq, rest), last);
    }
  }

  /** Equal multisets have equal members. */
  lemma SameMembers<T(!new)>(r: seq<T>, s: seq<T>)
    requires multiset(r) == multiset(s)
    ensures |r| == |s|
    ensures forall x :: x in r <==> x in s
  {
    assert |multiset(r)| == |r| && |multiset(s)| == |s|;
    assert forall x :: x in r <==> x in multiset(r);
    assert forall x :: x in s <==> x in multiset(s);
  }

  lemma {:induction false} CountAtMostOne<T(!new)>(s: seq<T>, x: T)
    requires NoDup(s)
    ensures multiset(s)[x] <= 1
  {
    if s != [] {
      var rest := s[..|s| - 1];
      assert s == rest + [s[|s| - 1]];
      CountAtMostOne(rest, x);
      if s[|s| - 1] == x {
        assert x !in rest;
      }
    }
  }

  lemma NoDupPermutes<T(!new)>(r: seq<T>, s: seq<T>)
    requires multiset(r) == multiset(s) && NoDup(s)
    ensures NoDup(r)
  {
    forall i, j | 0 <= i < j < |r| ensures r[i] != r[j] {
      if r[i] == r[j] {
        var a, b := r[..j], r[j..];
        assert r == a + b;
        assert a[i] in multiset(a) && b[0] in multiset(b);
        CountAtMostOne(s, r[i]);
      }
    }
  }

  ghost predicate Antisymmetric<T(!new)>(leq: (T, T) -> bool) {
    forall x, y :: leq(x, y) && leq(y, x) ==> x == y
  }

  /** Drop every element equal to its predecessor. */
  function Dedup<T(==)>(s: seq<T>): seq<T> {
    if |s| < 2 then s
    else if s[|s| - 1] == s[|s| - 2] then Dedup(s[..|s| - 1])
    else Dedup(s[..|s| - 1]) + [s[|s| - 1]]
  }

  lemma {:induction false} DedupMembers<T(!new)>(s: seq<T>, x: T)
    ensures x in Dedup(s) <==> x in s
    ensures s != [] ==> Dedup(s) != [] && Dedup(s)[|Dedup(s)| - 1] == s[|s| - 1]
  {
    if |s| >= 2 {
      DedupMembers(s[..|s| - 1], x);
      assert s == s[..|s| - 1] + [s[|s| - 1]];
    }
  }

  /** On a sorted list, `Dedup` leaves one copy of each element, still sorted. */
  lemma {:induction false} DedupSorted<T(!new)>(leq: (T, T) -> bool, s: seq<T>)
    requires TotalPreorder(leq) && Antisymmetric(leq) && SortedBy(leq, s)
    ensures NoDup(Dedup(s)) && SortedBy(leq, Dedup(s))
  {
    if |s| >= 2 {
      var rest, last := s[..|s| - 1], s[|s| - 1];
      DedupSorted(leq, rest);
      DedupMembers(rest, last);
      var d := Dedup(rest);
      forall i | 0 <= i < |d| ensures leq(d[i], last) && (last != rest[|rest| - 1] ==> d[i] != last) {
        DedupMembers(rest, d[i]);
        assert d[i] in rest;
        assert leq(d[i], last);
        assert leq(d[i], rest[|rest| - 1]) by {
          var k :| 0 <= k < |rest| && rest[k] == d[i];
          assert k < |rest| - 1 ==> leq(rest[k], rest[|rest| - 1]);
        }
        assert leq(rest[|rest| - 1], last);
      }
    }
  }

  /** `sort` followed by `dedup`. */
  function SortedSet<T(!new, ==)>(leq: (T, T) -> bool, s: seq<T>): seq<T> {
    Dedup(Sort(leq, s))
  }

  /** `sort` followed by `dedup` lists the elements of `s` once each, in order. */
  lemma SortedSetSpec<T(!new)>(leq: (T, T) -> bool, s: seq<T>)
    requires TotalPreorder(leq) && Antisymmetric(leq)
    ensures NoDup(SortedSet(leq, s)) && SortedBy(leq, SortedSet(leq, s))
    ensures forall x :: x in SortedSet(leq, s) <==> x in s
  {
    SortSorted(leq, s);
    SameMembers(Sort(leq, s), s);
    DedupSorted(leq, Sort(leq, s));
    forall x ensures x in SortedSet(leq, s) <==> x in s {
      DedupMembers(Sort(leq, s), x);
    }
  }

  function NatLeq(a: nat, b: nat): bool { a <= b }

  lemma NatOrder()
    ensures TotalPreorder(NatLeq) && Antisymmetric(NatLeq)
  {
  }

  /** Numbers in ascending order. */
  function SortNats(s: seq<nat>): (r: seq<nat>)
    ensures multiset(r) == multiset(s)
  {
    Sort<nat>(NatLeq, s)
  }

  lemma SortNatsSpec(s: seq<nat>)
    ensures |SortNats(s)| == |s|
    ensures forall x: nat :: x in SortNats(s) <==> x in s
    ensures forall i, j :: 0 <= i < j < |s| ==> SortNats(s)[i] <= SortNats(s)[j]
    ensures NoDup(s) ==> NoDup(SortNats(s))
  {
    NatOrder();
    SortSorted<nat>(NatLeq, s);
    SameMembers<nat>(SortNats(s), s);
    if NoDup(s) { NoDupPermutes<nat>(SortNats(s), s); }
  }
}
