/** A list picked from another one: in order, exactly what is there to pick. */
module Selections {
  import opened Basics

  /** `out` is what `pick` gives at the positions `at`, which ascend and are all those where it gives something. */
  ghost predicate PickedAt<A, B(!new)>(source: seq<A>, pick: A -> Option<B>, out: seq<B>, at: seq<nat>) {
    && |at| == |out| && (forall i, j :: 0 <= i < j < |at| ==> at[i] < at[j])
    && (forall i :: 0 <= i < |at| ==> at[i] < |source| && pick(source[at[i]]) == Some(out[i]))
    && (forall k :: 0 <= k < |source| && pick(source[k]).Some? ==> k in at)
  }

  ghost predicate Picked<A, B(!new)>(source: seq<A>, pick: A -> Option<B>, out: seq<B>) {
    exists at: seq<nat> :: PickedAt(source, pick, out, at)
  }

  lemma PickedNone<A, B(!new)>(pick: A -> Option<B>)
    ensures Picked([], pick, [])
  {
    assert PickedAt([], pick, [], []);
  }

  lemma PickedNext<A, B(!new)>(source: seq<A>, pick: A -> Option<B>, out: seq<B>, x: A)
    requires Picked(source, pick, out)
    ensures Picked(source + [x], pick, out + match pick(x) case Some(y) => [y] case None => [])
  {
    var at: seq<nat> :| PickedAt(source, pick, out, at);
    if pick(x).Some? {
      PickedMore(source, pick, out, at, x);
    } else {
      PickedSame(source, pick, out, at, x);
      assert out + [] == out;
    }
    hide PickedAt;
  }

  lemma PickedMore<A, B(!new)>(source: seq<A>, pick: A -> Option<B>, out: seq<B>, at: seq<nat>, x: A)
    requires PickedAt(source, pick, out, at) && pick(x).Some?
    ensures PickedAt(source + [x], pick, out + [pick(x).value], at + [|source|])
  {
    var s, o, a := source + [x], out + [pick(x).value], at + [|source|];
    forall i | 0 <= i < |a| ensures a[i] < |s| && pick(s[a[i]]) == Some(o[i]) {
      if i < |at| { assert a[i] == at[i] && s[at[i]] == source[at[i]]; }
    }
    forall k | 0 <= k < |s| && pick(s[k]).Some? ensures k in a {
      if k < |source| { assert s[k] == source[k] && k in at; }
    }
  }

  lemma PickedSame<A, B(!new)>(source: seq<A>, pick: A -> Option<B>, out: seq<B>, at: seq<nat>, x: A)
    requires PickedAt(source, pick, out, at) && pick(x) == None
    ensures PickedAt(source + [x], pick, out, at)
  {
    var s := source + [x];
    forall i | 0 <= i < |at| ensures at[i] < |s| && pick(s[at[i]]) == Some(out[i]) {
      assert s[at[i]] == source[at[i]];
    }
    forall k | 0 <= k < |s| && pick(s[k]).Some? ensures k in at {
      assert s[k] == source[k];
    }
  }

  /** Ascending lists with the same members are the same. */
  lemma {:induction false} SameAscent(at: seq<nat>, at': seq<nat>, i: nat)
    requires forall i, j :: 0 <= i < j < |at| ==> at[i] < at[j]
    requires forall i, j :: 0 <= i < j < |at'| ==> at'[i] < at'[j]
    requires forall k: nat :: k in at <==> k in at'
    requires i <= |at|
    ensures i <= |at'| && at[..i] == at'[..i]
  {
    if i > 0 {
      SameAscent(at, at', i - 1);
      var x := at[i - 1];
      assert x in at';
      var j :| 0 <= j < |at'| && at'[j] == x;
      assert forall m :: 0 <= m < i - 1 ==> at[m] == at[..i - 1][m] == at'[m];
      assert j >= i - 1;
      var y := at'[i - 1];
      assert y in at;
      var l :| 0 <= l < |at| && at[l] == y;
      assert l >= i - 1;
    }
  }

  /** There is at most one such list. */
  lemma PickedOnce<A, B(!new)>(source: seq<A>, pick: A -> Option<B>, out: seq<B>, out': seq<B>)
    requires Picked(source, pick, out) && Picked(source, pick, out')
    ensures out == out'
  {
    var at: seq<nat> :| PickedAt(source, pick, out, at);
    var at': seq<nat> :| PickedAt(source, pick, out', at');
    hide PickedAt;
    SamePositions(source, pick, out, at, out', at');
    SamePositions(source, pick, out', at', out, at);
    SameValues(source, pick, out, at, out', at');
  }

  lemma SameValues<A, B(!new)>(source: seq<A>, pick: A -> Option<B>, out: seq<B>, at: seq<nat>, out': seq<B>,
                               at': seq<nat>)
    requires PickedAt(source, pick, out, at) && PickedAt(source, pick, out', at')
    requires forall k: nat :: k in at <==> k in at'
    ensures out == out'
  {
    assert at == at' by {
      SameAscent(at, at', |at|);
      SameAscent(at', at, |at'|);
      assert at[..|at|] == at && at'[..|at'|] == at';
    }
    forall i | 0 <= i < |out| ensures out[i] == out'[i] {
      assert pick(source[at[i]]) == Some(out[i]);
    }
  }

  lemma SamePositions<A, B(!new)>(source: seq<A>, pick: A -> Option<B>, out: seq<B>, at: seq<nat>, out': seq<B>,
                                  at': seq<nat>)
    requires PickedAt(source, pick, out, at) && PickedAt(source, pick, out', at')
    ensures forall k: nat :: k in at ==> k in at'
  {
    forall k: nat | k in at ensures k in at' {
      var i :| 0 <= i < |at| && at[i] == k;
      assert pick(source[at[i]]) == Some(out[i]);
    }
  }

  /** What is picked, by value. */
  lemma PickedMembers<A, B(!new)>(source: seq<A>, pick: A -> Option<B>, out: seq<B>, y: B)
    requires Picked(source, pick, out)
    ensures y in out <==> exists k :: 0 <= k < |source| && pick(source[k]) == Some(y)
  {
    var at: seq<nat> :| PickedAt(source, pick, out, at);
    if y in out {
      var i :| 0 <= i < |out| && out[i] == y;
      assert pick(source[at[i]]) == Some(y);
    }
    if k :| 0 <= k < |source| && pick(source[k]) == Some(y) {
      assert k in at;
      var i :| 0 <= i < |at| && at[i] == k;
      assert out[i] == y;
    }
  }
}
