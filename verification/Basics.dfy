/** What several modules share. */
module Basics {

  datatype Option<T> = None | Some(value: T)

  function Min(a: int, b: int): int { if a < b then a else b }

  function Members(s: seq<nat>): set<nat> { set x <- s }

  /** Multiples of the modulus do not change a remainder. */
  lemma ModShift(x: int, k: int, m: int)
    requires m > 0
    ensures (x + k * m) % m == x % m
  {
    var q, r := x / m, x % m;
    var q', r' := (x + k * m) / m, (x + k * m) % m;
    assert r' - r == (q + k - q') * m;
    SmallMultiple(q + k - q', m);
  }

  /** Only the zero multiple of `m` is smaller than `m`. */
  lemma SmallMultiple(d: int, m: int)
    requires -m < d * m < m
    ensures d == 0
  {
  }
}
