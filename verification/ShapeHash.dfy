/**
 The 64-bit shape hash of a basic block: FNV-1a over four words.
 */
module ShapeHash {
  import opened Basics

  const TWO64 := 0x1_0000_0000_0000_0000
  const OFFSET := 0xcbf2_9ce4_8422_2325
  const PRIME := 0x100_0000_01b3

  /** The inverse of `PRIME` modulo 2^64. */
  const INVERSE := 0xce96_5057_aff6_957b

  type U64 = x: nat | x < TWO64

  /** One basic block's fingerprint. */
  datatype Block = Block(ea: U64, mnemonics: U64, consts: U64, outEdges: U64, inEdges: U64)

  function LowBit(a: nat, b: nat): nat { if a % 2 == b % 2 then 0 else 1 }

  /** Bitwise exclusive or. */
  function Xor(a: nat, b: nat): nat {
    if a == 0 && b == 0 then 0 else LowBit(a, b) + 2 * Xor(a / 2, b / 2)
  }

  function Pow2(n: nat): nat { if n == 0 then 1 else 2 * Pow2(n - 1) }

  lemma {:induction false} XorBound(a: nat, b: nat, n: nat)
    requires a < Pow2(n) && b < Pow2(n)
    ensures Xor(a, b) < Pow2(n)
  {
    if n > 0 { XorBound(a / 2, b / 2, n - 1); }
  }

  lemma {:induction false} XorBits(a: nat, b: nat)
    ensures Xor(a, b) % 2 == LowBit(a, b) && Xor(a, b) / 2 == Xor(a / 2, b / 2)
  {
  }

  lemma SameHalves(x: nat, y: nat)
    requires x / 2 == y / 2 && x % 2 == y % 2
    ensures x == y
  {
  }

  /** Exclusive or with the same word undoes itself. */
  lemma {:induction false} XorUndo(a: nat, b: nat)
    ensures Xor(Xor(a, b), b) == a
    decreases a + b
  {
    if a != 0 || b != 0 {
      XorUndo(a / 2, b / 2);
      hide Xor;
      XorBits(a, b);
      XorBits(Xor(a, b), b);
      SameHalves(Xor(Xor(a, b), b), a);
    }
  }

  lemma {:induction false} XorCommutes(a: nat, b: nat)
    ensures Xor(a, b) == Xor(b, a)
  {
    if a != 0 || b != 0 { XorCommutes(a / 2, b / 2); }
  }

  lemma Pow64()
    ensures Pow2(64) == TWO64
  {
    assert Pow2(4) == 16;
    Pow2Double(4);
    Pow2Double(8);
    Pow2Double(16);
    Pow2Double(32);
  }

  lemma {:induction false} Pow2Double(n: nat)
    ensures Pow2(2 * n) == Pow2(n) * Pow2(n)
  {
    if n > 0 {
      Pow2Double(n - 1);
      assert Pow2(2 * n) == 2 * Pow2(2 * n - 1) == 4 * Pow2(2 * (n - 1));
    }
  }

  /** `(h ^ v).wrapping_mul(PRIME)`. */
  function Mix(h: U64, v: U64): U64 { Xor(h, v) * PRIME % TWO64 }

  lemma MulUndo(x: U64)
    ensures x * PRIME % TWO64 * INVERSE % TWO64 == x
  {
    var q, r := x * PRIME / TWO64, x * PRIME % TWO64;
    var t := (PRIME * INVERSE - 1) / TWO64;
    assert PRIME * INVERSE == 1 + t * TWO64;
    assert r * INVERSE == x + (x * t - q * INVERSE) * TWO64 by {
      assert r == x * PRIME - q * TWO64;
      assert r * INVERSE == x * (PRIME * INVERSE) - q * INVERSE * TWO64;
    }
    ModShift(x, x * t - q * INVERSE, TWO64);
  }

  /** A mixing step loses nothing: with one argument fixed, the result determines the other. */
  lemma MixInjective(h: U64, v: U64, h': U64, v': U64)
    requires Mix(h, v) == Mix(h', v')
    ensures h == h' <==> v == v'
  {
    Pow64();
    XorBound(h, v, 64);
    XorBound(h', v', 64);
    MulUndo(Xor(h, v));
    MulUndo(Xor(h', v'));
    assert Xor(h, v) == Xor(h', v');
    XorUndo(h, v);
    XorUndo(h', v');
    XorCommutes(h, v);
    XorCommutes(h', v');
    XorUndo(v, h);
    XorUndo(v', h');
  }

  /** `shape_hash`: the loop over the four words. */
  function Shape(b: Block): U64 {
    Mix(Mix(Mix(Mix(OFFSET, b.mnemonics), b.consts), b.outEdges), b.inEdges)
  }

  method ShapeOf(b: Block) returns (h: U64)
    ensures h == Shape(b)
  {
    hide Mix;
    var words := [b.mnemonics, b.consts, b.outEdges, b.inEdges];
    h := OFFSET;
    for i := 0 to 4
      invariant h == Fold(OFFSET, words[..i])
    {
      assert words[..i + 1] == words[..i] + [words[i]];
      h := Mix(h, words[i]);
    }
    assert words[..4] == words;
    FoldFour(OFFSET, words);
  }

  function Fold(h: U64, words: seq<U64>): U64 {
    if words == [] then h else Mix(Fold(h, words[..|words| - 1]), words[|words| - 1])
  }

  lemma FoldFour(h: U64, w: seq<U64>)
    requires |w| == 4
    ensures Fold(h, w) == Mix(Mix(Mix(Mix(h, w[0]), w[1]), w[2]), w[3])
  {
    hide Mix;
    assert w[..3][..2] == w[..2] && w[..2][..1] == w[..1] && w[..1][..0] == [];
    assert Fold(h, w[..1]) == Mix(h, w[0]);
    assert Fold(h, w[..2]) == Mix(Fold(h, w[..1]), w[1]);
    assert Fold(h, w[..3]) == Mix(Fold(h, w[..2]), w[2]);
  }

  function Differences(a: Block, b: Block): nat {
    (if a.mnemonics == b.mnemonics then 0 else 1) + (if a.consts == b.consts then 0 else 1)
    + (if a.outEdges == b.outEdges then 0 else 1) + (if a.inEdges == b.inEdges then 0 else 1)
  }

  /** Blocks that differ in exactly one of the four hashed words never collide. */
  lemma OneChangeChangesShape(a: Block, b: Block)
    requires Differences(a, b) == 1
    ensures Shape(a) != Shape(b)
  {
    if Shape(a) == Shape(b) {
      var a1, b1 := Mix(OFFSET, a.mnemonics), Mix(OFFSET, b.mnemonics);
      var a2, b2 := Mix(a1, a.consts), Mix(b1, b.consts);
      var a3, b3 := Mix(a2, a.outEdges), Mix(b2, b.outEdges);
      hide Mix;
      MixInjective(a3, a.inEdges, b3, b.inEdges);
      if a3 == b3 { MixInjective(a2, a.outEdges, b2, b.outEdges); }
      if a2 == b2 { MixInjective(a1, a.consts, b1, b.consts); }
      if a1 == b1 { MixInjective(OFFSET, a.mnemonics, OFFSET, b.mnemonics); }
    }
  }

  // ------------------------------------------------------------------ where each word goes

  lemma {:induction false} XorZero(a: nat)
    ensures Xor(a, 0) == a && Xor(0, a) == a
  {
    if a > 0 { XorZero(a / 2); }
  }

  lemma MixZero(x: U64)
    ensures Mix(x, 0) == Mix(0, x) == x * PRIME % TWO64
  {
    XorZero(x);
  }

  lemma MulMod(x: nat, y: nat)
    ensures x % TWO64 * y % TWO64 == x * y % TWO64
  {
    var q := x / TWO64;
    assert x * y == x % TWO64 * y + q * y * TWO64;
    ModShift(x % TWO64 * y, q * y, TWO64);
  }

  /** A block whose mnemonic hash cancels the start value: each further word counts with its own power of the prime. */
  lemma WordsInOrder(ea: U64, x: U64)
    ensures Shape(Block(ea, OFFSET, 0, 0, x)) == x * PRIME % TWO64
    ensures Shape(Block(ea, OFFSET, 0, x, 0)) == x * PRIME * PRIME % TWO64
    ensures Shape(Block(ea, OFFSET, x, 0, 0)) == x * PRIME * PRIME * PRIME % TWO64
  {
    XorSelf(OFFSET);
    assert Mix(OFFSET, OFFSET) == 0;
    MixZero(0);
    MixZero(x);
    var one := x * PRIME % TWO64;
    MixZero(one);
    MulMod(x * PRIME, PRIME);
    var two := x * PRIME * PRIME % TWO64;
    MixZero(two);
    MulMod(x * PRIME * PRIME, PRIME);
    hide Mix;
  }

  // ------------------------------------------------------------------ collisions

  /** A block whose constants cancel its mnemonics in the hash. */
  function Cancelling(ea: U64, mnemonics: U64): Block {
    Block(ea, mnemonics, Mix(OFFSET, mnemonics), 0, 0)
  }

  lemma {:induction false} XorSelf(a: nat)
    ensures Xor(a, a) == 0
  {
    if a > 0 { XorSelf(a / 2); }
  }

  /** All such blocks have the same shape, whatever their mnemonics. */
  lemma ShapesCollide(x: Block, y: Block)
    requires x == Cancelling(x.ea, x.mnemonics) && y == Cancelling(y.ea, y.mnemonics)
    ensures Shape(x) == Shape(y)
  {
    XorSelf(x.consts);
    XorSelf(y.consts);
    hide Xor;
    assert Mix(x.consts, x.consts) == 0 == Mix(y.consts, y.consts);
    hide Mix;
  }
}
