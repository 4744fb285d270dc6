/**
 The order of strings, and the text of numbers.
 */
module Texts {
  import opened Sorting

  /** The order of Rust's `String`. */
  function LexLeq(a: string, b: string): bool {
    if a == [] then true
    else if b == [] then false
    else if a[0] == b[0] then LexLeq(a[1..], b[1..])
    else a[0] < b[0]
  }

  lemma {:induction false} LexTotal(a: string, b: string)
    ensures LexLeq(a, b) || LexLeq(b, a)
  {
    if a != [] && b != [] { LexTotal(a[1..], b[1..]); }
  }

  lemma {:induction false} LexAntisymmetric(a: string, b: string)
    requires LexLeq(a, b) && LexLeq(b, a)
    ensures a == b
  {
    if a != [] && b != [] {
      LexAntisymmetric(a[1..], b[1..]);
      assert a == [a[0]] + a[1..] && b == [b[0]] + b[1..];
    }
  }

  lemma {:induction false} LexTransitive(a: string, b: string, c: string)
    requires LexLeq(a, b) && LexLeq(b, c)
    ensures LexLeq(a, c)
  {
    if a != [] && a[0] == b[0] && b[0] == c[0] { LexTransitive(a[1..], b[1..], c[1..]); }
  }

  lemma LexOrder()
    ensures TotalPreorder(LexLeq) && Antisymmetric(LexLeq)
  {
    forall a, b ensures LexLeq(a, b) || LexLeq(b, a) { LexTotal(a, b); }
    forall a, b | LexLeq(a, b) && LexLeq(b, a) ensures a == b { LexAntisymmetric(a, b); }
    forall a, b, c | LexLeq(a, b) && LexLeq(b, c) ensures LexLeq(a, c) { LexTransitive(a, b, c); }
  }

  // ------------------------------------------------------------------ decimal text

  /** Decimal rendering of a number, as `format!("{}")` does it. */
  function Decimal(n: nat): string {
    if n < 10 then [Digit(n)] else Decimal(n / 10) + [Digit(n % 10)]
  }

  function Digit(d: nat): char
    requires d < 10
  {
    "0123456789"[d]
  }

  lemma {:induction false} DecimalInjective(m: nat, n: nat)
    requires Decimal(m) == Decimal(n)
    ensures m == n
  {
    var s, t := Decimal(m), Decimal(n);
    assert s[|s| - 1] == Digit(m % 10) && t[|t| - 1] == Digit(n % 10);
    assert m % 10 == n % 10;
    if m >= 10 && n >= 10 {
      assert s[..|s| - 1] == Decimal(m / 10) && t[..|t| - 1] == Decimal(n / 10);
      DecimalInjective(m / 10, n / 10);
    }
  }

  // ------------------------------------------------------------------ hexadecimal text

  function HexDigit(d: nat): char
    requires d < 16
  {
    "0123456789abcdef"[d]
  }

  function HexDigits(n: nat): (s: string)
    ensures |s| > 0
  {
    if n < 16 then [HexDigit(n)] else HexDigits(n / 16) + [HexDigit(n % 16)]
  }

  /** The text an address is rendered as. */
  function Hex(n: nat): string { "0x" + HexDigits(n) }

  lemma DigitOrder(c: nat, d: nat)
    requires c < 16 && d < 16
    ensures HexDigit(c) <= HexDigit(d) <==> c <= d
  {
  }

  lemma {:induction false} LexSnoc(s: string, t: string, c: char, d: char)
    requires |s| == |t|
    ensures LexLeq(s + [c], t + [d]) <==> LexLeq(s, t) && (s != t || c <= d)
  {
    if s == [] {
      assert LexLeq([c], [d]) <==> c <= d;
    } else {
      assert (s + [c])[1..] == s[1..] + [c] && (t + [d])[1..] == t[1..] + [d];
      LexSnoc(s[1..], t[1..], c, d);
      assert s == [s[0]] + s[1..] && t == [t[0]] + t[1..];
    }
  }

  /** Among numerals of the same length, text order is numeric order. */
  lemma {:induction false} SameLengthOrder(x: nat, y: nat)
    requires |HexDigits(x)| == |HexDigits(y)|
    ensures LexLeq(HexDigits(x), HexDigits(y)) <==> x <= y
    ensures HexDigits(x) == HexDigits(y) <==> x == y
  {
    if x < 16 || y < 16 {
      DigitOrder(x, y);
      DigitOrder(y, x);
    } else {
      var s, t := HexDigits(x / 16), HexDigits(y / 16);
      SameLengthOrder(x / 16, y / 16);
      DigitOrder(x % 16, y % 16);
      DigitOrder(y % 16, x % 16);
      LexSnoc(s, t, HexDigit(x % 16), HexDigit(y % 16));
      var u, v := HexDigits(x), HexDigits(y);
      assert u == s + [HexDigit(x % 16)] && v == t + [HexDigit(y % 16)];
      hide HexDigits; hide LexLeq; hide HexDigit;
      assert u[..|s|] == s && v[..|t|] == t && u[|s|] == HexDigit(x % 16) && v[|t|] == HexDigit(y % 16);
    }
  }

  lemma {:induction false} LexPrefix(s: string, t: string, u: string)
    requires |s| == |t|
    ensures LexLeq(s, t + u) <==> LexLeq(s, t)
    ensures u != [] ==> (LexLeq(t + u, s) <==> LexLeq(t, s) && t != s)
  {
    if s != [] {
      assert (t + u)[1..] == t[1..] + u;
      LexPrefix(s[1..], t[1..], u);
      assert s == [s[0]] + s[1..] && t == [t[0]] + t[1..];
    }
  }

  /** A number without its last `d` hexadecimal digits. */
  function Leading(n: nat, d: nat): nat { if d == 0 then n else Leading(n / 16, d - 1) }

  lemma {:induction false} LeadingDigits(n: nat, d: nat)
    requires d < |HexDigits(n)|
    ensures var s := HexDigits(n); s[..|s| - d] == HexDigits(Leading(n, d))
  {
    if d > 0 {
      var s := HexDigits(n);
      assert s[..|s| - 1] == HexDigits(n / 16);
      LeadingDigits(n / 16, d - 1);
      assert s[..|s| - 1][..|s| - d] == s[..|s| - d];
    }
  }

  lemma LexCons(c: char, s: string, t: string)
    ensures LexLeq([c] + s, [c] + t) <==> LexLeq(s, t)
  {
  }

  lemma TextOrderShort(x: nat, y: nat)
    requires |HexDigits(x)| <= |HexDigits(y)|
    ensures var d := |HexDigits(y)| - |HexDigits(x)|;
      && (LexLeq(HexDigits(x), HexDigits(y)) <==> x <= Leading(y, d))
      && (d > 0 ==> (LexLeq(HexDigits(y), HexDigits(x)) <==> Leading(y, d) < x))
  {
    hide HexDigits; hide LexLeq; hide Leading;
    var s, t := HexDigits(x), HexDigits(y);
    var d := |t| - |s|;
    LeadingDigits(y, d);
    var z := Leading(y, d);
    assert t == t[..|s|] + t[|s|..] && t[..|s|] == HexDigits(z);
    LexPrefix(s, t[..|s|], t[|s|..]);
    SameLengthOrder(x, z);
    SameLengthOrder(z, x);
  }

  /** The text order of two addresses compares the shorter one with the leading digits of the longer one. */
  lemma TextOrder(x: nat, y: nat)
    ensures var m, n := |HexDigits(x)|, |HexDigits(y)|;
      LexLeq(Hex(x), Hex(y)) <==> if m <= n then x <= Leading(y, n - m) else Leading(x, m - n) < y
  {
    var s, t := HexDigits(x), HexDigits(y);
    hide HexDigits; hide LexLeq; hide Leading;
    assert Hex(x) == ['0'] + (['x'] + s) && Hex(y) == ['0'] + (['x'] + t);
    LexCons('0', ['x'] + s, ['x'] + t);
    LexCons('x', s, t);
    if |s| <= |t| { TextOrderShort(x, y); } else { TextOrderShort(y, x); }
  }

  // ------------------------------------------------------------------ reading numbers back

  /** What a digit stands for. */
  function DigitValue(c: char): nat {
    if '0' <= c <= '9' then c as int - '0' as int else if 'a' <= c <= 'f' then c as int - 'a' as int + 10 else 0
  }

  /** The number a numeral stands for. */
  function Read(s: string, base: nat): nat {
    if s == [] then 0 else Read(s[..|s| - 1], base) * base + DigitValue(s[|s| - 1])
  }

  /** Decimal text reads back as its number, without leading zeros. */
  lemma {:induction false} DecimalReads(n: nat)
    ensures Read(Decimal(n), 10) == n && Decimal(n) != [] && (n > 0 ==> Decimal(n)[0] != '0')
  {
    var s := Decimal(n);
    if n < 10 {
      assert s[..0] == [];
    } else {
      DecimalReads(n / 10);
      assert s[..|s| - 1] == Decimal(n / 10);
    }
  }

  lemma HexDigitReads(d: nat)
    requires d < 16
    ensures DigitValue(HexDigit(d)) == d && (HexDigit(d) == '0' <==> d == 0)
  {
    if d < 10 {
      assert HexDigit(d) == "0123456789"[d];
    } else {
      assert HexDigit(d) == "abcdef"[d - 10];
    }
  }

  /** So does hexadecimal text. */
  lemma {:induction false} HexReads(n: nat)
    ensures Read(HexDigits(n), 16) == n && (n > 0 ==> HexDigits(n)[0] != '0')
  {
    hide HexDigit; hide DigitValue;
    var s := HexDigits(n);
    HexDigitReads(n % 16);
    if n < 16 {
      assert s[..0] == [];
    } else {
      HexReads(n / 16);
      assert s[..|s| - 1] == HexDigits(n / 16);
    }
  }
}
