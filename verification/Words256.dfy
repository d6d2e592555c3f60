/** Numbers as bytes: little-endian and big-endian values, and the division facts about them. */
module Words256 {
  import opened Common

  function Pow256(n: nat): (p: nat)
    ensures p > 0
  {
    if n == 0 then 1 else 256 * Pow256(n - 1)
  }

  const WIDTH: nat := 32
  const MAX256: nat := 0xFFFF_FFFF_FFFF_FFFF_FFFF_FFFF_FFFF_FFFF_FFFF_FFFF_FFFF_FFFF_FFFF_FFFF_FFFF_FFFF

  function LittleValue(s: seq<byte>): nat { if s == [] then 0 else s[0] + 256 * LittleValue(s[1..]) }

  function BigValue(s: seq<byte>): nat { if s == [] then 0 else 256 * BigValue(s[..|s| - 1]) + s[|s| - 1] }

  function LittleBytes(n: nat, width: nat): (s: seq<byte>)
    ensures |s| == width
  {
    if width == 0 then [] else [n % 256] + LittleBytes(n / 256, width - 1)
  }

  lemma {:induction false} TimesAssociative(x: nat, y: nat, z: nat)
    ensures x * (y * z) == (x * y) * z
  {
  }

  lemma {:induction false} PowAdd(a: nat, b: nat)
    ensures Pow256(a + b) == Pow256(a) * Pow256(b)
  {
    if a == 0 {
    } else {
      PowAdd(a - 1, b);
      TimesAssociative(256, Pow256(a - 1), Pow256(b));
    }
  }

  lemma {:induction false} PowMonotone(a: nat, b: nat)
    requires a <= b
    ensures Pow256(a) <= Pow256(b)
  {
    if a < b {
      PowMonotone(a, b - 1);
    }
  }

  /** Thirty-two bytes hold exactly the 256-bit numbers. */
  lemma {:induction false} PowWidth()
    ensures Pow256(WIDTH) == MAX256 + 1
  {
    PowAdd(1, 1);
    PowAdd(2, 2);
    PowAdd(4, 4);
    PowAdd(8, 8);
    PowAdd(16, 16);
    assert Pow256(1) == 256 && Pow256(2) == 0x1_0000 && Pow256(4) == 0x1_0000_0000;
    assert Pow256(8) == 0x1_0000_0000_0000_0000;
    assert Pow256(16) == 0x1_0000_0000_0000_0000_0000_0000_0000_0000;
  }

  lemma {:induction false} LittleBound(s: seq<byte>)
    ensures LittleValue(s) < Pow256(|s|)
  {
    if s == [] {
    } else {
      LittleBound(s[1..]);
    }
  }

  lemma {:induction false} LittleBytesValue(n: nat, width: nat)
    requires n < Pow256(width)
    ensures LittleValue(LittleBytes(n, width)) == n
  {
    if width == 0 {
    } else {
      LittleBytesValue(n / 256, width - 1);
      assert LittleBytes(n, width)[1..] == LittleBytes(n / 256, width - 1);
    }
  }

  /** The last byte is the most significant one. */
  lemma {:induction false} LittleLast(s: seq<byte>, b: byte)
    ensures LittleValue(s + [b]) == LittleValue(s) + b * Pow256(|s|)
  {
    if s == [] {
      assert s + [b] == [b] && [b][1..] == [];
    } else {
      assert (s + [b])[1..] == s[1..] + [b];
      LittleLast(s[1..], b);
      assert 256 * (b * Pow256(|s| - 1)) == b * (256 * Pow256(|s| - 1));
    }
  }

  /* ----- division ----- */

  lemma {:induction false} TimesAtLeast(k: nat, n: nat)
    requires k > 0
    ensures k * n >= n
  {
    assert k * n == (k - 1) * n + n;
  }

  /** Quotient and remainder are unique. */
  lemma {:induction false} DivUnique(x: nat, q: nat, r: nat, n: nat)
    requires r < n && x == q * n + r
    ensures x / n == q
  {
    var a, b := x / n, x % n;
    assert x == a * n + b;
    if q > a {
      assert (q - a) * n == q * n - a * n;
      TimesAtLeast(q - a, n);
    } else if a > q {
      assert (a - q) * n == a * n - q * n;
      TimesAtLeast(a - q, n);
    }
  }

  lemma {:induction false} DivOneMore(x: nat, n: nat)
    requires n > 0
    ensures (x + n) / n == x / n + 1
  {
    var q, r := x / n, x % n;
    assert x == q * n + r;
    assert (q + 1) * n == q * n + n;
    DivUnique(x + n, q + 1, r, n);
  }
}
