/**
 Compact targets: 32 bits that stand for a 256-bit number, as in section 7.7.4 of the Zcash Protocol
 Specification.
 */
module CompactTarget {
  import opened Common
  import opened Words256

  predicate SignBit(bits: u32) { (bits / 0x80_0000) % 2 == 1 }
  function SizeOf(bits: u32): nat { bits / 0x100_0000 }
  function WordOf(bits: u32): nat { bits % 0x80_0000 }

  /** The number that compact bits denote: floor(word * 256^(size - 3)). */
  function Meaning(bits: u32): nat { MeaningOf(SizeOf(bits), WordOf(bits)) }

  function MeaningOf(size: nat, word: nat): nat {
    match size
    case 0 => word / 0x100_0000
    case 1 => word / 0x1_0000
    case 2 => word / 0x100
    case _ => Scaled(word, size - 3)
  }

  function Scaled(word: nat, k: nat): nat { word * Pow256(k) }

  /** A shift to the right by whole bytes. */
  function ShiftRight(word: nat, bytes: nat): nat { if bytes == 0 then word else ShiftRight(word / 0x100, bytes - 1) }

  function Zeros(n: nat): seq<byte> { seq(n, (i: nat) => 0) }

  lemma {:induction false} ZerosInFront(n: nat, s: seq<byte>)
    ensures BigValue(Zeros(n) + s) == BigValue(s)
  {
    if s == [] {
      assert Zeros(n) + s == Zeros(n);
      if n == 0 {
      } else {
        assert Zeros(n)[..n - 1] == Zeros(n - 1) == Zeros(n - 1) + [];
        ZerosInFront(n - 1, []);
      }
    } else {
      var k := |s| - 1;
      assert (Zeros(n) + s)[..n + k] == Zeros(n) + s[..k];
      ZerosInFront(n, s[..k]);
    }
  }

  lemma {:induction false} ZerosBehind(s: seq<byte>, n: nat)
    ensures BigValue(s + Zeros(n)) == BigValue(s) * Pow256(n)
  {
    if n == 0 {
      assert s + Zeros(n) == s;
    } else {
      assert (s + Zeros(n))[..|s| + n - 1] == s + Zeros(n - 1);
      ZerosBehind(s, n - 1);
      assert 256 * (BigValue(s) * Pow256(n - 1)) == BigValue(s) * (256 * Pow256(n - 1));
    }
  }

  /** The bytes of a three-byte word, most significant first. */
  function WordBytes(word: nat): (b: seq<byte>)
    requires word < 0x100_0000
    ensures |b| == 3
  {
    [word / 0x1_0000, (word / 0x100) % 0x100, word % 0x100]
  }

  lemma {:induction false} BigOne(a: byte)
    ensures BigValue([a]) == a
  {
    assert [a][..0] == [];
  }

  lemma {:induction false} BigTwo(a: byte, b: byte)
    ensures BigValue([a, b]) == 256 * a + b
  {
    assert [a, b][..1] == [a];
    BigOne(a);
  }

  lemma {:induction false} BigThree(a: byte, b: byte, c: byte)
    ensures BigValue([a, b, c]) == 0x1_0000 * a + 256 * b + c
  {
    assert [a, b, c][..2] == [a, b];
    BigTwo(a, b);
  }

  /** The word placed so that its last byte has weight 256^(size - 3), cut to 32 bytes. */
  function Placed(word: nat, size: nat): (s: seq<byte>)
    requires word < 0x100_0000 && 3 <= size <= 34
    ensures |s| == 32
  {
    var b := WordBytes(word);
    if size <= 32 then Zeros(32 - size) + b + Zeros(size - 3) else b[size - 32..] + Zeros(size - 3)
  }

  predicate Representable(word: nat, size: nat) {
    size <= 34 && (word > 0xff ==> size <= 33) && (word > 0xffff ==> size <= 32)
  }

  lemma {:induction false} InsideValue(b: seq<byte>, front: nat, behind: nat)
    ensures BigValue(Zeros(front) + b + Zeros(behind)) == BigValue(b) * Pow256(behind)
  {
    assert Zeros(front) + b + Zeros(behind) == Zeros(front) + (b + Zeros(behind));
    ZerosInFront(front, b + Zeros(behind));
    ZerosBehind(b, behind);
  }

  /** Leading zero bytes of a word may be cut off. */
  lemma {:induction false} CutValue(b: seq<byte>)
    requires |b| == 3
    ensures b[0] == 0 ==> BigValue(b[1..]) == BigValue(b)
    ensures b[0] == b[1] == 0 ==> BigValue(b[2..]) == BigValue(b)
  {
    assert b == [b[0], b[1], b[2]] && b[1..] == [b[1], b[2]] && b[2..] == [b[2]];
    BigThree(b[0], b[1], b[2]);
    BigTwo(b[1], b[2]);
    BigOne(b[2]);
  }

  lemma {:induction false} WordValue(word: nat)
    requires word < 0x100_0000
    ensures BigValue(WordBytes(word)) == word
  {
    var b := WordBytes(word);
    BigThree(b[0], b[1], b[2]);
  }

  lemma {:induction false} PlacedValue(word: nat, size: nat)
    requires word < 0x100_0000 && 3 <= size && Representable(word, size)
    ensures BigValue(Placed(word, size)) == Scaled(word, size - 3)
  {
    var b := WordBytes(word);
    WordValue(word);
    if size <= 32 {
      InsideValue(b, 32 - size, size - 3);
    } else {
      CutValue(b);
      ZerosBehind(b[size - 32..], size - 3);
    }
  }

  /** The size checks accept exactly the numbers below 2^256. */
  lemma {:induction false} RepresentableIffFits(word: nat, size: nat)
    requires 0 < word < 0x80_0000 && size >= 3
    ensures Representable(word, size) <==> Scaled(word, size - 3) <= MAX256
    ensures Scaled(word, size - 3) >= 1
  {
    PowWidth();
    var w := if word > 0xffff then 3 else if word > 0xff then 2 else 1;
    PowAdd(w - 1, size - 3);
    PowAdd(w, size - 3);
    assert Pow256(1) == 256 && Pow256(2) == 0x1_0000 && Pow256(3) == 0x100_0000;
    ScaleBounds(Pow256(w - 1), word, Pow256(w), Pow256(size - 3));
    TimesAtLeast(word, Pow256(size - 3));
    if size - 3 + w <= 32 { PowMonotone(size - 3 + w, 32); } else { PowMonotone(32, size - 3 + w - 1); }
  }

  lemma {:induction false} ScaleBounds(a: nat, x: nat, b: nat, p: nat)
    requires a <= x < b && p > 0
    ensures a * p <= x * p < b * p
  {
    assert x * p == a * p + (x - a) * p;
    assert b * p == x * p + (b - x) * p;
    TimesAtLeast(b - x, p);
  }

  /** A small word needs no placement: four bytes at the end. */
  lemma {:induction false} SmallValue(value: nat)
    requires value < 0x100_0000
    ensures BigValue(Zeros(28) + [0] + WordBytes(value)) == value
  {
    var b := WordBytes(value);
    WordValue(value);
    ZerosInFront(29, b);
    assert Zeros(28) + [0] + b == Zeros(29) + b;
  }

  /** The byte that the loop has put at `p` when it has handled the first `done` bytes. */
  function Written(b: seq<byte>, start: int, done: nat, p: nat): byte
    requires |b| == 3 && done <= 3
  {
    if start <= p < start + done then b[p - start] else 0
  }

  lemma {:induction false} WrittenIsPlaced(word: nat, size: nat, p: nat)
    requires word < 0x80_0000 && 3 < size <= 34 && p < 32
    ensures Written(WordBytes(word), 32 - size, 3, p) == Placed(word, size)[p]
  {
  }

  lemma {:induction false} CutBytesAreZero(word: nat, size: nat, offset: nat)
    requires 0 < word < 0x80_0000 && 3 < size && Representable(word, size) && offset < 3 && 32 - size + offset < 0
    ensures WordBytes(word)[offset] == 0
  {
  }

  lemma {:induction false} SmallMeaning(word: nat, size: nat)
    requires word < 0x80_0000 && size <= 3
    ensures ShiftRight(word, 3 - size) == MeaningOf(size, word) <= word
  {
    if size < 3 { assert ShiftRight(word, 3 - size) == ShiftRight(word / 0x100, 2 - size); }
    if size < 2 { assert ShiftRight(word / 0x100, 2 - size) == ShiftRight(word / 0x100 / 0x100, 1 - size); }
  }

  /**
   Decoding succeeds exactly when the sign bit is clear and the number is between 1 and 2^256 - 1, and then
   the 32 big-endian bytes denote that number.  The overflow checks inside the loop are unreachable.
   */
  method DecodeCompactTarget(bits: u32) returns (r: Result<seq<byte>>)
    ensures r.Ok? <==> !SignBit(bits) && 1 <= Meaning(bits) <= MAX256
    ensures r.Ok? ==> |r.value| == 32 && BigValue(r.value) == Meaning(bits)
  {
    var size, word := bits / 0x100_0000, bits % 0x80_0000;
    if SignBit(bits) { return Err; }
    if word == 0 {
      ZeroMeaning(bits);
      return Err;
    }
    if size >= 3 { RepresentableIffFits(word, size); }
    if size > 34 || (word > 0xff && size > 33) || (word > 0xffff && size > 32) { return Err; }
    if size <= 3 {
      SmallMeaning(word, size);
      var value := ShiftRight(word, 3 - size);
      if value == 0 { return Err; }
      SmallValue(value);
      return Ok(Zeros(28) + [0] + WordBytes(value));
    }
    var target := new byte[32](i => 0);
    var bytes, start := WordBytes(word), 32 - size;
    for offset := 0 to 3
      invariant forall p :: 0 <= p < 32 ==> target[p] == Written(bytes, start, offset, p)
    {
      var index := start + offset;
      if index < 0 {
        CutBytesAreZero(word, size, offset);
      } else {
        target[index] := bytes[offset];
      }
    }
    forall p | 0 <= p < 32 ensures target[..][p] == Placed(word, size)[p] { WrittenIsPlaced(word, size, p); }
    assert target[..] == Placed(word, size);
    PlacedValue(word, size);
    return Ok(target[..]);
  }

  lemma {:induction false} ZeroMeaning(bits: u32)
    requires WordOf(bits) == 0
    ensures Meaning(bits) == 0
  {
  }
}
