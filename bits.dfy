/**
 * Fixed-width machine words and the bit operations that the IDEA code applies
 * to them. A word is an integer kept inside its range; a C mask `x & 0xFFFF`
 * is written `x % 0x1_0000`, a right shift `x >> k` is `x / 2^k` and a left
 * shift is a multiplication. A bitwise exclusive or is defined one bit at a
 * time, lowest bit first.
 */
module Bits {

  /** An unsigned 8-bit byte. */
  type Byte = x: int | 0 <= x < 0x100

  /** An unsigned 16-bit word (`word16`). */
  type Word = x: int | 0 <= x < 0x1_0000

  /** An unsigned 32-bit register (`word32`). */
  type Word32 = x: int | 0 <= x < 0x1_0000_0000

  /** Exclusive or of two bits, each 0 or 1. */
  function XorBit(x: int, y: int): int
  {
    if x == y then 0 else 1
  }

  /** 2 to the power n. */
  function Pow2(n: nat): (p: nat)
    ensures p >= 1
  {
    if n == 0 then 1 else 2 * Pow2(n - 1)
  }

  /**
   * Bitwise exclusive or of the low n bits of a and b: bit i of the result,
   * for i < n, is the xor of bit i of the operands, and there are no others.
   */
  function XorLow(a: nat, b: nat, n: nat): nat
  {
    if n == 0 then 0 else XorBit(a % 2, b % 2) + 2 * XorLow(a / 2, b / 2, n - 1)
  }

  /** The xor of the low n bits has n bits. */
  lemma {:induction false} XorLowBound(a: nat, b: nat, n: nat)
    ensures XorLow(a, b, n) < Pow2(n)
  {
    if n > 0 {
      XorLowBound(a / 2, b / 2, n - 1);
    }
  }

  /** Bitwise exclusive or of two 16-bit words (the C operator `^` on `word16`). */
  function Xor(a: Word, b: Word): Word
  {
    XorLowBound(a, b, 16);
    WordWidth();
    XorLow(a, b, 16)
  }

  lemma WordWidth()
    ensures Pow2(16) == 0x1_0000
  {
    assert Pow2(4) == 16;
    assert Pow2(8) == 256;
    assert Pow2(12) == 4096;
  }

  /**
   * Bitwise exclusive or of two 32-bit registers, computed as the xor of the
   * low halves and the xor of the high halves. Its low half is the 16-bit
   * xor of the operands' low halves, which is all the cipher ever keeps.
   */
  function Xor32(a: Word32, b: Word32): (r: Word32)
    ensures r % 0x1_0000 == Xor(a % 0x1_0000, b % 0x1_0000)
  {
    var low, high := Xor(a % 0x1_0000, b % 0x1_0000), Xor(a / 0x1_0000, b / 0x1_0000);
    Halves(low, high);
    low + 0x1_0000 * high
  }

  /** Two 16-bit halves make one 32-bit value whose low half is the first. */
  lemma Halves(low: Word, high: Word)
    ensures 0 <= low + 0x1_0000 * high < 0x1_0000_0000 && (low + 0x1_0000 * high) % 0x1_0000 == low
  {
  }

  /** On operands that fit in 16 bits the 32-bit xor is the 16-bit xor. */
  lemma Xor32Narrow(a: Word32, b: Word32)
    requires a < 0x1_0000 && b < 0x1_0000
    ensures Xor32(a, b) == Xor(a, b)
  {
    assert a % 0x1_0000 == a && b % 0x1_0000 == b;
    assert a / 0x1_0000 == 0 && b / 0x1_0000 == 0;
    XorLowZero(16);
  }

  /** On operands of at most 17 bits the 32-bit xor has at most 17 bits. */
  lemma Xor32Narrow17(a: Word32, b: Word32)
    requires a < 0x2_0000 && b < 0x2_0000
    ensures Xor32(a, b) < 0x2_0000
  {
    XorBitsOne(a / 0x1_0000, b / 0x1_0000);
  }

  /** The xor of two words of at most one bit has at most one bit. */
  lemma XorBitsOne(a: Word, b: Word)
    requires a <= 1 && b <= 1
    ensures Xor(a, b) <= 1
  {
    assert a / 2 == 0 && b / 2 == 0;
    XorLowZero(15);
    assert XorLow(a, b, 16) == XorBit(a % 2, b % 2) + 2 * XorLow(0, 0, 15);
  }

  /** The xor of zero with zero is zero, at every width. */
  lemma {:induction false} XorLowZero(n: nat)
    ensures XorLow(0, 0, n) == 0
  {
    if n > 0 {
      XorLowZero(n - 1);
    }
  }

  /** Euclidean division is determined by any quotient and remainder that fit. */
  lemma DivUnique(x: int, c: int, k: int, m: int)
    requires c > 0 && x == c * k + m && 0 <= m < c
    ensures x / c == k && x % c == m
  {
    var k', m' := x / c, x % c;
    assert x == c * k' + m';
    assert c * (k - k') == m' - m;
    if k > k' {
      MulAtLeast(c, k - k');
    } else if k < k' {
      MulAtLeast(c, k' - k);
    }
  }

  lemma MulAtLeast(c: int, d: int)
    requires c > 0 && d >= 1
    ensures c * d >= c
  {
    assert c * d == c * (d - 1) + c;
  }

  /** A bit followed by the bits of r: its lowest bit is t and the rest is r. */
  lemma HalfOf(t: int, r: int)
    requires 0 <= t <= 1
    ensures (t + 2 * r) % 2 == t && (t + 2 * r) / 2 == r
  {
  }

  /** Keeping the low n bits of a keeps its lowest bit and the low n - 1 bits of the rest. */
  lemma LowBits(a: nat, n: nat)
    requires n > 0
    ensures a % Pow2(n) == a % 2 + 2 * (a / 2 % Pow2(n - 1))
  {
    var p := Pow2(n - 1);
    var q, m := a / 2 / p, a / 2 % p;
    assert a == 2 * p * q + (a % 2 + 2 * m);
    DivUnique(a, 2 * p, q, a % 2 + 2 * m);
  }

  lemma XorBitInvolution(x: int, y: int)
    requires 0 <= x <= 1 && 0 <= y <= 1
    ensures XorBit(XorBit(x, y), y) == x
  {
  }

  lemma XorBitCancel(x: int, y: int, z: int)
    requires 0 <= x <= 1 && 0 <= y <= 1 && 0 <= z <= 1
    ensures XorBit(XorBit(x, z), XorBit(y, z)) == XorBit(x, y)
  {
  }

  /** Xor-ing with the same bits twice gives back the low n bits of the original. */
  lemma {:induction false} XorLowInvolution(a: nat, b: nat, n: nat)
    ensures XorLow(XorLow(a, b, n), b, n) == a % Pow2(n)
  {
    if n > 0 {
      var x, r := XorBit(a % 2, b % 2), XorLow(a / 2, b / 2, n - 1);
      HalfOf(x, r);
      XorBitInvolution(a % 2, b % 2);
      XorLowInvolution(a / 2, b / 2, n - 1);
      LowBits(a, n);
    }
  }

  /** Xor-ing both operands with the same bits leaves their xor unchanged. */
  lemma {:induction false} XorLowCancel(a: nat, b: nat, c: nat, n: nat)
    ensures XorLow(XorLow(a, c, n), XorLow(b, c, n), n) == XorLow(a, b, n)
  {
    if n > 0 {
      var x, r := XorBit(a % 2, c % 2), XorLow(a / 2, c / 2, n - 1);
      var y, t := XorBit(b % 2, c % 2), XorLow(b / 2, c / 2, n - 1);
      HalfOf(x, r);
      HalfOf(y, t);
      XorBitCancel(a % 2, b % 2, c % 2);
      XorLowCancel(a / 2, b / 2, c / 2, n - 1);
    }
  }

  /** The order of the operands does not matter. */
  lemma {:induction false} XorLowComm(a: nat, b: nat, n: nat)
    ensures XorLow(a, b, n) == XorLow(b, a, n)
  {
    if n > 0 {
      XorLowComm(a / 2, b / 2, n - 1);
    }
  }

  /** Xor-ing the same word twice gives the original back. */
  lemma XorInvolution(a: Word, b: Word)
    ensures Xor(Xor(a, b), b) == a
  {
    XorLowInvolution(a, b, 16);
    WordWidth();
  }

  /** Xor-ing both operands with the same word leaves their xor unchanged. */
  lemma XorCancel(a: Word, b: Word, c: Word)
    ensures Xor(Xor(a, c), Xor(b, c)) == Xor(a, b)
  {
    XorLowCancel(a, b, c, 16);
  }

  lemma XorComm(a: Word, b: Word)
    ensures Xor(a, b) == Xor(b, a)
  {
    XorLowComm(a, b, 16);
  }

  /**
   * Byte order of the cipher's words in memory: little-endian on every host
   * (a big-endian host byte-swaps on load and store), so the byte at the
   * lower address is the low-order byte.
   */
  function WordOfBytes(low: Byte, high: Byte): Word
  {
    low + 0x100 * high
  }

  /** The low byte and the high byte of a word are the bytes it was made of. */
  lemma WordOfBytesBytes(low: Byte, high: Byte)
    ensures WordOfBytes(low, high) % 0x100 == low && WordOfBytes(low, high) / 0x100 == high
  {
    DivUnique(WordOfBytes(low, high), 0x100, high, low);
  }

  /** Reads a byte string as consecutive little-endian words. */
  function WordsOfBytes(bytes: seq<Byte>): (ws: seq<Word>)
    requires |bytes| % 2 == 0
    ensures |ws| * 2 == |bytes|
  {
    seq(|bytes| / 2, j requires 0 <= j < |bytes| / 2 => WordOfBytes(bytes[2 * j], bytes[2 * j + 1]))
  }

  /** Writes words as consecutive little-endian byte pairs. */
  function BytesOfWords(ws: seq<Word>): (bytes: seq<Byte>)
    ensures |bytes| == 2 * |ws|
  {
    seq(2 * |ws|, i requires 0 <= i < 2 * |ws| => if i % 2 == 0 then ws[i / 2] % 0x100 else ws[i / 2] / 0x100)
  }

  /** Packing words into bytes and reading them back gives the words again. */
  lemma WordsOfBytesOfWords(ws: seq<Word>)
    ensures WordsOfBytes(BytesOfWords(ws)) == ws
  {
    var bytes := BytesOfWords(ws);
    forall j | 0 <= j < |ws|
      ensures WordsOfBytes(bytes)[j] == ws[j]
    {
      DivUnique(2 * j, 2, j, 0);
      DivUnique(2 * j + 1, 2, j, 1);
      assert bytes[2 * j] == ws[j] % 0x100 && bytes[2 * j + 1] == ws[j] / 0x100;
    }
  }

  /** Reading bytes as words and writing them back gives the bytes again. */
  lemma BytesOfWordsOfBytes(bytes: seq<Byte>)
    requires |bytes| % 2 == 0
    ensures BytesOfWords(WordsOfBytes(bytes)) == bytes
  {
    var ws := WordsOfBytes(bytes);
    forall i | 0 <= i < |bytes|
      ensures BytesOfWords(ws)[i] == bytes[i]
    {
      var j := i / 2;
      DivUnique(2 * j, 2, j, 0);
      DivUnique(2 * j + 1, 2, j, 1);
      assert ws[j] == WordOfBytes(bytes[2 * j], bytes[2 * j + 1]);
    }
  }
}
