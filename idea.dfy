/**
 * The IDEA module of libmcrypt (idea.c): the key structure holding the
 * encryption schedule and the decryption schedule, the key expansion, the
 * inversion of a schedule, the block transform on the 32-bit registers of
 * the C code, the size getters and the self test. Blocks and keys arrive
 * as bytes and are read as little-endian 16-bit words.
 */
module Idea {
  import opened Bits
  import opened IdeaArith
  import opened IdeaSpec
  import opened IdeaKnownAnswer

  /** `Idea_dataSize`: a block is 8 bytes. */
  const DataSize: nat := DataLen * 2
  /** `Idea_userKeySize`: a key is 16 bytes. */
  const UserKeySize: nat := UserKeyLen * 2
  /** `Idea_keySize`: one schedule takes 104 bytes. */
  const KeySize: nat := KeyLen * 2

  /** The block that 8 bytes of memory hold, as four little-endian words. */
  function BlockOfBytes(b: seq<Byte>): Block
    requires |b| == DataSize
  {
    Block(WordOfBytes(b[0], b[1]), WordOfBytes(b[2], b[3]), WordOfBytes(b[4], b[5]), WordOfBytes(b[6], b[7]))
  }

  /** The 8 bytes in which a block is stored, low byte of each word first. */
  function BytesOfBlock(s: Block): (b: seq<Byte>)
    ensures |b| == DataSize
  {
    [s.x0 % 0x100, s.x0 / 0x100, s.x1 % 0x100, s.x1 / 0x100,
     s.x2 % 0x100, s.x2 / 0x100, s.x3 % 0x100, s.x3 / 0x100]
  }

  /** Storing a block and loading it back gives the block. */
  lemma BlockOfBytesOfBlock(s: Block)
    ensures BlockOfBytes(BytesOfBlock(s)) == s
  {
  }

  /** Loading a block and storing it back gives the bytes. */
  lemma BytesOfBlockOfBytes(b: seq<Byte>)
    requires |b| == DataSize
    ensures BytesOfBlock(BlockOfBytes(b)) == b
  {
    WordOfBytesBytes(b[0], b[1]);
    WordOfBytesBytes(b[2], b[3]);
    WordOfBytesBytes(b[4], b[5]);
    WordOfBytesBytes(b[6], b[7]);
  }

  /** The block transform on the 8 bytes of memory that hold the block. */
  function CryptBytes(z: Schedule, b: seq<Byte>): (c: seq<Byte>)
    requires |b| == DataSize
    ensures |c| == DataSize
  {
    BytesOfBlock(Crypt(z, BlockOfBytes(b)))
  }

  /** Decrypting the encryption of a block in memory restores the bytes. */
  lemma DecryptEncryptBytes(z: Schedule, d: Schedule, b: seq<Byte>)
    requires IsInverseSchedule(z, d) && |b| == DataSize
    ensures CryptBytes(d, CryptBytes(z, b)) == b
  {
    var s := BlockOfBytes(b);
    BlockOfBytesOfBlock(Crypt(z, s));
    DecryptEncrypt(z, d, s);
    BytesOfBlockOfBytes(b);
  }

  /** Encryption also undoes decryption: the two schedules are each other's inverse. */
  lemma EncryptDecryptBytes(z: Schedule, d: Schedule, b: seq<Byte>)
    requires IsInverseSchedule(z, d) && |b| == DataSize
    ensures CryptBytes(z, CryptBytes(d, b)) == b
  {
    InverseSymmetric(z, d);
    DecryptEncryptBytes(d, z, b);
  }

  /** The user key that the first 16 bytes of a key buffer hold. */
  function UserKeyOf(bytes: seq<Byte>): UserKey
    requires |bytes| >= UserKeySize
  {
    WordsOfBytes(bytes[..UserKeySize])
  }

  /**
   * The block transform of `_mcrypt_encrypt` and `_mcrypt_decrypt`, which
   * differ only in the schedule they read: eight rounds on the registers,
   * then the output transform, the result overwriting the block.
   */
  method CryptInPlace(z: array<Word>, data: array<Byte>)
    requires z.Length == KeyLen && data.Length == DataSize
    modifies data
    ensures data[..] == CryptBytes(z[..], old(data[..]))
  {
    ghost var s := BlockOfBytes(data[..]);
    ghost var k := z[..];
    var x0: Word32 := WordOfBytes(data[0], data[1]);
    var x1: Word32 := WordOfBytes(data[2], data[3]);
    var x2: Word32 := WordOfBytes(data[4], data[5]);
    var x3: Word32 := WordOfBytes(data[6], data[7]);
    var round := NofRound;
    var i := 0;
    ghost var done := 0;
    while round > 0
      invariant 0 <= done <= NofRound && round == NofRound - done && i == 6 * done
      invariant x0 <= Ones && x1 <= Ones && x2 < 0x2_0000 && x3 <= Ones
      invariant Block(x0, x1, x2 % 0x1_0000, x3) == Rounds(s, k, done)
    {
      x0, x1, x2, x3 := RoundRegisters(z, i, done, x0, x1, x2, x3);
      i := i + 6;
      round := round - 1;
      done := done + 1;
    }
    OutputTransform(z, i, x0, x1, x2, x3, data);
  }

  /**
   * One round on the registers, with the sub-keys z[i .. i + 6]: the key
   * mixing, then the multiply-add structure. Between rounds x2 may carry a
   * 17th bit, which the next addition masks away.
   */
  method RoundRegisters(z: array<Word>, i: nat, ghost r: nat, x0: Word32, x1: Word32, x2: Word32, x3: Word32)
    returns (y0: Word32, y1: Word32, y2: Word32, y3: Word32)
    requires z.Length == KeyLen && r < NofRound && i == 6 * r
    requires x0 <= Ones && x1 <= Ones && x2 < 0x2_0000 && x3 <= Ones
    ensures y0 <= Ones && y1 <= Ones && y2 < 0x2_0000 && y3 <= Ones
    ensures Block(y0, y1, y2 % 0x1_0000, y3) == Round(Block(x0, x1, x2 % 0x1_0000, x3), z[..], r)
  {
    ghost var mixed := KeyMix(Block(x0, x1, x2 % 0x1_0000, x3), z[..], i);
    y0, y1, y2, y3 := KeyMixRegisters(z, i, x0, x1, x2, x3);
    assert Block(y0, y1 % 0x1_0000, y2, y3 % 0x1_0000) == mixed;
    y0, y1, y2, y3 := MulAddRegisters(z, i + 4, y0, y1, y2, y3);
    assert Block(y0, y2 % 0x1_0000, y1, y3) == MulAdd(mixed, z[i + 4], z[i + 5]);
  }

  /**
   * The first half of a round, with the sub-keys z[i .. i + 4]: the words
   * are multiplied by and added to the sub-keys. The registers are 32 bits
   * wide and are masked to 16 bits only where the code masks them, so x1
   * and x3 leave unmasked.
   */
  method KeyMixRegisters(z: array<Word>, i: nat, x0: Word32, x1: Word32, x2: Word32, x3: Word32)
    returns (y0: Word32, y1: Word32, y2: Word32, y3: Word32)
    requires z.Length == KeyLen && i + 4 <= KeyLen
    requires x0 <= Ones && x1 <= Ones && x2 < 0x2_0000 && x3 <= Ones
    ensures y0 <= Ones && y1 < 0x2_0000 && y2 <= Ones
    ensures Block(y0, y1 % 0x1_0000, y2, y3 % 0x1_0000) == KeyMix(Block(x0, x1, x2 % 0x1_0000, x3), z[..], i)
  {
    var t1: Word32, t2: Word32;
    var j := i;
    y0, y1, y2, y3 := x0, x1, x2, x3;
    t1 := z[j];
    j := j + 1;
    y1 := y1 + z[j];
    j := j + 1;
    AddMasked(y2, z[j]);
    y2 := y2 + z[j];
    j := j + 1;
    y2 := y2 % 0x1_0000;
    t2 := z[j];
    y0, t1 := Mul(y0, t1);
    y0 := y0 % 0x1_0000;
    y3, t2 := Mul(y3, t2);
  }

  /**
   * The second half of a round, the multiply-add structure keyed by z[i]
   * and z[i + 1], whose outputs are xored into the words; the middle words
   * come out exchanged, x2 with a possible 17th bit.
   */
  method MulAddRegisters(z: array<Word>, i: nat, x0: Word32, x1: Word32, x2: Word32, x3: Word32)
    returns (y0: Word32, y1: Word32, y2: Word32, y3: Word32)
    requires z.Length == KeyLen && i + 2 <= KeyLen
    requires x0 <= Ones && x1 < 0x2_0000 && x2 <= Ones
    ensures y0 <= Ones && y1 <= Ones && y2 < 0x2_0000 && y3 <= Ones
    ensures Block(y0, y2 % 0x1_0000, y1, y3) == MulAdd(Block(x0, x1 % 0x1_0000, x2, x3 % 0x1_0000), z[i], z[i + 1])
  {
    ghost var s := Block(x0, x1 % 0x1_0000, x2, x3 % 0x1_0000);
    var t0, t1 := MulAddKeys(z, i, x0, x1, x2, x3);
    ghost var uSpec := AddW(t0, t1);
    t0 := t0 + t1;
    assert t0 % 0x1_0000 == uSpec;
    y0, y1, y2, y3 := x0, x1, x2, x3;
    Xor32Narrow(y0, t1);
    y0 := Xor32(y0, t1);
    y3 := Xor32(y3, t0);
    y3 := y3 % 0x1_0000;
    Xor32Narrow17(t0, y1);
    t0 := Xor32(t0, y1);
    Xor32Narrow(y2, t1);
    y1 := Xor32(y2, t1);
    y2 := t0;
    XorComm(uSpec, s.x1);
  }

  /**
   * The two products of the multiply-add structure, masked: t0 keyed by
   * z[i] on x0 ^ x2, and t1 keyed by z[i + 1] on (x1 ^ x3) + t0.
   */
  method MulAddKeys(z: array<Word>, i: nat, x0: Word32, x1: Word32, x2: Word32, x3: Word32)
    returns (t0: Word32, t1: Word32)
    requires z.Length == KeyLen && i + 2 <= KeyLen
    requires x0 <= Ones && x2 <= Ones
    ensures t0 <= Ones && t1 <= Ones
    ensures t0 == MulW(z[i], Xor(x0, x2))
    ensures t1 == MulW(z[i + 1], AddW(Xor(x1 % 0x1_0000, x3 % 0x1_0000), t0))
  {
    var t2: Word32;
    t0 := z[i];
    Xor32Narrow(x0, x2);
    t1 := Xor32(x0, x2);
    t0, t1 := Mul(t0, t1);
    t0 := t0 % 0x1_0000;
    t1 := z[i + 1];
    AddMasked(Xor32(x1, x3), t0);
    t2 := (Xor32(x1, x3) + t0) % 0x1_0000;
    t1, t2 := Mul(t1, t2);
    t1 := t1 % 0x1_0000;
  }

  /**
   * The output transform after the last round, with the sub-keys
   * z[i .. i + 4]: the middle words are mixed in exchanged positions, and
   * the four words are stored over the block.
   */
  method OutputTransform(z: array<Word>, i: nat, x0: Word32, x1: Word32, x2: Word32, x3: Word32, data: array<Byte>)
    requires z.Length == KeyLen && i == 6 * NofRound && data.Length == DataSize
    requires x0 <= Ones && x1 <= Ones && x2 < 0x2_0000 && x3 <= Ones
    modifies data
    ensures data[..] == BytesOfBlock(Output(Block(x0, x1, x2 % 0x1_0000, x3), z[..]))
  {
    ghost var out := Output(Block(x0, x1, x2 % 0x1_0000, x3), z[..]);
    var j := i;
    var t0: Word32 := z[j];
    j := j + 1;
    var y0, y3: Word32;
    y0, t0 := Mul(x0, t0);
    data[0], data[1] := y0 % 0x1_0000 % 0x100, y0 % 0x1_0000 / 0x100;
    AddMasked(x2, z[j]);
    var w1 := (z[j] + x2) % 0x1_0000;
    j := j + 1;
    data[2], data[3] := w1 % 0x100, w1 / 0x100;
    var w2 := (z[j] + x1) % 0x1_0000;
    j := j + 1;
    data[4], data[5] := w2 % 0x100, w2 / 0x100;
    t0 := z[j];
    y3, t0 := Mul(x3, t0);
    data[6], data[7] := y3 % 0x1_0000 % 0x100, y3 % 0x1_0000 / 0x100;
    assert out == Block(y0 % 0x1_0000, w1, w2, y3 % 0x1_0000);
    assert data[..] == BytesOfBlock(out);
  }

  /**
   * The entries of d outside positions lo .. top - 1 are those of the
   * inverse of z: the part of the decryption schedule already written.
   */
  ghost predicate InvertedOutside(z: Schedule, d: Schedule, lo: int, top: int)
  {
    forall j: nat, q: nat {:trigger SubKey(d, j, q)} |
      j <= NofRound && q < 6 && 6 * j + q < KeyLen && (6 * j + q < lo || top <= 6 * j + q) ::
      InverseEntry(z, j, q, SubKey(d, j, q))
  }

  /** How a step of the inversion transforms a sub-key. */
  datatype SubKeyOp = Copy | Negate | Invert

  /** y is x transformed by op: x itself, its negation or its inverse. */
  predicate Transformed(op: SubKeyOp, x: Word, y: Word)
  {
    match op
    case Copy => y == x
    case Negate => y == AddInv(x)
    case Invert => MulW(x, y) == 1
  }

  /**
   * The head of the inversion writes the first four sub-keys of groups 0
   * and 8, from which the written part grows inwards.
   */
  lemma {:induction false} InvertedHead(z: Schedule, d: Schedule)
    requires InverseEntry(z, 0, 0, d[0]) && InverseEntry(z, 0, 1, d[1])
    requires InverseEntry(z, 0, 2, d[2]) && InverseEntry(z, 0, 3, d[3])
    requires InverseEntry(z, NofRound, 0, d[48]) && InverseEntry(z, NofRound, 1, d[49])
    requires InverseEntry(z, NofRound, 2, d[50]) && InverseEntry(z, NofRound, 3, d[51])
    ensures InvertedOutside(z, d, 4, 48)
  {
    forall j: nat, q: nat | j <= NofRound && q < 6 && 6 * j + q < KeyLen && (6 * j + q < 4 || 48 <= 6 * j + q)
      ensures InverseEntry(z, j, q, SubKey(d, j, q))
    {
      assert (j == 0 && q < 4) || j == NofRound;
    }
  }

  /**
   * One pass of the inversion loop extends the written part by the six
   * sub-keys at lo (the multiply-add keys of group m, the first four of
   * group m + 1) and the six below top (the same of groups 7 - m and
   * 8 - m - 1), written in the order of the code.
   */
  lemma {:induction false} InvertedGrow(z: Schedule, d0: Schedule, lo: int, top: int, m: nat,
                                         a0: Word, b0: Word, a1: Word, b1: Word, a2: Word, b2: Word,
                                         a3: Word, b3: Word, a4: Word, b4: Word, a5: Word, b5: Word)
    requires m < (NofRound - 1) / 2 && lo == 4 + 6 * m && top == 48 - 6 * m
    requires InvertedOutside(z, d0, lo, top)
    requires Transformed(Copy, z[top - 2], a0) && Transformed(Copy, z[lo], b0)
    requires Transformed(Copy, z[top - 1], a1) && Transformed(Copy, z[lo + 1], b1)
    requires Transformed(Invert, z[top - 6], a2) && Transformed(Invert, z[lo + 2], b2)
    requires Transformed(Negate, z[top - 4], a3) && Transformed(Negate, z[lo + 3], b3)
    requires Transformed(Negate, z[top - 5], a4) && Transformed(Negate, z[lo + 4], b4)
    requires Transformed(Invert, z[top - 3], a5) && Transformed(Invert, z[lo + 5], b5)
    ensures InvertedOutside(z, d0[lo := a0][top - 2 := b0][lo + 1 := a1][top - 1 := b1][lo + 2 := a2][top - 6 := b2]
                                 [lo + 3 := a3][top - 4 := b3][lo + 4 := a4][top - 5 := b4][lo + 5 := a5][top - 3 := b5],
                            lo + 6, top - 6)
  {
    var d := d0[lo := a0][top - 2 := b0][lo + 1 := a1][top - 1 := b1][lo + 2 := a2][top - 6 := b2]
              [lo + 3 := a3][top - 4 := b3][lo + 4 := a4][top - 5 := b4][lo + 5 := a5][top - 3 := b5];
    forall j: nat, q: nat | j <= NofRound && q < 6 && 6 * j + q < KeyLen && (6 * j + q < lo + 6 || top - 6 <= 6 * j + q)
      ensures InverseEntry(z, j, q, SubKey(d, j, q))
    {
      if 6 * j + q < lo || top <= 6 * j + q {
        assert SubKey(d0, j, q) == SubKey(d, j, q);
      } else if 6 * j + q < lo + 6 {
        assert (j == m && 4 <= q) || (j == m + 1 && q < 4);
      } else {
        assert j == 7 - m;
      }
    }
  }

  /**
   * The tail of the inversion writes the last eight sub-keys, the
   * multiply-add keys of group 3 and the whole of group 4, completing the
   * decryption schedule.
   */
  lemma {:induction false} InvertedComplete(z: Schedule, d0: Schedule, d: Schedule)
    requires InvertedOutside(z, d0, 22, 30)
    requires forall p | 0 <= p < KeyLen && (p < 22 || 30 <= p) :: d[p] == d0[p]
    requires InverseEntry(z, 3, 4, d[22]) && InverseEntry(z, 3, 5, d[23])
    requires InverseEntry(z, 4, 0, d[24]) && InverseEntry(z, 4, 1, d[25])
    requires InverseEntry(z, 4, 2, d[26]) && InverseEntry(z, 4, 3, d[27])
    requires InverseEntry(z, 4, 4, d[28]) && InverseEntry(z, 4, 5, d[29])
    ensures IsInverseSchedule(z, d)
  {
    forall j: nat, q: nat | j <= NofRound && q < 6 && 6 * j + q < KeyLen
      ensures InverseEntry(z, j, q, SubKey(d, j, q))
    {
      if 6 * j + q < 22 || 30 <= 6 * j + q {
        assert SubKey(d0, j, q) == SubKey(d, j, q);
      } else {
        assert (j == 3 && 4 <= q) || j == 4;
      }
    }
  }

  /**
   * `IDEA_KEY`: the encryption schedule and the decryption schedule, two
   * separate buffers of 52 words.
   */
  class IdeaKey {
    var key: array<Word>
    var invertedKey: array<Word>

    ghost predicate Valid()
      reads this
    {
      key.Length == KeyLen && invertedKey.Length == KeyLen && key != invertedKey
    }

    /** The storage the caller allocates before `_mcrypt_set_key`. */
    constructor ()
      ensures Valid() && fresh(key) && fresh(invertedKey)
    {
      key := new Word[KeyLen](_ => 0);
      invertedKey := new Word[KeyLen](_ => 0);
    }

    /**
     * `_mcrypt_set_key`: the first 8 schedule words are the key words, each
     * later word takes 7 bits of one earlier word and 9 bits of another, so
     * that every block of 8 is the previous one rotated left by 25 bits;
     * then the decryption schedule is computed. The length argument is not
     * read.
     */
    method SetKey(userKey: seq<Byte>, len: int) returns (r: int)
      requires Valid() && |userKey| >= UserKeySize
      modifies key, invertedKey
      ensures Valid() && r == 0
      ensures key[..] == ExpandKey(UserKeyOf(userKey))
      ensures IsInverseSchedule(key[..], invertedKey[..])
    {
      ghost var u := UserKeyOf(userKey);
      ghost var z := ExpandKey(u);
      ExpandKeyPrefix(u);
      var i := 0;
      while i < UserKeyLen
        invariant 0 <= i <= UserKeyLen
        invariant forall p | 0 <= p < i :: key[p] == z[p]
      {
        key[i] := WordOfBytes(userKey[2 * i], userKey[2 * i + 1]);
        assert key[i] == u[i];
        i := i + 1;
      }
      while i < KeyLen
        invariant UserKeyLen <= i <= KeyLen
        invariant forall p | 0 <= p < i :: key[p] == z[p]
      {
        ExpandKeyStep(u, i);
        // The two parts occupy disjoint bits, so the C `|` is a sum.
        if i % 8 < 6 {
          key[i] := (key[i - 7] % 128) * 512 + key[i - 6] / 128;
        } else if i % 8 == 6 {
          key[i] := (key[i - 7] % 128) * 512 + key[i - 14] / 128;
        } else {
          key[i] := (key[i - 15] % 128) * 512 + key[i - 14] / 128;
        }
        assert key[i] == z[i];
        i := i + 1;
      }
      assert key[..] == z;
      InvertKey();
      r := 0;
    }

    /**
     * `_mcrypt_Idea_InvertKey`: fills the decryption schedule from both
     * ends at once, a cursor lo climbing from the first group and a cursor
     * hi descending from the last, each step writing one sub-key of group j
     * and the matching sub-key of group 8 - j.
     */
    method InvertKey()
      requires Valid()
      modifies invertedKey
      ensures Valid() && key[..] == old(key[..])
      ensures IsInverseSchedule(key[..], invertedKey[..])
    {
      ghost var z := key[..];
      ghost var d0 := invertedKey[..];
      ghost var a0, b0, a1, b1, a2, b2, a3, b3;
      var lo, hi := 0, 6 * NofRound;
      a0, b0 := Exchange(lo, hi, Invert);
      lo, hi := lo + 1, hi + 1;
      a1, b1 := Exchange(lo, hi, Negate);
      lo, hi := lo + 1, hi + 1;
      a2, b2 := Exchange(lo, hi, Negate);
      lo, hi := lo + 1, hi + 1;
      a3, b3 := Exchange(lo, hi, Invert);
      lo := lo + 1;
      InvertedHead(z, invertedKey[..]);
      var i := (NofRound - 1) / 2;
      while i != 0
        invariant 0 <= i <= (NofRound - 1) / 2
        invariant lo == 4 + 6 * ((NofRound - 1) / 2 - i) && hi == 51 - 6 * ((NofRound - 1) / 2 - i)
        invariant key[..] == z
        invariant InvertedOutside(z, invertedKey[..], lo, hi - 3)
      {
        lo, hi := InvertInnerGroups(lo, hi, (NofRound - 1) / 2 - i);
        i := i - 1;
      }
      ghost var dMid := invertedKey[..];
      hi := hi - 5;
      a0, b0 := Exchange(lo, hi, Copy);
      lo, hi := lo + 1, hi + 1;
      a1, b1 := Exchange(lo, hi, Copy);
      lo := lo + 1;
      var v := MulInv(key[lo]);
      invertedKey[lo] := v;
      lo := lo + 1;
      a2, b2 := Exchange(lo, lo + 1, Negate);
      lo := lo + 2;
      var w := MulInv(key[lo]);
      invertedKey[lo] := w;
      InvertedComplete(z, dMid, invertedKey[..]);
    }

    /**
     * One pass of the loop of `_mcrypt_Idea_InvertKey`: the multiply-add
     * keys of group m and of group 7 - m trade places, then the first four
     * sub-keys of group m + 1 and of group 7 - m, inverted, negated and,
     * for the additive ones, exchanged.
     */
    method InvertInnerGroups(lo: int, hi: int, ghost m: nat) returns (lo': int, hi': int)
      requires Valid()
      requires m < (NofRound - 1) / 2 && lo == 4 + 6 * m && hi == 51 - 6 * m
      requires InvertedOutside(key[..], invertedKey[..], lo, hi - 3)
      modifies invertedKey
      ensures Valid() && key[..] == old(key[..])
      ensures lo' == lo + 6 && hi' == hi - 6
      ensures InvertedOutside(key[..], invertedKey[..], lo', hi' - 3)
    {
      ghost var z := key[..];
      ghost var d0 := invertedKey[..];
      ghost var a0, b0, a1, b1, a2, b2, a3, b3, a4, b4, a5, b5;
      lo', hi' := lo, hi;
      hi' := hi' - 5;
      a0, b0 := Exchange(lo', hi', Copy);
      lo', hi' := lo' + 1, hi' + 1;
      a1, b1 := Exchange(lo', hi', Copy);
      lo' := lo' + 1;
      hi' := hi' - 5;
      a2, b2 := Exchange(lo', hi', Invert);
      lo', hi' := lo' + 1, hi' + 1;
      hi' := hi' + 1;
      a3, b3 := Exchange(lo', hi', Negate);
      lo', hi' := lo' + 1, hi' - 1;
      a4, b4 := Exchange(lo', hi', Negate);
      lo', hi' := lo' + 1, hi' + 1;
      hi' := hi' + 1;
      a5, b5 := Exchange(lo', hi', Invert);
      lo' := lo' + 1;
      InvertedGrow(z, d0, lo, hi - 3, m, a0, b0, a1, b1, a2, b2, a3, b3, a4, b4, a5, b5);
    }

    /** `_mcrypt_encrypt`: the block in memory is enciphered under the encryption schedule. */
    method Encrypt(data: array<Byte>)
      requires Valid() && data.Length == DataSize
      modifies data
      ensures data[..] == CryptBytes(key[..], old(data[..]))
    {
      CryptInPlace(key, data);
    }

    /** `_mcrypt_decrypt`: the same transform under the decryption schedule. */
    method Decrypt(data: array<Byte>)
      requires Valid() && data.Length == DataSize
      modifies data
      ensures data[..] == CryptBytes(invertedKey[..], old(data[..]))
    {
      CryptInPlace(invertedKey, data);
    }

    /**
     * The step the inversion repeats: the sub-key at lo, transformed, is
     * kept aside while the sub-key at hi, transformed the same way, is
     * written at lo; then the kept value is written at hi.
     */
    method Exchange(lo: int, hi: int, op: SubKeyOp) returns (ghost a: Word, ghost b: Word)
      requires Valid() && 0 <= lo < KeyLen && 0 <= hi < KeyLen && lo != hi
      modifies invertedKey
      ensures Transformed(op, key[hi], a) && Transformed(op, key[lo], b)
      ensures invertedKey[..] == old(invertedKey[..])[lo := a][hi := b]
    {
      var t: Word;
      match op {
        case Copy =>
          t := key[lo];
          invertedKey[lo] := key[hi];
        case Negate =>
          t := AddInv(key[lo]);
          invertedKey[lo] := AddInv(key[hi]);
        case Invert =>
          t := MulInv(key[lo]);
          var v := MulInv(key[hi]);
          invertedKey[lo] := v;
      }
      invertedKey[hi] := t;
      a, b := invertedKey[lo], t;
    }
  }

  /** `_mcrypt_get_size`: the key structure holds both schedules. */
  function GetSize(): (r: int)
    ensures r == 2 * KeySize
  {
    208
  }

  /** `_mcrypt_get_block_size`: the size of the block the transform works on. */
  function GetBlockSize(): (r: int)
    ensures r == DataSize
  {
    8
  }

  /** `_is_block_algorithm`. */
  function IsBlockAlgorithm(): int
  {
    1
  }

  /** `_mcrypt_get_key_size`: the size of the user key `_mcrypt_set_key` reads. */
  function GetKeySize(): (r: int)
    ensures r == UserKeySize
  {
    16
  }

  /** `_mcrypt_get_algorithms_name`. */
  function GetAlgorithmsName(): string
  {
    "IDEA"
  }

  /** `_mcrypt_algorithm_version`. */
  function AlgorithmVersion(): int
  {
    20010701
  }

  /** `_mcrypt_get_supported_key_sizes`: the one key size, the list's length being its count. */
  function GetSupportedKeySizes(): (sizes: seq<int>)
    ensures |sizes| == 1 && forall k <- sizes :: k == GetKeySize()
  {
    [16]
  }

  /** The expected cipher text of the self test, in lower-case hex. */
  const Cipher: string := "3223edc0f33ba078"

  /** A hex digit as `%x` writes it. */
  function HexDigit(n: int): char
    requires 0 <= n < 16
  {
    "0123456789abcdef"[n]
  }

  /** Bytes as `%.2x` writes them one after the other. */
  function Hex(b: seq<Byte>): (h: string)
    ensures |h| == 2 * |b|
    ensures forall i | 0 <= i < |b| :: h[2 * i] == HexDigit(b[i] / 16) && h[2 * i + 1] == HexDigit(b[i] % 16)
  {
    if b == [] then [] else Hex(b[..|b| - 1]) + [HexDigit(b[|b| - 1] / 16), HexDigit(b[|b| - 1] % 16)]
  }

  /** The key bytes of the self test: 10, 12, .., 40. */
  const TestKeyBytes: seq<Byte> := seq(16, p requires 0 <= p < 16 => (p * 2 + 10) % 256)

  /** The plain text of the self test: 0, 1, .., 7. */
  const TestPlainBytes: seq<Byte> := seq(8, p requires 0 <= p < 8 => p % 256)

  /** The key bytes of the self test are the words of the known user key. */
  lemma SelfTestKey()
    ensures UserKeyOf(TestKeyBytes) == KnownUserKey
  {
    assert TestKeyBytes == [10, 12, 14, 16, 18, 20, 22, 24, 26, 28, 30, 32, 34, 36, 38, 40];
  }

  /** The plaintext bytes of the self test hold the known block. */
  lemma SelfTestBlock()
    ensures BlockOfBytes(TestPlainBytes) == KnownPlain
  {
    assert TestPlainBytes == [0, 1, 2, 3, 4, 5, 6, 7];
  }

  /** The self test's block encrypted under the schedule of the self test's key. */
  lemma SelfTestEncrypt(keyBytes: seq<Byte>, plainBytes: seq<Byte>, z: Schedule)
    requires keyBytes == TestKeyBytes && plainBytes == TestPlainBytes
    requires z == ExpandKey(UserKeyOf(keyBytes))
    ensures CryptBytes(z, plainBytes) == BytesOfBlock(KnownCipher)
  {
    SelfTestKey();
    SelfTestBlock();
    KnownAnswer(UserKeyOf(keyBytes), BlockOfBytes(plainBytes));
  }

  /** The known cipher block, stored and written out in hex, is the expected string. */
  lemma SelfTestHex(c: seq<Byte>)
    requires c == BytesOfBlock(KnownCipher)
    ensures Hex(c) == Cipher
  {
    assert c == [0x32, 0x23, 0xed, 0xc0, 0xf3, 0x3b, 0xa0, 0x78];
    CipherHex(c);
  }

  /** The bytes of the known cipher block in hex. */
  lemma CipherHex(c: seq<Byte>)
    requires c == [0x32, 0x23, 0xed, 0xc0, 0xf3, 0x3b, 0xa0, 0x78]
    ensures Hex(c) == Cipher
  {
    var h := Hex(c);
    assert h[0] == HexDigit(c[0] / 16) && h[1] == HexDigit(c[0] % 16);
    assert h[2] == HexDigit(c[1] / 16) && h[3] == HexDigit(c[1] % 16);
    assert h[4] == HexDigit(c[2] / 16) && h[5] == HexDigit(c[2] % 16);
    assert h[6] == HexDigit(c[3] / 16) && h[7] == HexDigit(c[3] % 16);
    assert h[8] == HexDigit(c[4] / 16) && h[9] == HexDigit(c[4] % 16);
    assert h[10] == HexDigit(c[5] / 16) && h[11] == HexDigit(c[5] % 16);
    assert h[12] == HexDigit(c[6] / 16) && h[13] == HexDigit(c[6] % 16);
    assert h[14] == HexDigit(c[7] / 16) && h[15] == HexDigit(c[7] % 16);
  }

  /**
   * `_mcrypt_self_test`: sets up the key bytes 10, 12, .., 40 and the block
   * 0, 1, .., 7, encrypts, compares the hex of the result with the expected
   * string, decrypts and compares with the plain text; -1 on a mismatch,
   * 0 when both agree. The key size, block size and the known answer fix
   * the outcome: the test passes.
   */
  method SelfTest() returns (r: int)
    ensures r == 0
  {
    var keyword := TestKeyword();
    var ciphertext, plaintext := TestBlocks();
    var key := new IdeaKey();
    var _ := key.SetKey(keyword[..], GetKeySize());
    SelfTestEncrypt(keyword[..], ciphertext[..], key.key[..]);
    DecryptEncryptBytes(key.key[..], key.invertedKey[..], ciphertext[..]);
    r := CompareKnownAnswer(key, ciphertext, plaintext);
  }

  /** The key bytes of the self test, in a buffer of their own. */
  method TestKeyword() returns (keyword: array<Byte>)
    ensures fresh(keyword) && keyword[..] == TestKeyBytes
  {
    keyword := new Byte[GetKeySize()](_ => 0);
    for j := 0 to GetKeySize()
      invariant keyword[..j] == TestKeyBytes[..j]
    {
      keyword[j] := (j * 2 + 10) % 256;
      assert keyword[..j + 1] == keyword[..j] + [keyword[j]];
    }
    assert keyword[..] == keyword[..GetKeySize()];
  }

  /** The plain text of the self test and the copy of it that is encrypted in place. */
  method TestBlocks() returns (ciphertext: array<Byte>, plaintext: array<Byte>)
    ensures fresh(ciphertext) && fresh(plaintext) && ciphertext != plaintext
    ensures ciphertext[..] == plaintext[..] == TestPlainBytes
  {
    var blocksize := GetBlockSize();
    ciphertext := new Byte[blocksize](_ => 0);
    plaintext := new Byte[blocksize](_ => 0);
    for j := 0 to blocksize
      modifies plaintext
      invariant plaintext[..j] == TestPlainBytes[..j]
    {
      plaintext[j] := j % 256;
      assert plaintext[..j + 1] == plaintext[..j] + [plaintext[j]];
    }
    assert plaintext[..] == plaintext[..blocksize];
    forall j | 0 <= j < blocksize {
      ciphertext[j] := plaintext[j];
    }
  }

  /**
   * The checks of the self test once the key is set: the block is
   * encrypted and its hex compared with the expected string, then
   * decrypted and compared with the plain text. The requirements are
   * what the known answer and the inverse schedule give.
   */
  method CompareKnownAnswer(key: IdeaKey, ciphertext: array<Byte>, plaintext: array<Byte>) returns (r: int)
    requires key.Valid() && ciphertext.Length == DataSize && plaintext.Length == DataSize && ciphertext != plaintext
    requires CryptBytes(key.key[..], ciphertext[..]) == BytesOfBlock(KnownCipher)
    requires CryptBytes(key.invertedKey[..], BytesOfBlock(KnownCipher)) == plaintext[..]
    modifies ciphertext
    ensures r == 0
  {
    key.Encrypt(ciphertext);
    var cipherTmp := HexString(ciphertext);
    SelfTestHex(ciphertext[..]);
    if cipherTmp != Cipher {
      r := -1;
    } else {
      key.Decrypt(ciphertext);
      r := if ciphertext[..] != plaintext[..] then -1 else 0;
    }
  }

  /** The `%.2x` loop of the self test, writing a block in hex. */
  method HexString(data: array<Byte>) returns (h: string)
    ensures h == Hex(data[..])
  {
    h := [];
    for j := 0 to data.Length
      invariant h == Hex(data[..j])
    {
      assert data[..j + 1][..j] == data[..j];
      h := h + [HexDigit(data[j] / 16), HexDigit(data[j] % 16)];
    }
    assert data[..data.Length] == data[..];
  }
}
