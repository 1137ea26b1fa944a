/**
 * The IDEA cipher on clean 16-bit words: the dimensions fixed by idea.h,
 * one round (key mixing, the multiply-add structure, the swap of the middle
 * words), the output transform, the key schedule and the relation between
 * an encryption schedule and its decryption schedule. The register code of
 * idea.c is proved equal to these functions.
 */
module IdeaSpec {
  import opened Bits
  import opened IdeaArith

  /** `Idea_nofRound`. */
  const NofRound: nat := 8
  /** `Idea_userKeyLen`: 8 words, 16 bytes. */
  const UserKeyLen: nat := 8
  /** `Idea_dataLen`: 4 words, 8 bytes. */
  const DataLen: nat := 4
  /** `Idea_keyLen`: six sub-keys per round and four for the output transform. */
  const KeyLen: nat := NofRound * 6 + 4

  /** The four words of an `Idea_Data` block, named after the registers that hold them. */
  datatype Block = Block(x0: Word, x1: Word, x2: Word, x3: Word)
  /** `Idea_UserKey`. */
  type UserKey = u: seq<Word> | |u| == UserKeyLen witness [0, 0, 0, 0, 0, 0, 0, 0]
  /** One of the two 52-word schedules of `IDEA_KEY`. */
  type Schedule = z: seq<Word> | |z| == KeyLen witness seq(52, _ => 0)

  // ---------------------------------------------------------------------
  // Rounds

  /** Mixes the four words with the sub-keys z[i .. i + 4]: multiply, add, add, multiply. */
  function KeyMix(s: Block, z: Schedule, i: nat): Block
    requires i + 4 <= KeyLen
  {
    Block(MulW(s.x0, z[i]), AddW(s.x1, z[i + 1]), AddW(s.x2, z[i + 2]), MulW(s.x3, z[i + 3]))
  }

  /**
   * The multiply-add structure keyed by k4 and k5: both of its outputs are
   * xored into both halves, so applying it twice cancels.
   */
  function MulAdd(s: Block, k4: Word, k5: Word): Block
  {
    var t0 := MulW(k4, Xor(s.x0, s.x2));
    var t1 := MulW(k5, AddW(Xor(s.x1, s.x3), t0));
    var u := AddW(t0, t1);
    Block(Xor(s.x0, t1), Xor(s.x1, u), Xor(s.x2, t1), Xor(s.x3, u))
  }

  /** Exchanges the two middle words. */
  function Swap(s: Block): Block
  {
    Block(s.x0, s.x2, s.x1, s.x3)
  }

  /** Round r (0-based) of the cipher, keyed by z[6r .. 6r + 6]. */
  function Round(s: Block, z: Schedule, r: nat): Block
    requires r < NofRound
  {
    Swap(MulAdd(KeyMix(s, z, 6 * r), z[6 * r + 4], z[6 * r + 5]))
  }

  /** The block after the first n rounds. */
  function Rounds(s: Block, z: Schedule, n: nat): Block
    requires n <= NofRound
  {
    if n == 0 then s else Round(Rounds(s, z, n - 1), z, n - 1)
  }

  /**
   * The output transform: the final key mixing with z[48 .. 52], applied
   * with the middle words undoing the last round's swap.
   */
  function Output(s: Block, z: Schedule): Block
  {
    KeyMix(Swap(s), z, 6 * NofRound)
  }

  /** The cipher under schedule z: eight rounds and the output transform. */
  function Crypt(z: Schedule, s: Block): Block
  {
    Output(Rounds(s, z, NofRound), z)
  }

  // ---------------------------------------------------------------------
  // The key schedule

  /**
   * `(hi & 127) << 9 | lo >> 7`: the low 7 bits of hi placed above the high
   * 9 bits of lo. The two fields do not overlap, so the `|` is a sum.
   */
  function Splice(hi: Word, lo: Word): Word
  {
    (hi % 128) * 512 + lo / 128
  }

  /**
   * Eight key words shifted 25 bits towards word 0, the bits leaving word 0
   * coming back in at the end of word 7.
   */
  function RotateWords(w: UserKey): UserKey
  {
    seq(UserKeyLen, m requires 0 <= m < UserKeyLen => Splice(w[(m + 1) % 8], w[(m + 2) % 8]))
  }

  /** Word m of group k of sub-keys: word m of the user key, rotated k times. */
  function KeyWord(u: UserKey, k: nat, m: nat): Word
    requires m < UserKeyLen
  {
    if k == 0 then u[m] else Splice(KeyWord(u, k - 1, (m + 1) % 8), KeyWord(u, k - 1, (m + 2) % 8))
  }

  /** Group k of eight sub-keys. */
  function KeyBlock(u: UserKey, k: nat): UserKey
  {
    seq(UserKeyLen, m requires 0 <= m < UserKeyLen => KeyWord(u, k, m))
  }

  /** The encryption schedule of the user key u: the first 52 words of its groups. */
  function ExpandKey(u: UserKey): Schedule
  {
    seq(KeyLen, i requires 0 <= i < KeyLen => KeyWord(u, i / 8, i % 8))
  }

  /** The 128-bit number eight key words spell, word 0 most significant. */
  function Value(w: UserKey): int
  {
    ((((((w[0] as int * 0x1_0000 + w[1]) * 0x1_0000 + w[2]) * 0x1_0000 + w[3]) * 0x1_0000 + w[4])
      * 0x1_0000 + w[5]) * 0x1_0000 + w[6]) * 0x1_0000 + w[7]
  }

  const Pow25: int := 0x200_0000
  const Pow103: int := 0x80_0000_0000_0000_0000_0000_0000
  const Pow128: int := 0x1_0000_0000_0000_0000_0000_0000_0000_0000

  /** Rotation of a 128-bit number left by 25 bits. */
  function RotL25(v: int): int
    requires 0 <= v < Pow128
  {
    (v * Pow25) % Pow128 + v / Pow103
  }

  /** Eight words spell a 128-bit number. */
  lemma ValueRange(w: UserKey)
    ensures 0 <= Value(w) < Pow128
  {
  }

  /** RotateWords rotates the 128-bit key left by 25 bits. */
  lemma RotateWordsValue(w: UserKey)
    ensures Value(RotateWords(w)) == RotL25(Value(w))
  {
    var v := Value(w);
    var top: int := w[0] as int * 0x200 + w[1] / 128;
    var rest := (((((((w[1] % 128) as int) * 0x1_0000 + w[2]) * 0x1_0000 + w[3]) * 0x1_0000 + w[4])
      * 0x1_0000 + w[5]) * 0x1_0000 + w[6]) * 0x1_0000 + w[7];
    assert v == top * Pow103 + rest;
    DivUnique(v, Pow103, top, rest);
    DivUnique(v * Pow25, Pow128, top, rest * Pow25);
  }

  lemma RotateWordsAt(w: UserKey, m: nat)
    requires m < UserKeyLen
    ensures RotateWords(w)[m] == Splice(w[(m + 1) % 8], w[(m + 2) % 8])
  {
  }

  /** Group 0 is the user key, and each later group is the previous one, rotated. */
  lemma KeyBlockNext(u: UserKey, k: nat)
    ensures KeyBlock(u, 0) == u
    ensures KeyBlock(u, k + 1) == RotateWords(KeyBlock(u, k))
  {
    var prev, next := KeyBlock(u, k), KeyBlock(u, k + 1);
    forall m | 0 <= m < UserKeyLen
      ensures next[m] == RotateWords(prev)[m]
    {
      var a, b := (m + 1) % 8, (m + 2) % 8;
      assert next[m] == KeyWord(u, k + 1, m) == Splice(KeyWord(u, k, a), KeyWord(u, k, b));
      assert prev[a] == KeyWord(u, k, a) && prev[b] == KeyWord(u, k, b);
      RotateWordsAt(prev, m);
    }
  }

  /** Each group of the schedule is the previous one rotated left by 25 bits, as a 128-bit number. */
  lemma KeyBlockRotation(u: UserKey, k: nat)
    ensures Value(KeyBlock(u, k + 1)) == RotL25(Value(KeyBlock(u, k)))
  {
    KeyBlockNext(u, k);
    RotateWordsValue(KeyBlock(u, k));
  }

  /** Position 8k + m of the schedule is word m of group k. */
  lemma ExpandKeyAt(u: UserKey, i: nat, k: nat, m: nat)
    requires i == 8 * k + m && m < 8 && i < KeyLen
    ensures ExpandKey(u)[i] == KeyWord(u, k, m)
  {
    DivUnique(i, 8, k, m);
  }

  /** The first group of the schedule is the user key itself. */
  lemma ExpandKeyPrefix(u: UserKey)
    ensures ExpandKey(u)[..UserKeyLen] == u
  {
    forall i | 0 <= i < UserKeyLen
      ensures ExpandKey(u)[i] == u[i]
    {
      ExpandKeyAt(u, i, 0, i);
    }
  }

  /**
   * The recurrence by which `_mcrypt_set_key` fills position i >= 8 from
   * earlier positions, depending on the position i % 8 within its group.
   */
  lemma ExpandKeyStep(u: UserKey, i: nat)
    requires UserKeyLen <= i < KeyLen
    ensures var z := ExpandKey(u);
      z[i] == if i % 8 < 6 then Splice(z[i - 7], z[i - 6])
              else if i % 8 == 6 then Splice(z[i - 7], z[i - 14])
              else Splice(z[i - 15], z[i - 14])
  {
    var k, m := i / 8, i % 8;
    if m < 6 {
      ExpandKeyFrom(u, i, k, m, i - 7, i - 6);
    } else if m == 6 {
      ExpandKeyFrom(u, i, k, m, i - 7, i - 14);
    } else {
      ExpandKeyFrom(u, i, k, m, i - 15, i - 14);
    }
  }

  /** Word m of group k is spliced from words m + 1 and m + 2 (cyclically) of group k - 1. */
  lemma ExpandKeyFrom(u: UserKey, i: nat, k: nat, m: nat, hi: nat, lo: nat)
    requires i == 8 * k + m && 1 <= k && m < 8 && i < KeyLen
    requires hi == 8 * (k - 1) + (m + 1) % 8 && lo == 8 * (k - 1) + (m + 2) % 8
    ensures ExpandKey(u)[i] == Splice(ExpandKey(u)[hi], ExpandKey(u)[lo])
  {
    ExpandKeyAt(u, i, k, m);
    ExpandKeyAt(u, hi, k - 1, (m + 1) % 8);
    ExpandKeyAt(u, lo, k - 1, (m + 2) % 8);
  }

  // ---------------------------------------------------------------------
  // The inverse schedule

  /** Sub-key q of group j: z[6j + q]. */
  function SubKey(z: Schedule, j: nat, q: nat): Word
    requires q < 6 && 6 * j + q < KeyLen
  {
    z[6 * j + q]
  }

  /**
   * v may stand at offset q of group j of the decryption schedule for the
   * encryption schedule z. Group j of the decryption schedule undoes group
   * 8 - j of z: its multiplicative keys (offsets 0 and 3) are the inverses
   * of z's, its additive keys (offsets 1 and 2) the negations, exchanged
   * for the inner groups, whose input arrives swapped, and its multiply-add
   * keys (offsets 4 and 5) are those of round 7 - j.
   */
  predicate InverseEntry(z: Schedule, j: nat, q: nat, v: Word)
    requires q < 6 && 6 * j + q < KeyLen
  {
    if q == 0 || q == 3 then MulW(SubKey(z, NofRound - j, q), v) == 1
    else if q == 4 || q == 5 then v == SubKey(z, NofRound - 1 - j, q)
    else if j == 0 || j == NofRound then v == AddInv(SubKey(z, NofRound - j, q))
    else v == AddInv(SubKey(z, NofRound - j, 3 - q))
  }

  /** d decrypts what z encrypts: every sub-key of d is its inverse entry. */
  predicate IsInverseSchedule(z: Schedule, d: Schedule)
  {
    forall j: nat, q: nat {:trigger SubKey(d, j, q)} | j <= NofRound && q < 6 && 6 * j + q < KeyLen ::
      InverseEntry(z, j, q, SubKey(d, j, q))
  }

  // ---------------------------------------------------------------------
  // Properties

  /** The multiply-add structure is an involution. */
  lemma MulAddInvolution(s: Block, k4: Word, k5: Word)
    ensures MulAdd(MulAdd(s, k4, k5), k4, k5) == s
  {
    var t0 := MulW(k4, Xor(s.x0, s.x2));
    var t1 := MulW(k5, AddW(Xor(s.x1, s.x3), t0));
    var u := AddW(t0, t1);
    XorCancel(s.x0, s.x2, t1);
    XorCancel(s.x1, s.x3, u);
    XorInvolution(s.x0, t1);
    XorInvolution(s.x1, u);
    XorInvolution(s.x2, t1);
    XorInvolution(s.x3, u);
  }

  /**
   * The four keys e[k .. k + 4] undo key mixing with z[i .. i + 4]; when
   * swapped, the two additive keys are exchanged because the middle words
   * are swapped between the two mixings.
   */
  predicate MixInverse(z: Schedule, i: nat, e: Schedule, k: nat, swapped: bool)
    requires i + 4 <= KeyLen && k + 4 <= KeyLen
  {
    && MulW(z[i], e[k]) == 1
    && MulW(z[i + 3], e[k + 3]) == 1
    && e[k + 1] == AddInv(z[if swapped then i + 2 else i + 1])
    && e[k + 2] == AddInv(z[if swapped then i + 1 else i + 2])
  }

  /** Key mixing with z[i ..] is undone by key mixing with the inverse keys in e[k ..]. */
  lemma KeyMixCancel(s: Block, z: Schedule, i: nat, e: Schedule, k: nat)
    requires i + 4 <= KeyLen && k + 4 <= KeyLen && MixInverse(z, i, e, k, false)
    ensures KeyMix(KeyMix(s, z, i), e, k) == s
  {
    MulWCancel(s.x0, z[i], e[k]);
    MulWCancel(s.x3, z[i + 3], e[k + 3]);
    AddWCancel(s.x1, z[i + 1]);
    AddWCancel(s.x2, z[i + 2]);
  }

  /**
   * The same with the middle words swapped between the two mixings and the
   * two additive keys exchanged accordingly.
   */
  lemma KeyMixSwapCancel(s: Block, z: Schedule, i: nat, e: Schedule, k: nat)
    requires i + 4 <= KeyLen && k + 4 <= KeyLen && MixInverse(z, i, e, k, true)
    ensures KeyMix(Swap(KeyMix(s, z, i)), e, k) == Swap(s)
  {
    MulWCancel(s.x0, z[i], e[k]);
    MulWCancel(s.x3, z[i + 3], e[k + 3]);
    AddWCancel(s.x1, z[i + 1]);
    AddWCancel(s.x2, z[i + 2]);
  }

  /**
   * Group j of an inverse schedule, unpacked: its first four keys undo the
   * key mixing of group 8 - j (swapped for the inner groups), and its two
   * multiply-add keys are those of encryption round 7 - j.
   */
  lemma InverseGroup(z: Schedule, d: Schedule, j: nat)
    requires IsInverseSchedule(z, d) && j <= NofRound
    ensures MixInverse(z, 6 * (NofRound - j), d, 6 * j, 0 < j < NofRound)
    ensures j < NofRound ==>
      d[6 * j + 4] == z[6 * (NofRound - 1 - j) + 4] && d[6 * j + 5] == z[6 * (NofRound - 1 - j) + 5]
  {
    assert InverseEntry(z, j, 0, SubKey(d, j, 0));
    assert InverseEntry(z, j, 1, SubKey(d, j, 1));
    assert InverseEntry(z, j, 2, SubKey(d, j, 2));
    assert InverseEntry(z, j, 3, SubKey(d, j, 3));
    if j < NofRound {
      assert InverseEntry(z, j, 4, SubKey(d, j, 4));
      assert InverseEntry(z, j, 5, SubKey(d, j, 5));
    }
  }

  /**
   * A decryption round whose key mixing yields the multiply-add output of
   * the encryption round, and whose multiply-add keys are that round's,
   * ends on the swapped input of the encryption round's multiply-add.
   */
  lemma UndoRound(prev: Block, d: Schedule, jj: nat, mixed: Block, k4: Word, k5: Word)
    requires jj < NofRound
    requires KeyMix(prev, d, 6 * jj) == MulAdd(mixed, k4, k5)
    requires d[6 * jj + 4] == k4 && d[6 * jj + 5] == k5
    ensures Round(prev, d, jj) == Swap(mixed)
  {
    MulAddInvolution(mixed, k4, k5);
  }

  /** The state of encryption after n rounds and the key mixing of round n, swapped. */
  function Mixed(s: Block, z: Schedule, n: nat): Block
    requires n <= NofRound
  {
    Swap(KeyMix(Rounds(s, z, n), z, 6 * n))
  }

  /**
   * The key mixing of decryption round 0 undoes the output transform of
   * encryption.
   */
  lemma DecryptOutput(z: Schedule, d: Schedule, s: Block)
    requires IsInverseSchedule(z, d)
    ensures KeyMix(Crypt(z, s), d, 0) == Swap(Rounds(s, z, NofRound))
  {
    InverseGroup(z, d, 0);
    KeyMixCancel(Swap(Rounds(s, z, NofRound)), z, 6 * NofRound, d, 0);
  }

  /**
   * The key mixing of decryption round jj > 0 undoes the key mixing of
   * encryption round 8 - jj.
   */
  lemma DecryptMix(z: Schedule, d: Schedule, s: Block, jj: nat, prev: Block)
    requires IsInverseSchedule(z, d) && 0 < jj < NofRound
    requires prev == Mixed(s, z, NofRound - jj)
    ensures KeyMix(prev, d, 6 * jj) == Swap(Rounds(s, z, NofRound - jj))
  {
    InverseGroup(z, d, jj);
    KeyMixSwapCancel(Rounds(s, z, NofRound - jj), z, 6 * (NofRound - jj), d, 6 * jj);
  }

  /**
   * A decryption round jj whose key mixing recovers the state after
   * encryption round 8 - jj ends on the key-mixed, swapped state of the
   * encryption round before it.
   */
  lemma DecryptStep(z: Schedule, d: Schedule, s: Block, jj: nat, prev: Block)
    requires IsInverseSchedule(z, d) && jj < NofRound
    requires KeyMix(prev, d, 6 * jj) == Swap(Rounds(s, z, NofRound - jj))
    ensures Round(prev, d, jj) == Mixed(s, z, NofRound - jj - 1)
  {
    var r := NofRound - jj - 1;
    var mixed := KeyMix(Rounds(s, z, r), z, 6 * r);
    assert Rounds(s, z, r + 1) == Swap(MulAdd(mixed, z[6 * r + 4], z[6 * r + 5]));
    InverseGroup(z, d, jj);
    UndoRound(prev, d, jj, mixed, z[6 * r + 4], z[6 * r + 5]);
    assert Mixed(s, z, r) == Swap(mixed);
  }

  /**
   * Running j rounds under the inverse schedule d on a block c whose first
   * key mixing undoes the output transform of encryption of s (the
   * ciphertext of s) retraces encryption backwards: the state is the
   * key-mixed input of encryption round 8 - j, swapped.
   */
  lemma {:induction false} DecryptRetraces(z: Schedule, d: Schedule, s: Block, c: Block, j: nat)
    requires IsInverseSchedule(z, d) && 0 < j <= NofRound
    requires KeyMix(c, d, 0) == Swap(Rounds(s, z, NofRound))
    ensures Rounds(c, d, j) == Mixed(s, z, NofRound - j)
  {
    var prev := Rounds(c, d, j - 1);
    if j > 1 {
      DecryptRetraces(z, d, s, c, j - 1);
      DecryptMix(z, d, s, j - 1, prev);
    }
    DecryptStep(z, d, s, j - 1, prev);
  }

  /** Decryption under an inverse schedule undoes encryption. */
  lemma DecryptEncrypt(z: Schedule, d: Schedule, s: Block)
    requires IsInverseSchedule(z, d)
    ensures Crypt(d, Crypt(z, s)) == s
  {
    var c := Crypt(z, s);
    DecryptOutput(z, d, s);
    DecryptRetraces(z, d, s, c, NofRound);
    InverseGroup(z, d, NofRound);
    KeyMixCancel(s, z, 0, d, 6 * NofRound);
  }

  /**
   * Inversion is symmetric: if d is an inverse schedule of z, z is one of d
   * (a decryption key inverts to an encryption key).
   */
  lemma InverseSymmetric(z: Schedule, d: Schedule)
    requires IsInverseSchedule(z, d)
    ensures IsInverseSchedule(d, z)
  {
    forall j: nat, q: nat | j <= NofRound && q < 6 && 6 * j + q < KeyLen
      ensures InverseEntry(d, j, q, SubKey(z, j, q))
    {
      var j' := if q < 4 then NofRound - j else NofRound - 1 - j;
      assert InverseEntry(z, j', q, SubKey(d, j', q));
      if q == 0 || q == 3 {
        MulWComm(SubKey(z, j, q), SubKey(d, j', q));
      } else if q == 1 || q == 2 {
        AddInvInvolution(SubKey(z, j, q));
        AddInvInvolution(SubKey(z, j, 3 - q));
      }
    }
  }

  /** A schedule has only one inverse schedule. */
  lemma InverseUnique(z: Schedule, d: Schedule, e: Schedule)
    requires IsInverseSchedule(z, d) && IsInverseSchedule(z, e)
    ensures d == e
  {
    forall p | 0 <= p < KeyLen
      ensures d[p] == e[p]
    {
      var j, q := p / 6, p % 6;
      assert InverseEntry(z, j, q, SubKey(d, j, q)) && InverseEntry(z, j, q, SubKey(e, j, q));
      if q == 0 || q == 3 {
        MulInverseUnique(SubKey(z, NofRound - j, q), d[p], e[p]);
      }
    }
  }

  /** Inverting the inverse gives the original schedule back. */
  lemma InverseInverse(z: Schedule, d: Schedule, e: Schedule)
    requires IsInverseSchedule(z, d) && IsInverseSchedule(d, e)
    ensures e == z
  {
    InverseSymmetric(z, d);
    InverseUnique(d, e, z);
  }
}
