/**
 * The known answer of the IDEA self test, evaluated on the model: the
 * schedule of the test key, each of the eight rounds on the test block and
 * the output transform.
 *
 * The constants reach the recursive functions only through lemma
 * parameters bound by `requires x == constant`: a literal argument makes
 * the verifier unfold Xor and KeyWord to every depth at once, while a
 * parameter equal to a literal is unfolded only as far as the asserted
 * steps ask. For the same reason each exclusive or of two constants is
 * a lemma of its own (RoundrXor02 .. RoundrOut3, evaluated from the top
 * bit down), and so is each product (RoundrMul4, RoundrMul5): evaluated
 * together, in one round lemma, they exhaust the solver.
 */
module IdeaKnownAnswer {
  import opened Bits
  import opened IdeaArith
  import opened IdeaSpec

  /** The test key bytes 10, 12, .., 40 read as little-endian words. */
  const KnownUserKey: seq<Word> := [0x0c0a, 0x100e, 0x1412, 0x1816, 0x1c1a, 0x201e, 0x2422, 0x2826]
  /** The test block, bytes 0 .. 7. */
  const KnownPlain: Block := Block(0x0100, 0x0302, 0x0504, 0x0706)
  /** The expected cipher block, bytes 32 23 ed c0 f3 3b a0 78. */
  const KnownCipher: Block := Block(0x2332, 0xc0ed, 0x3bf3, 0x78a0)

  /** Block k of the schedule of the test key (seven blocks of eight words). */
  function KnownKeyBlock(k: nat): (b: seq<Word>)
    requires k < 7
    ensures |b| == UserKeyLen
  {
    if k == 0 then [0x0c0a, 0x100e, 0x1412, 0x1816, 0x1c1a, 0x201e, 0x2422, 0x2826]
    else if k == 1 then [0x1c28, 0x2430, 0x2c38, 0x3440, 0x3c48, 0x4450, 0x4c18, 0x1420]
    else if k == 2 then [0x6058, 0x7068, 0x8078, 0x9088, 0xa098, 0x3028, 0x4038, 0x5048]
    else if k == 3 then [0xd100, 0xf121, 0x1141, 0x3060, 0x5080, 0x70a0, 0x90c0, 0xb0e0]
    else if k == 4 then [0x4222, 0x8260, 0xc0a1, 0x00e1, 0x4121, 0x8161, 0xc1a2, 0x01e2]
    else if k == 5 then [0xc181, 0x4201, 0xc282, 0x4302, 0xc383, 0x4403, 0xc484, 0x4504]
    else [0x0385, 0x0486, 0x0587, 0x0688, 0x0789, 0x088a, 0x0983, 0x0284]
  }

  /** Each block of the table is the previous one rotated left by 25 bits, word by word. */
  lemma KnownKeyTable(k: nat, m: nat)
    requires 1 <= k < 7 && m < 8
    ensures KnownKeyBlock(k)[m] == Splice(KnownKeyBlock(k - 1)[(m + 1) % 8], KnownKeyBlock(k - 1)[(m + 2) % 8])
  {
    if k == 1 {
      KnownKeyTable1(m);
    } else if k == 2 {
      KnownKeyTable2(m);
    } else if k == 3 {
      KnownKeyTable3(m);
    } else if k == 4 {
      KnownKeyTable4(m);
    } else if k == 5 {
      KnownKeyTable5(m);
    } else {
      KnownKeyTable6(m);
    }
  }

  /** Block 1 of the table from block 0. */
  lemma KnownKeyTable1(m: nat)
    requires m < 8
    ensures KnownKeyBlock(1)[m] == Splice(KnownKeyBlock(0)[(m + 1) % 8], KnownKeyBlock(0)[(m + 2) % 8])
  {
    var prev, next := KnownKeyBlock(0), KnownKeyBlock(1);
    if m == 0 {
      assert (m + 1) % 8 == 1 && (m + 2) % 8 == 2;
      assert next[0] == Splice(prev[1], prev[2]);
    } else if m == 1 {
      assert (m + 1) % 8 == 2 && (m + 2) % 8 == 3;
      assert next[1] == Splice(prev[2], prev[3]);
    } else if m == 2 {
      assert (m + 1) % 8 == 3 && (m + 2) % 8 == 4;
      assert next[2] == Splice(prev[3], prev[4]);
    } else if m == 3 {
      assert (m + 1) % 8 == 4 && (m + 2) % 8 == 5;
      assert next[3] == Splice(prev[4], prev[5]);
    } else if m == 4 {
      assert (m + 1) % 8 == 5 && (m + 2) % 8 == 6;
      assert next[4] == Splice(prev[5], prev[6]);
    } else if m == 5 {
      assert (m + 1) % 8 == 6 && (m + 2) % 8 == 7;
      assert next[5] == Splice(prev[6], prev[7]);
    } else if m == 6 {
      assert (m + 1) % 8 == 7 && (m + 2) % 8 == 0;
      assert next[6] == Splice(prev[7], prev[0]);
    } else {
      assert (m + 1) % 8 == 0 && (m + 2) % 8 == 1;
      assert next[7] == Splice(prev[0], prev[1]);
    }
  }

  /** Block 2 of the table from block 1. */
  lemma KnownKeyTable2(m: nat)
    requires m < 8
    ensures KnownKeyBlock(2)[m] == Splice(KnownKeyBlock(1)[(m + 1) % 8], KnownKeyBlock(1)[(m + 2) % 8])
  {
    var prev, next := KnownKeyBlock(1), KnownKeyBlock(2);
    if m == 0 {
      assert (m + 1) % 8 == 1 && (m + 2) % 8 == 2;
      assert next[0] == Splice(prev[1], prev[2]);
    } else if m == 1 {
      assert (m + 1) % 8 == 2 && (m + 2) % 8 == 3;
      assert next[1] == Splice(prev[2], prev[3]);
    } else if m == 2 {
      assert (m + 1) % 8 == 3 && (m + 2) % 8 == 4;
      assert next[2] == Splice(prev[3], prev[4]);
    } else if m == 3 {
      assert (m + 1) % 8 == 4 && (m + 2) % 8 == 5;
      assert next[3] == Splice(prev[4], prev[5]);
    } else if m == 4 {
      assert (m + 1) % 8 == 5 && (m + 2) % 8 == 6;
      assert next[4] == Splice(prev[5], prev[6]);
    } else if m == 5 {
      assert (m + 1) % 8 == 6 && (m + 2) % 8 == 7;
      assert next[5] == Splice(prev[6], prev[7]);
    } else if m == 6 {
      assert (m + 1) % 8 == 7 && (m + 2) % 8 == 0;
      assert next[6] == Splice(prev[7], prev[0]);
    } else {
      assert (m + 1) % 8 == 0 && (m + 2) % 8 == 1;
      assert next[7] == Splice(prev[0], prev[1]);
    }
  }

  /** Block 3 of the table from block 2. */
  lemma KnownKeyTable3(m: nat)
    requires m < 8
    ensures KnownKeyBlock(3)[m] == Splice(KnownKeyBlock(2)[(m + 1) % 8], KnownKeyBlock(2)[(m + 2) % 8])
  {
    var prev, next := KnownKeyBlock(2), KnownKeyBlock(3);
    if m == 0 {
      assert (m + 1) % 8 == 1 && (m + 2) % 8 == 2;
      assert next[0] == Splice(prev[1], prev[2]);
    } else if m == 1 {
      assert (m + 1) % 8 == 2 && (m + 2) % 8 == 3;
      assert next[1] == Splice(prev[2], prev[3]);
    } else if m == 2 {
      assert (m + 1) % 8 == 3 && (m + 2) % 8 == 4;
      assert next[2] == Splice(prev[3], prev[4]);
    } else if m == 3 {
      assert (m + 1) % 8 == 4 && (m + 2) % 8 == 5;
      assert next[3] == Splice(prev[4], prev[5]);
    } else if m == 4 {
      assert (m + 1) % 8 == 5 && (m + 2) % 8 == 6;
      assert next[4] == Splice(prev[5], prev[6]);
    } else if m == 5 {
      assert (m + 1) % 8 == 6 && (m + 2) % 8 == 7;
      assert next[5] == Splice(prev[6], prev[7]);
    } else if m == 6 {
      assert (m + 1) % 8 == 7 && (m + 2) % 8 == 0;
      assert next[6] == Splice(prev[7], prev[0]);
    } else {
      assert (m + 1) % 8 == 0 && (m + 2) % 8 == 1;
      assert next[7] == Splice(prev[0], prev[1]);
    }
  }

  /** Block 4 of the table from block 3. */
  lemma KnownKeyTable4(m: nat)
    requires m < 8
    ensures KnownKeyBlock(4)[m] == Splice(KnownKeyBlock(3)[(m + 1) % 8], KnownKeyBlock(3)[(m + 2) % 8])
  {
    var prev, next := KnownKeyBlock(3), KnownKeyBlock(4);
    if m == 0 {
      assert (m + 1) % 8 == 1 && (m + 2) % 8 == 2;
      assert next[0] == Splice(prev[1], prev[2]);
    } else if m == 1 {
      assert (m + 1) % 8 == 2 && (m + 2) % 8 == 3;
      assert next[1] == Splice(prev[2], prev[3]);
    } else if m == 2 {
      assert (m + 1) % 8 == 3 && (m + 2) % 8 == 4;
      assert next[2] == Splice(prev[3], prev[4]);
    } else if m == 3 {
      assert (m + 1) % 8 == 4 && (m + 2) % 8 == 5;
      assert next[3] == Splice(prev[4], prev[5]);
    } else if m == 4 {
      assert (m + 1) % 8 == 5 && (m + 2) % 8 == 6;
      assert next[4] == Splice(prev[5], prev[6]);
    } else if m == 5 {
      assert (m + 1) % 8 == 6 && (m + 2) % 8 == 7;
      assert next[5] == Splice(prev[6], prev[7]);
    } else if m == 6 {
      assert (m + 1) % 8 == 7 && (m + 2) % 8 == 0;
      assert next[6] == Splice(prev[7], prev[0]);
    } else {
      assert (m + 1) % 8 == 0 && (m + 2) % 8 == 1;
      assert next[7] == Splice(prev[0], prev[1]);
    }
  }

  /** Block 5 of the table from block 4. */
  lemma KnownKeyTable5(m: nat)
    requires m < 8
    ensures KnownKeyBlock(5)[m] == Splice(KnownKeyBlock(4)[(m + 1) % 8], KnownKeyBlock(4)[(m + 2) % 8])
  {
    var prev, next := KnownKeyBlock(4), KnownKeyBlock(5);
    if m == 0 {
      assert (m + 1) % 8 == 1 && (m + 2) % 8 == 2;
      assert next[0] == Splice(prev[1], prev[2]);
    } else if m == 1 {
      assert (m + 1) % 8 == 2 && (m + 2) % 8 == 3;
      assert next[1] == Splice(prev[2], prev[3]);
    } else if m == 2 {
      assert (m + 1) % 8 == 3 && (m + 2) % 8 == 4;
      assert next[2] == Splice(prev[3], prev[4]);
    } else if m == 3 {
      assert (m + 1) % 8 == 4 && (m + 2) % 8 == 5;
      assert next[3] == Splice(prev[4], prev[5]);
    } else if m == 4 {
      assert (m + 1) % 8 == 5 && (m + 2) % 8 == 6;
      assert next[4] == Splice(prev[5], prev[6]);
    } else if m == 5 {
      assert (m + 1) % 8 == 6 && (m + 2) % 8 == 7;
      assert next[5] == Splice(prev[6], prev[7]);
    } else if m == 6 {
      assert (m + 1) % 8 == 7 && (m + 2) % 8 == 0;
      assert next[6] == Splice(prev[7], prev[0]);
    } else {
      assert (m + 1) % 8 == 0 && (m + 2) % 8 == 1;
      assert next[7] == Splice(prev[0], prev[1]);
    }
  }

  /** Block 6 of the table from block 5. */
  lemma KnownKeyTable6(m: nat)
    requires m < 8
    ensures KnownKeyBlock(6)[m] == Splice(KnownKeyBlock(5)[(m + 1) % 8], KnownKeyBlock(5)[(m + 2) % 8])
  {
    var prev, next := KnownKeyBlock(5), KnownKeyBlock(6);
    if m == 0 {
      assert (m + 1) % 8 == 1 && (m + 2) % 8 == 2;
      assert next[0] == Splice(prev[1], prev[2]);
    } else if m == 1 {
      assert (m + 1) % 8 == 2 && (m + 2) % 8 == 3;
      assert next[1] == Splice(prev[2], prev[3]);
    } else if m == 2 {
      assert (m + 1) % 8 == 3 && (m + 2) % 8 == 4;
      assert next[2] == Splice(prev[3], prev[4]);
    } else if m == 3 {
      assert (m + 1) % 8 == 4 && (m + 2) % 8 == 5;
      assert next[3] == Splice(prev[4], prev[5]);
    } else if m == 4 {
      assert (m + 1) % 8 == 5 && (m + 2) % 8 == 6;
      assert next[4] == Splice(prev[5], prev[6]);
    } else if m == 5 {
      assert (m + 1) % 8 == 6 && (m + 2) % 8 == 7;
      assert next[5] == Splice(prev[6], prev[7]);
    } else if m == 6 {
      assert (m + 1) % 8 == 7 && (m + 2) % 8 == 0;
      assert next[6] == Splice(prev[7], prev[0]);
    } else {
      assert (m + 1) % 8 == 0 && (m + 2) % 8 == 1;
      assert next[7] == Splice(prev[0], prev[1]);
    }
  }

  /** The words of the schedule of the test key are those of the table. */
  lemma {:induction false} KnownKeyWord(u: UserKey, k: nat, m: nat)
    requires u == KnownUserKey && k < 7 && m < 8
    ensures KeyWord(u, k, m) == KnownKeyBlock(k)[m]
    decreases k
  {
    if k == 0 {
      assert KnownKeyBlock(0) == KnownUserKey;
    } else {
      KnownKeyWord(u, k - 1, (m + 1) % 8);
      KnownKeyWord(u, k - 1, (m + 2) % 8);
      KnownKeyTable(k, m);
    }
  }

  /** The encryption schedule of the test key. */
  lemma KnownSchedule(u: UserKey)
    requires u == KnownUserKey
    ensures KnownTable(ExpandKey(u))
  {
    forall i | 0 <= i < KeyLen
      ensures ExpandKey(u)[i] == KnownKeyBlock(i / 8)[i % 8]
    {
      ExpandKeyAt(u, i, i / 8, i % 8);
      KnownKeyWord(u, i / 8, i % 8);
    }
  }

  /** The schedule z is that of the test key, as the table gives it. */
  predicate KnownTable(z: Schedule)
  {
    forall i | 0 <= i < KeyLen :: z[i] == KnownKeyBlock(i / 8)[i % 8]
  }

  /** The sub-keys of round 0 of the test key. */
  lemma KnownKeys0(z: Schedule)
    requires KnownTable(z)
    ensures z[0] == 0x0c0a && z[1] == 0x100e && z[2] == 0x1412 && z[3] == 0x1816 && z[4] == 0x1c1a && z[5] == 0x201e
  {
    assert z[0] == KnownKeyBlock(0)[0];
    assert z[1] == KnownKeyBlock(0)[1];
    assert z[2] == KnownKeyBlock(0)[2];
    assert z[3] == KnownKeyBlock(0)[3];
    assert z[4] == KnownKeyBlock(0)[4];
    assert z[5] == KnownKeyBlock(0)[5];
  }

  /** The sub-keys of round 1 of the test key. */
  lemma KnownKeys1(z: Schedule)
    requires KnownTable(z)
    ensures z[6] == 0x2422 && z[7] == 0x2826 && z[8] == 0x1c28 && z[9] == 0x2430 && z[10] == 0x2c38 && z[11] == 0x3440
  {
    assert z[6] == KnownKeyBlock(0)[6];
    assert z[7] == KnownKeyBlock(0)[7];
    assert z[8] == KnownKeyBlock(1)[0];
    assert z[9] == KnownKeyBlock(1)[1];
    assert z[10] == KnownKeyBlock(1)[2];
    assert z[11] == KnownKeyBlock(1)[3];
  }

  /** The sub-keys of round 2 of the test key. */
  lemma KnownKeys2(z: Schedule)
    requires KnownTable(z)
    ensures z[12] == 0x3c48 && z[13] == 0x4450 && z[14] == 0x4c18 && z[15] == 0x1420 && z[16] == 0x6058 && z[17] == 0x7068
  {
    assert z[12] == KnownKeyBlock(1)[4];
    assert z[13] == KnownKeyBlock(1)[5];
    assert z[14] == KnownKeyBlock(1)[6];
    assert z[15] == KnownKeyBlock(1)[7];
    assert z[16] == KnownKeyBlock(2)[0];
    assert z[17] == KnownKeyBlock(2)[1];
  }

  /** The sub-keys of round 3 of the test key. */
  lemma KnownKeys3(z: Schedule)
    requires KnownTable(z)
    ensures z[18] == 0x8078 && z[19] == 0x9088 && z[20] == 0xa098 && z[21] == 0x3028 && z[22] == 0x4038 && z[23] == 0x5048
  {
    assert z[18] == KnownKeyBlock(2)[2];
    assert z[19] == KnownKeyBlock(2)[3];
    assert z[20] == KnownKeyBlock(2)[4];
    assert z[21] == KnownKeyBlock(2)[5];
    assert z[22] == KnownKeyBlock(2)[6];
    assert z[23] == KnownKeyBlock(2)[7];
  }

  /** The sub-keys of round 4 of the test key. */
  lemma KnownKeys4(z: Schedule)
    requires KnownTable(z)
    ensures z[24] == 0xd100 && z[25] == 0xf121 && z[26] == 0x1141 && z[27] == 0x3060 && z[28] == 0x5080 && z[29] == 0x70a0
  {
    assert z[24] == KnownKeyBlock(3)[0];
    assert z[25] == KnownKeyBlock(3)[1];
    assert z[26] == KnownKeyBlock(3)[2];
    assert z[27] == KnownKeyBlock(3)[3];
    assert z[28] == KnownKeyBlock(3)[4];
    assert z[29] == KnownKeyBlock(3)[5];
  }

  /** The sub-keys of round 5 of the test key. */
  lemma KnownKeys5(z: Schedule)
    requires KnownTable(z)
    ensures z[30] == 0x90c0 && z[31] == 0xb0e0 && z[32] == 0x4222 && z[33] == 0x8260 && z[34] == 0xc0a1 && z[35] == 0x00e1
  {
    assert z[30] == KnownKeyBlock(3)[6];
    assert z[31] == KnownKeyBlock(3)[7];
    assert z[32] == KnownKeyBlock(4)[0];
    assert z[33] == KnownKeyBlock(4)[1];
    assert z[34] == KnownKeyBlock(4)[2];
    assert z[35] == KnownKeyBlock(4)[3];
  }

  /** The sub-keys of round 6 of the test key. */
  lemma KnownKeys6(z: Schedule)
    requires KnownTable(z)
    ensures z[36] == 0x4121 && z[37] == 0x8161 && z[38] == 0xc1a2 && z[39] == 0x01e2 && z[40] == 0xc181 && z[41] == 0x4201
  {
    assert z[36] == KnownKeyBlock(4)[4];
    assert z[37] == KnownKeyBlock(4)[5];
    assert z[38] == KnownKeyBlock(4)[6];
    assert z[39] == KnownKeyBlock(4)[7];
    assert z[40] == KnownKeyBlock(5)[0];
    assert z[41] == KnownKeyBlock(5)[1];
  }

  /** The sub-keys of round 7 of the test key. */
  lemma KnownKeys7(z: Schedule)
    requires KnownTable(z)
    ensures z[42] == 0xc282 && z[43] == 0x4302 && z[44] == 0xc383 && z[45] == 0x4403 && z[46] == 0xc484 && z[47] == 0x4504
  {
    assert z[42] == KnownKeyBlock(5)[2];
    assert z[43] == KnownKeyBlock(5)[3];
    assert z[44] == KnownKeyBlock(5)[4];
    assert z[45] == KnownKeyBlock(5)[5];
    assert z[46] == KnownKeyBlock(5)[6];
    assert z[47] == KnownKeyBlock(5)[7];
  }

  /** The sub-keys of the output transform of the test key. */
  lemma KnownKeys8(z: Schedule)
    requires KnownTable(z)
    ensures z[48] == 0x0385 && z[49] == 0x0486 && z[50] == 0x0587 && z[51] == 0x0688
  {
    assert z[48] == KnownKeyBlock(6)[0];
    assert z[49] == KnownKeyBlock(6)[1];
    assert z[50] == KnownKeyBlock(6)[2];
    assert z[51] == KnownKeyBlock(6)[3];
  }

  /** The self test's block under the self test's key. */
  lemma KnownAnswer(u: UserKey, p: Block)
    requires u == KnownUserKey && p == KnownPlain
    ensures Crypt(ExpandKey(u), p) == KnownCipher
  {
    KnownSchedule(u);
    KnownCrypt(ExpandKey(u));
  }

  /** The test block under the schedule of the table. */
  lemma KnownCrypt(z: Schedule)
    requires KnownTable(z)
    ensures Crypt(z, KnownPlain) == KnownCipher
  {
    KnownKeys0(z);
    KnownRound0(z, Block(0x0100, 0x0302, 0x0504, 0x0706));
    assert Rounds(KnownPlain, z, 1) == Block(0x3e32, 0x2ed0, 0xb7f0, 0x8d3b);
    KnownKeys1(z);
    KnownRound1(z, Block(0x3e32, 0x2ed0, 0xb7f0, 0x8d3b));
    assert Rounds(KnownPlain, z, 2) == Block(0x2a7f, 0xbfba, 0xa62a, 0x43c6);
    KnownKeys2(z);
    KnownRound2(z, Block(0x2a7f, 0xbfba, 0xa62a, 0x43c6));
    assert Rounds(KnownPlain, z, 3) == Block(0xbe1c, 0xe1e9, 0xcfcd, 0x20aa);
    KnownKeys3(z);
    KnownRound3(z, Block(0xbe1c, 0xe1e9, 0xcfcd, 0x20aa));
    assert Rounds(KnownPlain, z, 4) == Block(0x4c07, 0x81d8, 0xf490, 0x728d);
    KnownKeys4(z);
    KnownRound4(z, Block(0x4c07, 0x81d8, 0xf490, 0x728d));
    assert Rounds(KnownPlain, z, 5) == Block(0xbbd6, 0xc6e8, 0xe821, 0xd5e3);
    KnownKeys5(z);
    KnownRound5(z, Block(0xbbd6, 0xc6e8, 0xe821, 0xd5e3));
    assert Rounds(KnownPlain, z, 6) == Block(0xdc63, 0x206c, 0x663d, 0x1fc6);
    KnownKeys6(z);
    KnownRound6(z, Block(0xdc63, 0x206c, 0x663d, 0x1fc6));
    assert Rounds(KnownPlain, z, 7) == Block(0xd522, 0xa14f, 0xa7b0, 0xd4ec);
    KnownKeys7(z);
    KnownRound7(z, Block(0xd522, 0xa14f, 0xa7b0, 0xd4ec));
    assert Rounds(KnownPlain, z, 8) == Block(0x000a, 0x366c, 0xbc67, 0xae02);
    KnownKeys8(z);
    KnownOutput(z, Block(0x000a, 0x366c, 0xbc67, 0xae02));
  }

  /** Round 0 of the known answer. */
  lemma KnownRound0(z: Schedule, s: Block)
    requires z[0] == 0x0c0a && z[1] == 0x100e && z[2] == 0x1412 && z[3] == 0x1816 && z[4] == 0x1c1a && z[5] == 0x201e
    requires s == Block(0x0100, 0x0302, 0x0504, 0x0706)
    ensures Round(s, z, 0) == Block(0x3e32, 0x2ed0, 0xb7f0, 0x8d3b)
  {
    var y := KeyMix(s, z, 0);
    assert y == Block(0x09f4, 0x1310, 0x1916, 0x29db);
    Round0Xor02(y.x0, y.x2);
    Round0Mul4(z[4], Xor(y.x0, y.x2));
    var t0 := MulW(z[4], Xor(y.x0, y.x2));
    assert t0 == 0x6d1a;
    Round0Xor13(y.x1, y.x3);
    assert AddW(Xor(y.x1, y.x3), t0) == 0xa7e5;
    Round0Mul5(z[5], AddW(Xor(y.x1, y.x3), t0));
    var t1 := MulW(z[5], AddW(Xor(y.x1, y.x3), t0));
    assert t1 == 0x37c6;
    var u := AddW(t0, t1);
    assert u == 0xa4e0;
    Round0Out0(y.x0, t1);
    Round0Out1(y.x1, u);
    Round0Out2(y.x2, t1);
    Round0Out3(y.x3, u);
  }

  /** Round 1 of the known answer. */
  lemma KnownRound1(z: Schedule, s: Block)
    requires z[6] == 0x2422 && z[7] == 0x2826 && z[8] == 0x1c28 && z[9] == 0x2430 && z[10] == 0x2c38 && z[11] == 0x3440
    requires s == Block(0x3e32, 0x2ed0, 0xb7f0, 0x8d3b)
    ensures Round(s, z, 1) == Block(0x2a7f, 0xbfba, 0xa62a, 0x43c6)
  {
    var y := KeyMix(s, z, 6);
    assert y == Block(0x41dd, 0x56f6, 0xd418, 0xb31a);
    Round1Xor02(y.x0, y.x2);
    Round1Mul4(z[10], Xor(y.x0, y.x2));
    var t0 := MulW(z[10], Xor(y.x0, y.x2));
    assert t0 == 0x853a;
    Round1Xor13(y.x1, y.x3);
    assert AddW(Xor(y.x1, y.x3), t0) == 0x6b26;
    Round1Mul5(z[11], AddW(Xor(y.x1, y.x3), t0));
    var t1 := MulW(z[11], AddW(Xor(y.x1, y.x3), t0));
    assert t1 == 0x6ba2;
    var u := AddW(t0, t1);
    assert u == 0xf0dc;
    Round1Out0(y.x0, t1);
    Round1Out1(y.x1, u);
    Round1Out2(y.x2, t1);
    Round1Out3(y.x3, u);
  }

  /** Round 2 of the known answer. */
  lemma KnownRound2(z: Schedule, s: Block)
    requires z[12] == 0x3c48 && z[13] == 0x4450 && z[14] == 0x4c18 && z[15] == 0x1420 && z[16] == 0x6058 && z[17] == 0x7068
    requires s == Block(0x2a7f, 0xbfba, 0xa62a, 0x43c6)
    ensures Round(s, z, 2) == Block(0xbe1c, 0xe1e9, 0xcfcd, 0x20aa)
  {
    var y := KeyMix(s, z, 12);
    assert y == Block(0xadb7, 0x040a, 0xf242, 0xeb6d);
    Round2Xor02(y.x0, y.x2);
    Round2Mul4(z[16], Xor(y.x0, y.x2));
    var t0 := MulW(z[16], Xor(y.x0, y.x2));
    assert t0 == 0xb81c;
    Round2Xor13(y.x1, y.x3);
    assert AddW(Xor(y.x1, y.x3), t0) == 0xa783;
    Round2Mul5(z[17], AddW(Xor(y.x1, y.x3), t0));
    var t1 := MulW(z[17], AddW(Xor(y.x1, y.x3), t0));
    assert t1 == 0x13ab;
    var u := AddW(t0, t1);
    assert u == 0xcbc7;
    Round2Out0(y.x0, t1);
    Round2Out1(y.x1, u);
    Round2Out2(y.x2, t1);
    Round2Out3(y.x3, u);
  }

  /** Round 3 of the known answer. */
  lemma KnownRound3(z: Schedule, s: Block)
    requires z[18] == 0x8078 && z[19] == 0x9088 && z[20] == 0xa098 && z[21] == 0x3028 && z[22] == 0x4038 && z[23] == 0x5048
    requires s == Block(0xbe1c, 0xe1e9, 0xcfcd, 0x20aa)
    ensures Round(s, z, 3) == Block(0x4c07, 0x81d8, 0xf490, 0x728d)
  {
    var y := KeyMix(s, z, 18);
    assert y == Block(0xbdba, 0x7271, 0x7065, 0xf46c);
    Round3Xor02(y.x0, y.x2);
    Round3Mul4(z[22], Xor(y.x0, y.x2));
    var t0 := MulW(z[22], Xor(y.x0, y.x2));
    assert t0 == 0x9524;
    Round3Xor13(y.x1, y.x3);
    assert AddW(Xor(y.x1, y.x3), t0) == 0x1b41;
    Round3Mul5(z[23], AddW(Xor(y.x1, y.x3), t0));
    var t1 := MulW(z[23], AddW(Xor(y.x1, y.x3), t0));
    assert t1 == 0xf1bd;
    var u := AddW(t0, t1);
    assert u == 0x86e1;
    Round3Out0(y.x0, t1);
    Round3Out1(y.x1, u);
    Round3Out2(y.x2, t1);
    Round3Out3(y.x3, u);
  }

  /** Round 4 of the known answer. */
  lemma KnownRound4(z: Schedule, s: Block)
    requires z[24] == 0xd100 && z[25] == 0xf121 && z[26] == 0x1141 && z[27] == 0x3060 && z[28] == 0x5080 && z[29] == 0x70a0
    requires s == Block(0x4c07, 0x81d8, 0xf490, 0x728d)
    ensures Round(s, z, 4) == Block(0xbbd6, 0xc6e8, 0xe821, 0xd5e3)
  {
    var y := KeyMix(s, z, 24);
    assert y == Block(0x78ef, 0x72f9, 0x05d1, 0x4f3b);
    Round4Xor02(y.x0, y.x2);
    Round4Mul4(z[28], Xor(y.x0, y.x2));
    var t0 := MulW(z[28], Xor(y.x0, y.x2));
    assert t0 == 0xd79f;
    Round4Xor13(y.x1, y.x3);
    assert AddW(Xor(y.x1, y.x3), t0) == 0x1561;
    Round4Mul5(z[29], AddW(Xor(y.x1, y.x3), t0));
    var t1 := MulW(z[29], AddW(Xor(y.x1, y.x3), t0));
    assert t1 == 0xc339;
    var u := AddW(t0, t1);
    assert u == 0x9ad8;
    Round4Out0(y.x0, t1);
    Round4Out1(y.x1, u);
    Round4Out2(y.x2, t1);
    Round4Out3(y.x3, u);
  }

  /** Round 5 of the known answer. */
  lemma KnownRound5(z: Schedule, s: Block)
    requires z[30] == 0x90c0 && z[31] == 0xb0e0 && z[32] == 0x4222 && z[33] == 0x8260 && z[34] == 0xc0a1 && z[35] == 0x00e1
    requires s == Block(0xbbd6, 0xc6e8, 0xe821, 0xd5e3)
    ensures Round(s, z, 5) == Block(0xdc63, 0x206c, 0x663d, 0x1fc6)
  {
    var y := KeyMix(s, z, 30);
    assert y == Block(0xd64c, 0x77c8, 0x2a43, 0x0e33);
    Round5Xor02(y.x0, y.x2);
    Round5Mul4(z[34], Xor(y.x0, y.x2));
    var t0 := MulW(z[34], Xor(y.x0, y.x2));
    assert t0 == 0x07c6;
    Round5Xor13(y.x1, y.x3);
    assert AddW(Xor(y.x1, y.x3), t0) == 0x81c1;
    Round5Mul5(z[35], AddW(Xor(y.x1, y.x3), t0));
    var t1 := MulW(z[35], AddW(Xor(y.x1, y.x3), t0));
    assert t1 == 0x0a2f;
    var u := AddW(t0, t1);
    assert u == 0x11f5;
    Round5Out0(y.x0, t1);
    Round5Out1(y.x1, u);
    Round5Out2(y.x2, t1);
    Round5Out3(y.x3, u);
  }

  /** Round 6 of the known answer. */
  lemma KnownRound6(z: Schedule, s: Block)
    requires z[36] == 0x4121 && z[37] == 0x8161 && z[38] == 0xc1a2 && z[39] == 0x01e2 && z[40] == 0xc181 && z[41] == 0x4201
    requires s == Block(0xdc63, 0x206c, 0x663d, 0x1fc6)
    ensures Round(s, z, 6) == Block(0xd522, 0xa14f, 0xa7b0, 0xd4ec)
  {
    var y := KeyMix(s, z, 36);
    assert y == Block(0x53b2, 0xa1cd, 0x27df, 0xd291);
    Round6Xor02(y.x0, y.x2);
    Round6Mul4(z[40], Xor(y.x0, y.x2));
    var t0 := MulW(z[40], Xor(y.x0, y.x2));
    assert t0 == 0x7fed;
    Round6Xor13(y.x1, y.x3);
    assert AddW(Xor(y.x1, y.x3), t0) == 0xf349;
    Round6Mul5(z[41], AddW(Xor(y.x1, y.x3), t0));
    var t1 := MulW(z[41], AddW(Xor(y.x1, y.x3), t0));
    assert t1 == 0x8690;
    var u := AddW(t0, t1);
    assert u == 0x067d;
    Round6Out0(y.x0, t1);
    Round6Out1(y.x1, u);
    Round6Out2(y.x2, t1);
    Round6Out3(y.x3, u);
  }

  /** Round 7 of the known answer. */
  lemma KnownRound7(z: Schedule, s: Block)
    requires z[42] == 0xc282 && z[43] == 0x4302 && z[44] == 0xc383 && z[45] == 0x4403 && z[46] == 0xc484 && z[47] == 0x4504
    requires s == Block(0xd522, 0xa14f, 0xa7b0, 0xd4ec)
    ensures Round(s, z, 7) == Block(0x000a, 0x366c, 0xbc67, 0xae02)
  {
    var y := KeyMix(s, z, 42);
    assert y == Block(0x5d55, 0xe451, 0x6b33, 0xf634);
    Round7Xor02(y.x0, y.x2);
    Round7Mul4(z[46], Xor(y.x0, y.x2));
    var t0 := MulW(z[46], Xor(y.x0, y.x2));
    assert t0 == 0xfad7;
    Round7Xor13(y.x1, y.x3);
    assert AddW(Xor(y.x1, y.x3), t0) == 0x0d3c;
    Round7Mul5(z[47], AddW(Xor(y.x1, y.x3), t0));
    var t1 := MulW(z[47], AddW(Xor(y.x1, y.x3), t0));
    assert t1 == 0x5d5f;
    var u := AddW(t0, t1);
    assert u == 0x5836;
    Round7Out0(y.x0, t1);
    Round7Out1(y.x1, u);
    Round7Out2(y.x2, t1);
    Round7Out3(y.x3, u);
  }

  /** The output transform of the known answer. */
  lemma KnownOutput(z: Schedule, s: Block)
    requires z[48] == 0x0385 && z[49] == 0x0486 && z[50] == 0x0587 && z[51] == 0x0688
    requires s == Block(0x000a, 0x366c, 0xbc67, 0xae02)
    ensures Output(s, z) == KnownCipher
  {
    assert KeyMix(Swap(s), z, 48) == Block(0x2332, 0xc0ed, 0x3bf3, 0x78a0);
  }

  lemma Round0Mul4(a: Word, b: Word)
    requires a == 0x1c1a && b == 0x10e2
    ensures MulW(a, b) == 0x6d1a
  {
  }

  lemma Round0Mul5(a: Word, b: Word)
    requires a == 0x201e && b == 0xa7e5
    ensures MulW(a, b) == 0x37c6
  {
  }

  lemma Round1Mul4(a: Word, b: Word)
    requires a == 0x2c38 && b == 0x95c5
    ensures MulW(a, b) == 0x853a
  {
  }

  lemma Round1Mul5(a: Word, b: Word)
    requires a == 0x3440 && b == 0x6b26
    ensures MulW(a, b) == 0x6ba2
  {
  }

  lemma Round2Mul4(a: Word, b: Word)
    requires a == 0x6058 && b == 0x5ff5
    ensures MulW(a, b) == 0xb81c
  {
  }

  lemma Round2Mul5(a: Word, b: Word)
    requires a == 0x7068 && b == 0xa783
    ensures MulW(a, b) == 0x13ab
  {
  }

  lemma Round3Mul4(a: Word, b: Word)
    requires a == 0x4038 && b == 0xcddf
    ensures MulW(a, b) == 0x9524
  {
  }

  lemma Round3Mul5(a: Word, b: Word)
    requires a == 0x5048 && b == 0x1b41
    ensures MulW(a, b) == 0xf1bd
  {
  }

  lemma Round4Mul4(a: Word, b: Word)
    requires a == 0x5080 && b == 0x7d3e
    ensures MulW(a, b) == 0xd79f
  {
  }

  lemma Round4Mul5(a: Word, b: Word)
    requires a == 0x70a0 && b == 0x1561
    ensures MulW(a, b) == 0xc339
  {
  }

  lemma Round5Mul4(a: Word, b: Word)
    requires a == 0xc0a1 && b == 0xfc0f
    ensures MulW(a, b) == 0x07c6
  {
  }

  lemma Round5Mul5(a: Word, b: Word)
    requires a == 0x00e1 && b == 0x81c1
    ensures MulW(a, b) == 0x0a2f
  {
  }

  lemma Round6Mul4(a: Word, b: Word)
    requires a == 0xc181 && b == 0x746d
    ensures MulW(a, b) == 0x7fed
  {
  }

  lemma Round6Mul5(a: Word, b: Word)
    requires a == 0x4201 && b == 0xf349
    ensures MulW(a, b) == 0x8690
  {
  }

  lemma Round7Mul4(a: Word, b: Word)
    requires a == 0xc484 && b == 0x3666
    ensures MulW(a, b) == 0xfad7
  {
  }

  lemma Round7Mul5(a: Word, b: Word)
    requires a == 0x4504 && b == 0x0d3c
    ensures MulW(a, b) == 0x5d5f
  {
  }

  lemma Round0Xor02(a: Word, b: Word)
    requires a == 0x09f4 && b == 0x1916
    ensures Xor(a, b) == 0x10e2
  {
    assert XorLow(a / 32768, b / 32768, 1) == 0;
    assert XorLow(a / 16384, b / 16384, 2) == 0;
    assert XorLow(a / 8192, b / 8192, 3) == 0;
    assert XorLow(a / 4096, b / 4096, 4) == 1;
    assert XorLow(a / 2048, b / 2048, 5) == 2;
    assert XorLow(a / 1024, b / 1024, 6) == 4;
    assert XorLow(a / 512, b / 512, 7) == 8;
    assert XorLow(a / 256, b / 256, 8) == 0x0010;
    assert XorLow(a / 128, b / 128, 9) == 0x0021;
    assert XorLow(a / 64, b / 64, 10) == 0x0043;
    assert XorLow(a / 32, b / 32, 11) == 0x0087;
    assert XorLow(a / 16, b / 16, 12) == 0x010e;
    assert XorLow(a / 8, b / 8, 13) == 0x021c;
    assert XorLow(a / 4, b / 4, 14) == 0x0438;
    assert XorLow(a / 2, b / 2, 15) == 0x0871;
  }

  lemma Round0Xor13(a: Word, b: Word)
    requires a == 0x1310 && b == 0x29db
    ensures Xor(a, b) == 0x3acb
  {
    assert XorLow(a / 32768, b / 32768, 1) == 0;
    assert XorLow(a / 16384, b / 16384, 2) == 0;
    assert XorLow(a / 8192, b / 8192, 3) == 1;
    assert XorLow(a / 4096, b / 4096, 4) == 3;
    assert XorLow(a / 2048, b / 2048, 5) == 7;
    assert XorLow(a / 1024, b / 1024, 6) == 0x000e;
    assert XorLow(a / 512, b / 512, 7) == 0x001d;
    assert XorLow(a / 256, b / 256, 8) == 0x003a;
    assert XorLow(a / 128, b / 128, 9) == 0x0075;
    assert XorLow(a / 64, b / 64, 10) == 0x00eb;
    assert XorLow(a / 32, b / 32, 11) == 0x01d6;
    assert XorLow(a / 16, b / 16, 12) == 0x03ac;
    assert XorLow(a / 8, b / 8, 13) == 0x0759;
    assert XorLow(a / 4, b / 4, 14) == 0x0eb2;
    assert XorLow(a / 2, b / 2, 15) == 0x1d65;
  }

  lemma Round0Out0(a: Word, b: Word)
    requires a == 0x09f4 && b == 0x37c6
    ensures Xor(a, b) == 0x3e32
  {
    assert XorLow(a / 32768, b / 32768, 1) == 0;
    assert XorLow(a / 16384, b / 16384, 2) == 0;
    assert XorLow(a / 8192, b / 8192, 3) == 1;
    assert XorLow(a / 4096, b / 4096, 4) == 3;
    assert XorLow(a / 2048, b / 2048, 5) == 7;
    assert XorLow(a / 1024, b / 1024, 6) == 0x000f;
    assert XorLow(a / 512, b / 512, 7) == 0x001f;
    assert XorLow(a / 256, b / 256, 8) == 0x003e;
    assert XorLow(a / 128, b / 128, 9) == 0x007c;
    assert XorLow(a / 64, b / 64, 10) == 0x00f8;
    assert XorLow(a / 32, b / 32, 11) == 0x01f1;
    assert XorLow(a / 16, b / 16, 12) == 0x03e3;
    assert XorLow(a / 8, b / 8, 13) == 0x07c6;
    assert XorLow(a / 4, b / 4, 14) == 0x0f8c;
    assert XorLow(a / 2, b / 2, 15) == 0x1f19;
  }

  lemma Round0Out1(a: Word, b: Word)
    requires a == 0x1310 && b == 0xa4e0
    ensures Xor(a, b) == 0xb7f0
  {
    assert XorLow(a / 32768, b / 32768, 1) == 1;
    assert XorLow(a / 16384, b / 16384, 2) == 2;
    assert XorLow(a / 8192, b / 8192, 3) == 5;
    assert XorLow(a / 4096, b / 4096, 4) == 0x000b;
    assert XorLow(a / 2048, b / 2048, 5) == 0x0016;
    assert XorLow(a / 1024, b / 1024, 6) == 0x002d;
    assert XorLow(a / 512, b / 512, 7) == 0x005b;
    assert XorLow(a / 256, b / 256, 8) == 0x00b7;
    assert XorLow(a / 128, b / 128, 9) == 0x016f;
    assert XorLow(a / 64, b / 64, 10) == 0x02df;
    assert XorLow(a / 32, b / 32, 11) == 0x05bf;
    assert XorLow(a / 16, b / 16, 12) == 0x0b7f;
    assert XorLow(a / 8, b / 8, 13) == 0x16fe;
    assert XorLow(a / 4, b / 4, 14) == 0x2dfc;
    assert XorLow(a / 2, b / 2, 15) == 0x5bf8;
  }

  lemma Round0Out2(a: Word, b: Word)
    requires a == 0x1916 && b == 0x37c6
    ensures Xor(a, b) == 0x2ed0
  {
    assert XorLow(a / 32768, b / 32768, 1) == 0;
    assert XorLow(a / 16384, b / 16384, 2) == 0;
    assert XorLow(a / 8192, b / 8192, 3) == 1;
    assert XorLow(a / 4096, b / 4096, 4) == 2;
    assert XorLow(a / 2048, b / 2048, 5) == 5;
    assert XorLow(a / 1024, b / 1024, 6) == 0x000b;
    assert XorLow(a / 512, b / 512, 7) == 0x0017;
    assert XorLow(a / 256, b / 256, 8) == 0x002e;
    assert XorLow(a / 128, b / 128, 9) == 0x005d;
    assert XorLow(a / 64, b / 64, 10) == 0x00bb;
    assert XorLow(a / 32, b / 32, 11) == 0x0176;
    assert XorLow(a / 16, b / 16, 12) == 0x02ed;
    assert XorLow(a / 8, b / 8, 13) == 0x05da;
    assert XorLow(a / 4, b / 4, 14) == 0x0bb4;
    assert XorLow(a / 2, b / 2, 15) == 0x1768;
  }

  lemma Round0Out3(a: Word, b: Word)
    requires a == 0x29db && b == 0xa4e0
    ensures Xor(a, b) == 0x8d3b
  {
    assert XorLow(a / 32768, b / 32768, 1) == 1;
    assert XorLow(a / 16384, b / 16384, 2) == 2;
    assert XorLow(a / 8192, b / 8192, 3) == 4;
    assert XorLow(a / 4096, b / 4096, 4) == 8;
    assert XorLow(a / 2048, b / 2048, 5) == 0x0011;
    assert XorLow(a / 1024, b / 1024, 6) == 0x0023;
    assert XorLow(a / 512, b / 512, 7) == 0x0046;
    assert XorLow(a / 256, b / 256, 8) == 0x008d;
    assert XorLow(a / 128, b / 128, 9) == 0x011a;
    assert XorLow(a / 64, b / 64, 10) == 0x0234;
    assert XorLow(a / 32, b / 32, 11) == 0x0469;
    assert XorLow(a / 16, b / 16, 12) == 0x08d3;
    assert XorLow(a / 8, b / 8, 13) == 0x11a7;
    assert XorLow(a / 4, b / 4, 14) == 0x234e;
    assert XorLow(a / 2, b / 2, 15) == 0x469d;
  }

  lemma Round1Xor02(a: Word, b: Word)
    requires a == 0x41dd && b == 0xd418
    ensures Xor(a, b) == 0x95c5
  {
    assert XorLow(a / 32768, b / 32768, 1) == 1;
    assert XorLow(a / 16384, b / 16384, 2) == 2;
    assert XorLow(a / 8192, b / 8192, 3) == 4;
    assert XorLow(a / 4096, b / 4096, 4) == 9;
    assert XorLow(a / 2048, b / 2048, 5) == 0x0012;
    assert XorLow(a / 1024, b / 1024, 6) == 0x0025;
    assert XorLow(a / 512, b / 512, 7) == 0x004a;
    assert XorLow(a / 256, b / 256, 8) == 0x0095;
    assert XorLow(a / 128, b / 128, 9) == 0x012b;
    assert XorLow(a / 64, b / 64, 10) == 0x0257;
    assert XorLow(a / 32, b / 32, 11) == 0x04ae;
    assert XorLow(a / 16, b / 16, 12) == 0x095c;
    assert XorLow(a / 8, b / 8, 13) == 0x12b8;
    assert XorLow(a / 4, b / 4, 14) == 0x2571;
    assert XorLow(a / 2, b / 2, 15) == 0x4ae2;
  }

  lemma Round1Xor13(a: Word, b: Word)
    requires a == 0x56f6 && b == 0xb31a
    ensures Xor(a, b) == 0xe5ec
  {
    assert XorLow(a / 32768, b / 32768, 1) == 1;
    assert XorLow(a / 16384, b / 16384, 2) == 3;
    assert XorLow(a / 8192, b / 8192, 3) == 7;
    assert XorLow(a / 4096, b / 4096, 4) == 0x000e;
    assert XorLow(a / 2048, b / 2048, 5) == 0x001c;
    assert XorLow(a / 1024, b / 1024, 6) == 0x0039;
    assert XorLow(a / 512, b / 512, 7) == 0x0072;
    assert XorLow(a / 256, b / 256, 8) == 0x00e5;
    assert XorLow(a / 128, b / 128, 9) == 0x01cb;
    assert XorLow(a / 64, b / 64, 10) == 0x0397;
    assert XorLow(a / 32, b / 32, 11) == 0x072f;
    assert XorLow(a / 16, b / 16, 12) == 0x0e5e;
    assert XorLow(a / 8, b / 8, 13) == 0x1cbd;
    assert XorLow(a / 4, b / 4, 14) == 0x397b;
    assert XorLow(a / 2, b / 2, 15) == 0x72f6;
  }

  lemma Round1Out0(a: Word, b: Word)
    requires a == 0x41dd && b == 0x6ba2
    ensures Xor(a, b) == 0x2a7f
  {
    assert XorLow(a / 32768, b / 32768, 1) == 0;
    assert XorLow(a / 16384, b / 16384, 2) == 0;
    assert XorLow(a / 8192, b / 8192, 3) == 1;
    assert XorLow(a / 4096, b / 4096, 4) == 2;
    assert XorLow(a / 2048, b / 2048, 5) == 5;
    assert XorLow(a / 1024, b / 1024, 6) == 0x000a;
    assert XorLow(a / 512, b / 512, 7) == 0x0015;
    assert XorLow(a / 256, b / 256, 8) == 0x002a;
    assert XorLow(a / 128, b / 128, 9) == 0x0054;
    assert XorLow(a / 64, b / 64, 10) == 0x00a9;
    assert XorLow(a / 32, b / 32, 11) == 0x0153;
    assert XorLow(a / 16, b / 16, 12) == 0x02a7;
    assert XorLow(a / 8, b / 8, 13) == 0x054f;
    assert XorLow(a / 4, b / 4, 14) == 0x0a9f;
    assert XorLow(a / 2, b / 2, 15) == 0x153f;
  }

  lemma Round1Out1(a: Word, b: Word)
    requires a == 0x56f6 && b == 0xf0dc
    ensures Xor(a, b) == 0xa62a
  {
    assert XorLow(a / 32768, b / 32768, 1) == 1;
    assert XorLow(a / 16384, b / 16384, 2) == 2;
    assert XorLow(a / 8192, b / 8192, 3) == 5;
    assert XorLow(a / 4096, b / 4096, 4) == 0x000a;
    assert XorLow(a / 2048, b / 2048, 5) == 0x0014;
    assert XorLow(a / 1024, b / 1024, 6) == 0x0029;
    assert XorLow(a / 512, b / 512, 7) == 0x0053;
    assert XorLow(a / 256, b / 256, 8) == 0x00a6;
    assert XorLow(a / 128, b / 128, 9) == 0x014c;
    assert XorLow(a / 64, b / 64, 10) == 0x0298;
    assert XorLow(a / 32, b / 32, 11) == 0x0531;
    assert XorLow(a / 16, b / 16, 12) == 0x0a62;
    assert XorLow(a / 8, b / 8, 13) == 0x14c5;
    assert XorLow(a / 4, b / 4, 14) == 0x298a;
    assert XorLow(a / 2, b / 2, 15) == 0x5315;
  }

  lemma Round1Out2(a: Word, b: Word)
    requires a == 0xd418 && b == 0x6ba2
    ensures Xor(a, b) == 0xbfba
  {
    assert XorLow(a / 32768, b / 32768, 1) == 1;
    assert XorLow(a / 16384, b / 16384, 2) == 2;
    assert XorLow(a / 8192, b / 8192, 3) == 5;
    assert XorLow(a / 4096, b / 4096, 4) == 0x000b;
    assert XorLow(a / 2048, b / 2048, 5) == 0x0017;
    assert XorLow(a / 1024, b / 1024, 6) == 0x002f;
    assert XorLow(a / 512, b / 512, 7) == 0x005f;
    assert XorLow(a / 256, b / 256, 8) == 0x00bf;
    assert XorLow(a / 128, b / 128, 9) == 0x017f;
    assert XorLow(a / 64, b / 64, 10) == 0x02fe;
    assert XorLow(a / 32, b / 32, 11) == 0x05fd;
    assert XorLow(a / 16, b / 16, 12) == 0x0bfb;
    assert XorLow(a / 8, b / 8, 13) == 0x17f7;
    assert XorLow(a / 4, b / 4, 14) == 0x2fee;
    assert XorLow(a / 2, b / 2, 15) == 0x5fdd;
  }

  lemma Round1Out3(a: Word, b: Word)
    requires a == 0xb31a && b == 0xf0dc
    ensures Xor(a, b) == 0x43c6
  {
    assert XorLow(a / 32768, b / 32768, 1) == 0;
    assert XorLow(a / 16384, b / 16384, 2) == 1;
    assert XorLow(a / 8192, b / 8192, 3) == 2;
    assert XorLow(a / 4096, b / 4096, 4) == 4;
    assert XorLow(a / 2048, b / 2048, 5) == 8;
    assert XorLow(a / 1024, b / 1024, 6) == 0x0010;
    assert XorLow(a / 512, b / 512, 7) == 0x0021;
    assert XorLow(a / 256, b / 256, 8) == 0x0043;
    assert XorLow(a / 128, b / 128, 9) == 0x0087;
    assert XorLow(a / 64, b / 64, 10) == 0x010f;
    assert XorLow(a / 32, b / 32, 11) == 0x021e;
    assert XorLow(a / 16, b / 16, 12) == 0x043c;
    assert XorLow(a / 8, b / 8, 13) == 0x0878;
    assert XorLow(a / 4, b / 4, 14) == 0x10f1;
    assert XorLow(a / 2, b / 2, 15) == 0x21e3;
  }

  lemma Round2Xor02(a: Word, b: Word)
    requires a == 0xadb7 && b == 0xf242
    ensures Xor(a, b) == 0x5ff5
  {
    assert XorLow(a / 32768, b / 32768, 1) == 0;
    assert XorLow(a / 16384, b / 16384, 2) == 1;
    assert XorLow(a / 8192, b / 8192, 3) == 2;
    assert XorLow(a / 4096, b / 4096, 4) == 5;
    assert XorLow(a / 2048, b / 2048, 5) == 0x000b;
    assert XorLow(a / 1024, b / 1024, 6) == 0x0017;
    assert XorLow(a / 512, b / 512, 7) == 0x002f;
    assert XorLow(a / 256, b / 256, 8) == 0x005f;
    assert XorLow(a / 128, b / 128, 9) == 0x00bf;
    assert XorLow(a / 64, b / 64, 10) == 0x017f;
    assert XorLow(a / 32, b / 32, 11) == 0x02ff;
    assert XorLow(a / 16, b / 16, 12) == 0x05ff;
    assert XorLow(a / 8, b / 8, 13) == 0x0bfe;
    assert XorLow(a / 4, b / 4, 14) == 0x17fd;
    assert XorLow(a / 2, b / 2, 15) == 0x2ffa;
  }

  lemma Round2Xor13(a: Word, b: Word)
    requires a == 0x040a && b == 0xeb6d
    ensures Xor(a, b) == 0xef67
  {
    assert XorLow(a / 32768, b / 32768, 1) == 1;
    assert XorLow(a / 16384, b / 16384, 2) == 3;
    assert XorLow(a / 8192, b / 8192, 3) == 7;
    assert XorLow(a / 4096, b / 4096, 4) == 0x000e;
    assert XorLow(a / 2048, b / 2048, 5) == 0x001d;
    assert XorLow(a / 1024, b / 1024, 6) == 0x003b;
    assert XorLow(a / 512, b / 512, 7) == 0x0077;
    assert XorLow(a / 256, b / 256, 8) == 0x00ef;
    assert XorLow(a / 128, b / 128, 9) == 0x01de;
    assert XorLow(a / 64, b / 64, 10) == 0x03bd;
    assert XorLow(a / 32, b / 32, 11) == 0x077b;
    assert XorLow(a / 16, b / 16, 12) == 0x0ef6;
    assert XorLow(a / 8, b / 8, 13) == 0x1dec;
    assert XorLow(a / 4, b / 4, 14) == 0x3bd9;
    assert XorLow(a / 2, b / 2, 15) == 0x77b3;
  }

  lemma Round2Out0(a: Word, b: Word)
    requires a == 0xadb7 && b == 0x13ab
    ensures Xor(a, b) == 0xbe1c
  {
    assert XorLow(a / 32768, b / 32768, 1) == 1;
    assert XorLow(a / 16384, b / 16384, 2) == 2;
    assert XorLow(a / 8192, b / 8192, 3) == 5;
    assert XorLow(a / 4096, b / 4096, 4) == 0x000b;
    assert XorLow(a / 2048, b / 2048, 5) == 0x0017;
    assert XorLow(a / 1024, b / 1024, 6) == 0x002f;
    assert XorLow(a / 512, b / 512, 7) == 0x005f;
    assert XorLow(a / 256, b / 256, 8) == 0x00be;
    assert XorLow(a / 128, b / 128, 9) == 0x017c;
    assert XorLow(a / 64, b / 64, 10) == 0x02f8;
    assert XorLow(a / 32, b / 32, 11) == 0x05f0;
    assert XorLow(a / 16, b / 16, 12) == 0x0be1;
    assert XorLow(a / 8, b / 8, 13) == 0x17c3;
    assert XorLow(a / 4, b / 4, 14) == 0x2f87;
    assert XorLow(a / 2, b / 2, 15) == 0x5f0e;
  }

  lemma Round2Out1(a: Word, b: Word)
    requires a == 0x040a && b == 0xcbc7
    ensures Xor(a, b) == 0xcfcd
  {
    assert XorLow(a / 32768, b / 32768, 1) == 1;
    assert XorLow(a / 16384, b / 16384, 2) == 3;
    assert XorLow(a / 8192, b / 8192, 3) == 6;
    assert XorLow(a / 4096, b / 4096, 4) == 0x000c;
    assert XorLow(a / 2048, b / 2048, 5) == 0x0019;
    assert XorLow(a / 1024, b / 1024, 6) == 0x0033;
    assert XorLow(a / 512, b / 512, 7) == 0x0067;
    assert XorLow(a / 256, b / 256, 8) == 0x00cf;
    assert XorLow(a / 128, b / 128, 9) == 0x019f;
    assert XorLow(a / 64, b / 64, 10) == 0x033f;
    assert XorLow(a / 32, b / 32, 11) == 0x067e;
    assert XorLow(a / 16, b / 16, 12) == 0x0cfc;
    assert XorLow(a / 8, b / 8, 13) == 0x19f9;
    assert XorLow(a / 4, b / 4, 14) == 0x33f3;
    assert XorLow(a / 2, b / 2, 15) == 0x67e6;
  }

  lemma Round2Out2(a: Word, b: Word)
    requires a == 0xf242 && b == 0x13ab
    ensures Xor(a, b) == 0xe1e9
  {
    assert XorLow(a / 32768, b / 32768, 1) == 1;
    assert XorLow(a / 16384, b / 16384, 2) == 3;
    assert XorLow(a / 8192, b / 8192, 3) == 7;
    assert XorLow(a / 4096, b / 4096, 4) == 0x000e;
    assert XorLow(a / 2048, b / 2048, 5) == 0x001c;
    assert XorLow(a / 1024, b / 1024, 6) == 0x0038;
    assert XorLow(a / 512, b / 512, 7) == 0x0070;
    assert XorLow(a / 256, b / 256, 8) == 0x00e1;
    assert XorLow(a / 128, b / 128, 9) == 0x01c3;
    assert XorLow(a / 64, b / 64, 10) == 0x0387;
    assert XorLow(a / 32, b / 32, 11) == 0x070f;
    assert XorLow(a / 16, b / 16, 12) == 0x0e1e;
    assert XorLow(a / 8, b / 8, 13) == 0x1c3d;
    assert XorLow(a / 4, b / 4, 14) == 0x387a;
    assert XorLow(a / 2, b / 2, 15) == 0x70f4;
  }

  lemma Round2Out3(a: Word, b: Word)
    requires a == 0xeb6d && b == 0xcbc7
    ensures Xor(a, b) == 0x20aa
  {
    assert XorLow(a / 32768, b / 32768, 1) == 0;
    assert XorLow(a / 16384, b / 16384, 2) == 0;
    assert XorLow(a / 8192, b / 8192, 3) == 1;
    assert XorLow(a / 4096, b / 4096, 4) == 2;
    assert XorLow(a / 2048, b / 2048, 5) == 4;
    assert XorLow(a / 1024, b / 1024, 6) == 8;
    assert XorLow(a / 512, b / 512, 7) == 0x0010;
    assert XorLow(a / 256, b / 256, 8) == 0x0020;
    assert XorLow(a / 128, b / 128, 9) == 0x0041;
    assert XorLow(a / 64, b / 64, 10) == 0x0082;
    assert XorLow(a / 32, b / 32, 11) == 0x0105;
    assert XorLow(a / 16, b / 16, 12) == 0x020a;
    assert XorLow(a / 8, b / 8, 13) == 0x0415;
    assert XorLow(a / 4, b / 4, 14) == 0x082a;
    assert XorLow(a / 2, b / 2, 15) == 0x1055;
  }

  lemma Round3Xor02(a: Word, b: Word)
    requires a == 0xbdba && b == 0x7065
    ensures Xor(a, b) == 0xcddf
  {
    assert XorLow(a / 32768, b / 32768, 1) == 1;
    assert XorLow(a / 16384, b / 16384, 2) == 3;
    assert XorLow(a / 8192, b / 8192, 3) == 6;
    assert XorLow(a / 4096, b / 4096, 4) == 0x000c;
    assert XorLow(a / 2048, b / 2048, 5) == 0x0019;
    assert XorLow(a / 1024, b / 1024, 6) == 0x0033;
    assert XorLow(a / 512, b / 512, 7) == 0x0066;
    assert XorLow(a / 256, b / 256, 8) == 0x00cd;
    assert XorLow(a / 128, b / 128, 9) == 0x019b;
    assert XorLow(a / 64, b / 64, 10) == 0x0337;
    assert XorLow(a / 32, b / 32, 11) == 0x066e;
    assert XorLow(a / 16, b / 16, 12) == 0x0cdd;
    assert XorLow(a / 8, b / 8, 13) == 0x19bb;
    assert XorLow(a / 4, b / 4, 14) == 0x3377;
    assert XorLow(a / 2, b / 2, 15) == 0x66ef;
  }

  lemma Round3Xor13(a: Word, b: Word)
    requires a == 0x7271 && b == 0xf46c
    ensures Xor(a, b) == 0x861d
  {
    assert XorLow(a / 32768, b / 32768, 1) == 1;
    assert XorLow(a / 16384, b / 16384, 2) == 2;
    assert XorLow(a / 8192, b / 8192, 3) == 4;
    assert XorLow(a / 4096, b / 4096, 4) == 8;
    assert XorLow(a / 2048, b / 2048, 5) == 0x0010;
    assert XorLow(a / 1024, b / 1024, 6) == 0x0021;
    assert XorLow(a / 512, b / 512, 7) == 0x0043;
    assert XorLow(a / 256, b / 256, 8) == 0x0086;
    assert XorLow(a / 128, b / 128, 9) == 0x010c;
    assert XorLow(a / 64, b / 64, 10) == 0x0218;
    assert XorLow(a / 32, b / 32, 11) == 0x0430;
    assert XorLow(a / 16, b / 16, 12) == 0x0861;
    assert XorLow(a / 8, b / 8, 13) == 0x10c3;
    assert XorLow(a / 4, b / 4, 14) == 0x2187;
    assert XorLow(a / 2, b / 2, 15) == 0x430e;
  }

  lemma Round3Out0(a: Word, b: Word)
    requires a == 0xbdba && b == 0xf1bd
    ensures Xor(a, b) == 0x4c07
  {
    assert XorLow(a / 32768, b / 32768, 1) == 0;
    assert XorLow(a / 16384, b / 16384, 2) == 1;
    assert XorLow(a / 8192, b / 8192, 3) == 2;
    assert XorLow(a / 4096, b / 4096, 4) == 4;
    assert XorLow(a / 2048, b / 2048, 5) == 9;
    assert XorLow(a / 1024, b / 1024, 6) == 0x0013;
    assert XorLow(a / 512, b / 512, 7) == 0x0026;
    assert XorLow(a / 256, b / 256, 8) == 0x004c;
    assert XorLow(a / 128, b / 128, 9) == 0x0098;
    assert XorLow(a / 64, b / 64, 10) == 0x0130;
    assert XorLow(a / 32, b / 32, 11) == 0x0260;
    assert XorLow(a / 16, b / 16, 12) == 0x04c0;
    assert XorLow(a / 8, b / 8, 13) == 0x0980;
    assert XorLow(a / 4, b / 4, 14) == 0x1301;
    assert XorLow(a / 2, b / 2, 15) == 0x2603;
  }

  lemma Round3Out1(a: Word, b: Word)
    requires a == 0x7271 && b == 0x86e1
    ensures Xor(a, b) == 0xf490
  {
    assert XorLow(a / 32768, b / 32768, 1) == 1;
    assert XorLow(a / 16384, b / 16384, 2) == 3;
    assert XorLow(a / 8192, b / 8192, 3) == 7;
    assert XorLow(a / 4096, b / 4096, 4) == 0x000f;
    assert XorLow(a / 2048, b / 2048, 5) == 0x001e;
    assert XorLow(a / 1024, b / 1024, 6) == 0x003d;
    assert XorLow(a / 512, b / 512, 7) == 0x007a;
    assert XorLow(a / 256, b / 256, 8) == 0x00f4;
    assert XorLow(a / 128, b / 128, 9) == 0x01e9;
    assert XorLow(a / 64, b / 64, 10) == 0x03d2;
    assert XorLow(a / 32, b / 32, 11) == 0x07a4;
    assert XorLow(a / 16, b / 16, 12) == 0x0f49;
    assert XorLow(a / 8, b / 8, 13) == 0x1e92;
    assert XorLow(a / 4, b / 4, 14) == 0x3d24;
    assert XorLow(a / 2, b / 2, 15) == 0x7a48;
  }

  lemma Round3Out2(a: Word, b: Word)
    requires a == 0x7065 && b == 0xf1bd
    ensures Xor(a, b) == 0x81d8
  {
    assert XorLow(a / 32768, b / 32768, 1) == 1;
    assert XorLow(a / 16384, b / 16384, 2) == 2;
    assert XorLow(a / 8192, b / 8192, 3) == 4;
    assert XorLow(a / 4096, b / 4096, 4) == 8;
    assert XorLow(a / 2048, b / 2048, 5) == 0x0010;
    assert XorLow(a / 1024, b / 1024, 6) == 0x0020;
    assert XorLow(a / 512, b / 512, 7) == 0x0040;
    assert XorLow(a / 256, b / 256, 8) == 0x0081;
    assert XorLow(a / 128, b / 128, 9) == 0x0103;
    assert XorLow(a / 64, b / 64, 10) == 0x0207;
    assert XorLow(a / 32, b / 32, 11) == 0x040e;
    assert XorLow(a / 16, b / 16, 12) == 0x081d;
    assert XorLow(a / 8, b / 8, 13) == 0x103b;
    assert XorLow(a / 4, b / 4, 14) == 0x2076;
    assert XorLow(a / 2, b / 2, 15) == 0x40ec;
  }

  lemma Round3Out3(a: Word, b: Word)
    requires a == 0xf46c && b == 0x86e1
    ensures Xor(a, b) == 0x728d
  {
    assert XorLow(a / 32768, b / 32768, 1) == 0;
    assert XorLow(a / 16384, b / 16384, 2) == 1;
    assert XorLow(a / 8192, b / 8192, 3) == 3;
    assert XorLow(a / 4096, b / 4096, 4) == 7;
    assert XorLow(a / 2048, b / 2048, 5) == 0x000e;
    assert XorLow(a / 1024, b / 1024, 6) == 0x001c;
    assert XorLow(a / 512, b / 512, 7) == 0x0039;
    assert XorLow(a / 256, b / 256, 8) == 0x0072;
    assert XorLow(a / 128, b / 128, 9) == 0x00e5;
    assert XorLow(a / 64, b / 64, 10) == 0x01ca;
    assert XorLow(a / 32, b / 32, 11) == 0x0394;
    assert XorLow(a / 16, b / 16, 12) == 0x0728;
    assert XorLow(a / 8, b / 8, 13) == 0x0e51;
    assert XorLow(a / 4, b / 4, 14) == 0x1ca3;
    assert XorLow(a / 2, b / 2, 15) == 0x3946;
  }

  lemma Round4Xor02(a: Word, b: Word)
    requires a == 0x78ef && b == 0x05d1
    ensures Xor(a, b) == 0x7d3e
  {
    assert XorLow(a / 32768, b / 32768, 1) == 0;
    assert XorLow(a / 16384, b / 16384, 2) == 1;
    assert XorLow(a / 8192, b / 8192, 3) == 3;
    assert XorLow(a / 4096, b / 4096, 4) == 7;
    assert XorLow(a / 2048, b / 2048, 5) == 0x000f;
    assert XorLow(a / 1024, b / 1024, 6) == 0x001f;
    assert XorLow(a / 512, b / 512, 7) == 0x003e;
    assert XorLow(a / 256, b / 256, 8) == 0x007d;
    assert XorLow(a / 128, b / 128, 9) == 0x00fa;
    assert XorLow(a / 64, b / 64, 10) == 0x01f4;
    assert XorLow(a / 32, b / 32, 11) == 0x03e9;
    assert XorLow(a / 16, b / 16, 12) == 0x07d3;
    assert XorLow(a / 8, b / 8, 13) == 0x0fa7;
    assert XorLow(a / 4, b / 4, 14) == 0x1f4f;
    assert XorLow(a / 2, b / 2, 15) == 0x3e9f;
  }

  lemma Round4Xor13(a: Word, b: Word)
    requires a == 0x72f9 && b == 0x4f3b
    ensures Xor(a, b) == 0x3dc2
  {
    assert XorLow(a / 32768, b / 32768, 1) == 0;
    assert XorLow(a / 16384, b / 16384, 2) == 0;
    assert XorLow(a / 8192, b / 8192, 3) == 1;
    assert XorLow(a / 4096, b / 4096, 4) == 3;
    assert XorLow(a / 2048, b / 2048, 5) == 7;
    assert XorLow(a / 1024, b / 1024, 6) == 0x000f;
    assert XorLow(a / 512, b / 512, 7) == 0x001e;
    assert XorLow(a / 256, b / 256, 8) == 0x003d;
    assert XorLow(a / 128, b / 128, 9) == 0x007b;
    assert XorLow(a / 64, b / 64, 10) == 0x00f7;
    assert XorLow(a / 32, b / 32, 11) == 0x01ee;
    assert XorLow(a / 16, b / 16, 12) == 0x03dc;
    assert XorLow(a / 8, b / 8, 13) == 0x07b8;
    assert XorLow(a / 4, b / 4, 14) == 0x0f70;
    assert XorLow(a / 2, b / 2, 15) == 0x1ee1;
  }

  lemma Round4Out0(a: Word, b: Word)
    requires a == 0x78ef && b == 0xc339
    ensures Xor(a, b) == 0xbbd6
  {
    assert XorLow(a / 32768, b / 32768, 1) == 1;
    assert XorLow(a / 16384, b / 16384, 2) == 2;
    assert XorLow(a / 8192, b / 8192, 3) == 5;
    assert XorLow(a / 4096, b / 4096, 4) == 0x000b;
    assert XorLow(a / 2048, b / 2048, 5) == 0x0017;
    assert XorLow(a / 1024, b / 1024, 6) == 0x002e;
    assert XorLow(a / 512, b / 512, 7) == 0x005d;
    assert XorLow(a / 256, b / 256, 8) == 0x00bb;
    assert XorLow(a / 128, b / 128, 9) == 0x0177;
    assert XorLow(a / 64, b / 64, 10) == 0x02ef;
    assert XorLow(a / 32, b / 32, 11) == 0x05de;
    assert XorLow(a / 16, b / 16, 12) == 0x0bbd;
    assert XorLow(a / 8, b / 8, 13) == 0x177a;
    assert XorLow(a / 4, b / 4, 14) == 0x2ef5;
    assert XorLow(a / 2, b / 2, 15) == 0x5deb;
  }

  lemma Round4Out1(a: Word, b: Word)
    requires a == 0x72f9 && b == 0x9ad8
    ensures Xor(a, b) == 0xe821
  {
    assert XorLow(a / 32768, b / 32768, 1) == 1;
    assert XorLow(a / 16384, b / 16384, 2) == 3;
    assert XorLow(a / 8192, b / 8192, 3) == 7;
    assert XorLow(a / 4096, b / 4096, 4) == 0x000e;
    assert XorLow(a / 2048, b / 2048, 5) == 0x001d;
    assert XorLow(a / 1024, b / 1024, 6) == 0x003a;
    assert XorLow(a / 512, b / 512, 7) == 0x0074;
    assert XorLow(a / 256, b / 256, 8) == 0x00e8;
    assert XorLow(a / 128, b / 128, 9) == 0x01d0;
    assert XorLow(a / 64, b / 64, 10) == 0x03a0;
    assert XorLow(a / 32, b / 32, 11) == 0x0741;
    assert XorLow(a / 16, b / 16, 12) == 0x0e82;
    assert XorLow(a / 8, b / 8, 13) == 0x1d04;
    assert XorLow(a / 4, b / 4, 14) == 0x3a08;
    assert XorLow(a / 2, b / 2, 15) == 0x7410;
  }

  lemma Round4Out2(a: Word, b: Word)
    requires a == 0x05d1 && b == 0xc339
    ensures Xor(a, b) == 0xc6e8
  {
    assert XorLow(a / 32768, b / 32768, 1) == 1;
    assert XorLow(a / 16384, b / 16384, 2) == 3;
    assert XorLow(a / 8192, b / 8192, 3) == 6;
    assert XorLow(a / 4096, b / 4096, 4) == 0x000c;
    assert XorLow(a / 2048, b / 2048, 5) == 0x0018;
    assert XorLow(a / 1024, b / 1024, 6) == 0x0031;
    assert XorLow(a / 512, b / 512, 7) == 0x0063;
    assert XorLow(a / 256, b / 256, 8) == 0x00c6;
    assert XorLow(a / 128, b / 128, 9) == 0x018d;
    assert XorLow(a / 64, b / 64, 10) == 0x031b;
    assert XorLow(a / 32, b / 32, 11) == 0x0637;
    assert XorLow(a / 16, b / 16, 12) == 0x0c6e;
    assert XorLow(a / 8, b / 8, 13) == 0x18dd;
    assert XorLow(a / 4, b / 4, 14) == 0x31ba;
    assert XorLow(a / 2, b / 2, 15) == 0x6374;
  }

  lemma Round4Out3(a: Word, b: Word)
    requires a == 0x4f3b && b == 0x9ad8
    ensures Xor(a, b) == 0xd5e3
  {
    assert XorLow(a / 32768, b / 32768, 1) == 1;
    assert XorLow(a / 16384, b / 16384, 2) == 3;
    assert XorLow(a / 8192, b / 8192, 3) == 6;
    assert XorLow(a / 4096, b / 4096, 4) == 0x000d;
    assert XorLow(a / 2048, b / 2048, 5) == 0x001a;
    assert XorLow(a / 1024, b / 1024, 6) == 0x0035;
    assert XorLow(a / 512, b / 512, 7) == 0x006a;
    assert XorLow(a / 256, b / 256, 8) == 0x00d5;
    assert XorLow(a / 128, b / 128, 9) == 0x01ab;
    assert XorLow(a / 64, b / 64, 10) == 0x0357;
    assert XorLow(a / 32, b / 32, 11) == 0x06af;
    assert XorLow(a / 16, b / 16, 12) == 0x0d5e;
    assert XorLow(a / 8, b / 8, 13) == 0x1abc;
    assert XorLow(a / 4, b / 4, 14) == 0x3578;
    assert XorLow(a / 2, b / 2, 15) == 0x6af1;
  }

  lemma Round5Xor02(a: Word, b: Word)
    requires a == 0xd64c && b == 0x2a43
    ensures Xor(a, b) == 0xfc0f
  {
    assert XorLow(a / 32768, b / 32768, 1) == 1;
    assert XorLow(a / 16384, b / 16384, 2) == 3;
    assert XorLow(a / 8192, b / 8192, 3) == 7;
    assert XorLow(a / 4096, b / 4096, 4) == 0x000f;
    assert XorLow(a / 2048, b / 2048, 5) == 0x001f;
    assert XorLow(a / 1024, b / 1024, 6) == 0x003f;
    assert XorLow(a / 512, b / 512, 7) == 0x007e;
    assert XorLow(a / 256, b / 256, 8) == 0x00fc;
    assert XorLow(a / 128, b / 128, 9) == 0x01f8;
    assert XorLow(a / 64, b / 64, 10) == 0x03f0;
    assert XorLow(a / 32, b / 32, 11) == 0x07e0;
    assert XorLow(a / 16, b / 16, 12) == 0x0fc0;
    assert XorLow(a / 8, b / 8, 13) == 0x1f81;
    assert XorLow(a / 4, b / 4, 14) == 0x3f03;
    assert XorLow(a / 2, b / 2, 15) == 0x7e07;
  }

  lemma Round5Xor13(a: Word, b: Word)
    requires a == 0x77c8 && b == 0x0e33
    ensures Xor(a, b) == 0x79fb
  {
    assert XorLow(a / 32768, b / 32768, 1) == 0;
    assert XorLow(a / 16384, b / 16384, 2) == 1;
    assert XorLow(a / 8192, b / 8192, 3) == 3;
    assert XorLow(a / 4096, b / 4096, 4) == 7;
    assert XorLow(a / 2048, b / 2048, 5) == 0x000f;
    assert XorLow(a / 1024, b / 1024, 6) == 0x001e;
    assert XorLow(a / 512, b / 512, 7) == 0x003c;
    assert XorLow(a / 256, b / 256, 8) == 0x0079;
    assert XorLow(a / 128, b / 128, 9) == 0x00f3;
    assert XorLow(a / 64, b / 64, 10) == 0x01e7;
    assert XorLow(a / 32, b / 32, 11) == 0x03cf;
    assert XorLow(a / 16, b / 16, 12) == 0x079f;
    assert XorLow(a / 8, b / 8, 13) == 0x0f3f;
    assert XorLow(a / 4, b / 4, 14) == 0x1e7e;
    assert XorLow(a / 2, b / 2, 15) == 0x3cfd;
  }

  lemma Round5Out0(a: Word, b: Word)
    requires a == 0xd64c && b == 0x0a2f
    ensures Xor(a, b) == 0xdc63
  {
    assert XorLow(a / 32768, b / 32768, 1) == 1;
    assert XorLow(a / 16384, b / 16384, 2) == 3;
    assert XorLow(a / 8192, b / 8192, 3) == 6;
    assert XorLow(a / 4096, b / 4096, 4) == 0x000d;
    assert XorLow(a / 2048, b / 2048, 5) == 0x001b;
    assert XorLow(a / 1024, b / 1024, 6) == 0x0037;
    assert XorLow(a / 512, b / 512, 7) == 0x006e;
    assert XorLow(a / 256, b / 256, 8) == 0x00dc;
    assert XorLow(a / 128, b / 128, 9) == 0x01b8;
    assert XorLow(a / 64, b / 64, 10) == 0x0371;
    assert XorLow(a / 32, b / 32, 11) == 0x06e3;
    assert XorLow(a / 16, b / 16, 12) == 0x0dc6;
    assert XorLow(a / 8, b / 8, 13) == 0x1b8c;
    assert XorLow(a / 4, b / 4, 14) == 0x3718;
    assert XorLow(a / 2, b / 2, 15) == 0x6e31;
  }

  lemma Round5Out1(a: Word, b: Word)
    requires a == 0x77c8 && b == 0x11f5
    ensures Xor(a, b) == 0x663d
  {
    assert XorLow(a / 32768, b / 32768, 1) == 0;
    assert XorLow(a / 16384, b / 16384, 2) == 1;
    assert XorLow(a / 8192, b / 8192, 3) == 3;
    assert XorLow(a / 4096, b / 4096, 4) == 6;
    assert XorLow(a / 2048, b / 2048, 5) == 0x000c;
    assert XorLow(a / 1024, b / 1024, 6) == 0x0019;
    assert XorLow(a / 512, b / 512, 7) == 0x0033;
    assert XorLow(a / 256, b / 256, 8) == 0x0066;
    assert XorLow(a / 128, b / 128, 9) == 0x00cc;
    assert XorLow(a / 64, b / 64, 10) == 0x0198;
    assert XorLow(a / 32, b / 32, 11) == 0x0331;
    assert XorLow(a / 16, b / 16, 12) == 0x0663;
    assert XorLow(a / 8, b / 8, 13) == 0x0cc7;
    assert XorLow(a / 4, b / 4, 14) == 0x198f;
    assert XorLow(a / 2, b / 2, 15) == 0x331e;
  }

  lemma Round5Out2(a: Word, b: Word)
    requires a == 0x2a43 && b == 0x0a2f
    ensures Xor(a, b) == 0x206c
  {
    assert XorLow(a / 32768, b / 32768, 1) == 0;
    assert XorLow(a / 16384, b / 16384, 2) == 0;
    assert XorLow(a / 8192, b / 8192, 3) == 1;
    assert XorLow(a / 4096, b / 4096, 4) == 2;
    assert XorLow(a / 2048, b / 2048, 5) == 4;
    assert XorLow(a / 1024, b / 1024, 6) == 8;
    assert XorLow(a / 512, b / 512, 7) == 0x0010;
    assert XorLow(a / 256, b / 256, 8) == 0x0020;
    assert XorLow(a / 128, b / 128, 9) == 0x0040;
    assert XorLow(a / 64, b / 64, 10) == 0x0081;
    assert XorLow(a / 32, b / 32, 11) == 0x0103;
    assert XorLow(a / 16, b / 16, 12) == 0x0206;
    assert XorLow(a / 8, b / 8, 13) == 0x040d;
    assert XorLow(a / 4, b / 4, 14) == 0x081b;
    assert XorLow(a / 2, b / 2, 15) == 0x1036;
  }

  lemma Round5Out3(a: Word, b: Word)
    requires a == 0x0e33 && b == 0x11f5
    ensures Xor(a, b) == 0x1fc6
  {
    assert XorLow(a / 32768, b / 32768, 1) == 0;
    assert XorLow(a / 16384, b / 16384, 2) == 0;
    assert XorLow(a / 8192, b / 8192, 3) == 0;
    assert XorLow(a / 4096, b / 4096, 4) == 1;
    assert XorLow(a / 2048, b / 2048, 5) == 3;
    assert XorLow(a / 1024, b / 1024, 6) == 7;
    assert XorLow(a / 512, b / 512, 7) == 0x000f;
    assert XorLow(a / 256, b / 256, 8) == 0x001f;
    assert XorLow(a / 128, b / 128, 9) == 0x003f;
    assert XorLow(a / 64, b / 64, 10) == 0x007f;
    assert XorLow(a / 32, b / 32, 11) == 0x00fe;
    assert XorLow(a / 16, b / 16, 12) == 0x01fc;
    assert XorLow(a / 8, b / 8, 13) == 0x03f8;
    assert XorLow(a / 4, b / 4, 14) == 0x07f1;
    assert XorLow(a / 2, b / 2, 15) == 0x0fe3;
  }

  lemma Round6Xor02(a: Word, b: Word)
    requires a == 0x53b2 && b == 0x27df
    ensures Xor(a, b) == 0x746d
  {
    assert XorLow(a / 32768, b / 32768, 1) == 0;
    assert XorLow(a / 16384, b / 16384, 2) == 1;
    assert XorLow(a / 8192, b / 8192, 3) == 3;
    assert XorLow(a / 4096, b / 4096, 4) == 7;
    assert XorLow(a / 2048, b / 2048, 5) == 0x000e;
    assert XorLow(a / 1024, b / 1024, 6) == 0x001d;
    assert XorLow(a / 512, b / 512, 7) == 0x003a;
    assert XorLow(a / 256, b / 256, 8) == 0x0074;
    assert XorLow(a / 128, b / 128, 9) == 0x00e8;
    assert XorLow(a / 64, b / 64, 10) == 0x01d1;
    assert XorLow(a / 32, b / 32, 11) == 0x03a3;
    assert XorLow(a / 16, b / 16, 12) == 0x0746;
    assert XorLow(a / 8, b / 8, 13) == 0x0e8d;
    assert XorLow(a / 4, b / 4, 14) == 0x1d1b;
    assert XorLow(a / 2, b / 2, 15) == 0x3a36;
  }

  lemma Round6Xor13(a: Word, b: Word)
    requires a == 0xa1cd && b == 0xd291
    ensures Xor(a, b) == 0x735c
  {
    assert XorLow(a / 32768, b / 32768, 1) == 0;
    assert XorLow(a / 16384, b / 16384, 2) == 1;
    assert XorLow(a / 8192, b / 8192, 3) == 3;
    assert XorLow(a / 4096, b / 4096, 4) == 7;
    assert XorLow(a / 2048, b / 2048, 5) == 0x000e;
    assert XorLow(a / 1024, b / 1024, 6) == 0x001c;
    assert XorLow(a / 512, b / 512, 7) == 0x0039;
    assert XorLow(a / 256, b / 256, 8) == 0x0073;
    assert XorLow(a / 128, b / 128, 9) == 0x00e6;
    assert XorLow(a / 64, b / 64, 10) == 0x01cd;
    assert XorLow(a / 32, b / 32, 11) == 0x039a;
    assert XorLow(a / 16, b / 16, 12) == 0x0735;
    assert XorLow(a / 8, b / 8, 13) == 0x0e6b;
    assert XorLow(a / 4, b / 4, 14) == 0x1cd7;
    assert XorLow(a / 2, b / 2, 15) == 0x39ae;
  }

  lemma Round6Out0(a: Word, b: Word)
    requires a == 0x53b2 && b == 0x8690
    ensures Xor(a, b) == 0xd522
  {
    assert XorLow(a / 32768, b / 32768, 1) == 1;
    assert XorLow(a / 16384, b / 16384, 2) == 3;
    assert XorLow(a / 8192, b / 8192, 3) == 6;
    assert XorLow(a / 4096, b / 4096, 4) == 0x000d;
    assert XorLow(a / 2048, b / 2048, 5) == 0x001a;
    assert XorLow(a / 1024, b / 1024, 6) == 0x0035;
    assert XorLow(a / 512, b / 512, 7) == 0x006a;
    assert XorLow(a / 256, b / 256, 8) == 0x00d5;
    assert XorLow(a / 128, b / 128, 9) == 0x01aa;
    assert XorLow(a / 64, b / 64, 10) == 0x0354;
    assert XorLow(a / 32, b / 32, 11) == 0x06a9;
    assert XorLow(a / 16, b / 16, 12) == 0x0d52;
    assert XorLow(a / 8, b / 8, 13) == 0x1aa4;
    assert XorLow(a / 4, b / 4, 14) == 0x3548;
    assert XorLow(a / 2, b / 2, 15) == 0x6a91;
  }

  lemma Round6Out1(a: Word, b: Word)
    requires a == 0xa1cd && b == 0x067d
    ensures Xor(a, b) == 0xa7b0
  {
    assert XorLow(a / 32768, b / 32768, 1) == 1;
    assert XorLow(a / 16384, b / 16384, 2) == 2;
    assert XorLow(a / 8192, b / 8192, 3) == 5;
    assert XorLow(a / 4096, b / 4096, 4) == 0x000a;
    assert XorLow(a / 2048, b / 2048, 5) == 0x0014;
    assert XorLow(a / 1024, b / 1024, 6) == 0x0029;
    assert XorLow(a / 512, b / 512, 7) == 0x0053;
    assert XorLow(a / 256, b / 256, 8) == 0x00a7;
    assert XorLow(a / 128, b / 128, 9) == 0x014f;
    assert XorLow(a / 64, b / 64, 10) == 0x029e;
    assert XorLow(a / 32, b / 32, 11) == 0x053d;
    assert XorLow(a / 16, b / 16, 12) == 0x0a7b;
    assert XorLow(a / 8, b / 8, 13) == 0x14f6;
    assert XorLow(a / 4, b / 4, 14) == 0x29ec;
    assert XorLow(a / 2, b / 2, 15) == 0x53d8;
  }

  lemma Round6Out2(a: Word, b: Word)
    requires a == 0x27df && b == 0x8690
    ensures Xor(a, b) == 0xa14f
  {
    assert XorLow(a / 32768, b / 32768, 1) == 1;
    assert XorLow(a / 16384, b / 16384, 2) == 2;
    assert XorLow(a / 8192, b / 8192, 3) == 5;
    assert XorLow(a / 4096, b / 4096, 4) == 0x000a;
    assert XorLow(a / 2048, b / 2048, 5) == 0x0014;
    assert XorLow(a / 1024, b / 1024, 6) == 0x0028;
    assert XorLow(a / 512, b / 512, 7) == 0x0050;
    assert XorLow(a / 256, b / 256, 8) == 0x00a1;
    assert XorLow(a / 128, b / 128, 9) == 0x0142;
    assert XorLow(a / 64, b / 64, 10) == 0x0285;
    assert XorLow(a / 32, b / 32, 11) == 0x050a;
    assert XorLow(a / 16, b / 16, 12) == 0x0a14;
    assert XorLow(a / 8, b / 8, 13) == 0x1429;
    assert XorLow(a / 4, b / 4, 14) == 0x2853;
    assert XorLow(a / 2, b / 2, 15) == 0x50a7;
  }

  lemma Round6Out3(a: Word, b: Word)
    requires a == 0xd291 && b == 0x067d
    ensures Xor(a, b) == 0xd4ec
  {
    assert XorLow(a / 32768, b / 32768, 1) == 1;
    assert XorLow(a / 16384, b / 16384, 2) == 3;
    assert XorLow(a / 8192, b / 8192, 3) == 6;
    assert XorLow(a / 4096, b / 4096, 4) == 0x000d;
    assert XorLow(a / 2048, b / 2048, 5) == 0x001a;
    assert XorLow(a / 1024, b / 1024, 6) == 0x0035;
    assert XorLow(a / 512, b / 512, 7) == 0x006a;
    assert XorLow(a / 256, b / 256, 8) == 0x00d4;
    assert XorLow(a / 128, b / 128, 9) == 0x01a9;
    assert XorLow(a / 64, b / 64, 10) == 0x0353;
    assert XorLow(a / 32, b / 32, 11) == 0x06a7;
    assert XorLow(a / 16, b / 16, 12) == 0x0d4e;
    assert XorLow(a / 8, b / 8, 13) == 0x1a9d;
    assert XorLow(a / 4, b / 4, 14) == 0x353b;
    assert XorLow(a / 2, b / 2, 15) == 0x6a76;
  }

  lemma Round7Xor02(a: Word, b: Word)
    requires a == 0x5d55 && b == 0x6b33
    ensures Xor(a, b) == 0x3666
  {
    assert XorLow(a / 32768, b / 32768, 1) == 0;
    assert XorLow(a / 16384, b / 16384, 2) == 0;
    assert XorLow(a / 8192, b / 8192, 3) == 1;
    assert XorLow(a / 4096, b / 4096, 4) == 3;
    assert XorLow(a / 2048, b / 2048, 5) == 6;
    assert XorLow(a / 1024, b / 1024, 6) == 0x000d;
    assert XorLow(a / 512, b / 512, 7) == 0x001b;
    assert XorLow(a / 256, b / 256, 8) == 0x0036;
    assert XorLow(a / 128, b / 128, 9) == 0x006c;
    assert XorLow(a / 64, b / 64, 10) == 0x00d9;
    assert XorLow(a / 32, b / 32, 11) == 0x01b3;
    assert XorLow(a / 16, b / 16, 12) == 0x0366;
    assert XorLow(a / 8, b / 8, 13) == 0x06cc;
    assert XorLow(a / 4, b / 4, 14) == 0x0d99;
    assert XorLow(a / 2, b / 2, 15) == 0x1b33;
  }

  lemma Round7Xor13(a: Word, b: Word)
    requires a == 0xe451 && b == 0xf634
    ensures Xor(a, b) == 0x1265
  {
    assert XorLow(a / 32768, b / 32768, 1) == 0;
    assert XorLow(a / 16384, b / 16384, 2) == 0;
    assert XorLow(a / 8192, b / 8192, 3) == 0;
    assert XorLow(a / 4096, b / 4096, 4) == 1;
    assert XorLow(a / 2048, b / 2048, 5) == 2;
    assert XorLow(a / 1024, b / 1024, 6) == 4;
    assert XorLow(a / 512, b / 512, 7) == 9;
    assert XorLow(a / 256, b / 256, 8) == 0x0012;
    assert XorLow(a / 128, b / 128, 9) == 0x0024;
    assert XorLow(a / 64, b / 64, 10) == 0x0049;
    assert XorLow(a / 32, b / 32, 11) == 0x0093;
    assert XorLow(a / 16, b / 16, 12) == 0x0126;
    assert XorLow(a / 8, b / 8, 13) == 0x024c;
    assert XorLow(a / 4, b / 4, 14) == 0x0499;
    assert XorLow(a / 2, b / 2, 15) == 0x0932;
  }

  lemma Round7Out0(a: Word, b: Word)
    requires a == 0x5d55 && b == 0x5d5f
    ensures Xor(a, b) == 0x000a
  {
    assert XorLow(a / 32768, b / 32768, 1) == 0;
    assert XorLow(a / 16384, b / 16384, 2) == 0;
    assert XorLow(a / 8192, b / 8192, 3) == 0;
    assert XorLow(a / 4096, b / 4096, 4) == 0;
    assert XorLow(a / 2048, b / 2048, 5) == 0;
    assert XorLow(a / 1024, b / 1024, 6) == 0;
    assert XorLow(a / 512, b / 512, 7) == 0;
    assert XorLow(a / 256, b / 256, 8) == 0;
    assert XorLow(a / 128, b / 128, 9) == 0;
    assert XorLow(a / 64, b / 64, 10) == 0;
    assert XorLow(a / 32, b / 32, 11) == 0;
    assert XorLow(a / 16, b / 16, 12) == 0;
    assert XorLow(a / 8, b / 8, 13) == 1;
    assert XorLow(a / 4, b / 4, 14) == 2;
    assert XorLow(a / 2, b / 2, 15) == 5;
  }

  lemma Round7Out1(a: Word, b: Word)
    requires a == 0xe451 && b == 0x5836
    ensures Xor(a, b) == 0xbc67
  {
    assert XorLow(a / 32768, b / 32768, 1) == 1;
    assert XorLow(a / 16384, b / 16384, 2) == 2;
    assert XorLow(a / 8192, b / 8192, 3) == 5;
    assert XorLow(a / 4096, b / 4096, 4) == 0x000b;
    assert XorLow(a / 2048, b / 2048, 5) == 0x0017;
    assert XorLow(a / 1024, b / 1024, 6) == 0x002f;
    assert XorLow(a / 512, b / 512, 7) == 0x005e;
    assert XorLow(a / 256, b / 256, 8) == 0x00bc;
    assert XorLow(a / 128, b / 128, 9) == 0x0178;
    assert XorLow(a / 64, b / 64, 10) == 0x02f1;
    assert XorLow(a / 32, b / 32, 11) == 0x05e3;
    assert XorLow(a / 16, b / 16, 12) == 0x0bc6;
    assert XorLow(a / 8, b / 8, 13) == 0x178c;
    assert XorLow(a / 4, b / 4, 14) == 0x2f19;
    assert XorLow(a / 2, b / 2, 15) == 0x5e33;
  }

  lemma Round7Out2(a: Word, b: Word)
    requires a == 0x6b33 && b == 0x5d5f
    ensures Xor(a, b) == 0x366c
  {
    assert XorLow(a / 32768, b / 32768, 1) == 0;
    assert XorLow(a / 16384, b / 16384, 2) == 0;
    assert XorLow(a / 8192, b / 8192, 3) == 1;
    assert XorLow(a / 4096, b / 4096, 4) == 3;
    assert XorLow(a / 2048, b / 2048, 5) == 6;
    assert XorLow(a / 1024, b / 1024, 6) == 0x000d;
    assert XorLow(a / 512, b / 512, 7) == 0x001b;
    assert XorLow(a / 256, b / 256, 8) == 0x0036;
    assert XorLow(a / 128, b / 128, 9) == 0x006c;
    assert XorLow(a / 64, b / 64, 10) == 0x00d9;
    assert XorLow(a / 32, b / 32, 11) == 0x01b3;
    assert XorLow(a / 16, b / 16, 12) == 0x0366;
    assert XorLow(a / 8, b / 8, 13) == 0x06cd;
    assert XorLow(a / 4, b / 4, 14) == 0x0d9b;
    assert XorLow(a / 2, b / 2, 15) == 0x1b36;
  }

  lemma Round7Out3(a: Word, b: Word)
    requires a == 0xf634 && b == 0x5836
    ensures Xor(a, b) == 0xae02
  {
    assert XorLow(a / 32768, b / 32768, 1) == 1;
    assert XorLow(a / 16384, b / 16384, 2) == 2;
    assert XorLow(a / 8192, b / 8192, 3) == 5;
    assert XorLow(a / 4096, b / 4096, 4) == 0x000a;
    assert XorLow(a / 2048, b / 2048, 5) == 0x0015;
    assert XorLow(a / 1024, b / 1024, 6) == 0x002b;
    assert XorLow(a / 512, b / 512, 7) == 0x0057;
    assert XorLow(a / 256, b / 256, 8) == 0x00ae;
    assert XorLow(a / 128, b / 128, 9) == 0x015c;
    assert XorLow(a / 64, b / 64, 10) == 0x02b8;
    assert XorLow(a / 32, b / 32, 11) == 0x0570;
    assert XorLow(a / 16, b / 16, 12) == 0x0ae0;
    assert XorLow(a / 8, b / 8, 13) == 0x15c0;
    assert XorLow(a / 4, b / 4, 14) == 0x2b80;
    assert XorLow(a / 2, b / 2, 15) == 0x5701;
  }
}
