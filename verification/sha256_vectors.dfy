/**
  The published digest of "abc", the example of FIPS 180-4 the repository's tests begin with, round by round. The
  message schedule and the rounds are unrolled four at a time, each lemma starting where the one before it ended; the
  block, its schedule and its hash are then joined by the definitions of fips180.dfy.
 */
module Sha256Vectors {
  import opened Fips180
  import opened Wire

  const Abc: seq<byte> := [0x61, 0x62, 0x63]

  /** The message schedule of its one block. */
  const W: seq<bv32> :=
    (([0x61626380, 0x00000000, 0x00000000, 0x00000000, 0x00000000, 0x00000000, 0x00000000, 0x00000000] +
    [0x00000000, 0x00000000, 0x00000000, 0x00000000, 0x00000000, 0x00000000, 0x00000000, 0x00000018]) +
    ([0x61626380, 0x000f0000, 0x7da86405, 0x600003c6, 0x3e9d7b78, 0x0183fc00, 0x12dcbfdb, 0xe2e2c38e] +
    [0xc8215c1a, 0xb73679a2, 0xe5bc3909, 0x32663c5b, 0x9d209d67, 0xec8726cb, 0x702138a4, 0xd3b7973b])) +
    (([0x93f5997f, 0x3b68ba73, 0xaff4ffc1, 0xf10a5c62, 0x0a8b3996, 0x72af830a, 0x9409e33e, 0x24641522] +
    [0x9f47bf94, 0xf0a64f5a, 0x3e246a79, 0x27333ba3, 0x0c4763f2, 0x840abf27, 0x7a290d5d, 0x065c43da]) +
    ([0xfb3e89cb, 0xcc7617db, 0xb9e66c34, 0xa9993667, 0x84badedd, 0xc21462bc, 0x1487472c, 0xb20f7a99] +
    [0xef57b9cd, 0xebe6b238, 0x9fe3095e, 0x78bc8d4b, 0xa43fcf15, 0x668b2ff8, 0xeeaba2cc, 0x12b1edeb]))

  lemma OneWord(t: nat)
    requires 16 <= t < 64 && W[t] == Plus4(SmallSigma1(W[t - 2]), W[t - 7], SmallSigma0(W[t - 15]), W[t - 16])
    ensures NextWord(W[..t]) == W[t]
  {
    hide Plus4, SmallSigma1, SmallSigma0;
  }

  lemma Words16()
    ensures NextWord(W[..16]) == W[16] && NextWord(W[..17]) == W[17]
    ensures NextWord(W[..18]) == W[18] && NextWord(W[..19]) == W[19]
  {
    hide NextWord;
    OneWord(16); OneWord(17); OneWord(18); OneWord(19);
  }

  lemma Words20()
    ensures NextWord(W[..20]) == W[20] && NextWord(W[..21]) == W[21]
    ensures NextWord(W[..22]) == W[22] && NextWord(W[..23]) == W[23]
  {
    hide NextWord;
    OneWord(20); OneWord(21); OneWord(22); OneWord(23);
  }

  lemma Words24()
    ensures NextWord(W[..24]) == W[24] && NextWord(W[..25]) == W[25]
    ensures NextWord(W[..26]) == W[26] && NextWord(W[..27]) == W[27]
  {
    hide NextWord;
    OneWord(24); OneWord(25); OneWord(26); OneWord(27);
  }

  lemma Words28()
    ensures NextWord(W[..28]) == W[28] && NextWord(W[..29]) == W[29]
    ensures NextWord(W[..30]) == W[30] && NextWord(W[..31]) == W[31]
  {
    hide NextWord;
    OneWord(28); OneWord(29); OneWord(30); OneWord(31);
  }

  lemma Words32()
    ensures NextWord(W[..32]) == W[32] && NextWord(W[..33]) == W[33]
    ensures NextWord(W[..34]) == W[34] && NextWord(W[..35]) == W[35]
  {
    hide NextWord;
    OneWord(32); OneWord(33); OneWord(34); OneWord(35);
  }

  lemma Words36()
    ensures NextWord(W[..36]) == W[36] && NextWord(W[..37]) == W[37]
    ensures NextWord(W[..38]) == W[38] && NextWord(W[..39]) == W[39]
  {
    hide NextWord;
    OneWord(36); OneWord(37); OneWord(38); OneWord(39);
  }

  lemma Words40()
    ensures NextWord(W[..40]) == W[40] && NextWord(W[..41]) == W[41]
    ensures NextWord(W[..42]) == W[42] && NextWord(W[..43]) == W[43]
  {
    hide NextWord;
    OneWord(40); OneWord(41); OneWord(42); OneWord(43);
  }

  lemma Words44()
    ensures NextWord(W[..44]) == W[44] && NextWord(W[..45]) == W[45]
    ensures NextWord(W[..46]) == W[46] && NextWord(W[..47]) == W[47]
  {
    hide NextWord;
    OneWord(44); OneWord(45); OneWord(46); OneWord(47);
  }

  lemma Words48()
    ensures NextWord(W[..48]) == W[48] && NextWord(W[..49]) == W[49]
    ensures NextWord(W[..50]) == W[50] && NextWord(W[..51]) == W[51]
  {
    hide NextWord;
    OneWord(48); OneWord(49); OneWord(50); OneWord(51);
  }

  lemma Words52()
    ensures NextWord(W[..52]) == W[52] && NextWord(W[..53]) == W[53]
    ensures NextWord(W[..54]) == W[54] && NextWord(W[..55]) == W[55]
  {
    hide NextWord;
    OneWord(52); OneWord(53); OneWord(54); OneWord(55);
  }

  lemma Words56()
    ensures NextWord(W[..56]) == W[56] && NextWord(W[..57]) == W[57]
    ensures NextWord(W[..58]) == W[58] && NextWord(W[..59]) == W[59]
  {
    hide NextWord;
    OneWord(56); OneWord(57); OneWord(58); OneWord(59);
  }

  lemma Words60()
    ensures NextWord(W[..60]) == W[60] && NextWord(W[..61]) == W[61]
    ensures NextWord(W[..62]) == W[62] && NextWord(W[..63]) == W[63]
  {
    hide NextWord;
    OneWord(60); OneWord(61); OneWord(62); OneWord(63);
  }

  lemma NoRounds()
    ensures Rounds(Initial, W, 0) == Initial
  {
  }

  lemma TwoRounds(t: nat, v: Words)
    requires t < 63 && Rounds(Initial, W, t) == v
    ensures Rounds(Initial, W, t + 2) == Round(Round(v, K[t], W[t]), K[t + 1], W[t + 1])
  {
    hide Round;
  }

  lemma Rounds4()
    ensures Rounds(Initial, W, 4) ==
            Words(0xd550f666, 0xc8c347a7, 0x5a6ad9ad, 0x5d6aebcd, 0x24e00850, 0xf92939eb, 0x78ce7989, 0xfa2a4622)
  {
    hide Rounds;
    NoRounds();
    TwoRounds(0, Initial);
    TwoRounds(2, 
              Words(0x5a6ad9ad, 0x5d6aebcd, 0x6a09e667, 0xbb67ae85, 0x78ce7989, 0xfa2a4622, 0x510e527f, 0x9b05688c));
  }

  lemma Rounds8()
    ensures Rounds(Initial, W, 8) ==
            Words(0x85a07b5f, 0xe5030380, 0x2b4209f5, 0x04409a6a, 0x0c657a79, 0x9b27a401, 0x714260ad, 0x43ada245)
  {
    hide Rounds;
    Rounds4();
    TwoRounds(4, 
              Words(0xd550f666, 0xc8c347a7, 0x5a6ad9ad, 0x5d6aebcd, 0x24e00850, 0xf92939eb, 0x78ce7989, 0xfa2a4622));
    TwoRounds(6, 
              Words(0x2b4209f5, 0x04409a6a, 0xd550f666, 0xc8c347a7, 0x714260ad, 0x43ada245, 0x24e00850, 0xf92939eb));
  }

  lemma Rounds12()
    ensures Rounds(Initial, W, 12) ==
            Words(0xf71fc5a9, 0x4798a3f4, 0x8c87346b, 0x8e04ecb9, 0x816fd6e9, 0x436b23e8, 0x1cc92596, 0x32ca2d8c)
  {
    hide Rounds;
    Rounds8();
    TwoRounds(8, 
              Words(0x85a07b5f, 0xe5030380, 0x2b4209f5, 0x04409a6a, 0x0c657a79, 0x9b27a401, 0x714260ad, 0x43ada245));
    TwoRounds(10, 
              Words(0x8c87346b, 0x8e04ecb9, 0x85a07b5f, 0xe5030380, 0x1cc92596, 0x32ca2d8c, 0x0c657a79, 0x9b27a401));
  }

  lemma Rounds16()
    ensures Rounds(Initial, W, 16) ==
            Words(0xb0fa238e, 0xc0645fde, 0xd932eb16, 0x87912990, 0x07590dcd, 0x0b92f20c, 0x745a48de, 0x1e578218)
  {
    hide Rounds;
    Rounds12();
    TwoRounds(12, 
              Words(0xf71fc5a9, 0x4798a3f4, 0x8c87346b, 0x8e04ecb9, 0x816fd6e9, 0x436b23e8, 0x1cc92596, 0x32ca2d8c));
    TwoRounds(14, 
              Words(0xd932eb16, 0x87912990, 0xf71fc5a9, 0x4798a3f4, 0x745a48de, 0x1e578218, 0x816fd6e9, 0x436b23e8));
  }

  lemma Rounds20()
    ensures Rounds(Initial, W, 20) ==
            Words(0xe1f20c33, 0xfe777bbf, 0xc2fbd9d1, 0x21da9a9b, 0xb0638179, 0xcc899961, 0x846ee454, 0x8034229c)
  {
    hide Rounds;
    Rounds16();
    TwoRounds(16, 
              Words(0xb0fa238e, 0xc0645fde, 0xd932eb16, 0x87912990, 0x07590dcd, 0x0b92f20c, 0x745a48de, 0x1e578218));
    TwoRounds(18, 
              Words(0xc2fbd9d1, 0x21da9a9b, 0xb0fa238e, 0xc0645fde, 0x846ee454, 0x8034229c, 0x07590dcd, 0x0b92f20c));
  }

  lemma Rounds24()
    ensures Rounds(Initial, W, 24) ==
            Words(0xc5d53d8d, 0xa7a3623f, 0xc2606d6d, 0x9dc68b63, 0xaa47c347, 0x49f5114a, 0xe1257970, 0x8ada8930)
  {
    hide Rounds;
    Rounds20();
    TwoRounds(20, 
              Words(0xe1f20c33, 0xfe777bbf, 0xc2fbd9d1, 0x21da9a9b, 0xb0638179, 0xcc899961, 0x846ee454, 0x8034229c));
    TwoRounds(22, 
              Words(0xc2606d6d, 0x9dc68b63, 0xe1f20c33, 0xfe777bbf, 0xe1257970, 0x8ada8930, 0xb0638179, 0xcc899961));
  }

  lemma Rounds28()
    ensures Rounds(Initial, W, 28) ==
            Words(0x77d37528, 0xb62ec4bc, 0xcde8037d, 0x1c2c2838, 0xedffbff8, 0xc74c6516, 0x14383d8e, 0x2823ef91)
  {
    hide Rounds;
    Rounds24();
    TwoRounds(24, 
              Words(0xc5d53d8d, 0xa7a3623f, 0xc2606d6d, 0x9dc68b63, 0xaa47c347, 0x49f5114a, 0xe1257970, 0x8ada8930));
    TwoRounds(26, 
              Words(0xcde8037d, 0x1c2c2838, 0xc5d53d8d, 0xa7a3623f, 0x14383d8e, 0x2823ef91, 0xaa47c347, 0x49f5114a));
  }

  lemma Rounds32()
    ensures Rounds(Initial, W, 32) ==
            Words(0x73b33bf5, 0xea992a22, 0xa0060b30, 0x363482c9, 0xba591112, 0x0109ab3a, 0xade79437, 0x6112a3b7)
  {
    hide Rounds;
    Rounds28();
    TwoRounds(28, 
              Words(0x77d37528, 0xb62ec4bc, 0xcde8037d, 0x1c2c2838, 0xedffbff8, 0xc74c6516, 0x14383d8e, 0x2823ef91));
    TwoRounds(30, 
              Words(0xa0060b30, 0x363482c9, 0x77d37528, 0xb62ec4bc, 0xade79437, 0x6112a3b7, 0xedffbff8, 0xc74c6516));
  }

  lemma Rounds36()
    ensures Rounds(Initial, W, 36) ==
            Words(0x65a0cfe4, 0xa9a7738c, 0xfe604df5, 0x98e12507, 0xf4b002d6, 0x085f3833, 0x59249dd3, 0x9cd9f5f6)
  {
    hide Rounds;
    Rounds32();
    TwoRounds(32, 
              Words(0x73b33bf5, 0xea992a22, 0xa0060b30, 0x363482c9, 0xba591112, 0x0109ab3a, 0xade79437, 0x6112a3b7));
    TwoRounds(34, 
              Words(0xfe604df5, 0x98e12507, 0x73b33bf5, 0xea992a22, 0x59249dd3, 0x9cd9f5f6, 0xba591112, 0x0109ab3a));
  }

  lemma Rounds40()
    ensures Rounds(Initial, W, 40) ==
            Words(0x79ea687a, 0x6dc57a8a, 0x34df1604, 0x41a65cb1, 0x1efbc0a0, 0xf0781bc8, 0xa507a53d, 0x0772a26b)
  {
    hide Rounds;
    Rounds36();
    TwoRounds(36, 
              Words(0x65a0cfe4, 0xa9a7738c, 0xfe604df5, 0x98e12507, 0xf4b002d6, 0x085f3833, 0x59249dd3, 0x9cd9f5f6));
    TwoRounds(38, 
              Words(0x34df1604, 0x41a65cb1, 0x65a0cfe4, 0xa9a7738c, 0xa507a53d, 0x0772a26b, 0xf4b002d6, 0x085f3833));
  }

  lemma Rounds44()
    ensures Rounds(Initial, W, 44) ==
            Words(0x9d4baf93, 0x17aa0dfe, 0xdf46652f, 0xd6670766, 0xfda24c2e, 0xdecd4715, 0x838b2711, 0x26352d63)
  {
    hide Rounds;
    Rounds40();
    TwoRounds(40, 
              Words(0x79ea687a, 0x6dc57a8a, 0x34df1604, 0x41a65cb1, 0x1efbc0a0, 0xf0781bc8, 0xa507a53d, 0x0772a26b));
    TwoRounds(42, 
              Words(0xdf46652f, 0xd6670766, 0x79ea687a, 0x6dc57a8a, 0x838b2711, 0x26352d63, 0x1efbc0a0, 0xf0781bc8));
  }

  lemma Rounds48()
    ensures Rounds(Initial, W, 48) ==
            Words(0x4172328d, 0xa14c14b0, 0x72ab4b91, 0x26628815, 0xfecf0bc6, 0xd57b94a9, 0xb7755da1, 0xa80f11f0)
  {
    hide Rounds;
    Rounds44();
    TwoRounds(44, 
              Words(0x9d4baf93, 0x17aa0dfe, 0xdf46652f, 0xd6670766, 0xfda24c2e, 0xdecd4715, 0x838b2711, 0x26352d63));
    TwoRounds(46, 
              Words(0x72ab4b91, 0x26628815, 0x9d4baf93, 0x17aa0dfe, 0xb7755da1, 0xa80f11f0, 0xfda24c2e, 0xdecd4715));
  }

  lemma Rounds52()
    ensures Rounds(Initial, W, 52) ==
            Words(0x886e7a22, 0x7a0508a1, 0xf11bfaa8, 0x05757ceb, 0x49231c1e, 0x52f1ccf7, 0x6e5c390c, 0xbd714038)
  {
    hide Rounds;
    Rounds48();
    TwoRounds(48, 
              Words(0x4172328d, 0xa14c14b0, 0x72ab4b91, 0x26628815, 0xfecf0bc6, 0xd57b94a9, 0xb7755da1, 0xa80f11f0));
    TwoRounds(50, 
              Words(0xf11bfaa8, 0x05757ceb, 0x4172328d, 0xa14c14b0, 0x6e5c390c, 0xbd714038, 0xfecf0bc6, 0xd57b94a9));
  }

  lemma Rounds56()
    ensures Rounds(Initial, W, 56) ==
            Words(0x38cc9913, 0x3ec45cdb, 0xf5702fdb, 0x101fd28f, 0x54cb266b, 0xe50e1b4f, 0x9f4787c3, 0x529e7d00)
  {
    hide Rounds;
    Rounds52();
    TwoRounds(52, 
              Words(0x886e7a22, 0x7a0508a1, 0xf11bfaa8, 0x05757ceb, 0x49231c1e, 0x52f1ccf7, 0x6e5c390c, 0xbd714038));
    TwoRounds(54, 
              Words(0xf5702fdb, 0x101fd28f, 0x886e7a22, 0x7a0508a1, 0x9f4787c3, 0x529e7d00, 0x49231c1e, 0x52f1ccf7));
  }

  lemma Rounds60()
    ensures Rounds(Initial, W, 60) ==
            Words(0xb6ae8fff, 0xffb70472, 0xc062d46f, 0xfcd1887b, 0xb21bad3d, 0x6d83bfc6, 0x7e44008e, 0x9b5e906c)
  {
    hide Rounds;
    Rounds56();
    TwoRounds(56, 
              Words(0x38cc9913, 0x3ec45cdb, 0xf5702fdb, 0x101fd28f, 0x54cb266b, 0xe50e1b4f, 0x9f4787c3, 0x529e7d00));
    TwoRounds(58, 
              Words(0xc062d46f, 0xfcd1887b, 0x38cc9913, 0x3ec45cdb, 0x7e44008e, 0x9b5e906c, 0x54cb266b, 0xe50e1b4f));
  }

  lemma Rounds64()
    ensures Rounds(Initial, W, 64) ==
            Words(0x506e3058, 0xd39a2165, 0x04d24d6c, 0xb85e2ce9, 0x5ef50f24, 0xfb121210, 0x948d25b6, 0x961f4894)
  {
    hide Rounds;
    Rounds60();
    TwoRounds(60, 
              Words(0xb6ae8fff, 0xffb70472, 0xc062d46f, 0xfcd1887b, 0xb21bad3d, 0x6d83bfc6, 0x7e44008e, 0x9b5e906c));
    TwoRounds(62, 
              Words(0x04d24d6c, 0xb85e2ce9, 0xb6ae8fff, 0xffb70472, 0x948d25b6, 0x961f4894, 0xb21bad3d, 0x6d83bfc6));
  }

  // ------------------------------------------------------------ the whole digest

  const Block: seq<byte> := Abc + [0x80] + Zeros(52) + [0, 0, 0, 0, 0, 0, 0, 24]

  lemma {:induction false} NoughtIsZeros(k: nat)
    ensures BigEndian(0, k) == Zeros(k)
  {
    if k > 0 {
      NoughtIsZeros(k - 1);
      assert Zeros(k - 1) + [0] == Zeros(k);
    }
  }

  lemma AbcIsOneBlock()
    ensures Padded(Abc) == Block && |Block| == 64
  {
    NoughtIsZeros(7);
    assert BigEndian(24, 8) == BigEndian(0, 7) + [24];
    assert Zeros(7) == [0, 0, 0, 0, 0, 0, 0];
  }

  lemma WordIs(block: seq<byte>, t: nat)
    requires |block| == 64 && t < 16
    ensures block[4 * t..4 * t + 4] == [0, 0, 0, 0] ==> Word(block, t) == 0
    ensures block[4 * t..4 * t + 4] == [0, 0, 0, 24] ==> Word(block, t) == 24
    ensures block[4 * t..4 * t + 4] == [0x61, 0x62, 0x63, 0x80] ==> Word(block, t) == 0x61626380
  {
    var s := block[4 * t..4 * t + 4];
    assert s[0] == block[4 * t] && s[1] == block[4 * t + 1] && s[2] == block[4 * t + 2] && s[3] == block[4 * t + 3];
  }

  lemma BlockWordIs(t: nat)
    requires t < 16 && |Block| == 64
    ensures Word(Block, t) == if t == 0 then 0x61626380 else if t == 15 then 24 else 0
  {
    hide Word;
    WordIs(Block, t);
  }

  lemma FirstRows(t: nat)
    requires t < 16
    ensures W[t] == if t == 0 then 0x61626380 else if t == 15 then 24 else 0
  {
  }

  /** A schedule that begins with the block's words and goes on as each next word has to. */
  ghost predicate IsSchedule(block: seq<byte>, w: seq<bv32>)
    requires |block| == 64
  {
    && |w| == 64
    && (forall t {:trigger w[t]} :: 0 <= t < 16 ==> w[t] == Word(block, t))
    && (forall t {:trigger w[t]} :: 16 <= t < 64 ==> w[t] == NextWord(w[..t]))
  }

  lemma {:induction false} FirstWordsAre(block: seq<byte>, w: seq<bv32>, n: nat)
    requires n <= 16 && |block| == 64 && IsSchedule(block, w)
    ensures FirstWords(block, n) == w[..n]
  {
    hide Word, NextWord;
    if n > 0 {
      FirstWordsAre(block, w, n - 1);
      assert w[..n] == w[..n - 1] + [w[n - 1]];
    }
  }

  lemma {:induction false} ScheduleIs(block: seq<byte>, w: seq<bv32>, n: nat)
    requires 16 <= n <= 64 && |block| == 64 && IsSchedule(block, w)
    ensures Schedule(block, n) == w[..n]
  {
    hide Word, NextWord;
    if n == 16 {
      FirstWordsAre(block, w, 16);
    } else {
      ScheduleIs(block, w, n - 1);
      assert w[..n] == w[..n - 1] + [w[n - 1]];
    }
  }

  lemma AbcSchedule()
    requires |Block| == 64
    ensures Schedule(Block, 64) == W
  {
    hide Word, NextWord;
    forall t | 0 <= t < 16
      ensures W[t] == Word(Block, t)
    {
      BlockWordIs(t);
      FirstRows(t);
    }
    forall t | 16 <= t < 64
      ensures W[t] == NextWord(W[..t])
    {
      if t < 32 {
        EarlyWordIs(t);
      } else if t < 48 {
        MiddleWordIs(t);
      } else {
        LateWordIs(t);
      }
    }
    ScheduleIs(Block, W, 64);
    assert W[..64] == W;
  }

  lemma EarlyWordIs(t: nat)
    requires 16 <= t < 32
    ensures NextWord(W[..t]) == W[t]
  {
    hide NextWord;
    if t < 20 {
      Words16();
    } else if t < 24 {
      Words20();
    } else if t < 28 {
      Words24();
    } else {
      Words28();
    }
  }

  lemma MiddleWordIs(t: nat)
    requires 32 <= t < 48
    ensures NextWord(W[..t]) == W[t]
  {
    hide NextWord;
    if t < 36 {
      Words32();
    } else if t < 40 {
      Words36();
    } else if t < 44 {
      Words40();
    } else {
      Words44();
    }
  }

  lemma LateWordIs(t: nat)
    requires 48 <= t < 64
    ensures NextWord(W[..t]) == W[t]
  {
    hide NextWord;
    if t < 52 {
      Words48();
    } else if t < 56 {
      Words52();
    } else if t < 60 {
      Words56();
    } else {
      Words60();
    }
  }

  /** The words of the digest, and its bytes. */
  const Sums := Words(0xba7816bf, 0x8f01cfea, 0x414140de, 0x5dae2223, 0xb00361a3, 0x96177a9c, 0xb410ff61, 0xf20015ad)

  lemma AbcHash()
    ensures Hash(Abc) == Sums
  {
    hide Rounds, Schedule, Padded;
    AbcIsOneBlock();
    AbcSchedule();
    Rounds64();
    assert Block[..0] == [] && Block[0..] == Block;
  }

  lemma LeftBytes()
    ensures WordBytes(Sums.a) == [0xba, 0x78, 0x16, 0xbf] && WordBytes(Sums.b) == [0x8f, 0x01, 0xcf, 0xea]
    ensures WordBytes(Sums.c) == [0x41, 0x41, 0x40, 0xde] && WordBytes(Sums.d) == [0x5d, 0xae, 0x22, 0x23]
  {
  }

  lemma RightBytes()
    ensures WordBytes(Sums.e) == [0xb0, 0x03, 0x61, 0xa3] && WordBytes(Sums.f) == [0x96, 0x17, 0x7a, 0x9c]
    ensures WordBytes(Sums.g) == [0xb4, 0x10, 0xff, 0x61] && WordBytes(Sums.h) == [0xf2, 0x00, 0x15, 0xad]
  {
  }

  /** The digest of "abc" is the published one. */
  lemma AbcDigest()
    ensures Digest(Hash(Abc)) ==
            [0xba, 0x78, 0x16, 0xbf] + [0x8f, 0x01, 0xcf, 0xea] + [0x41, 0x41, 0x40, 0xde] + [0x5d, 0xae, 0x22, 0x23] +
            [0xb0, 0x03, 0x61, 0xa3] + [0x96, 0x17, 0x7a, 0x9c] + [0xb4, 0x10, 0xff, 0x61] + [0xf2, 0x00, 0x15, 0xad]
  {
    hide WordBytes;
    AbcHash();
    LeftBytes();
    RightBytes();
  }
}
