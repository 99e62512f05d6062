/**
 * The standard's example of one block: the digest of the three letters "abc", followed word by
 * word through the schedule and round by round through the working variables.
 */
module Sha256Example {
  import opened Sha256Standard

  const ABC: seq<Byte> := [0x61, 0x62, 0x63]

  /** The message with its padding: a one bit, zeros, the length of 24 bits. */
  function Block(): (b: seq<Byte>)
    ensures |b| == 64
  {
    ABC + Padding(3)
  }

  // ----- the schedule -----------------------------------------------------------------------

  const W: seq<Word> :=
    [0x61626380, 0x00000000, 0x00000000, 0x00000000, 0x00000000, 0x00000000, 0x00000000, 0x00000000] +
    [0x00000000, 0x00000000, 0x00000000, 0x00000000, 0x00000000, 0x00000000, 0x00000000, 0x00000018] +
    [0x61626380, 0x000f0000, 0x7da86405, 0x600003c6, 0x3e9d7b78, 0x0183fc00, 0x12dcbfdb, 0xe2e2c38e] +
    [0xc8215c1a, 0xb73679a2, 0xe5bc3909, 0x32663c5b, 0x9d209d67, 0xec8726cb, 0x702138a4, 0xd3b7973b] +
    [0x93f5997f, 0x3b68ba73, 0xaff4ffc1, 0xf10a5c62, 0x0a8b3996, 0x72af830a, 0x9409e33e, 0x24641522] +
    [0x9f47bf94, 0xf0a64f5a, 0x3e246a79, 0x27333ba3, 0x0c4763f2, 0x840abf27, 0x7a290d5d, 0x065c43da] +
    [0xfb3e89cb, 0xcc7617db, 0xb9e66c34, 0xa9993667, 0x84badedd, 0xc21462bc, 0x1487472c, 0xb20f7a99] +
    [0xef57b9cd, 0xebe6b238, 0x9fe3095e, 0x78bc8d4b, 0xa43fcf15, 0x668b2ff8, 0xeeaba2cc, 0x12b1edeb]

  /** Both tables, entry by entry. */
  lemma Table0To7()
    ensures K[0] == 0x428a2f98 && W[0] == 0x61626380
    ensures K[1] == 0x71374491 && W[1] == 0x00000000
    ensures K[2] == 0xb5c0fbcf && W[2] == 0x00000000
    ensures K[3] == 0xe9b5dba5 && W[3] == 0x00000000
    ensures K[4] == 0x3956c25b && W[4] == 0x00000000
    ensures K[5] == 0x59f111f1 && W[5] == 0x00000000
    ensures K[6] == 0x923f82a4 && W[6] == 0x00000000
    ensures K[7] == 0xab1c5ed5 && W[7] == 0x00000000
  {
  }

  lemma Table8To15()
    ensures K[8] == 0xd807aa98 && W[8] == 0x00000000
    ensures K[9] == 0x12835b01 && W[9] == 0x00000000
    ensures K[10] == 0x243185be && W[10] == 0x00000000
    ensures K[11] == 0x550c7dc3 && W[11] == 0x00000000
    ensures K[12] == 0x72be5d74 && W[12] == 0x00000000
    ensures K[13] == 0x80deb1fe && W[13] == 0x00000000
    ensures K[14] == 0x9bdc06a7 && W[14] == 0x00000000
    ensures K[15] == 0xc19bf174 && W[15] == 0x00000018
  {
  }

  lemma Table16To23()
    ensures K[16] == 0xe49b69c1 && W[16] == 0x61626380
    ensures K[17] == 0xefbe4786 && W[17] == 0x000f0000
    ensures K[18] == 0x0fc19dc6 && W[18] == 0x7da86405
    ensures K[19] == 0x240ca1cc && W[19] == 0x600003c6
    ensures K[20] == 0x2de92c6f && W[20] == 0x3e9d7b78
    ensures K[21] == 0x4a7484aa && W[21] == 0x0183fc00
    ensures K[22] == 0x5cb0a9dc && W[22] == 0x12dcbfdb
    ensures K[23] == 0x76f988da && W[23] == 0xe2e2c38e
  {
  }

  lemma Table24To31()
    ensures K[24] == 0x983e5152 && W[24] == 0xc8215c1a
    ensures K[25] == 0xa831c66d && W[25] == 0xb73679a2
    ensures K[26] == 0xb00327c8 && W[26] == 0xe5bc3909
    ensures K[27] == 0xbf597fc7 && W[27] == 0x32663c5b
    ensures K[28] == 0xc6e00bf3 && W[28] == 0x9d209d67
    ensures K[29] == 0xd5a79147 && W[29] == 0xec8726cb
    ensures K[30] == 0x06ca6351 && W[30] == 0x702138a4
    ensures K[31] == 0x14292967 && W[31] == 0xd3b7973b
  {
  }

  lemma Table32To39()
    ensures K[32] == 0x27b70a85 && W[32] == 0x93f5997f
    ensures K[33] == 0x2e1b2138 && W[33] == 0x3b68ba73
    ensures K[34] == 0x4d2c6dfc && W[34] == 0xaff4ffc1
    ensures K[35] == 0x53380d13 && W[35] == 0xf10a5c62
    ensures K[36] == 0x650a7354 && W[36] == 0x0a8b3996
    ensures K[37] == 0x766a0abb && W[37] == 0x72af830a
    ensures K[38] == 0x81c2c92e && W[38] == 0x9409e33e
    ensures K[39] == 0x92722c85 && W[39] == 0x24641522
  {
  }

  lemma Table40To47()
    ensures K[40] == 0xa2bfe8a1 && W[40] == 0x9f47bf94
    ensures K[41] == 0xa81a664b && W[41] == 0xf0a64f5a
    ensures K[42] == 0xc24b8b70 && W[42] == 0x3e246a79
    ensures K[43] == 0xc76c51a3 && W[43] == 0x27333ba3
    ensures K[44] == 0xd192e819 && W[44] == 0x0c4763f2
    ensures K[45] == 0xd6990624 && W[45] == 0x840abf27
    ensures K[46] == 0xf40e3585 && W[46] == 0x7a290d5d
    ensures K[47] == 0x106aa070 && W[47] == 0x065c43da
  {
  }

  lemma Table48To55()
    ensures K[48] == 0x19a4c116 && W[48] == 0xfb3e89cb
    ensures K[49] == 0x1e376c08 && W[49] == 0xcc7617db
    ensures K[50] == 0x2748774c && W[50] == 0xb9e66c34
    ensures K[51] == 0x34b0bcb5 && W[51] == 0xa9993667
    ensures K[52] == 0x391c0cb3 && W[52] == 0x84badedd
    ensures K[53] == 0x4ed8aa4a && W[53] == 0xc21462bc
    ensures K[54] == 0x5b9cca4f && W[54] == 0x1487472c
    ensures K[55] == 0x682e6ff3 && W[55] == 0xb20f7a99
  {
  }

  lemma Table56To63()
    ensures K[56] == 0x748f82ee && W[56] == 0xef57b9cd
    ensures K[57] == 0x78a5636f && W[57] == 0xebe6b238
    ensures K[58] == 0x84c87814 && W[58] == 0x9fe3095e
    ensures K[59] == 0x8cc70208 && W[59] == 0x78bc8d4b
    ensures K[60] == 0x90befffa && W[60] == 0xa43fcf15
    ensures K[61] == 0xa4506ceb && W[61] == 0x668b2ff8
    ensures K[62] == 0xbef9a3f7 && W[62] == 0xeeaba2cc
    ensures K[63] == 0xc67178f2 && W[63] == 0x12b1edeb
  {
  }

  /** The block is all zeros between its first and its last word. */
  lemma BlockWords(t: nat)
    requires t < 16
    ensures Schedule(Block(), t) == if t == 0 then 0x61626380 else if t == 15 then 0x18 else 0
  {
    var w := Block()[4 * t..4 * t + 4];
    assert ZeroBytes(3) == 52 && AsWord(24) == 24 && AsWord(0) == 0;
    assert LengthField(24) == Unpack(0) + Unpack(24);
    if t == 0 {
      assert w == ABC + [0x80];
    } else if t < 15 {
      assert w == [0, 0, 0, 0];
    } else {
      assert w == [0, 0, 0, 0x18];
    }
  }

  lemma FirstWords(t: nat)
    requires t < 16
    ensures Schedule(Block(), t) == W[t]
  {
    BlockWords(t);
    hide Block, Schedule;
  }

  predicate Follows(t: nat)
    requires 16 <= t < 64
  {
    W[t] == Sum4(SmallSigma1(W[t - 2]), W[t - 7], SmallSigma0(W[t - 15]), W[t - 16])
  }

  lemma Words16To23(t: nat)
    requires 16 <= t <= 23
    ensures Follows(t)
  {
    hide W;
    Table0To7();
    Table8To15();
    Table16To23();
    assert Follows(16);
    assert Follows(17);
    assert Follows(18);
    assert Follows(19);
    assert Follows(20);
    assert Follows(21);
    assert Follows(22);
    assert Follows(23);
  }

  lemma Words24To31(t: nat)
    requires 24 <= t <= 31
    ensures Follows(t)
  {
    hide W;
    Table8To15();
    Table16To23();
    Table24To31();
    assert Follows(24);
    assert Follows(25);
    assert Follows(26);
    assert Follows(27);
    assert Follows(28);
    assert Follows(29);
    assert Follows(30);
    assert Follows(31);
  }

  lemma Words32To39(t: nat)
    requires 32 <= t <= 39
    ensures Follows(t)
  {
    hide W;
    Table16To23();
    Table24To31();
    Table32To39();
    assert Follows(32);
    assert Follows(33);
    assert Follows(34);
    assert Follows(35);
    assert Follows(36);
    assert Follows(37);
    assert Follows(38);
    assert Follows(39);
  }

  lemma Words40To47(t: nat)
    requires 40 <= t <= 47
    ensures Follows(t)
  {
    hide W;
    Table24To31();
    Table32To39();
    Table40To47();
    assert Follows(40);
    assert Follows(41);
    assert Follows(42);
    assert Follows(43);
    assert Follows(44);
    assert Follows(45);
    assert Follows(46);
    assert Follows(47);
  }

  lemma Words48To55(t: nat)
    requires 48 <= t <= 55
    ensures Follows(t)
  {
    hide W;
    Table32To39();
    Table40To47();
    Table48To55();
    assert Follows(48);
    assert Follows(49);
    assert Follows(50);
    assert Follows(51);
    assert Follows(52);
    assert Follows(53);
    assert Follows(54);
    assert Follows(55);
  }

  lemma Words56To63(t: nat)
    requires 56 <= t <= 63
    ensures Follows(t)
  {
    hide W;
    Table40To47();
    Table48To55();
    Table56To63();
    assert Follows(56);
    assert Follows(57);
    assert Follows(58);
    assert Follows(59);
    assert Follows(60);
    assert Follows(61);
    assert Follows(62);
    assert Follows(63);
  }

  lemma EveryWordFollows(t: nat)
    requires 16 <= t < 64
    ensures Follows(t)
  {
    hide *;
    if
    case 16 <= t <= 23 => Words16To23(t);
    case 24 <= t <= 31 => Words24To31(t);
    case 32 <= t <= 39 => Words32To39(t);
    case 40 <= t <= 47 => Words40To47(t);
    case 48 <= t <= 55 => Words48To55(t);
    case 56 <= t <= 63 => Words56To63(t);
  }

  lemma {:induction false} ScheduleIsTable(t: nat)
    requires t < 64
    ensures Schedule(Block(), t) == W[t]
  {
    hide Block, SmallSigma0, SmallSigma1, W;
    if t < 16 {
      FirstWords(t);
    } else {
      ScheduleIsTable(t - 2);
      ScheduleIsTable(t - 7);
      ScheduleIsTable(t - 15);
      ScheduleIsTable(t - 16);
      EveryWordFollows(t);
    }
  }

  // ----- the rounds -------------------------------------------------------------------------

  /** The working variables after `t` rounds. */
  function After(t: nat): Regs
    requires t <= 64
  {
    Rounds(INITIAL, Block(), t)
  }

  lemma NoRound()
    ensures After(0) == INITIAL
  {
  }

  lemma OneRound(t: nat)
    requires t < 64
    ensures After(t + 1) == Round(After(t), K[t], W[t])
  {
    ScheduleIsTable(t);
    hide Block, Round, Schedule;
  }

  lemma Rounds0To7()
    ensures After(8) ==
      Regs(0x85a07b5f, 0xe5030380, 0x2b4209f5, 0x04409a6a, 0x0c657a79, 0x9b27a401, 0x714260ad, 0x43ada245)
  {
    hide After, K, W;
    Table0To7();
    NoRound();
    OneRound(0);
    assert After(1) ==
      Regs(0x5d6aebcd, 0x6a09e667, 0xbb67ae85, 0x3c6ef372, 0xfa2a4622, 0x510e527f, 0x9b05688c, 0x1f83d9ab);
    OneRound(1);
    assert After(2) ==
      Regs(0x5a6ad9ad, 0x5d6aebcd, 0x6a09e667, 0xbb67ae85, 0x78ce7989, 0xfa2a4622, 0x510e527f, 0x9b05688c);
    OneRound(2);
    assert After(3) ==
      Regs(0xc8c347a7, 0x5a6ad9ad, 0x5d6aebcd, 0x6a09e667, 0xf92939eb, 0x78ce7989, 0xfa2a4622, 0x510e527f);
    OneRound(3);
    assert After(4) ==
      Regs(0xd550f666, 0xc8c347a7, 0x5a6ad9ad, 0x5d6aebcd, 0x24e00850, 0xf92939eb, 0x78ce7989, 0xfa2a4622);
    OneRound(4);
    assert After(5) ==
      Regs(0x04409a6a, 0xd550f666, 0xc8c347a7, 0x5a6ad9ad, 0x43ada245, 0x24e00850, 0xf92939eb, 0x78ce7989);
    OneRound(5);
    assert After(6) ==
      Regs(0x2b4209f5, 0x04409a6a, 0xd550f666, 0xc8c347a7, 0x714260ad, 0x43ada245, 0x24e00850, 0xf92939eb);
    OneRound(6);
    assert After(7) ==
      Regs(0xe5030380, 0x2b4209f5, 0x04409a6a, 0xd550f666, 0x9b27a401, 0x714260ad, 0x43ada245, 0x24e00850);
    OneRound(7);
  }

  lemma Rounds8To15()
    ensures After(16) ==
      Regs(0xb0fa238e, 0xc0645fde, 0xd932eb16, 0x87912990, 0x07590dcd, 0x0b92f20c, 0x745a48de, 0x1e578218)
  {
    hide After, K, W;
    Table8To15();
    Rounds0To7();
    OneRound(8);
    assert After(9) ==
      Regs(0x8e04ecb9, 0x85a07b5f, 0xe5030380, 0x2b4209f5, 0x32ca2d8c, 0x0c657a79, 0x9b27a401, 0x714260ad);
    OneRound(9);
    assert After(10) ==
      Regs(0x8c87346b, 0x8e04ecb9, 0x85a07b5f, 0xe5030380, 0x1cc92596, 0x32ca2d8c, 0x0c657a79, 0x9b27a401);
    OneRound(10);
    assert After(11) ==
      Regs(0x4798a3f4, 0x8c87346b, 0x8e04ecb9, 0x85a07b5f, 0x436b23e8, 0x1cc92596, 0x32ca2d8c, 0x0c657a79);
    OneRound(11);
    assert After(12) ==
      Regs(0xf71fc5a9, 0x4798a3f4, 0x8c87346b, 0x8e04ecb9, 0x816fd6e9, 0x436b23e8, 0x1cc92596, 0x32ca2d8c);
    OneRound(12);
    assert After(13) ==
      Regs(0x87912990, 0xf71fc5a9, 0x4798a3f4, 0x8c87346b, 0x1e578218, 0x816fd6e9, 0x436b23e8, 0x1cc92596);
    OneRound(13);
    assert After(14) ==
      Regs(0xd932eb16, 0x87912990, 0xf71fc5a9, 0x4798a3f4, 0x745a48de, 0x1e578218, 0x816fd6e9, 0x436b23e8);
    OneRound(14);
    assert After(15) ==
      Regs(0xc0645fde, 0xd932eb16, 0x87912990, 0xf71fc5a9, 0x0b92f20c, 0x745a48de, 0x1e578218, 0x816fd6e9);
    OneRound(15);
  }

  lemma Rounds16To23()
    ensures After(24) ==
      Regs(0xc5d53d8d, 0xa7a3623f, 0xc2606d6d, 0x9dc68b63, 0xaa47c347, 0x49f5114a, 0xe1257970, 0x8ada8930)
  {
    hide After, K, W;
    Table16To23();
    Rounds8To15();
    OneRound(16);
    assert After(17) ==
      Regs(0x21da9a9b, 0xb0fa238e, 0xc0645fde, 0xd932eb16, 0x8034229c, 0x07590dcd, 0x0b92f20c, 0x745a48de);
    OneRound(17);
    assert After(18) ==
      Regs(0xc2fbd9d1, 0x21da9a9b, 0xb0fa238e, 0xc0645fde, 0x846ee454, 0x8034229c, 0x07590dcd, 0x0b92f20c);
    OneRound(18);
    assert After(19) ==
      Regs(0xfe777bbf, 0xc2fbd9d1, 0x21da9a9b, 0xb0fa238e, 0xcc899961, 0x846ee454, 0x8034229c, 0x07590dcd);
    OneRound(19);
    assert After(20) ==
      Regs(0xe1f20c33, 0xfe777bbf, 0xc2fbd9d1, 0x21da9a9b, 0xb0638179, 0xcc899961, 0x846ee454, 0x8034229c);
    OneRound(20);
    assert After(21) ==
      Regs(0x9dc68b63, 0xe1f20c33, 0xfe777bbf, 0xc2fbd9d1, 0x8ada8930, 0xb0638179, 0xcc899961, 0x846ee454);
    OneRound(21);
    assert After(22) ==
      Regs(0xc2606d6d, 0x9dc68b63, 0xe1f20c33, 0xfe777bbf, 0xe1257970, 0x8ada8930, 0xb0638179, 0xcc899961);
    OneRound(22);
    assert After(23) ==
      Regs(0xa7a3623f, 0xc2606d6d, 0x9dc68b63, 0xe1f20c33, 0x49f5114a, 0xe1257970, 0x8ada8930, 0xb0638179);
    OneRound(23);
  }

  lemma Rounds24To31()
    ensures After(32) ==
      Regs(0x73b33bf5, 0xea992a22, 0xa0060b30, 0x363482c9, 0xba591112, 0x0109ab3a, 0xade79437, 0x6112a3b7)
  {
    hide After, K, W;
    Table24To31();
    Rounds16To23();
    OneRound(24);
    assert After(25) ==
      Regs(0x1c2c2838, 0xc5d53d8d, 0xa7a3623f, 0xc2606d6d, 0x2823ef91, 0xaa47c347, 0x49f5114a, 0xe1257970);
    OneRound(25);
    assert After(26) ==
      Regs(0xcde8037d, 0x1c2c2838, 0xc5d53d8d, 0xa7a3623f, 0x14383d8e, 0x2823ef91, 0xaa47c347, 0x49f5114a);
    OneRound(26);
    assert After(27) ==
      Regs(0xb62ec4bc, 0xcde8037d, 0x1c2c2838, 0xc5d53d8d, 0xc74c6516, 0x14383d8e, 0x2823ef91, 0xaa47c347);
    OneRound(27);
    assert After(28) ==
      Regs(0x77d37528, 0xb62ec4bc, 0xcde8037d, 0x1c2c2838, 0xedffbff8, 0xc74c6516, 0x14383d8e, 0x2823ef91);
    OneRound(28);
    assert After(29) ==
      Regs(0x363482c9, 0x77d37528, 0xb62ec4bc, 0xcde8037d, 0x6112a3b7, 0xedffbff8, 0xc74c6516, 0x14383d8e);
    OneRound(29);
    assert After(30) ==
      Regs(0xa0060b30, 0x363482c9, 0x77d37528, 0xb62ec4bc, 0xade79437, 0x6112a3b7, 0xedffbff8, 0xc74c6516);
    OneRound(30);
    assert After(31) ==
      Regs(0xea992a22, 0xa0060b30, 0x363482c9, 0x77d37528, 0x0109ab3a, 0xade79437, 0x6112a3b7, 0xedffbff8);
    OneRound(31);
  }

  lemma Rounds32To39()
    ensures After(40) ==
      Regs(0x79ea687a, 0x6dc57a8a, 0x34df1604, 0x41a65cb1, 0x1efbc0a0, 0xf0781bc8, 0xa507a53d, 0x0772a26b)
  {
    hide After, K, W;
    Table32To39();
    Rounds24To31();
    OneRound(32);
    assert After(33) ==
      Regs(0x98e12507, 0x73b33bf5, 0xea992a22, 0xa0060b30, 0x9cd9f5f6, 0xba591112, 0x0109ab3a, 0xade79437);
    OneRound(33);
    assert After(34) ==
      Regs(0xfe604df5, 0x98e12507, 0x73b33bf5, 0xea992a22, 0x59249dd3, 0x9cd9f5f6, 0xba591112, 0x0109ab3a);
    OneRound(34);
    assert After(35) ==
      Regs(0xa9a7738c, 0xfe604df5, 0x98e12507, 0x73b33bf5, 0x085f3833, 0x59249dd3, 0x9cd9f5f6, 0xba591112);
    OneRound(35);
    assert After(36) ==
      Regs(0x65a0cfe4, 0xa9a7738c, 0xfe604df5, 0x98e12507, 0xf4b002d6, 0x085f3833, 0x59249dd3, 0x9cd9f5f6);
    OneRound(36);
    assert After(37) ==
      Regs(0x41a65cb1, 0x65a0cfe4, 0xa9a7738c, 0xfe604df5, 0x0772a26b, 0xf4b002d6, 0x085f3833, 0x59249dd3);
    OneRound(37);
    assert After(38) ==
      Regs(0x34df1604, 0x41a65cb1, 0x65a0cfe4, 0xa9a7738c, 0xa507a53d, 0x0772a26b, 0xf4b002d6, 0x085f3833);
    OneRound(38);
    assert After(39) ==
      Regs(0x6dc57a8a, 0x34df1604, 0x41a65cb1, 0x65a0cfe4, 0xf0781bc8, 0xa507a53d, 0x0772a26b, 0xf4b002d6);
    OneRound(39);
  }

  lemma Rounds40To47()
    ensures After(48) ==
      Regs(0x4172328d, 0xa14c14b0, 0x72ab4b91, 0x26628815, 0xfecf0bc6, 0xd57b94a9, 0xb7755da1, 0xa80f11f0)
  {
    hide After, K, W;
    Table40To47();
    Rounds32To39();
    OneRound(40);
    assert After(41) ==
      Regs(0xd6670766, 0x79ea687a, 0x6dc57a8a, 0x34df1604, 0x26352d63, 0x1efbc0a0, 0xf0781bc8, 0xa507a53d);
    OneRound(41);
    assert After(42) ==
      Regs(0xdf46652f, 0xd6670766, 0x79ea687a, 0x6dc57a8a, 0x838b2711, 0x26352d63, 0x1efbc0a0, 0xf0781bc8);
    OneRound(42);
    assert After(43) ==
      Regs(0x17aa0dfe, 0xdf46652f, 0xd6670766, 0x79ea687a, 0xdecd4715, 0x838b2711, 0x26352d63, 0x1efbc0a0);
    OneRound(43);
    assert After(44) ==
      Regs(0x9d4baf93, 0x17aa0dfe, 0xdf46652f, 0xd6670766, 0xfda24c2e, 0xdecd4715, 0x838b2711, 0x26352d63);
    OneRound(44);
    assert After(45) ==
      Regs(0x26628815, 0x9d4baf93, 0x17aa0dfe, 0xdf46652f, 0xa80f11f0, 0xfda24c2e, 0xdecd4715, 0x838b2711);
    OneRound(45);
    assert After(46) ==
      Regs(0x72ab4b91, 0x26628815, 0x9d4baf93, 0x17aa0dfe, 0xb7755da1, 0xa80f11f0, 0xfda24c2e, 0xdecd4715);
    OneRound(46);
    assert After(47) ==
      Regs(0xa14c14b0, 0x72ab4b91, 0x26628815, 0x9d4baf93, 0xd57b94a9, 0xb7755da1, 0xa80f11f0, 0xfda24c2e);
    OneRound(47);
  }

  lemma Rounds48To55()
    ensures After(56) ==
      Regs(0x38cc9913, 0x3ec45cdb, 0xf5702fdb, 0x101fd28f, 0x54cb266b, 0xe50e1b4f, 0x9f4787c3, 0x529e7d00)
  {
    hide After, K, W;
    Table48To55();
    Rounds40To47();
    OneRound(48);
    assert After(49) ==
      Regs(0x05757ceb, 0x4172328d, 0xa14c14b0, 0x72ab4b91, 0xbd714038, 0xfecf0bc6, 0xd57b94a9, 0xb7755da1);
    OneRound(49);
    assert After(50) ==
      Regs(0xf11bfaa8, 0x05757ceb, 0x4172328d, 0xa14c14b0, 0x6e5c390c, 0xbd714038, 0xfecf0bc6, 0xd57b94a9);
    OneRound(50);
    assert After(51) ==
      Regs(0x7a0508a1, 0xf11bfaa8, 0x05757ceb, 0x4172328d, 0x52f1ccf7, 0x6e5c390c, 0xbd714038, 0xfecf0bc6);
    OneRound(51);
    assert After(52) ==
      Regs(0x886e7a22, 0x7a0508a1, 0xf11bfaa8, 0x05757ceb, 0x49231c1e, 0x52f1ccf7, 0x6e5c390c, 0xbd714038);
    OneRound(52);
    assert After(53) ==
      Regs(0x101fd28f, 0x886e7a22, 0x7a0508a1, 0xf11bfaa8, 0x529e7d00, 0x49231c1e, 0x52f1ccf7, 0x6e5c390c);
    OneRound(53);
    assert After(54) ==
      Regs(0xf5702fdb, 0x101fd28f, 0x886e7a22, 0x7a0508a1, 0x9f4787c3, 0x529e7d00, 0x49231c1e, 0x52f1ccf7);
    OneRound(54);
    assert After(55) ==
      Regs(0x3ec45cdb, 0xf5702fdb, 0x101fd28f, 0x886e7a22, 0xe50e1b4f, 0x9f4787c3, 0x529e7d00, 0x49231c1e);
    OneRound(55);
  }

  lemma Rounds56To63()
    ensures After(64) ==
      Regs(0x506e3058, 0xd39a2165, 0x04d24d6c, 0xb85e2ce9, 0x5ef50f24, 0xfb121210, 0x948d25b6, 0x961f4894)
  {
    hide After, K, W;
    Table56To63();
    Rounds48To55();
    OneRound(56);
    assert After(57) ==
      Regs(0xfcd1887b, 0x38cc9913, 0x3ec45cdb, 0xf5702fdb, 0x9b5e906c, 0x54cb266b, 0xe50e1b4f, 0x9f4787c3);
    OneRound(57);
    assert After(58) ==
      Regs(0xc062d46f, 0xfcd1887b, 0x38cc9913, 0x3ec45cdb, 0x7e44008e, 0x9b5e906c, 0x54cb266b, 0xe50e1b4f);
    OneRound(58);
    assert After(59) ==
      Regs(0xffb70472, 0xc062d46f, 0xfcd1887b, 0x38cc9913, 0x6d83bfc6, 0x7e44008e, 0x9b5e906c, 0x54cb266b);
    OneRound(59);
    assert After(60) ==
      Regs(0xb6ae8fff, 0xffb70472, 0xc062d46f, 0xfcd1887b, 0xb21bad3d, 0x6d83bfc6, 0x7e44008e, 0x9b5e906c);
    OneRound(60);
    assert After(61) ==
      Regs(0xb85e2ce9, 0xb6ae8fff, 0xffb70472, 0xc062d46f, 0x961f4894, 0xb21bad3d, 0x6d83bfc6, 0x7e44008e);
    OneRound(61);
    assert After(62) ==
      Regs(0x04d24d6c, 0xb85e2ce9, 0xb6ae8fff, 0xffb70472, 0x948d25b6, 0x961f4894, 0xb21bad3d, 0x6d83bfc6);
    OneRound(62);
    assert After(63) ==
      Regs(0xd39a2165, 0x04d24d6c, 0xb85e2ce9, 0xb6ae8fff, 0xfb121210, 0x948d25b6, 0x961f4894, 0xb21bad3d);
    OneRound(63);
  }

  // ----- the digest -------------------------------------------------------------------------

  lemma OneCompression()
    ensures Compress(INITIAL, Block()) ==
      Regs(0xba7816bf, 0x8f01cfea, 0x414140de, 0x5dae2223, 0xb00361a3, 0x96177a9c, 0xb410ff61, 0xf20015ad)
  {
    Rounds56To63();
    hide Block, Rounds, Schedule;
  }

  lemma OneBlock()
    ensures HashBlocks(INITIAL, Block()) == Compress(INITIAL, Block())
  {
    hide Compress, Block;
    LastBlock(INITIAL, Block(), [], Block());
  }

  lemma OneWord(w: seq<Word>, n: nat)
    requires n < |w|
    ensures UnpackAll(w[..n + 1]) == UnpackAll(w[..n]) + Unpack(w[n])
  {
    assert w[..n + 1][..n] == w[..n];
  }

  lemma FourWords(w: seq<Word>)
    requires |w| >= 4
    ensures UnpackAll(w[..4]) == Unpack(w[0]) + Unpack(w[1]) + Unpack(w[2]) + Unpack(w[3])
  {
    OneWord(w, 0);
    assert UnpackAll(w[..0]) == [];
    hide *;
    OneWord(w, 1);
    OneWord(w, 2);
    OneWord(w, 3);
  }

  lemma EightWords(w: seq<Word>)
    requires |w| == 8
    ensures UnpackAll(w) == UnpackAll(w[..4]) + Unpack(w[4]) + Unpack(w[5]) + Unpack(w[6]) + Unpack(w[7])
  {
    hide *;
    OneWord(w, 4);
    OneWord(w, 5);
    OneWord(w, 6);
    OneWord(w, 7);
    assert w[..8] == w;
  }

  lemma DigestWords(r: Regs)
    ensures Digest(r) == Unpack(r.a) + Unpack(r.b) + Unpack(r.c) + Unpack(r.d) +
                         Unpack(r.e) + Unpack(r.f) + Unpack(r.g) + Unpack(r.h)
  {
    FourWords(WordsOf(r));
    EightWords(WordsOf(r));
    hide UnpackAll, Unpack;
  }

  /** The digest, word by word. */
  lemma DigestOfAbc()
    ensures Sha256(ABC) ==
      Unpack(0xba7816bf) + Unpack(0x8f01cfea) + Unpack(0x414140de) + Unpack(0x5dae2223) +
      Unpack(0xb00361a3) + Unpack(0x96177a9c) + Unpack(0xb410ff61) + Unpack(0xf20015ad)
  {
    OneBlock();
    OneCompression();
    DigestWords(Compress(INITIAL, Block()));
    hide HashBlocks, Block, Compress, Digest, Unpack;
  }
}
