/** A known answer of SHA-256, the message `abc`, worked through round by round. */
module Sha256Known {
  import opened Machine
  import opened Fips180

  const ABC: seq<byte> := [0x61, 0x62, 0x63]

  lemma OneBlock()
    ensures |Padded(ABC)| == 64
    ensures Padded(ABC)[..4] == [0x61, 0x62, 0x63, 0x80] && Padded(ABC)[63] == 24
    ensures forall i :: 4 <= i < 63 ==> Padded(ABC)[i] == 0
  {
    assert ZeroBytes(3) == 52;
    LengthBytes();
  }

  lemma LengthBytes()
    ensures BigEndian(24, LENGTH_BYTES) == [0, 0, 0, 0, 0, 0, 0, 24]
  {
    assert BigEndian(0, 7) == [0, 0, 0, 0, 0, 0, 0] by {
      assert BigEndian(0, 4) == [0, 0, 0, 0];
      assert BigEndian(0, 5) == BigEndian(0, 4) + [0];
      assert BigEndian(0, 6) == BigEndian(0, 5) + [0];
    }
    assert BigEndian(24, 8) == BigEndian(0, 7) + [24];
  }

  /** Word `t` of the schedule of that block. */
  function Wabc(t: nat): Word
    requires t < 64
  {
    OneBlock();
    W(Padded(ABC), t)
  }

  lemma FirstWords()
    ensures Wabc(0) == 0x6162_6380 && Wabc(15) == 0x18
    ensures forall t :: 1 <= t < 15 ==> Wabc(t) == 0
  {
    var p := Padded(ABC);
    OneBlock();
    Bytewise();
    hide Padded, WordOf, Sum4;
    assert p[0..4] == [0x61, 0x62, 0x63, 0x80];
    assert p[60..64] == [0, 0, 0, 24];
    forall t | 1 <= t < 15 ensures Wabc(t) == 0 {
      assert p[4 * t..4 * t + 4] == [0, 0, 0, 0];
    }
  }

  lemma Bytewise()
    ensures WordOf([0x61, 0x62, 0x63, 0x80]) == 0x6162_6380
    ensures WordOf([0, 0, 0, 24]) == 0x18 && WordOf([0, 0, 0, 0]) == 0
  {}

  lemma NextIs(t: nat, w2: Word, w7: Word, w15: Word, w16: Word, w: Word)
    requires 16 <= t < 64
    requires Wabc(t - 2) == w2 && Wabc(t - 7) == w7 && Wabc(t - 15) == w15 && Wabc(t - 16) == w16
    requires Sum4(SmallSigma1(w2), w7, SmallSigma0(w15), w16) == w
    ensures Wabc(t) == w
  {}

  lemma Words16To31()
    ensures Wabc(16) == 0x6162_6380 && Wabc(17) == 0x000f_0000 && Wabc(18) == 0x7da8_6405 && Wabc(19) == 0x6000_03c6
    ensures Wabc(20) == 0x3e9d_7b78 && Wabc(21) == 0x0183_fc00 && Wabc(22) == 0x12dc_bfdb && Wabc(23) == 0xe2e2_c38e
    ensures Wabc(24) == 0xc821_5c1a && Wabc(25) == 0xb736_79a2 && Wabc(26) == 0xe5bc_3909 && Wabc(27) == 0x3266_3c5b
    ensures Wabc(28) == 0x9d20_9d67 && Wabc(29) == 0xec87_26cb && Wabc(30) == 0x7021_38a4 && Wabc(31) == 0xd3b7_973b
  {
    hide Wabc;
    FirstWords();
    NextIs(16, 0x0000_0000, 0x0000_0000, 0x0000_0000, 0x6162_6380, 0x6162_6380);
    NextIs(17, 0x0000_0018, 0x0000_0000, 0x0000_0000, 0x0000_0000, 0x000f_0000);
    NextIs(18, 0x6162_6380, 0x0000_0000, 0x0000_0000, 0x0000_0000, 0x7da8_6405);
    NextIs(19, 0x000f_0000, 0x0000_0000, 0x0000_0000, 0x0000_0000, 0x6000_03c6);
    NextIs(20, 0x7da8_6405, 0x0000_0000, 0x0000_0000, 0x0000_0000, 0x3e9d_7b78);
    NextIs(21, 0x6000_03c6, 0x0000_0000, 0x0000_0000, 0x0000_0000, 0x0183_fc00);
    NextIs(22, 0x3e9d_7b78, 0x0000_0018, 0x0000_0000, 0x0000_0000, 0x12dc_bfdb);
    NextIs(23, 0x0183_fc00, 0x6162_6380, 0x0000_0000, 0x0000_0000, 0xe2e2_c38e);
    NextIs(24, 0x12dc_bfdb, 0x000f_0000, 0x0000_0000, 0x0000_0000, 0xc821_5c1a);
    NextIs(25, 0xe2e2_c38e, 0x7da8_6405, 0x0000_0000, 0x0000_0000, 0xb736_79a2);
    NextIs(26, 0xc821_5c1a, 0x6000_03c6, 0x0000_0000, 0x0000_0000, 0xe5bc_3909);
    NextIs(27, 0xb736_79a2, 0x3e9d_7b78, 0x0000_0000, 0x0000_0000, 0x3266_3c5b);
    NextIs(28, 0xe5bc_3909, 0x0183_fc00, 0x0000_0000, 0x0000_0000, 0x9d20_9d67);
    NextIs(29, 0x3266_3c5b, 0x12dc_bfdb, 0x0000_0000, 0x0000_0000, 0xec87_26cb);
    NextIs(30, 0x9d20_9d67, 0xe2e2_c38e, 0x0000_0018, 0x0000_0000, 0x7021_38a4);
    NextIs(31, 0xec87_26cb, 0xc821_5c1a, 0x6162_6380, 0x0000_0018, 0xd3b7_973b);
  }

  lemma Words32To47()
    ensures Wabc(32) == 0x93f5_997f && Wabc(33) == 0x3b68_ba73 && Wabc(34) == 0xaff4_ffc1 && Wabc(35) == 0xf10a_5c62
    ensures Wabc(36) == 0x0a8b_3996 && Wabc(37) == 0x72af_830a && Wabc(38) == 0x9409_e33e && Wabc(39) == 0x2464_1522
    ensures Wabc(40) == 0x9f47_bf94 && Wabc(41) == 0xf0a6_4f5a && Wabc(42) == 0x3e24_6a79 && Wabc(43) == 0x2733_3ba3
    ensures Wabc(44) == 0x0c47_63f2 && Wabc(45) == 0x840a_bf27 && Wabc(46) == 0x7a29_0d5d && Wabc(47) == 0x065c_43da
  {
    hide Wabc;
    Words16To31();
    NextIs(32, 0x7021_38a4, 0xb736_79a2, 0x000f_0000, 0x6162_6380, 0x93f5_997f);
    NextIs(33, 0xd3b7_973b, 0xe5bc_3909, 0x7da8_6405, 0x000f_0000, 0x3b68_ba73);
    NextIs(34, 0x93f5_997f, 0x3266_3c5b, 0x6000_03c6, 0x7da8_6405, 0xaff4_ffc1);
    NextIs(35, 0x3b68_ba73, 0x9d20_9d67, 0x3e9d_7b78, 0x6000_03c6, 0xf10a_5c62);
    NextIs(36, 0xaff4_ffc1, 0xec87_26cb, 0x0183_fc00, 0x3e9d_7b78, 0x0a8b_3996);
    NextIs(37, 0xf10a_5c62, 0x7021_38a4, 0x12dc_bfdb, 0x0183_fc00, 0x72af_830a);
    NextIs(38, 0x0a8b_3996, 0xd3b7_973b, 0xe2e2_c38e, 0x12dc_bfdb, 0x9409_e33e);
    NextIs(39, 0x72af_830a, 0x93f5_997f, 0xc821_5c1a, 0xe2e2_c38e, 0x2464_1522);
    NextIs(40, 0x9409_e33e, 0x3b68_ba73, 0xb736_79a2, 0xc821_5c1a, 0x9f47_bf94);
    NextIs(41, 0x2464_1522, 0xaff4_ffc1, 0xe5bc_3909, 0xb736_79a2, 0xf0a6_4f5a);
    NextIs(42, 0x9f47_bf94, 0xf10a_5c62, 0x3266_3c5b, 0xe5bc_3909, 0x3e24_6a79);
    NextIs(43, 0xf0a6_4f5a, 0x0a8b_3996, 0x9d20_9d67, 0x3266_3c5b, 0x2733_3ba3);
    NextIs(44, 0x3e24_6a79, 0x72af_830a, 0xec87_26cb, 0x9d20_9d67, 0x0c47_63f2);
    NextIs(45, 0x2733_3ba3, 0x9409_e33e, 0x7021_38a4, 0xec87_26cb, 0x840a_bf27);
    NextIs(46, 0x0c47_63f2, 0x2464_1522, 0xd3b7_973b, 0x7021_38a4, 0x7a29_0d5d);
    NextIs(47, 0x840a_bf27, 0x9f47_bf94, 0x93f5_997f, 0xd3b7_973b, 0x065c_43da);
  }

  lemma Words48To63()
    ensures Wabc(48) == 0xfb3e_89cb && Wabc(49) == 0xcc76_17db && Wabc(50) == 0xb9e6_6c34 && Wabc(51) == 0xa999_3667
    ensures Wabc(52) == 0x84ba_dedd && Wabc(53) == 0xc214_62bc && Wabc(54) == 0x1487_472c && Wabc(55) == 0xb20f_7a99
    ensures Wabc(56) == 0xef57_b9cd && Wabc(57) == 0xebe6_b238 && Wabc(58) == 0x9fe3_095e && Wabc(59) == 0x78bc_8d4b
    ensures Wabc(60) == 0xa43f_cf15 && Wabc(61) == 0x668b_2ff8 && Wabc(62) == 0xeeab_a2cc && Wabc(63) == 0x12b1_edeb
  {
    hide Wabc;
    Words32To47();
    NextIs(48, 0x7a29_0d5d, 0xf0a6_4f5a, 0x3b68_ba73, 0x93f5_997f, 0xfb3e_89cb);
    NextIs(49, 0x065c_43da, 0x3e24_6a79, 0xaff4_ffc1, 0x3b68_ba73, 0xcc76_17db);
    NextIs(50, 0xfb3e_89cb, 0x2733_3ba3, 0xf10a_5c62, 0xaff4_ffc1, 0xb9e6_6c34);
    NextIs(51, 0xcc76_17db, 0x0c47_63f2, 0x0a8b_3996, 0xf10a_5c62, 0xa999_3667);
    NextIs(52, 0xb9e6_6c34, 0x840a_bf27, 0x72af_830a, 0x0a8b_3996, 0x84ba_dedd);
    NextIs(53, 0xa999_3667, 0x7a29_0d5d, 0x9409_e33e, 0x72af_830a, 0xc214_62bc);
    NextIs(54, 0x84ba_dedd, 0x065c_43da, 0x2464_1522, 0x9409_e33e, 0x1487_472c);
    NextIs(55, 0xc214_62bc, 0xfb3e_89cb, 0x9f47_bf94, 0x2464_1522, 0xb20f_7a99);
    NextIs(56, 0x1487_472c, 0xcc76_17db, 0xf0a6_4f5a, 0x9f47_bf94, 0xef57_b9cd);
    NextIs(57, 0xb20f_7a99, 0xb9e6_6c34, 0x3e24_6a79, 0xf0a6_4f5a, 0xebe6_b238);
    NextIs(58, 0xef57_b9cd, 0xa999_3667, 0x2733_3ba3, 0x3e24_6a79, 0x9fe3_095e);
    NextIs(59, 0xebe6_b238, 0x84ba_dedd, 0x0c47_63f2, 0x2733_3ba3, 0x78bc_8d4b);
    NextIs(60, 0x9fe3_095e, 0xc214_62bc, 0x840a_bf27, 0x0c47_63f2, 0xa43f_cf15);
    NextIs(61, 0x78bc_8d4b, 0x1487_472c, 0x7a29_0d5d, 0x840a_bf27, 0x668b_2ff8);
    NextIs(62, 0xa43f_cf15, 0xb20f_7a99, 0x065c_43da, 0x7a29_0d5d, 0xeeab_a2cc);
    NextIs(63, 0x668b_2ff8, 0xef57_b9cd, 0xfb3e_89cb, 0x065c_43da, 0x12b1_edeb);
  }

  /** The working variables after `t` rounds. */
  function Rabc(t: nat): Vars
    requires t <= 64
  {
    OneBlock();
    Rounds(Initial(), Padded(ABC), t)
  }

  lemma RoundIs(t: nat, v: Vars, k: Word, w: Word, a: Word, e: Word) returns (next: Vars)
    requires t < 64 && Rabc(t) == v && RoundConstant(t) == k && Wabc(t) == w
    requires Round(v, k, w) == Vars(a, v.a, v.b, v.c, e, v.e, v.f, v.g)
    ensures next == Rabc(t + 1) == Vars(a, v.a, v.b, v.c, e, v.e, v.f, v.g)
  {
    next := Round(v, k, w);
  }

  lemma Begins()
    ensures Rabc(0) ==
            Vars(0x6a09_e667, 0xbb67_ae85, 0x3c6e_f372, 0xa54f_f53a,
                 0x510e_527f, 0x9b05_688c, 0x1f83_d9ab, 0x5be0_cd19)
  {}

  lemma Constants0To15()
    ensures RoundConstant(0) == 0x428a_2f98 && RoundConstant(1) == 0x7137_4491 && RoundConstant(2) == 0xb5c0_fbcf
    ensures RoundConstant(3) == 0xe9b5_dba5 && RoundConstant(4) == 0x3956_c25b && RoundConstant(5) == 0x59f1_11f1
    ensures RoundConstant(6) == 0x923f_82a4 && RoundConstant(7) == 0xab1c_5ed5 && RoundConstant(8) == 0xd807_aa98
    ensures RoundConstant(9) == 0x1283_5b01 && RoundConstant(10) == 0x2431_85be && RoundConstant(11) == 0x550c_7dc3
    ensures RoundConstant(12) == 0x72be_5d74 && RoundConstant(13) == 0x80de_b1fe && RoundConstant(14) == 0x9bdc_06a7
    ensures RoundConstant(15) == 0xc19b_f174
  {
    hide CubeRootBits;
  }

  lemma Constants16To31()
    ensures RoundConstant(16) == 0xe49b_69c1 && RoundConstant(17) == 0xefbe_4786 && RoundConstant(18) == 0x0fc1_9dc6
    ensures RoundConstant(19) == 0x240c_a1cc && RoundConstant(20) == 0x2de9_2c6f && RoundConstant(21) == 0x4a74_84aa
    ensures RoundConstant(22) == 0x5cb0_a9dc && RoundConstant(23) == 0x76f9_88da && RoundConstant(24) == 0x983e_5152
    ensures RoundConstant(25) == 0xa831_c66d && RoundConstant(26) == 0xb003_27c8 && RoundConstant(27) == 0xbf59_7fc7
    ensures RoundConstant(28) == 0xc6e0_0bf3 && RoundConstant(29) == 0xd5a7_9147 && RoundConstant(30) == 0x06ca_6351
    ensures RoundConstant(31) == 0x1429_2967
  {
    hide CubeRootBits;
  }

  lemma Constants32To47()
    ensures RoundConstant(32) == 0x27b7_0a85 && RoundConstant(33) == 0x2e1b_2138 && RoundConstant(34) == 0x4d2c_6dfc
    ensures RoundConstant(35) == 0x5338_0d13 && RoundConstant(36) == 0x650a_7354 && RoundConstant(37) == 0x766a_0abb
    ensures RoundConstant(38) == 0x81c2_c92e && RoundConstant(39) == 0x9272_2c85 && RoundConstant(40) == 0xa2bf_e8a1
    ensures RoundConstant(41) == 0xa81a_664b && RoundConstant(42) == 0xc24b_8b70 && RoundConstant(43) == 0xc76c_51a3
    ensures RoundConstant(44) == 0xd192_e819 && RoundConstant(45) == 0xd699_0624 && RoundConstant(46) == 0xf40e_3585
    ensures RoundConstant(47) == 0x106a_a070
  {
    hide CubeRootBits;
  }

  lemma Constants48To63()
    ensures RoundConstant(48) == 0x19a4_c116 && RoundConstant(49) == 0x1e37_6c08 && RoundConstant(50) == 0x2748_774c
    ensures RoundConstant(51) == 0x34b0_bcb5 && RoundConstant(52) == 0x391c_0cb3 && RoundConstant(53) == 0x4ed8_aa4a
    ensures RoundConstant(54) == 0x5b9c_ca4f && RoundConstant(55) == 0x682e_6ff3 && RoundConstant(56) == 0x748f_82ee
    ensures RoundConstant(57) == 0x78a5_636f && RoundConstant(58) == 0x84c8_7814 && RoundConstant(59) == 0x8cc7_0208
    ensures RoundConstant(60) == 0x90be_fffa && RoundConstant(61) == 0xa450_6ceb && RoundConstant(62) == 0xbef9_a3f7
    ensures RoundConstant(63) == 0xc671_78f2
  {
    hide CubeRootBits;
  }

  lemma Rounds0To7()
    ensures Rabc(8) ==
            Vars(0x85a0_7b5f, 0xe503_0380, 0x2b42_09f5, 0x0440_9a6a,
                 0x0c65_7a79, 0x9b27_a401, 0x7142_60ad, 0x43ad_a245)
  {
    FirstWords();
    Constants0To15();
    hide Rabc, Wabc, RoundConstant;
    Begins();
    var v := Vars(0x6a09_e667, 0xbb67_ae85, 0x3c6e_f372, 0xa54f_f53a,
                  0x510e_527f, 0x9b05_688c, 0x1f83_d9ab, 0x5be0_cd19);
    v := RoundIs(0, v, 0x428a_2f98, 0x6162_6380, 0x5d6a_ebcd, 0xfa2a_4622);
    v := RoundIs(1, v, 0x7137_4491, 0x0000_0000, 0x5a6a_d9ad, 0x78ce_7989);
    v := RoundIs(2, v, 0xb5c0_fbcf, 0x0000_0000, 0xc8c3_47a7, 0xf929_39eb);
    v := RoundIs(3, v, 0xe9b5_dba5, 0x0000_0000, 0xd550_f666, 0x24e0_0850);
    v := RoundIs(4, v, 0x3956_c25b, 0x0000_0000, 0x0440_9a6a, 0x43ad_a245);
    v := RoundIs(5, v, 0x59f1_11f1, 0x0000_0000, 0x2b42_09f5, 0x7142_60ad);
    v := RoundIs(6, v, 0x923f_82a4, 0x0000_0000, 0xe503_0380, 0x9b27_a401);
    v := RoundIs(7, v, 0xab1c_5ed5, 0x0000_0000, 0x85a0_7b5f, 0x0c65_7a79);
  }

  lemma Rounds8To15()
    ensures Rabc(16) ==
            Vars(0xb0fa_238e, 0xc064_5fde, 0xd932_eb16, 0x8791_2990,
                 0x0759_0dcd, 0x0b92_f20c, 0x745a_48de, 0x1e57_8218)
  {
    FirstWords();
    Constants0To15();
    hide Rabc, Wabc, RoundConstant;
    Rounds0To7();
    var v := Vars(0x85a0_7b5f, 0xe503_0380, 0x2b42_09f5, 0x0440_9a6a,
                  0x0c65_7a79, 0x9b27_a401, 0x7142_60ad, 0x43ad_a245);
    v := RoundIs(8, v, 0xd807_aa98, 0x0000_0000, 0x8e04_ecb9, 0x32ca_2d8c);
    v := RoundIs(9, v, 0x1283_5b01, 0x0000_0000, 0x8c87_346b, 0x1cc9_2596);
    v := RoundIs(10, v, 0x2431_85be, 0x0000_0000, 0x4798_a3f4, 0x436b_23e8);
    v := RoundIs(11, v, 0x550c_7dc3, 0x0000_0000, 0xf71f_c5a9, 0x816f_d6e9);
    v := RoundIs(12, v, 0x72be_5d74, 0x0000_0000, 0x8791_2990, 0x1e57_8218);
    v := RoundIs(13, v, 0x80de_b1fe, 0x0000_0000, 0xd932_eb16, 0x745a_48de);
    v := RoundIs(14, v, 0x9bdc_06a7, 0x0000_0000, 0xc064_5fde, 0x0b92_f20c);
    v := RoundIs(15, v, 0xc19b_f174, 0x0000_0018, 0xb0fa_238e, 0x0759_0dcd);
  }

  lemma Rounds16To23()
    ensures Rabc(24) ==
            Vars(0xc5d5_3d8d, 0xa7a3_623f, 0xc260_6d6d, 0x9dc6_8b63,
                 0xaa47_c347, 0x49f5_114a, 0xe125_7970, 0x8ada_8930)
  {
    Words16To31();
    Constants16To31();
    hide Rabc, Wabc, RoundConstant;
    Rounds8To15();
    var v := Vars(0xb0fa_238e, 0xc064_5fde, 0xd932_eb16, 0x8791_2990,
                  0x0759_0dcd, 0x0b92_f20c, 0x745a_48de, 0x1e57_8218);
    v := RoundIs(16, v, 0xe49b_69c1, 0x6162_6380, 0x21da_9a9b, 0x8034_229c);
    v := RoundIs(17, v, 0xefbe_4786, 0x000f_0000, 0xc2fb_d9d1, 0x846e_e454);
    v := RoundIs(18, v, 0x0fc1_9dc6, 0x7da8_6405, 0xfe77_7bbf, 0xcc89_9961);
    v := RoundIs(19, v, 0x240c_a1cc, 0x6000_03c6, 0xe1f2_0c33, 0xb063_8179);
    v := RoundIs(20, v, 0x2de9_2c6f, 0x3e9d_7b78, 0x9dc6_8b63, 0x8ada_8930);
    v := RoundIs(21, v, 0x4a74_84aa, 0x0183_fc00, 0xc260_6d6d, 0xe125_7970);
    v := RoundIs(22, v, 0x5cb0_a9dc, 0x12dc_bfdb, 0xa7a3_623f, 0x49f5_114a);
    v := RoundIs(23, v, 0x76f9_88da, 0xe2e2_c38e, 0xc5d5_3d8d, 0xaa47_c347);
  }

  lemma Rounds24To31()
    ensures Rabc(32) ==
            Vars(0x73b3_3bf5, 0xea99_2a22, 0xa006_0b30, 0x3634_82c9,
                 0xba59_1112, 0x0109_ab3a, 0xade7_9437, 0x6112_a3b7)
  {
    Words16To31();
    Constants16To31();
    hide Rabc, Wabc, RoundConstant;
    Rounds16To23();
    var v := Vars(0xc5d5_3d8d, 0xa7a3_623f, 0xc260_6d6d, 0x9dc6_8b63,
                  0xaa47_c347, 0x49f5_114a, 0xe125_7970, 0x8ada_8930);
    v := RoundIs(24, v, 0x983e_5152, 0xc821_5c1a, 0x1c2c_2838, 0x2823_ef91);
    v := RoundIs(25, v, 0xa831_c66d, 0xb736_79a2, 0xcde8_037d, 0x1438_3d8e);
    v := RoundIs(26, v, 0xb003_27c8, 0xe5bc_3909, 0xb62e_c4bc, 0xc74c_6516);
    v := RoundIs(27, v, 0xbf59_7fc7, 0x3266_3c5b, 0x77d3_7528, 0xedff_bff8);
    v := RoundIs(28, v, 0xc6e0_0bf3, 0x9d20_9d67, 0x3634_82c9, 0x6112_a3b7);
    v := RoundIs(29, v, 0xd5a7_9147, 0xec87_26cb, 0xa006_0b30, 0xade7_9437);
    v := RoundIs(30, v, 0x06ca_6351, 0x7021_38a4, 0xea99_2a22, 0x0109_ab3a);
    v := RoundIs(31, v, 0x1429_2967, 0xd3b7_973b, 0x73b3_3bf5, 0xba59_1112);
  }

  lemma Rounds32To39()
    ensures Rabc(40) ==
            Vars(0x79ea_687a, 0x6dc5_7a8a, 0x34df_1604, 0x41a6_5cb1,
                 0x1efb_c0a0, 0xf078_1bc8, 0xa507_a53d, 0x0772_a26b)
  {
    Words32To47();
    Constants32To47();
    hide Rabc, Wabc, RoundConstant;
    Rounds24To31();
    var v := Vars(0x73b3_3bf5, 0xea99_2a22, 0xa006_0b30, 0x3634_82c9,
                  0xba59_1112, 0x0109_ab3a, 0xade7_9437, 0x6112_a3b7);
    v := RoundIs(32, v, 0x27b7_0a85, 0x93f5_997f, 0x98e1_2507, 0x9cd9_f5f6);
    v := RoundIs(33, v, 0x2e1b_2138, 0x3b68_ba73, 0xfe60_4df5, 0x5924_9dd3);
    v := RoundIs(34, v, 0x4d2c_6dfc, 0xaff4_ffc1, 0xa9a7_738c, 0x085f_3833);
    v := RoundIs(35, v, 0x5338_0d13, 0xf10a_5c62, 0x65a0_cfe4, 0xf4b0_02d6);
    v := RoundIs(36, v, 0x650a_7354, 0x0a8b_3996, 0x41a6_5cb1, 0x0772_a26b);
    v := RoundIs(37, v, 0x766a_0abb, 0x72af_830a, 0x34df_1604, 0xa507_a53d);
    v := RoundIs(38, v, 0x81c2_c92e, 0x9409_e33e, 0x6dc5_7a8a, 0xf078_1bc8);
    v := RoundIs(39, v, 0x9272_2c85, 0x2464_1522, 0x79ea_687a, 0x1efb_c0a0);
  }

  lemma Rounds40To47()
    ensures Rabc(48) ==
            Vars(0x4172_328d, 0xa14c_14b0, 0x72ab_4b91, 0x2662_8815,
                 0xfecf_0bc6, 0xd57b_94a9, 0xb775_5da1, 0xa80f_11f0)
  {
    Words32To47();
    Constants32To47();
    hide Rabc, Wabc, RoundConstant;
    Rounds32To39();
    var v := Vars(0x79ea_687a, 0x6dc5_7a8a, 0x34df_1604, 0x41a6_5cb1,
                  0x1efb_c0a0, 0xf078_1bc8, 0xa507_a53d, 0x0772_a26b);
    v := RoundIs(40, v, 0xa2bf_e8a1, 0x9f47_bf94, 0xd667_0766, 0x2635_2d63);
    v := RoundIs(41, v, 0xa81a_664b, 0xf0a6_4f5a, 0xdf46_652f, 0x838b_2711);
    v := RoundIs(42, v, 0xc24b_8b70, 0x3e24_6a79, 0x17aa_0dfe, 0xdecd_4715);
    v := RoundIs(43, v, 0xc76c_51a3, 0x2733_3ba3, 0x9d4b_af93, 0xfda2_4c2e);
    v := RoundIs(44, v, 0xd192_e819, 0x0c47_63f2, 0x2662_8815, 0xa80f_11f0);
    v := RoundIs(45, v, 0xd699_0624, 0x840a_bf27, 0x72ab_4b91, 0xb775_5da1);
    v := RoundIs(46, v, 0xf40e_3585, 0x7a29_0d5d, 0xa14c_14b0, 0xd57b_94a9);
    v := RoundIs(47, v, 0x106a_a070, 0x065c_43da, 0x4172_328d, 0xfecf_0bc6);
  }

  lemma Rounds48To55()
    ensures Rabc(56) ==
            Vars(0x38cc_9913, 0x3ec4_5cdb, 0xf570_2fdb, 0x101f_d28f,
                 0x54cb_266b, 0xe50e_1b4f, 0x9f47_87c3, 0x529e_7d00)
  {
    Words48To63();
    Constants48To63();
    hide Rabc, Wabc, RoundConstant;
    Rounds40To47();
    var v := Vars(0x4172_328d, 0xa14c_14b0, 0x72ab_4b91, 0x2662_8815,
                  0xfecf_0bc6, 0xd57b_94a9, 0xb775_5da1, 0xa80f_11f0);
    v := RoundIs(48, v, 0x19a4_c116, 0xfb3e_89cb, 0x0575_7ceb, 0xbd71_4038);
    v := RoundIs(49, v, 0x1e37_6c08, 0xcc76_17db, 0xf11b_faa8, 0x6e5c_390c);
    v := RoundIs(50, v, 0x2748_774c, 0xb9e6_6c34, 0x7a05_08a1, 0x52f1_ccf7);
    v := RoundIs(51, v, 0x34b0_bcb5, 0xa999_3667, 0x886e_7a22, 0x4923_1c1e);
    v := RoundIs(52, v, 0x391c_0cb3, 0x84ba_dedd, 0x101f_d28f, 0x529e_7d00);
    v := RoundIs(53, v, 0x4ed8_aa4a, 0xc214_62bc, 0xf570_2fdb, 0x9f47_87c3);
    v := RoundIs(54, v, 0x5b9c_ca4f, 0x1487_472c, 0x3ec4_5cdb, 0xe50e_1b4f);
    v := RoundIs(55, v, 0x682e_6ff3, 0xb20f_7a99, 0x38cc_9913, 0x54cb_266b);
  }

  lemma Rounds56To63()
    ensures Rabc(64) ==
            Vars(0x506e_3058, 0xd39a_2165, 0x04d2_4d6c, 0xb85e_2ce9,
                 0x5ef5_0f24, 0xfb12_1210, 0x948d_25b6, 0x961f_4894)
  {
    Words48To63();
    Constants48To63();
    hide Rabc, Wabc, RoundConstant;
    Rounds48To55();
    var v := Vars(0x38cc_9913, 0x3ec4_5cdb, 0xf570_2fdb, 0x101f_d28f,
                  0x54cb_266b, 0xe50e_1b4f, 0x9f47_87c3, 0x529e_7d00);
    v := RoundIs(56, v, 0x748f_82ee, 0xef57_b9cd, 0xfcd1_887b, 0x9b5e_906c);
    v := RoundIs(57, v, 0x78a5_636f, 0xebe6_b238, 0xc062_d46f, 0x7e44_008e);
    v := RoundIs(58, v, 0x84c8_7814, 0x9fe3_095e, 0xffb7_0472, 0x6d83_bfc6);
    v := RoundIs(59, v, 0x8cc7_0208, 0x78bc_8d4b, 0xb6ae_8fff, 0xb21b_ad3d);
    v := RoundIs(60, v, 0x90be_fffa, 0xa43f_cf15, 0xb85e_2ce9, 0x961f_4894);
    v := RoundIs(61, v, 0xa450_6ceb, 0x668b_2ff8, 0x04d2_4d6c, 0x948d_25b6);
    v := RoundIs(62, v, 0xbef9_a3f7, 0xeeab_a2cc, 0xd39a_2165, 0xfb12_1210);
    v := RoundIs(63, v, 0xc671_78f2, 0x12b1_edeb, 0x506e_3058, 0x5ef5_0f24);
  }

  lemma WordsOfAbc()
    ensures Sha256(ABC) ==
            Digest([0xba78_16bf, 0x8f01_cfea, 0x4141_40de, 0x5dae_2223,
                    0xb003_61a3, 0x9617_7a9c, 0xb410_ff61, 0xf200_15ad])
  {
    OneBlock();
    Begins();
    Rounds56To63();
    assert Padded(ABC)[0..64] == Padded(ABC);
    FinalSums();
    hide Padded, Rounds, Add, BytesOf, Digest;
  }

  /** The digest of `abc`. */
  lemma DigestOfAbc()
    ensures Sha256(ABC) ==
            [0xba, 0x78, 0x16, 0xbf] + [0x8f, 0x01, 0xcf, 0xea] +
            [0x41, 0x41, 0x40, 0xde] + [0x5d, 0xae, 0x22, 0x23] +
            [0xb0, 0x03, 0x61, 0xa3] + [0x96, 0x17, 0x7a, 0x9c] +
            [0xb4, 0x10, 0xff, 0x61] + [0xf2, 0x00, 0x15, 0xad]
  {
    hide *;
    WordsOfAbc();
    FinalBytes();
    Spelled(0xba78_16bf, 0x8f01_cfea, 0x4141_40de, 0x5dae_2223,
            0xb003_61a3, 0x9617_7a9c, 0xb410_ff61, 0xf200_15ad);
  }

  lemma Spelled(a: Word, b: Word, c: Word, d: Word, e: Word, f: Word, g: Word, h: Word)
    ensures Digest([a, b, c, d, e, f, g, h]) ==
            BytesOf(a) + BytesOf(b) + BytesOf(c) + BytesOf(d) + BytesOf(e) + BytesOf(f) + BytesOf(g) + BytesOf(h)
  {
    hide BytesOf, Digest;
    NoWords();
    OneMore([], a, [a]);
    OneMore([a], b, [a, b]);
    OneMore([a, b], c, [a, b, c]);
    OneMore([a, b, c], d, [a, b, c, d]);
    OneMore([a, b, c, d], e, [a, b, c, d, e]);
    OneMore([a, b, c, d, e], f, [a, b, c, d, e, f]);
    OneMore([a, b, c, d, e, f], g, [a, b, c, d, e, f, g]);
    OneMore([a, b, c, d, e, f, g], h, [a, b, c, d, e, f, g, h]);
    assert [] + BytesOf(a) == BytesOf(a);
  }

  lemma NoWords()
    ensures Digest([]) == []
  {}

  lemma OneMore(words: seq<Word>, w: Word, more: seq<Word>)
    requires more == words + [w]
    ensures Digest(more) == Digest(words) + BytesOf(w)
  {
    hide BytesOf;
    assert more[..|words|] == words;
  }

  lemma FinalBytes()
    ensures BytesOf(0xba78_16bf) == [0xba, 0x78, 0x16, 0xbf]
    ensures BytesOf(0x8f01_cfea) == [0x8f, 0x01, 0xcf, 0xea]
    ensures BytesOf(0x4141_40de) == [0x41, 0x41, 0x40, 0xde]
    ensures BytesOf(0x5dae_2223) == [0x5d, 0xae, 0x22, 0x23]
    ensures BytesOf(0xb003_61a3) == [0xb0, 0x03, 0x61, 0xa3]
    ensures BytesOf(0x9617_7a9c) == [0x96, 0x17, 0x7a, 0x9c]
    ensures BytesOf(0xb410_ff61) == [0xb4, 0x10, 0xff, 0x61]
    ensures BytesOf(0xf200_15ad) == [0xf2, 0x00, 0x15, 0xad]
  {}

  lemma FinalSums()
    ensures Add(0x6a09_e667, 0x506e_3058) == 0xba78_16bf && Add(0xbb67_ae85, 0xd39a_2165) == 0x8f01_cfea
    ensures Add(0x3c6e_f372, 0x04d2_4d6c) == 0x4141_40de && Add(0xa54f_f53a, 0xb85e_2ce9) == 0x5dae_2223
    ensures Add(0x510e_527f, 0x5ef5_0f24) == 0xb003_61a3 && Add(0x9b05_688c, 0xfb12_1210) == 0x9617_7a9c
    ensures Add(0x1f83_d9ab, 0x948d_25b6) == 0xb410_ff61 && Add(0x5be0_cd19, 0x961f_4894) == 0xf200_15ad
  {}
}
