/** The first test of section 7.3 of RFC 3174, worked out: the digest of "abc". */
module Sha1Example {
  import opened Blocks
  import opened Sha1

  const ABC: Octets := [0x61, 0x62, 0x63]

  /** The padded message: "abc", the marker, zeros, and the length of twenty-four bits. */
  function Padded(): (b: Octets)
    ensures |b| == 64
  {
    ABC + [0x80] + Zeros(52) + [0, 0, 0, 0, 0, 0, 0, 24]
  }

  lemma OctetsAre()
    ensures Octet(0) == 0 && Octet(24) == 24
  {
  }

  lemma LengthIs()
    ensures Be64(24) == [0, 0, 0, 0, 0, 0, 0, 24]
  {
    OctetsAre();
    assert Be32(0) == [0, 0, 0, 0] && Be32(24) == [0, 0, 0, 24];
  }

  lemma PaddedIs(length: Octets)
    requires length == [0, 0, 0, 0, 0, 0, 0, 24]
    ensures Pad(ABC, length) == Padded()
  {
    assert Gap(3) == 52;
  }

  predicate IsPadded(block: Octets) {
    && |block| == 64 && block[0] == 0x61 && block[1] == 0x62 && block[2] == 0x63 && block[3] == 0x80 && block[63] == 24
    && forall k :: 4 <= k < 63 ==> block[k] == 0
  }

  lemma FirstWords(block: Octets)
    requires IsPadded(block)
    ensures W(block, 0) == 0x6162_6380 && W(block, 15) == 24
    ensures forall k: nat :: 0 < k < 15 ==> W(block, k) == 0
  {
  }

  predicate Words0(block: Octets)
    requires |block| == 64
  {
    && W(block, 0) == 0x6162_6380 && W(block, 1) == 0x0000_0000 && W(block, 2) == 0x0000_0000 && W(block, 3) == 0x0000_0000
    && W(block, 4) == 0x0000_0000 && W(block, 5) == 0x0000_0000 && W(block, 6) == 0x0000_0000 && W(block, 7) == 0x0000_0000
    && W(block, 8) == 0x0000_0000 && W(block, 9) == 0x0000_0000 && W(block, 10) == 0x0000_0000 && W(block, 11) == 0x0000_0000
    && W(block, 12) == 0x0000_0000 && W(block, 13) == 0x0000_0000 && W(block, 14) == 0x0000_0000 && W(block, 15) == 0x0000_0018
  }

  predicate Words16(block: Octets)
    requires |block| == 64
  {
    && W(block, 16) == 0xC2C4_C700 && W(block, 17) == 0x0000_0000 && W(block, 18) == 0x0000_0030 && W(block, 19) == 0x8589_8E01
    && W(block, 20) == 0x0000_0000 && W(block, 21) == 0x0000_0060 && W(block, 22) == 0x0B13_1C03 && W(block, 23) == 0x0000_0030
    && W(block, 24) == 0x8589_8EC1 && W(block, 25) == 0x1626_3806 && W(block, 26) == 0x0000_0000 && W(block, 27) == 0x0000_0180
    && W(block, 28) == 0x2C4C_700C && W(block, 29) == 0x0000_00F0 && W(block, 30) == 0x93AF_B507 && W(block, 31) == 0x5898_E048
  }

  predicate Words32(block: Octets)
    requires |block| == 64
  {
    && W(block, 32) == 0x8E9A_9202 && W(block, 33) == 0x0000_0600 && W(block, 34) == 0xB131_C0F0 && W(block, 35) == 0x1626_3BC6
    && W(block, 36) == 0x4EBE_D41E && W(block, 37) == 0x6263_80A1 && W(block, 38) == 0x1626_3806 && W(block, 39) == 0x0000_18C0
    && W(block, 40) == 0xD2E1_38C4 && W(block, 41) == 0x0000_0F00 && W(block, 42) == 0x3AFB_5079 && W(block, 43) == 0x898E_04E5
    && W(block, 44) == 0xE2BA_3C2B && W(block, 45) == 0x0000_60C0 && W(block, 46) == 0x053A_37CD && W(block, 47) == 0x7445_8547
  }

  predicate Words48(block: Octets)
    requires |block| == 64
  {
    && W(block, 48) == 0xDA94_15ED && W(block, 49) == 0x2638_0A16 && W(block, 50) == 0x6263_83A1 && W(block, 51) == 0x4EBF_54DE
    && W(block, 52) == 0x3835_B44B && W(block, 53) == 0x0000_F600 && W(block, 54) == 0x1E84_C7A3 && W(block, 55) == 0x98E0_4D98
    && W(block, 56) == 0x651D_16A0 && W(block, 57) == 0x6265_8CA1 && W(block, 58) == 0x4585_44D6 && W(block, 59) == 0x4458_4CB7
    && W(block, 60) == 0x7BA0_6619 && W(block, 61) == 0x6380_AEA2 && W(block, 62) == 0x0AE5_5269 && W(block, 63) == 0x627B_49A1
  }

  predicate Words64(block: Octets)
    requires |block| == 64
  {
    && W(block, 64) == 0x7CD4_5C9D && W(block, 65) == 0x000F_0000 && W(block, 66) == 0xFB50_753A && W(block, 67) == 0xEC67_65E8
    && W(block, 68) == 0xBA3C_2BE2 && W(block, 69) == 0x0060_C000 && W(block, 70) == 0x3A37_CD05 && W(block, 71) == 0x4585_46F4
    && W(block, 72) == 0xB859_9DD6 && W(block, 73) == 0x380A_1A26 && W(block, 74) == 0x01E0_2203 && W(block, 75) == 0xE7CC_3456
    && W(block, 76) == 0xE6E6_0B69 && W(block, 77) == 0x00F6_0A00 && W(block, 78) == 0x5795_EF4F && W(block, 79) == 0x822E_0879
  }

  lemma WordsAre(block: Octets)
    requires IsPadded(block)
    ensures Words0(block) && Words16(block) && Words32(block) && Words48(block) && Words64(block)
  {
    FirstWords(block);
    assert W(block, 16) == 0xC2C4_C700;
    assert W(block, 17) == 0x0000_0000;
    assert W(block, 18) == 0x0000_0030;
    assert W(block, 19) == 0x8589_8E01;
    assert W(block, 20) == 0x0000_0000;
    assert W(block, 21) == 0x0000_0060;
    assert W(block, 22) == 0x0B13_1C03;
    assert W(block, 23) == 0x0000_0030;
    assert W(block, 24) == 0x8589_8EC1;
    assert W(block, 25) == 0x1626_3806;
    assert W(block, 26) == 0x0000_0000;
    assert W(block, 27) == 0x0000_0180;
    assert W(block, 28) == 0x2C4C_700C;
    assert W(block, 29) == 0x0000_00F0;
    assert W(block, 30) == 0x93AF_B507;
    assert W(block, 31) == 0x5898_E048;
    assert W(block, 32) == 0x8E9A_9202;
    assert W(block, 33) == 0x0000_0600;
    assert W(block, 34) == 0xB131_C0F0;
    assert W(block, 35) == 0x1626_3BC6;
    assert W(block, 36) == 0x4EBE_D41E;
    assert W(block, 37) == 0x6263_80A1;
    assert W(block, 38) == 0x1626_3806;
    assert W(block, 39) == 0x0000_18C0;
    assert W(block, 40) == 0xD2E1_38C4;
    assert W(block, 41) == 0x0000_0F00;
    assert W(block, 42) == 0x3AFB_5079;
    assert W(block, 43) == 0x898E_04E5;
    assert W(block, 44) == 0xE2BA_3C2B;
    assert W(block, 45) == 0x0000_60C0;
    assert W(block, 46) == 0x053A_37CD;
    assert W(block, 47) == 0x7445_8547;
    assert W(block, 48) == 0xDA94_15ED;
    assert W(block, 49) == 0x2638_0A16;
    assert W(block, 50) == 0x6263_83A1;
    assert W(block, 51) == 0x4EBF_54DE;
    assert W(block, 52) == 0x3835_B44B;
    assert W(block, 53) == 0x0000_F600;
    assert W(block, 54) == 0x1E84_C7A3;
    assert W(block, 55) == 0x98E0_4D98;
    assert W(block, 56) == 0x651D_16A0;
    assert W(block, 57) == 0x6265_8CA1;
    assert W(block, 58) == 0x4585_44D6;
    assert W(block, 59) == 0x4458_4CB7;
    assert W(block, 60) == 0x7BA0_6619;
    assert W(block, 61) == 0x6380_AEA2;
    assert W(block, 62) == 0x0AE5_5269;
    assert W(block, 63) == 0x627B_49A1;
    assert W(block, 64) == 0x7CD4_5C9D;
    assert W(block, 65) == 0x000F_0000;
    assert W(block, 66) == 0xFB50_753A;
    assert W(block, 67) == 0xEC67_65E8;
    assert W(block, 68) == 0xBA3C_2BE2;
    assert W(block, 69) == 0x0060_C000;
    assert W(block, 70) == 0x3A37_CD05;
    assert W(block, 71) == 0x4585_46F4;
    assert W(block, 72) == 0xB859_9DD6;
    assert W(block, 73) == 0x380A_1A26;
    assert W(block, 74) == 0x01E0_2203;
    assert W(block, 75) == 0xE7CC_3456;
    assert W(block, 76) == 0xE6E6_0B69;
    assert W(block, 77) == 0x00F6_0A00;
    assert W(block, 78) == 0x5795_EF4F;
    assert W(block, 79) == 0x822E_0879;
  }

  lemma Turns0(block: Octets)
    requires |block| == 64 && Words0(block) && Words16(block)
    ensures Turns(H0, block, 20) == Regs(0xFD9E_1D7D, 0xDC64_901D, 0x20AA_99CA, 0xD3A4_9608, 0xC82F_758B)
  {
    assert Turns(H0, block, 1) == Regs(0x0116_FC33, 0x6745_2301, 0x7BF3_6AE2, 0x98BA_DCFE, 0x1032_5476);
    assert Turns(H0, block, 2) == Regs(0x8990_536D, 0x0116_FC33, 0x59D1_48C0, 0x7BF3_6AE2, 0x98BA_DCFE);
    assert Turns(H0, block, 3) == Regs(0xA139_0F08, 0x8990_536D, 0xC045_BF0C, 0x59D1_48C0, 0x7BF3_6AE2);
    assert Turns(H0, block, 4) == Regs(0xCDD8_E11B, 0xA139_0F08, 0x6264_14DB, 0xC045_BF0C, 0x59D1_48C0);
    assert Turns(H0, block, 5) == Regs(0xCFD4_99DE, 0xCDD8_E11B, 0x284E_43C2, 0x6264_14DB, 0xC045_BF0C);
    assert Turns(H0, block, 6) == Regs(0x3FC7_CA40, 0xCFD4_99DE, 0xF376_3846, 0x284E_43C2, 0x6264_14DB);
    assert Turns(H0, block, 7) == Regs(0x993E_30C1, 0x3FC7_CA40, 0xB3F5_2677, 0xF376_3846, 0x284E_43C2);
    assert Turns(H0, block, 8) == Regs(0x9E8C_07D4, 0x993E_30C1, 0x0FF1_F290, 0xB3F5_2677, 0xF376_3846);
    assert Turns(H0, block, 9) == Regs(0x4B6A_E328, 0x9E8C_07D4, 0x664F_8C30, 0x0FF1_F290, 0xB3F5_2677);
    assert Turns(H0, block, 10) == Regs(0x8351_F929, 0x4B6A_E328, 0x27A3_01F5, 0x664F_8C30, 0x0FF1_F290);
    assert Turns(H0, block, 11) == Regs(0xFBDA_9E89, 0x8351_F929, 0x12DA_B8CA, 0x27A3_01F5, 0x664F_8C30);
    assert Turns(H0, block, 12) == Regs(0x6318_8FE4, 0xFBDA_9E89, 0x60D4_7E4A, 0x12DA_B8CA, 0x27A3_01F5);
    assert Turns(H0, block, 13) == Regs(0x4607_B664, 0x6318_8FE4, 0x7EF6_A7A2, 0x60D4_7E4A, 0x12DA_B8CA);
    assert Turns(H0, block, 14) == Regs(0x9128_F695, 0x4607_B664, 0x18C6_23F9, 0x7EF6_A7A2, 0x60D4_7E4A);
    assert Turns(H0, block, 15) == Regs(0x196B_EE77, 0x9128_F695, 0x1181_ED99, 0x18C6_23F9, 0x7EF6_A7A2);
    assert Turns(H0, block, 16) == Regs(0x20BD_D62F, 0x196B_EE77, 0x644A_3DA5, 0x1181_ED99, 0x18C6_23F9);
    assert Turns(H0, block, 17) == Regs(0x4E92_5823, 0x20BD_D62F, 0xC65A_FB9D, 0x644A_3DA5, 0x1181_ED99);
    assert Turns(H0, block, 18) == Regs(0x82AA_6728, 0x4E92_5823, 0xC82F_758B, 0xC65A_FB9D, 0x644A_3DA5);
    assert Turns(H0, block, 19) == Regs(0xDC64_901D, 0x82AA_6728, 0xD3A4_9608, 0xC82F_758B, 0xC65A_FB9D);
    assert Turns(H0, block, 20) == Regs(0xFD9E_1D7D, 0xDC64_901D, 0x20AA_99CA, 0xD3A4_9608, 0xC82F_758B);
  }

  lemma Turns20(block: Octets)
    requires |block| == 64 && Words16(block) && Words32(block) && Turns(H0, block, 20) == Regs(0xFD9E_1D7D, 0xDC64_901D, 0x20AA_99CA, 0xD3A4_9608, 0xC82F_758B)
    ensures Turns(H0, block, 40) == Regs(0x32DE_1CBA, 0x4C98_6405, 0xF718_E5CF, 0x03D4_47F6, 0xF72E_EC32)
  {
    assert Turns(H0, block, 21) == Regs(0x1A37_B0CA, 0xFD9E_1D7D, 0x7719_2407, 0x20AA_99CA, 0xD3A4_9608);
    assert Turns(H0, block, 22) == Regs(0x33A2_3BFC, 0x1A37_B0CA, 0x7F67_875F, 0x7719_2407, 0x20AA_99CA);
    assert Turns(H0, block, 23) == Regs(0x2128_3486, 0x33A2_3BFC, 0x868D_EC32, 0x7F67_875F, 0x7719_2407);
    assert Turns(H0, block, 24) == Regs(0xD541_F12D, 0x2128_3486, 0x0CE8_8EFF, 0x868D_EC32, 0x7F67_875F);
    assert Turns(H0, block, 25) == Regs(0xC756_7DC6, 0xD541_F12D, 0x884A_0D21, 0x0CE8_8EFF, 0x868D_EC32);
    assert Turns(H0, block, 26) == Regs(0x4841_3BA4, 0xC756_7DC6, 0x7550_7C4B, 0x884A_0D21, 0x0CE8_8EFF);
    assert Turns(H0, block, 27) == Regs(0xBE35_FBD5, 0x4841_3BA4, 0xB1D5_9F71, 0x7550_7C4B, 0x884A_0D21);
    assert Turns(H0, block, 28) == Regs(0x4AA8_4D97, 0xBE35_FBD5, 0x1210_4EE9, 0xB1D5_9F71, 0x7550_7C4B);
    assert Turns(H0, block, 29) == Regs(0x8370_B52E, 0x4AA8_4D97, 0x6F8D_7EF5, 0x1210_4EE9, 0xB1D5_9F71);
    assert Turns(H0, block, 30) == Regs(0xC5FB_AF5D, 0x8370_B52E, 0xD2AA_1365, 0x6F8D_7EF5, 0x1210_4EE9);
    assert Turns(H0, block, 31) == Regs(0x1267_B407, 0xC5FB_AF5D, 0xA0DC_2D4B, 0xD2AA_1365, 0x6F8D_7EF5);
    assert Turns(H0, block, 32) == Regs(0x3B84_5D33, 0x1267_B407, 0x717E_EBD7, 0xA0DC_2D4B, 0xD2AA_1365);
    assert Turns(H0, block, 33) == Regs(0x046F_AA0A, 0x3B84_5D33, 0xC499_ED01, 0x717E_EBD7, 0xA0DC_2D4B);
    assert Turns(H0, block, 34) == Regs(0x2C0E_BC11, 0x046F_AA0A, 0xCEE1_174C, 0xC499_ED01, 0x717E_EBD7);
    assert Turns(H0, block, 35) == Regs(0x2179_6AD4, 0x2C0E_BC11, 0x811B_EA82, 0xCEE1_174C, 0xC499_ED01);
    assert Turns(H0, block, 36) == Regs(0xDCBB_B0CB, 0x2179_6AD4, 0x4B03_AF04, 0x811B_EA82, 0xCEE1_174C);
    assert Turns(H0, block, 37) == Regs(0x0F51_1FD8, 0xDCBB_B0CB, 0x085E_5AB5, 0x4B03_AF04, 0x811B_EA82);
    assert Turns(H0, block, 38) == Regs(0xDC63_973F, 0x0F51_1FD8, 0xF72E_EC32, 0x085E_5AB5, 0x4B03_AF04);
    assert Turns(H0, block, 39) == Regs(0x4C98_6405, 0xDC63_973F, 0x03D4_47F6, 0xF72E_EC32, 0x085E_5AB5);
    assert Turns(H0, block, 40) == Regs(0x32DE_1CBA, 0x4C98_6405, 0xF718_E5CF, 0x03D4_47F6, 0xF72E_EC32);
  }

  lemma Turns40(block: Octets)
    requires |block| == 64 && Words32(block) && Words48(block) && Turns(H0, block, 40) == Regs(0x32DE_1CBA, 0x4C98_6405, 0xF718_E5CF, 0x03D4_47F6, 0xF72E_EC32)
    ensures Turns(H0, block, 60) == Regs(0x3F52_DE5A, 0x09D7_85FD, 0x3498_BFD4, 0xF211_824F, 0xD799_15AB)
  {
    assert Turns(H0, block, 41) == Regs(0xFC87_DEDF, 0x32DE_1CBA, 0x5326_1901, 0xF718_E5CF, 0x03D4_47F6);
    assert Turns(H0, block, 42) == Regs(0x970A_0D5C, 0xFC87_DEDF, 0x8CB7_872E, 0x5326_1901, 0xF718_E5CF);
    assert Turns(H0, block, 43) == Regs(0x7F19_3DC5, 0x970A_0D5C, 0xFF21_F7B7, 0x8CB7_872E, 0x5326_1901);
    assert Turns(H0, block, 44) == Regs(0xEE1B_1AAF, 0x7F19_3DC5, 0x25C2_8357, 0xFF21_F7B7, 0x8CB7_872E);
    assert Turns(H0, block, 45) == Regs(0x40F2_8E09, 0xEE1B_1AAF, 0x5FC6_4F71, 0x25C2_8357, 0xFF21_F7B7);
    assert Turns(H0, block, 46) == Regs(0x1C51_E1F2, 0x40F2_8E09, 0xFB86_C6AB, 0x5FC6_4F71, 0x25C2_8357);
    assert Turns(H0, block, 47) == Regs(0xA01B_846C, 0x1C51_E1F2, 0x503C_A382, 0xFB86_C6AB, 0x5FC6_4F71);
    assert Turns(H0, block, 48) == Regs(0xBEAD_02CA, 0xA01B_846C, 0x8714_787C, 0x503C_A382, 0xFB86_C6AB);
    assert Turns(H0, block, 49) == Regs(0xBAF3_9337, 0xBEAD_02CA, 0x2806_E11B, 0x8714_787C, 0x503C_A382);
    assert Turns(H0, block, 50) == Regs(0x1207_31C5, 0xBAF3_9337, 0xAFAB_40B2, 0x2806_E11B, 0x8714_787C);
    assert Turns(H0, block, 51) == Regs(0x641D_B2CE, 0x1207_31C5, 0xEEBC_E4CD, 0xAFAB_40B2, 0x2806_E11B);
    assert Turns(H0, block, 52) == Regs(0x3847_AD66, 0x641D_B2CE, 0x4481_CC71, 0xEEBC_E4CD, 0xAFAB_40B2);
    assert Turns(H0, block, 53) == Regs(0xE490_436D, 0x3847_AD66, 0x9907_6CB3, 0x4481_CC71, 0xEEBC_E4CD);
    assert Turns(H0, block, 54) == Regs(0x27E9_F1D8, 0xE490_436D, 0x8E11_EB59, 0x9907_6CB3, 0x4481_CC71);
    assert Turns(H0, block, 55) == Regs(0x7B71_F76D, 0x27E9_F1D8, 0x7924_10DB, 0x8E11_EB59, 0x9907_6CB3);
    assert Turns(H0, block, 56) == Regs(0x5E64_56AF, 0x7B71_F76D, 0x09FA_7C76, 0x7924_10DB, 0x8E11_EB59);
    assert Turns(H0, block, 57) == Regs(0xC846_093F, 0x5E64_56AF, 0x5EDC_7DDB, 0x09FA_7C76, 0x7924_10DB);
    assert Turns(H0, block, 58) == Regs(0xD262_FF50, 0xC846_093F, 0xD799_15AB, 0x5EDC_7DDB, 0x09FA_7C76);
    assert Turns(H0, block, 59) == Regs(0x09D7_85FD, 0xD262_FF50, 0xF211_824F, 0xD799_15AB, 0x5EDC_7DDB);
    assert Turns(H0, block, 60) == Regs(0x3F52_DE5A, 0x09D7_85FD, 0x3498_BFD4, 0xF211_824F, 0xD799_15AB);
  }

  lemma Turns60(block: Octets)
    requires |block| == 64 && Words48(block) && Words64(block) && Turns(H0, block, 60) == Regs(0x3F52_DE5A, 0x09D7_85FD, 0x3498_BFD4, 0xF211_824F, 0xD799_15AB)
    ensures Turns(H0, block, 80) == Regs(0x4254_1B35, 0x5738_D5E1, 0x2183_4873, 0x681E_6DF6, 0xD8FD_F6AD)
  {
    assert Turns(H0, block, 61) == Regs(0xD756_C147, 0x3F52_DE5A, 0x4275_E17F, 0x3498_BFD4, 0xF211_824F);
    assert Turns(H0, block, 62) == Regs(0x548C_9CB2, 0xD756_C147, 0x8FD4_B796, 0x4275_E17F, 0x3498_BFD4);
    assert Turns(H0, block, 63) == Regs(0xB66C_020B, 0x548C_9CB2, 0xF5D5_B051, 0x8FD4_B796, 0x4275_E17F);
    assert Turns(H0, block, 64) == Regs(0x6B61_C9E1, 0xB66C_020B, 0x9523_272C, 0xF5D5_B051, 0x8FD4_B796);
    assert Turns(H0, block, 65) == Regs(0x19DF_A7AC, 0x6B61_C9E1, 0xED9B_0082, 0x9523_272C, 0xF5D5_B051);
    assert Turns(H0, block, 66) == Regs(0x1016_55F9, 0x19DF_A7AC, 0x5AD8_7278, 0xED9B_0082, 0x9523_272C);
    assert Turns(H0, block, 67) == Regs(0x0C3D_F2B4, 0x1016_55F9, 0x0677_E9EB, 0x5AD8_7278, 0xED9B_0082);
    assert Turns(H0, block, 68) == Regs(0x78DD_4D2B, 0x0C3D_F2B4, 0x4405_957E, 0x0677_E9EB, 0x5AD8_7278);
    assert Turns(H0, block, 69) == Regs(0x4970_93C0, 0x78DD_4D2B, 0x030F_7CAD, 0x4405_957E, 0x0677_E9EB);
    assert Turns(H0, block, 70) == Regs(0x3F25_88C2, 0x4970_93C0, 0xDE37_534A, 0x030F_7CAD, 0x4405_957E);
    assert Turns(H0, block, 71) == Regs(0xC199_F8C7, 0x3F25_88C2, 0x125C_24F0, 0xDE37_534A, 0x030F_7CAD);
    assert Turns(H0, block, 72) == Regs(0x3985_9DE7, 0xC199_F8C7, 0x8FC9_6230, 0x125C_24F0, 0xDE37_534A);
    assert Turns(H0, block, 73) == Regs(0xEDB4_2DE4, 0x3985_9DE7, 0xF066_7E31, 0x8FC9_6230, 0x125C_24F0);
    assert Turns(H0, block, 74) == Regs(0x1179_3F6F, 0xEDB4_2DE4, 0xCE61_6779, 0xF066_7E31, 0x8FC9_6230);
    assert Turns(H0, block, 75) == Regs(0x5EE7_6897, 0x1179_3F6F, 0x3B6D_0B79, 0xCE61_6779, 0xF066_7E31);
    assert Turns(H0, block, 76) == Regs(0x63F7_DAB7, 0x5EE7_6897, 0xC45E_4FDB, 0x3B6D_0B79, 0xCE61_6779);
    assert Turns(H0, block, 77) == Regs(0xA079_B7D9, 0x63F7_DAB7, 0xD7B9_DA25, 0xC45E_4FDB, 0x3B6D_0B79);
    assert Turns(H0, block, 78) == Regs(0x860D_21CC, 0xA079_B7D9, 0xD8FD_F6AD, 0xD7B9_DA25, 0xC45E_4FDB);
    assert Turns(H0, block, 79) == Regs(0x5738_D5E1, 0x860D_21CC, 0x681E_6DF6, 0xD8FD_F6AD, 0xD7B9_DA25);
    assert Turns(H0, block, 80) == Regs(0x4254_1B35, 0x5738_D5E1, 0x2183_4873, 0x681E_6DF6, 0xD8FD_F6AD);
  }

  lemma BlockDigest(block: Octets)
    requires IsPadded(block)
    ensures Compress(H0, block) == Regs(0xA999_3E36, 0x4706_816A, 0xBA3E_2571, 0x7850_C26C, 0x9CD0_D89D)
  {
    WordsAre(block);
    Turns0(block);
    Turns20(block);
    Turns40(block);
    Turns60(block);
  }

  lemma OneBlock(block: Octets)
    requires |block| == 64
    ensures Fold(Compress, H0, block) == Compress(H0, block)
  {
    assert block[..64] == block && block[64..] == [];
  }

  lemma SpelledIs()
    ensures Spell(0xA999_3E36) == [0xA9, 0x99, 0x3E, 0x36]
    ensures Spell(0x4706_816A) == [0x47, 0x06, 0x81, 0x6A]
    ensures Spell(0xBA3E_2571) == [0xBA, 0x3E, 0x25, 0x71]
    ensures Spell(0x7850_C26C) == [0x78, 0x50, 0xC2, 0x6C]
    ensures Spell(0x9CD0_D89D) == [0x9C, 0xD0, 0xD8, 0x9D]
  {
  }

  /** A9993E36 4706816A BA3E2571 7850C26C 9CD0D89D. */
  const EXPECTED: Octets := [0xA9, 0x99, 0x3E, 0x36] + [0x47, 0x06, 0x81, 0x6A] + [0xBA, 0x3E, 0x25, 0x71]
                            + [0x78, 0x50, 0xC2, 0x6C] + [0x9C, 0xD0, 0xD8, 0x9D]

  lemma ExpectedIs(h: Regs)
    requires h == Regs(0xA999_3E36, 0x4706_816A, 0xBA3E_2571, 0x7850_C26C, 0x9CD0_D89D)
    ensures Digest(h) == EXPECTED
  {
    SpelledIs();
  }

  lemma PaddedMessage()
    ensures Pad(ABC, Be64(BitCount(3))) == Padded()
  {
    assert BitCount(3) == 24;
    LengthIs();
    PaddedIs(Be64(24));
  }

  lemma HashIs(msg: Octets, block: Octets, h: Regs)
    requires Pad(msg, Be64(BitCount(|msg|))) == block && Fold(Compress, H0, block) == h
    ensures Hash(msg) == Digest(h)
  {
  }

  /** Another constant of the definitions, a round left out or words in another order would give another digest. */
  lemma DigestOfAbc()
    ensures Hash(ABC) == EXPECTED
  {
    var block := Padded();
    PaddedMessage();
    BlockDigest(block);
    OneBlock(block);
    HashIs(ABC, block, Compress(H0, block));
    ExpectedIs(Compress(H0, block));
  }
}
