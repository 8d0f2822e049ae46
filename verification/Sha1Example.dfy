/** The digest of "abc", step by step from the definitions: the example of appendix A.1 of FIPS 180-2. */
module Sha1Example {
  import opened Sha1

  const ABC: Bytes8 := [0x61, 0x62, 0x63]

  /** The one block of the padded message. */
  const BLOCK: Block := [
    0x61626380, 0x00000000, 0x00000000, 0x00000000,
    0x00000000, 0x00000000, 0x00000000, 0x00000000,
    0x00000000, 0x00000000, 0x00000000, 0x00000000,
    0x00000000, 0x00000000, 0x00000000, 0x00000018]

  lemma PaddedAbc()
    ensures var b := Padded(ABC); |b| == 64 && Words(b) == BLOCK
  {
    hide Missing, High, Low, Be32, BigEndian;
    NumbersOfAbc();
    var zeros := Zeros(52);
    var b := Padded(ABC);
    assert b == ABC + [0x80] + zeros + [0, 0, 0, 0, 0, 0, 0, 24];
    assert b[0] == 0x61 && b[1] == 0x62 && b[2] == 0x63 && b[3] == 0x80;
    assert forall k :: 4 <= k < 63 ==> b[k] == 0;
    assert b[63] == 24;
    WordsOfAbc();
    var words := Words(b);
    forall i | 0 <= i < 16
      ensures words[i] == BLOCK[i]
    {
    }
  }

  lemma NumbersOfAbc()
    ensures |ABC| == 3 && Missing(3) == 52 && Be32(High(24)) == [0, 0, 0, 0] && Be32(Low(24)) == [0, 0, 0, 24]
  {
    hide Be32, High, Low;
    LowOfAbc();
    NumberBytes();
  }

  lemma LowOfAbc()
    ensures High(24) == 0 && Low(24) == 24
  {
  }

  lemma NumberBytes()
    ensures Be32(0) == [0, 0, 0, 0] && Be32(24) == [0, 0, 0, 24]
  {
  }

  lemma WordsOfAbc()
    ensures BigEndian(0x61, 0x62, 0x63, 0x80) == 0x61626380 && BigEndian(0, 0, 0, 0) == 0 && BigEndian(0, 0, 0, 24) == 0x18
  {
  }

  lemma NextWord(t: nat, a: bv32, b: bv32, c: bv32, d: bv32)
    requires t >= 16 && W(BLOCK, t - 3) == a && W(BLOCK, t - 8) == b && W(BLOCK, t - 14) == c && W(BLOCK, t - 16) == d
    ensures W(BLOCK, t) == Rotl1(a ^ b ^ c ^ d)
  {
    hide Rotl1;
  }

  lemma FirstWords()
    ensures W(BLOCK, 0) == 0x61626380
    ensures W(BLOCK, 1) == 0x00000000
    ensures W(BLOCK, 2) == 0x00000000
    ensures W(BLOCK, 3) == 0x00000000
    ensures W(BLOCK, 4) == 0x00000000
    ensures W(BLOCK, 5) == 0x00000000
    ensures W(BLOCK, 6) == 0x00000000
    ensures W(BLOCK, 7) == 0x00000000
    ensures W(BLOCK, 8) == 0x00000000
    ensures W(BLOCK, 9) == 0x00000000
    ensures W(BLOCK, 10) == 0x00000000
    ensures W(BLOCK, 11) == 0x00000000
    ensures W(BLOCK, 12) == 0x00000000
    ensures W(BLOCK, 13) == 0x00000000
    ensures W(BLOCK, 14) == 0x00000000
    ensures W(BLOCK, 15) == 0x00000018
  {
  }

  lemma NextRound(t: nat, r: Regs, w: bv32)
    requires Rounds(H0, BLOCK, t) == r && W(BLOCK, t) == w
    ensures Rounds(H0, BLOCK, t + 1) == Round(r, t, w)
  {
    hide Round, W;
  }

  lemma Words16()
    ensures W(BLOCK, 16) == 0xC2C4C700
    ensures W(BLOCK, 17) == 0x00000000
    ensures W(BLOCK, 18) == 0x00000030
    ensures W(BLOCK, 19) == 0x85898E01
    ensures W(BLOCK, 20) == 0x00000000
    ensures W(BLOCK, 21) == 0x00000060
    ensures W(BLOCK, 22) == 0x0B131C03
    ensures W(BLOCK, 23) == 0x00000030
  {
    hide W;
    FirstWords();
    NextWord(16, 0x00000000, 0x00000000, 0x00000000, 0x61626380);
    NextWord(17, 0x00000000, 0x00000000, 0x00000000, 0x00000000);
    NextWord(18, 0x00000018, 0x00000000, 0x00000000, 0x00000000);
    NextWord(19, 0xC2C4C700, 0x00000000, 0x00000000, 0x00000000);
    NextWord(20, 0x00000000, 0x00000000, 0x00000000, 0x00000000);
    NextWord(21, 0x00000030, 0x00000000, 0x00000000, 0x00000000);
    NextWord(22, 0x85898E01, 0x00000000, 0x00000000, 0x00000000);
    NextWord(23, 0x00000000, 0x00000018, 0x00000000, 0x00000000);
  }

  lemma Words24()
    ensures W(BLOCK, 24) == 0x85898EC1
    ensures W(BLOCK, 25) == 0x16263806
    ensures W(BLOCK, 26) == 0x00000000
    ensures W(BLOCK, 27) == 0x00000180
    ensures W(BLOCK, 28) == 0x2C4C700C
    ensures W(BLOCK, 29) == 0x000000F0
    ensures W(BLOCK, 30) == 0x93AFB507
    ensures W(BLOCK, 31) == 0x5898E048
  {
    hide W;
    FirstWords();
    Words16();
    NextWord(24, 0x00000060, 0xC2C4C700, 0x00000000, 0x00000000);
    NextWord(25, 0x0B131C03, 0x00000000, 0x00000000, 0x00000000);
    NextWord(26, 0x00000030, 0x00000030, 0x00000000, 0x00000000);
    NextWord(27, 0x85898EC1, 0x85898E01, 0x00000000, 0x00000000);
    NextWord(28, 0x16263806, 0x00000000, 0x00000000, 0x00000000);
    NextWord(29, 0x00000000, 0x00000060, 0x00000018, 0x00000000);
    NextWord(30, 0x00000180, 0x0B131C03, 0xC2C4C700, 0x00000000);
    NextWord(31, 0x2C4C700C, 0x00000030, 0x00000000, 0x00000018);
  }

  lemma Words32()
    ensures W(BLOCK, 32) == 0x8E9A9202
    ensures W(BLOCK, 33) == 0x00000600
    ensures W(BLOCK, 34) == 0xB131C0F0
    ensures W(BLOCK, 35) == 0x16263BC6
    ensures W(BLOCK, 36) == 0x4EBED41E
    ensures W(BLOCK, 37) == 0x626380A1
    ensures W(BLOCK, 38) == 0x16263806
    ensures W(BLOCK, 39) == 0x000018C0
  {
    hide W;
    FirstWords();
    Words16();
    Words24();
    NextWord(32, 0x000000F0, 0x85898EC1, 0x00000030, 0xC2C4C700);
    NextWord(33, 0x93AFB507, 0x16263806, 0x85898E01, 0x00000000);
    NextWord(34, 0x5898E048, 0x00000000, 0x00000000, 0x00000030);
    NextWord(35, 0x8E9A9202, 0x00000180, 0x00000060, 0x85898E01);
    NextWord(36, 0x00000600, 0x2C4C700C, 0x0B131C03, 0x00000000);
    NextWord(37, 0xB131C0F0, 0x000000F0, 0x00000030, 0x00000060);
    NextWord(38, 0x16263BC6, 0x93AFB507, 0x85898EC1, 0x0B131C03);
    NextWord(39, 0x4EBED41E, 0x5898E048, 0x16263806, 0x00000030);
  }

  lemma Words40()
    ensures W(BLOCK, 40) == 0xD2E138C4
    ensures W(BLOCK, 41) == 0x00000F00
    ensures W(BLOCK, 42) == 0x3AFB5079
    ensures W(BLOCK, 43) == 0x898E04E5
    ensures W(BLOCK, 44) == 0xE2BA3C2B
    ensures W(BLOCK, 45) == 0x000060C0
    ensures W(BLOCK, 46) == 0x053A37CD
    ensures W(BLOCK, 47) == 0x74458547
  {
    hide W;
    FirstWords();
    Words24();
    Words32();
    NextWord(40, 0x626380A1, 0x8E9A9202, 0x00000000, 0x85898EC1);
    NextWord(41, 0x16263806, 0x00000600, 0x00000180, 0x16263806);
    NextWord(42, 0x000018C0, 0xB131C0F0, 0x2C4C700C, 0x00000000);
    NextWord(43, 0xD2E138C4, 0x16263BC6, 0x000000F0, 0x00000180);
    NextWord(44, 0x00000F00, 0x4EBED41E, 0x93AFB507, 0x2C4C700C);
    NextWord(45, 0x3AFB5079, 0x626380A1, 0x5898E048, 0x000000F0);
    NextWord(46, 0x898E04E5, 0x16263806, 0x8E9A9202, 0x93AFB507);
    NextWord(47, 0xE2BA3C2B, 0x000018C0, 0x00000600, 0x5898E048);
  }

  lemma Words48()
    ensures W(BLOCK, 48) == 0xDA9415ED
    ensures W(BLOCK, 49) == 0x26380A16
    ensures W(BLOCK, 50) == 0x626383A1
    ensures W(BLOCK, 51) == 0x4EBF54DE
    ensures W(BLOCK, 52) == 0x3835B44B
    ensures W(BLOCK, 53) == 0x0000F600
    ensures W(BLOCK, 54) == 0x1E84C7A3
    ensures W(BLOCK, 55) == 0x98E04D98
  {
    hide W;
    FirstWords();
    Words32();
    Words40();
    NextWord(48, 0x000060C0, 0xD2E138C4, 0xB131C0F0, 0x8E9A9202);
    NextWord(49, 0x053A37CD, 0x00000F00, 0x16263BC6, 0x00000600);
    NextWord(50, 0x74458547, 0x3AFB5079, 0x4EBED41E, 0xB131C0F0);
    NextWord(51, 0xDA9415ED, 0x898E04E5, 0x626380A1, 0x16263BC6);
    NextWord(52, 0x26380A16, 0xE2BA3C2B, 0x16263806, 0x4EBED41E);
    NextWord(53, 0x626383A1, 0x000060C0, 0x000018C0, 0x626380A1);
    NextWord(54, 0x4EBF54DE, 0x053A37CD, 0xD2E138C4, 0x16263806);
    NextWord(55, 0x3835B44B, 0x74458547, 0x00000F00, 0x000018C0);
  }

  lemma Words56()
    ensures W(BLOCK, 56) == 0x651D16A0
    ensures W(BLOCK, 57) == 0x62658CA1
    ensures W(BLOCK, 58) == 0x458544D6
    ensures W(BLOCK, 59) == 0x44584CB7
    ensures W(BLOCK, 60) == 0x7BA06619
    ensures W(BLOCK, 61) == 0x6380AEA2
    ensures W(BLOCK, 62) == 0x0AE55269
    ensures W(BLOCK, 63) == 0x627B49A1
  {
    hide W;
    FirstWords();
    Words40();
    Words48();
    NextWord(56, 0x0000F600, 0xDA9415ED, 0x3AFB5079, 0xD2E138C4);
    NextWord(57, 0x1E84C7A3, 0x26380A16, 0x898E04E5, 0x00000F00);
    NextWord(58, 0x98E04D98, 0x626383A1, 0xE2BA3C2B, 0x3AFB5079);
    NextWord(59, 0x651D16A0, 0x4EBF54DE, 0x000060C0, 0x898E04E5);
    NextWord(60, 0x62658CA1, 0x3835B44B, 0x053A37CD, 0xE2BA3C2B);
    NextWord(61, 0x458544D6, 0x0000F600, 0x74458547, 0x000060C0);
    NextWord(62, 0x44584CB7, 0x1E84C7A3, 0xDA9415ED, 0x053A37CD);
    NextWord(63, 0x7BA06619, 0x98E04D98, 0x26380A16, 0x74458547);
  }

  lemma Words64()
    ensures W(BLOCK, 64) == 0x7CD45C9D
    ensures W(BLOCK, 65) == 0x000F0000
    ensures W(BLOCK, 66) == 0xFB50753A
    ensures W(BLOCK, 67) == 0xEC6765E8
    ensures W(BLOCK, 68) == 0xBA3C2BE2
    ensures W(BLOCK, 69) == 0x0060C000
    ensures W(BLOCK, 70) == 0x3A37CD05
    ensures W(BLOCK, 71) == 0x458546F4
  {
    hide W;
    FirstWords();
    Words48();
    Words56();
    NextWord(64, 0x6380AEA2, 0x651D16A0, 0x626383A1, 0xDA9415ED);
    NextWord(65, 0x0AE55269, 0x62658CA1, 0x4EBF54DE, 0x26380A16);
    NextWord(66, 0x627B49A1, 0x458544D6, 0x3835B44B, 0x626383A1);
    NextWord(67, 0x7CD45C9D, 0x44584CB7, 0x0000F600, 0x4EBF54DE);
    NextWord(68, 0x000F0000, 0x7BA06619, 0x1E84C7A3, 0x3835B44B);
    NextWord(69, 0xFB50753A, 0x6380AEA2, 0x98E04D98, 0x0000F600);
    NextWord(70, 0xEC6765E8, 0x0AE55269, 0x651D16A0, 0x1E84C7A3);
    NextWord(71, 0xBA3C2BE2, 0x627B49A1, 0x62658CA1, 0x98E04D98);
  }

  lemma Words72()
    ensures W(BLOCK, 72) == 0xB8599DD6
    ensures W(BLOCK, 73) == 0x380A1A26
    ensures W(BLOCK, 74) == 0x01E02203
    ensures W(BLOCK, 75) == 0xE7CC3456
    ensures W(BLOCK, 76) == 0xE6E60B69
    ensures W(BLOCK, 77) == 0x00F60A00
    ensures W(BLOCK, 78) == 0x5795EF4F
    ensures W(BLOCK, 79) == 0x822E0879
  {
    hide W;
    FirstWords();
    Words56();
    Words64();
    NextWord(72, 0x0060C000, 0x7CD45C9D, 0x458544D6, 0x651D16A0);
    NextWord(73, 0x3A37CD05, 0x000F0000, 0x44584CB7, 0x62658CA1);
    NextWord(74, 0x458546F4, 0xFB50753A, 0x7BA06619, 0x458544D6);
    NextWord(75, 0xB8599DD6, 0xEC6765E8, 0x6380AEA2, 0x44584CB7);
    NextWord(76, 0x380A1A26, 0xBA3C2BE2, 0x0AE55269, 0x7BA06619);
    NextWord(77, 0x01E02203, 0x0060C000, 0x627B49A1, 0x6380AEA2);
    NextWord(78, 0xE7CC3456, 0x3A37CD05, 0x7CD45C9D, 0x0AE55269);
    NextWord(79, 0xE6E60B69, 0x458546F4, 0x000F0000, 0x627B49A1);
  }

  lemma Rounds8()
    ensures Rounds(H0, BLOCK, 8) == Regs(0x9E8C07D4, 0x993E30C1, 0x0FF1F290, 0xB3F52677, 0xF3763846)
  {
    hide W, Rounds;
    FirstWords();
    RoundsStart(H0, BLOCK);
    NextRound(0, Regs(0x67452301, 0xEFCDAB89, 0x98BADCFE, 0x10325476, 0xC3D2E1F0), 0x61626380);
    NextRound(1, Regs(0x0116FC33, 0x67452301, 0x7BF36AE2, 0x98BADCFE, 0x10325476), 0x00000000);
    NextRound(2, Regs(0x8990536D, 0x0116FC33, 0x59D148C0, 0x7BF36AE2, 0x98BADCFE), 0x00000000);
    NextRound(3, Regs(0xA1390F08, 0x8990536D, 0xC045BF0C, 0x59D148C0, 0x7BF36AE2), 0x00000000);
    NextRound(4, Regs(0xCDD8E11B, 0xA1390F08, 0x626414DB, 0xC045BF0C, 0x59D148C0), 0x00000000);
    NextRound(5, Regs(0xCFD499DE, 0xCDD8E11B, 0x284E43C2, 0x626414DB, 0xC045BF0C), 0x00000000);
    NextRound(6, Regs(0x3FC7CA40, 0xCFD499DE, 0xF3763846, 0x284E43C2, 0x626414DB), 0x00000000);
    NextRound(7, Regs(0x993E30C1, 0x3FC7CA40, 0xB3F52677, 0xF3763846, 0x284E43C2), 0x00000000);
  }

  lemma Rounds16()
    ensures Rounds(H0, BLOCK, 16) == Regs(0x20BDD62F, 0x196BEE77, 0x644A3DA5, 0x1181ED99, 0x18C623F9)
  {
    hide W, Rounds;
    FirstWords();
    Rounds8();
    NextRound(8, Regs(0x9E8C07D4, 0x993E30C1, 0x0FF1F290, 0xB3F52677, 0xF3763846), 0x00000000);
    NextRound(9, Regs(0x4B6AE328, 0x9E8C07D4, 0x664F8C30, 0x0FF1F290, 0xB3F52677), 0x00000000);
    NextRound(10, Regs(0x8351F929, 0x4B6AE328, 0x27A301F5, 0x664F8C30, 0x0FF1F290), 0x00000000);
    NextRound(11, Regs(0xFBDA9E89, 0x8351F929, 0x12DAB8CA, 0x27A301F5, 0x664F8C30), 0x00000000);
    NextRound(12, Regs(0x63188FE4, 0xFBDA9E89, 0x60D47E4A, 0x12DAB8CA, 0x27A301F5), 0x00000000);
    NextRound(13, Regs(0x4607B664, 0x63188FE4, 0x7EF6A7A2, 0x60D47E4A, 0x12DAB8CA), 0x00000000);
    NextRound(14, Regs(0x9128F695, 0x4607B664, 0x18C623F9, 0x7EF6A7A2, 0x60D47E4A), 0x00000000);
    NextRound(15, Regs(0x196BEE77, 0x9128F695, 0x1181ED99, 0x18C623F9, 0x7EF6A7A2), 0x00000018);
  }

  lemma Rounds24()
    ensures Rounds(H0, BLOCK, 24) == Regs(0xD541F12D, 0x21283486, 0x0CE88EFF, 0x868DEC32, 0x7F67875F)
  {
    hide W, Rounds;
    Words16();
    Rounds16();
    NextRound(16, Regs(0x20BDD62F, 0x196BEE77, 0x644A3DA5, 0x1181ED99, 0x18C623F9), 0xC2C4C700);
    NextRound(17, Regs(0x4E925823, 0x20BDD62F, 0xC65AFB9D, 0x644A3DA5, 0x1181ED99), 0x00000000);
    NextRound(18, Regs(0x82AA6728, 0x4E925823, 0xC82F758B, 0xC65AFB9D, 0x644A3DA5), 0x00000030);
    NextRound(19, Regs(0xDC64901D, 0x82AA6728, 0xD3A49608, 0xC82F758B, 0xC65AFB9D), 0x85898E01);
    NextRound(20, Regs(0xFD9E1D7D, 0xDC64901D, 0x20AA99CA, 0xD3A49608, 0xC82F758B), 0x00000000);
    NextRound(21, Regs(0x1A37B0CA, 0xFD9E1D7D, 0x77192407, 0x20AA99CA, 0xD3A49608), 0x00000060);
    NextRound(22, Regs(0x33A23BFC, 0x1A37B0CA, 0x7F67875F, 0x77192407, 0x20AA99CA), 0x0B131C03);
    NextRound(23, Regs(0x21283486, 0x33A23BFC, 0x868DEC32, 0x7F67875F, 0x77192407), 0x00000030);
  }

  lemma Rounds32()
    ensures Rounds(H0, BLOCK, 32) == Regs(0x3B845D33, 0x1267B407, 0x717EEBD7, 0xA0DC2D4B, 0xD2AA1365)
  {
    hide W, Rounds;
    Words24();
    Rounds24();
    NextRound(24, Regs(0xD541F12D, 0x21283486, 0x0CE88EFF, 0x868DEC32, 0x7F67875F), 0x85898EC1);
    NextRound(25, Regs(0xC7567DC6, 0xD541F12D, 0x884A0D21, 0x0CE88EFF, 0x868DEC32), 0x16263806);
    NextRound(26, Regs(0x48413BA4, 0xC7567DC6, 0x75507C4B, 0x884A0D21, 0x0CE88EFF), 0x00000000);
    NextRound(27, Regs(0xBE35FBD5, 0x48413BA4, 0xB1D59F71, 0x75507C4B, 0x884A0D21), 0x00000180);
    NextRound(28, Regs(0x4AA84D97, 0xBE35FBD5, 0x12104EE9, 0xB1D59F71, 0x75507C4B), 0x2C4C700C);
    NextRound(29, Regs(0x8370B52E, 0x4AA84D97, 0x6F8D7EF5, 0x12104EE9, 0xB1D59F71), 0x000000F0);
    NextRound(30, Regs(0xC5FBAF5D, 0x8370B52E, 0xD2AA1365, 0x6F8D7EF5, 0x12104EE9), 0x93AFB507);
    NextRound(31, Regs(0x1267B407, 0xC5FBAF5D, 0xA0DC2D4B, 0xD2AA1365, 0x6F8D7EF5), 0x5898E048);
  }

  lemma Rounds40()
    ensures Rounds(H0, BLOCK, 40) == Regs(0x32DE1CBA, 0x4C986405, 0xF718E5CF, 0x03D447F6, 0xF72EEC32)
  {
    hide W, Rounds;
    Words32();
    Rounds32();
    NextRound(32, Regs(0x3B845D33, 0x1267B407, 0x717EEBD7, 0xA0DC2D4B, 0xD2AA1365), 0x8E9A9202);
    NextRound(33, Regs(0x046FAA0A, 0x3B845D33, 0xC499ED01, 0x717EEBD7, 0xA0DC2D4B), 0x00000600);
    NextRound(34, Regs(0x2C0EBC11, 0x046FAA0A, 0xCEE1174C, 0xC499ED01, 0x717EEBD7), 0xB131C0F0);
    NextRound(35, Regs(0x21796AD4, 0x2C0EBC11, 0x811BEA82, 0xCEE1174C, 0xC499ED01), 0x16263BC6);
    NextRound(36, Regs(0xDCBBB0CB, 0x21796AD4, 0x4B03AF04, 0x811BEA82, 0xCEE1174C), 0x4EBED41E);
    NextRound(37, Regs(0x0F511FD8, 0xDCBBB0CB, 0x085E5AB5, 0x4B03AF04, 0x811BEA82), 0x626380A1);
    NextRound(38, Regs(0xDC63973F, 0x0F511FD8, 0xF72EEC32, 0x085E5AB5, 0x4B03AF04), 0x16263806);
    NextRound(39, Regs(0x4C986405, 0xDC63973F, 0x03D447F6, 0xF72EEC32, 0x085E5AB5), 0x000018C0);
  }

  lemma Rounds48()
    ensures Rounds(H0, BLOCK, 48) == Regs(0xBEAD02CA, 0xA01B846C, 0x8714787C, 0x503CA382, 0xFB86C6AB)
  {
    hide W, Rounds;
    Words40();
    Rounds40();
    NextRound(40, Regs(0x32DE1CBA, 0x4C986405, 0xF718E5CF, 0x03D447F6, 0xF72EEC32), 0xD2E138C4);
    NextRound(41, Regs(0xFC87DEDF, 0x32DE1CBA, 0x53261901, 0xF718E5CF, 0x03D447F6), 0x00000F00);
    NextRound(42, Regs(0x970A0D5C, 0xFC87DEDF, 0x8CB7872E, 0x53261901, 0xF718E5CF), 0x3AFB5079);
    NextRound(43, Regs(0x7F193DC5, 0x970A0D5C, 0xFF21F7B7, 0x8CB7872E, 0x53261901), 0x898E04E5);
    NextRound(44, Regs(0xEE1B1AAF, 0x7F193DC5, 0x25C28357, 0xFF21F7B7, 0x8CB7872E), 0xE2BA3C2B);
    NextRound(45, Regs(0x40F28E09, 0xEE1B1AAF, 0x5FC64F71, 0x25C28357, 0xFF21F7B7), 0x000060C0);
    NextRound(46, Regs(0x1C51E1F2, 0x40F28E09, 0xFB86C6AB, 0x5FC64F71, 0x25C28357), 0x053A37CD);
    NextRound(47, Regs(0xA01B846C, 0x1C51E1F2, 0x503CA382, 0xFB86C6AB, 0x5FC64F71), 0x74458547);
  }

  lemma Rounds56()
    ensures Rounds(H0, BLOCK, 56) == Regs(0x5E6456AF, 0x7B71F76D, 0x09FA7C76, 0x792410DB, 0x8E11EB59)
  {
    hide W, Rounds;
    Words48();
    Rounds48();
    NextRound(48, Regs(0xBEAD02CA, 0xA01B846C, 0x8714787C, 0x503CA382, 0xFB86C6AB), 0xDA9415ED);
    NextRound(49, Regs(0xBAF39337, 0xBEAD02CA, 0x2806E11B, 0x8714787C, 0x503CA382), 0x26380A16);
    NextRound(50, Regs(0x120731C5, 0xBAF39337, 0xAFAB40B2, 0x2806E11B, 0x8714787C), 0x626383A1);
    NextRound(51, Regs(0x641DB2CE, 0x120731C5, 0xEEBCE4CD, 0xAFAB40B2, 0x2806E11B), 0x4EBF54DE);
    NextRound(52, Regs(0x3847AD66, 0x641DB2CE, 0x4481CC71, 0xEEBCE4CD, 0xAFAB40B2), 0x3835B44B);
    NextRound(53, Regs(0xE490436D, 0x3847AD66, 0x99076CB3, 0x4481CC71, 0xEEBCE4CD), 0x0000F600);
    NextRound(54, Regs(0x27E9F1D8, 0xE490436D, 0x8E11EB59, 0x99076CB3, 0x4481CC71), 0x1E84C7A3);
    NextRound(55, Regs(0x7B71F76D, 0x27E9F1D8, 0x792410DB, 0x8E11EB59, 0x99076CB3), 0x98E04D98);
  }

  lemma Rounds64()
    ensures Rounds(H0, BLOCK, 64) == Regs(0x6B61C9E1, 0xB66C020B, 0x9523272C, 0xF5D5B051, 0x8FD4B796)
  {
    hide W, Rounds;
    Words56();
    Rounds56();
    NextRound(56, Regs(0x5E6456AF, 0x7B71F76D, 0x09FA7C76, 0x792410DB, 0x8E11EB59), 0x651D16A0);
    NextRound(57, Regs(0xC846093F, 0x5E6456AF, 0x5EDC7DDB, 0x09FA7C76, 0x792410DB), 0x62658CA1);
    NextRound(58, Regs(0xD262FF50, 0xC846093F, 0xD79915AB, 0x5EDC7DDB, 0x09FA7C76), 0x458544D6);
    NextRound(59, Regs(0x09D785FD, 0xD262FF50, 0xF211824F, 0xD79915AB, 0x5EDC7DDB), 0x44584CB7);
    NextRound(60, Regs(0x3F52DE5A, 0x09D785FD, 0x3498BFD4, 0xF211824F, 0xD79915AB), 0x7BA06619);
    NextRound(61, Regs(0xD756C147, 0x3F52DE5A, 0x4275E17F, 0x3498BFD4, 0xF211824F), 0x6380AEA2);
    NextRound(62, Regs(0x548C9CB2, 0xD756C147, 0x8FD4B796, 0x4275E17F, 0x3498BFD4), 0x0AE55269);
    NextRound(63, Regs(0xB66C020B, 0x548C9CB2, 0xF5D5B051, 0x8FD4B796, 0x4275E17F), 0x627B49A1);
  }

  lemma Rounds72()
    ensures Rounds(H0, BLOCK, 72) == Regs(0x39859DE7, 0xC199F8C7, 0x8FC96230, 0x125C24F0, 0xDE37534A)
  {
    hide W, Rounds;
    Words64();
    Rounds64();
    NextRound(64, Regs(0x6B61C9E1, 0xB66C020B, 0x9523272C, 0xF5D5B051, 0x8FD4B796), 0x7CD45C9D);
    NextRound(65, Regs(0x19DFA7AC, 0x6B61C9E1, 0xED9B0082, 0x9523272C, 0xF5D5B051), 0x000F0000);
    NextRound(66, Regs(0x101655F9, 0x19DFA7AC, 0x5AD87278, 0xED9B0082, 0x9523272C), 0xFB50753A);
    NextRound(67, Regs(0x0C3DF2B4, 0x101655F9, 0x0677E9EB, 0x5AD87278, 0xED9B0082), 0xEC6765E8);
    NextRound(68, Regs(0x78DD4D2B, 0x0C3DF2B4, 0x4405957E, 0x0677E9EB, 0x5AD87278), 0xBA3C2BE2);
    NextRound(69, Regs(0x497093C0, 0x78DD4D2B, 0x030F7CAD, 0x4405957E, 0x0677E9EB), 0x0060C000);
    NextRound(70, Regs(0x3F2588C2, 0x497093C0, 0xDE37534A, 0x030F7CAD, 0x4405957E), 0x3A37CD05);
    NextRound(71, Regs(0xC199F8C7, 0x3F2588C2, 0x125C24F0, 0xDE37534A, 0x030F7CAD), 0x458546F4);
  }

  lemma Rounds80()
    ensures Rounds(H0, BLOCK, 80) == Regs(0x42541B35, 0x5738D5E1, 0x21834873, 0x681E6DF6, 0xD8FDF6AD)
  {
    hide W, Rounds;
    Words72();
    Rounds72();
    NextRound(72, Regs(0x39859DE7, 0xC199F8C7, 0x8FC96230, 0x125C24F0, 0xDE37534A), 0xB8599DD6);
    NextRound(73, Regs(0xEDB42DE4, 0x39859DE7, 0xF0667E31, 0x8FC96230, 0x125C24F0), 0x380A1A26);
    NextRound(74, Regs(0x11793F6F, 0xEDB42DE4, 0xCE616779, 0xF0667E31, 0x8FC96230), 0x01E02203);
    NextRound(75, Regs(0x5EE76897, 0x11793F6F, 0x3B6D0B79, 0xCE616779, 0xF0667E31), 0xE7CC3456);
    NextRound(76, Regs(0x63F7DAB7, 0x5EE76897, 0xC45E4FDB, 0x3B6D0B79, 0xCE616779), 0xE6E60B69);
    NextRound(77, Regs(0xA079B7D9, 0x63F7DAB7, 0xD7B9DA25, 0xC45E4FDB, 0x3B6D0B79), 0x00F60A00);
    NextRound(78, Regs(0x860D21CC, 0xA079B7D9, 0xD8FDF6AD, 0xD7B9DA25, 0xC45E4FDB), 0x5795EF4F);
    NextRound(79, Regs(0x5738D5E1, 0x860D21CC, 0x681E6DF6, 0xD8FDF6AD, 0xD7B9DA25), 0x822E0879);
  }

  /** SHA-1 of "abc". */
  lemma DigestOfAbc()
    ensures Digest(ABC) == [
      0xA9, 0x99, 0x3E, 0x36, 0x47, 0x06, 0x81, 0x6A, 0xBA, 0x3E,
      0x25, 0x71, 0x78, 0x50, 0xC2, 0x6C, 0x9C, 0xD0, 0xD8, 0x9D]
  {
    hide W, Rounds, Words, Padded, Hash;
    PaddedAbc();
    Rounds80();
    HashOne(H0, Padded(ABC));
  }
}
