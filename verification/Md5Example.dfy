/** The digest of "abc", step by step from the definitions: an example of section A.5 of RFC 1321. */
module Md5Example {
  import opened Md5
  import S = Sha1

  const ABC: Bytes8 := [0x61, 0x62, 0x63]

  /** The one block of the padded message. */
  const BLOCK: Block := [
    0x80636261, 0x00000000, 0x00000000, 0x00000000,
    0x00000000, 0x00000000, 0x00000000, 0x00000000,
    0x00000000, 0x00000000, 0x00000000, 0x00000000,
    0x00000000, 0x00000000, 0x00000018, 0x00000000]

  lemma PaddedAbc()
    ensures var b := Padded(ABC); |b| == 64 && Words(b) == BLOCK
  {
    hide S.Missing, S.High, S.Low, AllBytes, Word, LittleEndian, BLOCK;
    NumbersOfAbc();
    BlockWords();
    var zeros := S.Zeros(52);
    var b := Padded(ABC);
    assert b == ABC + [0x80] + zeros + [24, 0, 0, 0, 0, 0, 0, 0];
    assert b[0] == 0x61 && b[1] == 0x62 && b[2] == 0x63 && b[3] == 0x80;
    assert b[56] == 24;
    assert forall k :: 4 <= k < 64 && k != 56 ==> b[k] == 0;
    WordsOfAbc();
    var words := Words(b);
    forall i | 0 <= i < 16
      ensures words[i] == BLOCK[i]
    {
    }
  }

  lemma NumbersOfAbc()
    ensures |ABC| == 3 && S.Missing(3) == 52 && AllBytes([Word(S.Low(24)), Word(S.High(24))]) == [24, 0, 0, 0, 0, 0, 0, 0]
  {
    hide WordBytes, AllBytes, Word, S.Low, S.High;
    LowOfAbc();
    NumberBytes();
    BytesOfTwo(24, 0);
  }

  lemma LowOfAbc()
    ensures Word(S.High(24)) == 0 && Word(S.Low(24)) == 24
  {
  }

  lemma NumberBytes()
    ensures WordBytes(0) == [0, 0, 0, 0] && WordBytes(24) == [24, 0, 0, 0]
  {
  }

  lemma BytesOfTwo(v: bv32, w: bv32)
    ensures AllBytes([v, w]) == WordBytes(v) + WordBytes(w)
  {
    hide WordBytes;
    BytesOfOne(v);
    assert [v, w][..1] == [v];
  }

  lemma BytesOfOne(v: bv32)
    ensures AllBytes([v]) == WordBytes(v)
  {
    hide WordBytes;
    assert [v][..0] == [];
    assert AllBytes([]) + WordBytes(v) == WordBytes(v);
  }

  lemma WordsOfAbc()
    ensures LittleEndian(0x61, 0x62, 0x63, 0x80) == 0x80636261 && LittleEndian(0, 0, 0, 0) == 0 && LittleEndian(24, 0, 0, 0) == 0x18
  {
  }

  lemma BlockWords()
    ensures |BLOCK| == 16 && BLOCK[0] == 0x80636261 && BLOCK[14] == 0x18
    ensures forall k :: 0 < k < 16 && k != 14 ==> BLOCK[k] == 0
  {
  }

  lemma Next(i: nat, r: Regs, x: bv32, t: bv32, s: bv6)
    requires i < 64 && Operations(H0, BLOCK, i) == r && BLOCK[Index(i)] == x && T(i) == t && Amount(i) == s
    ensures Operations(H0, BLOCK, i + 1) == Regs(r.d, Mixed(r.a, r.b, Fn(i, r.b, r.c, r.d), x, t, s), r.b, r.c)
  {
    hide Index, Amount, T, Mixed, Fn, BLOCK;
  }

  lemma Operations8()
    ensures Operations(H0, BLOCK, 8) == Regs(0xC73741EF, 0x928D99F6, 0x207DC67B, 0x8BAC3051)
  {
    hide Operations, Index, Amount, T, BLOCK;
    BlockWords();
    Table1();
    Order1();
    NoOperations(H0, BLOCK);
    Next(0, Regs(0x67452301, 0xEFCDAB89, 0x98BADCFE, 0x10325476), 0x80636261, 0xD76AA478, 7);
    Next(1, Regs(0x10325476, 0xD6D117B4, 0xEFCDAB89, 0x98BADCFE), 0x00000000, 0xE8C7B756, 12);
    Next(2, Regs(0x98BADCFE, 0x344A8432, 0xD6D117B4, 0xEFCDAB89), 0x00000000, 0x242070DB, 17);
    Next(3, Regs(0xEFCDAB89, 0x2F6FBD72, 0x344A8432, 0xD6D117B4), 0x00000000, 0xC1BDCEEE, 22);
    Next(4, Regs(0xD6D117B4, 0x7AD956F2, 0x2F6FBD72, 0x344A8432), 0x00000000, 0xF57C0FAF, 7);
    Next(5, Regs(0x344A8432, 0xC73741EF, 0x7AD956F2, 0x2F6FBD72), 0x00000000, 0x4787C62A, 12);
    Next(6, Regs(0x2F6FBD72, 0x8BAC3051, 0xC73741EF, 0x7AD956F2), 0x00000000, 0xA8304613, 17);
    Next(7, Regs(0x7AD956F2, 0x207DC67B, 0x8BAC3051, 0xC73741EF), 0x00000000, 0xFD469501, 22);
  }

  lemma Operations16()
    ensures Operations(H0, BLOCK, 16) == Regs(0xDDA9B9A6, 0x72AFF2E0, 0xE396856B, 0xA1051895)
  {
    hide Operations, Index, Amount, T, BLOCK;
    BlockWords();
    Table1();
    Order1();
    Operations8();
    Next(8, Regs(0xC73741EF, 0x928D99F6, 0x207DC67B, 0x8BAC3051), 0x00000000, 0x698098D8, 7);
    Next(9, Regs(0x8BAC3051, 0x854B3712, 0x928D99F6, 0x207DC67B), 0x00000000, 0x8B44F7AF, 12);
    Next(10, Regs(0x207DC67B, 0x74E2F284, 0x854B3712, 0x928D99F6), 0x00000000, 0xFFFF5BB1, 17);
    Next(11, Regs(0x928D99F6, 0x3020401C, 0x74E2F284, 0x854B3712), 0x00000000, 0x895CD7BE, 22);
    Next(12, Regs(0x854B3712, 0x5ED49596, 0x3020401C, 0x74E2F284), 0x00000000, 0x6B901122, 7);
    Next(13, Regs(0x74E2F284, 0xDDA9B9A6, 0x5ED49596, 0x3020401C), 0x00000000, 0xFD987193, 12);
    Next(14, Regs(0x3020401C, 0xA1051895, 0xDDA9B9A6, 0x5ED49596), 0x00000018, 0xA679438E, 17);
    Next(15, Regs(0x5ED49596, 0xE396856B, 0xA1051895, 0xDDA9B9A6), 0x00000000, 0x49B40821, 22);
  }

  lemma Operations24()
    ensures Operations(H0, BLOCK, 24) == Regs(0x59A8FFDA, 0x47092C07, 0xABFC7920, 0x6D002F1E)
  {
    hide Operations, Index, Amount, T, BLOCK;
    BlockWords();
    Table2();
    Order2();
    Operations16();
    Next(16, Regs(0xDDA9B9A6, 0x72AFF2E0, 0xE396856B, 0xA1051895), 0x00000000, 0xF61E2562, 5);
    Next(17, Regs(0xA1051895, 0x3E9E9126, 0x72AFF2E0, 0xE396856B), 0x00000000, 0xC040B340, 9);
    Next(18, Regs(0xE396856B, 0x4A1D804E, 0x3E9E9126, 0x72AFF2E0), 0x00000000, 0x265E5A51, 14);
    Next(19, Regs(0x72AFF2E0, 0xE25E1652, 0x4A1D804E, 0x3E9E9126), 0x80636261, 0xE9B6C7AA, 20);
    Next(20, Regs(0x3E9E9126, 0xB5B204E4, 0xE25E1652, 0x4A1D804E), 0x00000000, 0xD62F105D, 5);
    Next(21, Regs(0x4A1D804E, 0x59A8FFDA, 0xB5B204E4, 0xE25E1652), 0x00000000, 0x02441453, 9);
    Next(22, Regs(0xE25E1652, 0x6D002F1E, 0x59A8FFDA, 0xB5B204E4), 0x00000000, 0xD8A1E681, 14);
    Next(23, Regs(0xB5B204E4, 0xABFC7920, 0x6D002F1E, 0x59A8FFDA), 0x00000000, 0xE7D3FBC8, 20);
  }

  lemma Operations32()
    ensures Operations(H0, BLOCK, 32) == Regs(0x790A77FB, 0x726342D3, 0xA62884AA, 0x9F47E4F8)
  {
    hide Operations, Index, Amount, T, BLOCK;
    BlockWords();
    Table2();
    Order2();
    Operations24();
    Next(24, Regs(0x59A8FFDA, 0x47092C07, 0xABFC7920, 0x6D002F1E), 0x00000000, 0x21E1CDE6, 5);
    Next(25, Regs(0x6D002F1E, 0xB7F268CF, 0x47092C07, 0xABFC7920), 0x00000018, 0xC33707D6, 9);
    Next(26, Regs(0xABFC7920, 0x09388EFF, 0xB7F268CF, 0x47092C07), 0x00000000, 0xF4D50D87, 14);
    Next(27, Regs(0x47092C07, 0xFE1623B1, 0x09388EFF, 0xB7F268CF), 0x00000000, 0x455A14ED, 20);
    Next(28, Regs(0xB7F268CF, 0x786ACB8F, 0xFE1623B1, 0x09388EFF), 0x00000000, 0xA9E3E905, 5);
    Next(29, Regs(0x09388EFF, 0x790A77FB, 0x786ACB8F, 0xFE1623B1), 0x00000000, 0xFCEFA3F8, 9);
    Next(30, Regs(0xFE1623B1, 0x9F47E4F8, 0x790A77FB, 0x786ACB8F), 0x00000000, 0x676F02D9, 14);
    Next(31, Regs(0x786ACB8F, 0xA62884AA, 0x9F47E4F8, 0x790A77FB), 0x00000000, 0x8D2A4C8A, 20);
  }

  lemma Operations40()
    ensures Operations(H0, BLOCK, 40) == Regs(0x21B117B9, 0x5A2F5EA5, 0x3575227E, 0x6E7429D5)
  {
    hide Operations, Index, Amount, T, BLOCK;
    BlockWords();
    Table3();
    Order3();
    Operations32();
    Next(32, Regs(0x790A77FB, 0x726342D3, 0xA62884AA, 0x9F47E4F8), 0x00000000, 0xFFFA3942, 4);
    Next(33, Regs(0x9F47E4F8, 0xB3707EBF, 0x726342D3, 0xA62884AA), 0x00000000, 0x8771F681, 11);
    Next(34, Regs(0xA62884AA, 0x60127B2E, 0xB3707EBF, 0x726342D3), 0x00000000, 0x6D9D6122, 16);
    Next(35, Regs(0x726342D3, 0x8D212FF5, 0x60127B2E, 0xB3707EBF), 0x00000018, 0xFDE5380C, 23);
    Next(36, Regs(0xB3707EBF, 0x3B0875C7, 0x8D212FF5, 0x60127B2E), 0x00000000, 0xA4BEEA44, 4);
    Next(37, Regs(0x60127B2E, 0x21B117B9, 0x3B0875C7, 0x8D212FF5), 0x00000000, 0x4BDECFA9, 11);
    Next(38, Regs(0x8D212FF5, 0x6E7429D5, 0x21B117B9, 0x3B0875C7), 0x00000000, 0xF6BB4B60, 16);
    Next(39, Regs(0x3B0875C7, 0x3575227E, 0x6E7429D5, 0x21B117B9), 0x00000000, 0xBEBFBC70, 23);
  }

  lemma Operations48()
    ensures Operations(H0, BLOCK, 48) == Regs(0x7F2E507B, 0x7BEB9700, 0x8FAE6399, 0x99D9679D)
  {
    hide Operations, Index, Amount, T, BLOCK;
    BlockWords();
    Table3();
    Order3();
    Operations40();
    Next(40, Regs(0x21B117B9, 0x5A2F5EA5, 0x3575227E, 0x6E7429D5), 0x00000000, 0x289B7EC6, 4);
    Next(41, Regs(0x6E7429D5, 0x11DE1779, 0x5A2F5EA5, 0x3575227E), 0x80636261, 0xEAA127FA, 11);
    Next(42, Regs(0x3575227E, 0xFADCAA38, 0x11DE1779, 0x5A2F5EA5), 0x00000000, 0xD4EF3085, 16);
    Next(43, Regs(0x5A2F5EA5, 0x31C465CA, 0xFADCAA38, 0x11DE1779), 0x00000000, 0x04881D05, 23);
    Next(44, Regs(0x11DE1779, 0x4C6124F4, 0x31C465CA, 0xFADCAA38), 0x00000000, 0xD9D4D039, 4);
    Next(45, Regs(0xFADCAA38, 0x7F2E507B, 0x4C6124F4, 0x31C465CA), 0x00000000, 0xE6DB99E5, 11);
    Next(46, Regs(0x31C465CA, 0x99D9679D, 0x7F2E507B, 0x4C6124F4), 0x00000000, 0x1FA27CF8, 16);
    Next(47, Regs(0x4C6124F4, 0x8FAE6399, 0x99D9679D, 0x7F2E507B), 0x00000000, 0xC4AC5665, 23);
  }

  lemma Operations56()
    ensures Operations(H0, BLOCK, 56) == Regs(0x06CC5E8A, 0x3BFA2C27, 0x7D632DD0, 0x5B0D97AA)
  {
    hide Operations, Index, Amount, T, BLOCK;
    BlockWords();
    Table4();
    Order4();
    Operations48();
    Next(48, Regs(0x7F2E507B, 0x7BEB9700, 0x8FAE6399, 0x99D9679D), 0x80636261, 0xF4292244, 6);
    Next(49, Regs(0x99D9679D, 0x7B201DF8, 0x7BEB9700, 0x8FAE6399), 0x00000000, 0x432AFF97, 10);
    Next(50, Regs(0x8FAE6399, 0xF4E8E96E, 0x7B201DF8, 0x7BEB9700), 0x00000018, 0xAB9423A7, 15);
    Next(51, Regs(0x7BEB9700, 0xB298CEFD, 0xF4E8E96E, 0x7B201DF8), 0x00000000, 0xFC93A039, 21);
    Next(52, Regs(0x7B201DF8, 0x8BF025C4, 0xB298CEFD, 0xF4E8E96E), 0x00000000, 0x655B59C3, 6);
    Next(53, Regs(0xF4E8E96E, 0x06CC5E8A, 0x8BF025C4, 0xB298CEFD), 0x00000000, 0x8F0CCC92, 10);
    Next(54, Regs(0xB298CEFD, 0x5B0D97AA, 0x06CC5E8A, 0x8BF025C4), 0x00000000, 0xFFEFF47D, 15);
    Next(55, Regs(0x8BF025C4, 0x7D632DD0, 0x5B0D97AA, 0x06CC5E8A), 0x00000000, 0x85845DD1, 21);
  }

  lemma Operations64()
    ensures Operations(H0, BLOCK, 64) == Regs(0x310ADE8F, 0xC08226B3, 0xE484B9D8, 0x624D8CB2)
  {
    hide Operations, Index, Amount, T, BLOCK;
    BlockWords();
    Table4();
    Order4();
    Operations56();
    Next(56, Regs(0x06CC5E8A, 0x3BFA2C27, 0x7D632DD0, 0x5B0D97AA), 0x00000000, 0x6FA87E4F, 6);
    Next(57, Regs(0x5B0D97AA, 0x7F81CC35, 0x3BFA2C27, 0x7D632DD0), 0x00000000, 0xFE2CE6E0, 10);
    Next(58, Regs(0x7D632DD0, 0x094454AB, 0x7F81CC35, 0x3BFA2C27), 0x00000000, 0xA3014314, 15);
    Next(59, Regs(0x3BFA2C27, 0x4F9DBE3F, 0x094454AB, 0x7F81CC35), 0x00000000, 0x4E0811A1, 21);
    Next(60, Regs(0x7F81CC35, 0x7327D604, 0x4F9DBE3F, 0x094454AB), 0x00000000, 0xF7537E82, 6);
    Next(61, Regs(0x094454AB, 0x310ADE8F, 0x7327D604, 0x4F9DBE3F), 0x00000000, 0xBD3AF235, 10);
    Next(62, Regs(0x4F9DBE3F, 0x624D8CB2, 0x310ADE8F, 0x7327D604), 0x00000000, 0x2AD7D2BB, 15);
    Next(63, Regs(0x7327D604, 0xE484B9D8, 0x624D8CB2, 0x310ADE8F), 0x00000000, 0xEB86D391, 21);
  }

  /** MD5 of "abc". */
  lemma DigestOfAbc()
    ensures Digest(ABC) == [
      0x90, 0x01, 0x50, 0x98, 0x3C, 0xD2, 0x4F, 0xB0,
      0xD6, 0x96, 0x3F, 0x7D, 0x28, 0xE1, 0x7F, 0x72]
  {
    hide Operations, Words, Padded, Hash, AllBytes, WordBytes;
    PaddedAbc();
    Operations64();
    HashOne(H0, Padded(ABC));
    var h := Regs(0x98500190, 0xB04FD23C, 0x7D3F96D6, 0x727FE128);
    assert Hash(H0, Padded(ABC)) == h;
    BytesOfFour(h);
    FinalBytes();
  }

  lemma BytesOfFour(h: Regs)
    ensures Output(h) == WordBytes(h.a) + WordBytes(h.b) + WordBytes(h.c) + WordBytes(h.d)
  {
    hide WordBytes;
    BytesOfTwo(h.a, h.b);
    assert AllBytes([h.a, h.b, h.c]) == AllBytes([h.a, h.b, h.c][..2]) + WordBytes(h.c);
    assert AllBytes([h.a, h.b, h.c, h.d]) == AllBytes([h.a, h.b, h.c, h.d][..3]) + WordBytes(h.d);
    assert [h.a, h.b, h.c][..2] == [h.a, h.b] && [h.a, h.b, h.c, h.d][..3] == [h.a, h.b, h.c];
  }

  lemma FinalBytes()
    ensures WordBytes(0x98500190) == [0x90, 0x01, 0x50, 0x98]
    ensures WordBytes(0xB04FD23C) == [0x3C, 0xD2, 0x4F, 0xB0]
    ensures WordBytes(0x7D3F96D6) == [0xD6, 0x96, 0x3F, 0x7D]
    ensures WordBytes(0x727FE128) == [0x28, 0xE1, 0x7F, 0x72]
  {
  }
}
