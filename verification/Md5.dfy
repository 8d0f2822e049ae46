/** The streaming MD5 of src/md5.c against sections 3.1 to 3.5 of RFC 1321. */
module Md5 {
  import S = Sha1

  type Bytes8 = seq<bv8>

  // The standard.

  // The functions of section 3.4.

  function F(x: bv32, y: bv32, z: bv32): bv32 { (x & y) | (!x & z) }

  function G(x: bv32, y: bv32, z: bv32): bv32 { (x & z) | (y & !z) }

  function H(x: bv32, y: bv32, z: bv32): bv32 { x ^ y ^ z }

  function I(x: bv32, y: bv32, z: bv32): bv32 { y ^ (x | !z) }

  function Fn(i: nat, x: bv32, y: bv32, z: bv32): bv32 {
    if i < 16 then F(x, y, z) else if i < 32 then G(x, y, z) else if i < 48 then H(x, y, z) else I(x, y, z)
  }

  function Rotl(v: bv32, s: bv6): bv32
    requires s <= 32
  {
    (v << s) | (v >> (32 - s))
  }

  /** The last s bits are the first s bits of the word. */
  lemma RotlBelow(v: bv32, s: bv6)
    requires s < 32
    ensures Rotl(v, s) << (32 - s) == (v >> (32 - s)) << (32 - s)
  {
  }

  /** The others are the other bits of the word. */
  lemma RotlAbove(v: bv32, s: bv6)
    requires s < 32
    ensures Rotl(v, s) >> s == (v << s) >> s
  {
  }

  // Bit by bit.

  /** x chooses between y and z. */
  lemma FOfBits(x: bv32, y: bv32, z: bv32)
    ensures F(x, y, z) & x == y & x && F(x, y, z) & !x == z & !x
  {
  }

  /** z chooses between x and y. */
  lemma GOfBits(x: bv32, y: bv32, z: bv32)
    ensures G(x, y, z) & z == x & z && G(x, y, z) & !z == y & !z
  {
  }

  /** The bits are added. */
  lemma HOfBits(x: bv32, y: bv32, z: bv32)
    ensures H(x, y, z) ^ x ^ y == z
  {
  }

  /** y differs from x or not z. */
  lemma IOfBits(x: bv32, y: bv32, z: bv32)
    ensures I(x, y, z) & z == (x ^ y) & z && I(x, y, z) & !z == !y & !z
  {
  }

  /** The word operation i reads: the four orders of section 3.4. */
  function Index(i: nat): (k: nat)
    ensures k < 16
  {
    if i < 16 then i else if i < 32 then (5 * i + 1) % 16 else if i < 48 then (3 * i + 5) % 16 else 7 * i % 16
  }

  /** How far operation i rotates. */
  function Amount(i: nat): (s: bv6)
    ensures s <= 32
  {
    if i < 16 then (if i % 4 == 0 then 7 else if i % 4 == 1 then 12 else if i % 4 == 2 then 17 else 22)
    else if i < 32 then (if i % 4 == 0 then 5 else if i % 4 == 1 then 9 else if i % 4 == 2 then 14 else 20)
    else if i < 48 then (if i % 4 == 0 then 4 else if i % 4 == 1 then 11 else if i % 4 == 2 then 16 else 23)
    else (if i % 4 == 0 then 6 else if i % 4 == 1 then 10 else if i % 4 == 2 then 15 else 21)
  }

  /** The table T of section 3.4: the integer parts of 2 ** 32 times the absolute sines of 1 to 64. */
  function T(i: nat): bv32
    requires i < 64
  {
    if i < 16 then TABLE1[i] else if i < 32 then TABLE2[i - 16] else if i < 48 then TABLE3[i - 32] else TABLE4[i - 48]
  }

  const TABLE1: seq<bv32> := [
    0xD76AA478, 0xE8C7B756, 0x242070DB, 0xC1BDCEEE, 0xF57C0FAF, 0x4787C62A, 0xA8304613, 0xFD469501,
    0x698098D8, 0x8B44F7AF, 0xFFFF5BB1, 0x895CD7BE, 0x6B901122, 0xFD987193, 0xA679438E, 0x49B40821]

  const TABLE2: seq<bv32> := [
    0xF61E2562, 0xC040B340, 0x265E5A51, 0xE9B6C7AA, 0xD62F105D, 0x02441453, 0xD8A1E681, 0xE7D3FBC8,
    0x21E1CDE6, 0xC33707D6, 0xF4D50D87, 0x455A14ED, 0xA9E3E905, 0xFCEFA3F8, 0x676F02D9, 0x8D2A4C8A]

  const TABLE3: seq<bv32> := [
    0xFFFA3942, 0x8771F681, 0x6D9D6122, 0xFDE5380C, 0xA4BEEA44, 0x4BDECFA9, 0xF6BB4B60, 0xBEBFBC70,
    0x289B7EC6, 0xEAA127FA, 0xD4EF3085, 0x04881D05, 0xD9D4D039, 0xE6DB99E5, 0x1FA27CF8, 0xC4AC5665]

  const TABLE4: seq<bv32> := [
    0xF4292244, 0x432AFF97, 0xAB9423A7, 0xFC93A039, 0x655B59C3, 0x8F0CCC92, 0xFFEFF47D, 0x85845DD1,
    0x6FA87E4F, 0xFE2CE6E0, 0xA3014314, 0x4E0811A1, 0xF7537E82, 0xBD3AF235, 0x2AD7D2BB, 0xEB86D391]

  type Block = m: seq<bv32> | |m| == 16 witness seq(16, i => 0)

  datatype Regs = Regs(a: bv32, b: bv32, c: bv32, d: bv32)

  /** The new value of the first register. */
  function Mixed(a: bv32, b: bv32, f: bv32, x: bv32, t: bv32, s: bv6): bv32
    requires s <= 32
  {
    b + Rotl(a + f + x + t, s)
  }

  /** One operation, after which the registers change places. */
  function Operation(r: Regs, m: Block, i: nat): Regs
    requires i < 64
  {
    Regs(r.d, Mixed(r.a, r.b, Fn(i, r.b, r.c, r.d), m[Index(i)], T(i), Amount(i)), r.b, r.c)
  }

  function Operations(h: Regs, m: Block, n: nat): Regs
    requires n <= 64
  {
    if n == 0 then h else Operation(Operations(h, m, n - 1), m, n - 1)
  }

  function Sum(h: Regs, r: Regs): Regs {
    Regs(h.a + r.a, h.b + r.b, h.c + r.c, h.d + r.d)
  }

  function LittleEndian(b0: bv8, b1: bv8, b2: bv8, b3: bv8): bv32 {
    b0 as bv32 | (b1 as bv32 << 8) | (b2 as bv32 << 16) | (b3 as bv32 << 24)
  }

  /** The words of a block of 64 bytes. */
  function Words(b: Bytes8): Block
    requires |b| == 64
  {
    seq(16, i requires 0 <= i < 16 => LittleEndian(b[4 * i], b[4 * i + 1], b[4 * i + 2], b[4 * i + 3]))
  }

  function Compress(h: Regs, b: Bytes8): Regs
    requires |b| == 64
  {
    Sum(h, Operations(h, Words(b), 64))
  }

  /** The buffer after all complete blocks. */
  function Hash(h: Regs, s: Bytes8): Regs
    decreases |s|
  {
    if |s| < 64 then h else Hash(Compress(h, s[..64]), s[64..])
  }

  /** The buffer of section 3.3. */
  const H0: Regs := Regs(0x67452301, 0xEFCDAB89, 0x98BADCFE, 0x10325476)

  function WordBytes(w: bv32): Bytes8 {
    [(w & 0xFF) as bv8, ((w >> 8) & 0xFF) as bv8, ((w >> 16) & 0xFF) as bv8, ((w >> 24) & 0xFF) as bv8]
  }

  function AllBytes(ws: seq<bv32>): (b: Bytes8)
    ensures |b| == 4 * |ws|
  {
    if ws == [] then [] else AllBytes(ws[..|ws| - 1]) + WordBytes(ws[|ws| - 1])
  }

  /** A number below 2 ** 32 as a word. */
  function Word(v: nat): bv32 {
    (v % S.TWO32) as bv32
  }

  /** The message, a bit 1, zeros up to 8 bytes short of a whole block, and the number of bits, low
      word first (sections 3.1 and 3.2). */
  function Padded(s: Bytes8): Bytes8 {
    s + [0x80] + S.Zeros(S.Missing(|s|)) + AllBytes([Word(S.Low(8 * |s|)), Word(S.High(8 * |s|))])
  }

  /** The digest of a message (section 3.5). */
  function Digest(s: Bytes8): Bytes8 {
    Output(Hash(H0, Padded(s)))
  }

  function Output(h: Regs): Bytes8 {
    AllBytes([h.a, h.b, h.c, h.d])
  }

  /** The bytes of the buffer at first: up by nibbles and down again. */
  lemma InitialBytes()
    ensures WordBytes(H0.a) == [0x01, 0x23, 0x45, 0x67] && WordBytes(H0.b) == [0x89, 0xAB, 0xCD, 0xEF]
    ensures WordBytes(H0.c) == [0xFE, 0xDC, 0xBA, 0x98] && WordBytes(H0.d) == [0x76, 0x54, 0x32, 0x10]
  {
  }

  // Operations in place.

  /** The order of additions in the macros. */
  lemma AddOrder(a: bv32, f: bv32, x: bv32, t: bv32)
    ensures a + (f + x + t) == a + f + x + t
  {
  }

  /** What the macros FF, GG, HH and II make of their first argument. */
  function Macro(a: bv32, b: bv32, f: bv32, x: bv32, ac: bv32, s: bv6): bv32
    requires s <= 32
  {
    Rotl(a + (f + x + ac), s) + b
  }

  /** FF, GG, HH and II, by the number of the operation: the first register takes the new value, and
      the registers keep their places but change roles. */
  method Step(x: array<bv32>, ghost h: Regs, ghost m: Block, a: bv32, b: bv32, c: bv32, d: bv32,
              k: nat, s: bv6, ac: bv32, i: nat) returns (a': bv32)
    requires x[..] == m && i < 64 && k == Index(i) && s == Amount(i) && ac == T(i)
    requires Operations(h, m, i) == Regs(a, b, c, d)
    ensures Operations(h, m, i + 1) == Regs(d, a', b, c)
  {
    hide Operations, Index, Amount, Rotl, Fn, Mixed, Macro, T;
    a' := Macro(a, b, Fn(i, b, c, d), x[k], ac, s);
    MixedIs(a, b, Fn(i, b, c, d), x[k], ac, s);
    OperationForm(h, m, a, b, c, d, i);
  }

  lemma OperationForm(h: Regs, m: Block, a: bv32, b: bv32, c: bv32, d: bv32, i: nat)
    requires i < 64 && Operations(h, m, i) == Regs(a, b, c, d)
    ensures Operations(h, m, i + 1) == Regs(d, Mixed(a, b, Fn(i, b, c, d), m[Index(i)], T(i), Amount(i)), b, c)
  {
    hide Index, Amount, Fn, Mixed, T;
  }

  lemma MixedIs(a: bv32, b: bv32, f: bv32, x: bv32, t: bv32, s: bv6)
    requires s <= 32
    ensures Mixed(a, b, f, x, t, s) == Macro(a, b, f, x, t, s)
  {
    hide Rotl;
    AddOrder(a, f, x, t);
    Swapped(Rotl(a + f + x + t, s), b);
  }

  lemma Swapped(x: bv32, y: bv32)
    ensures x + y == y + x
  {
  }

  /** Round 1. */
  method Round1(x: array<bv32>, ghost h: Regs, ghost m: Block, a0: bv32, b0: bv32, c0: bv32, d0: bv32) returns (a: bv32, b: bv32, c: bv32, d: bv32)
    requires x[..] == m && Operations(h, m, 0) == Regs(a0, b0, c0, d0)
    ensures Operations(h, m, 16) == Regs(a, b, c, d)
  {
    hide Operations, T;
    Table1();
    Order1();
    a, b, c, d := a0, b0, c0, d0;
    a := Step(x, h, m, a, b, c, d, 0, 7, 0xD76AA478, 0);
    d := Step(x, h, m, d, a, b, c, 1, 12, 0xE8C7B756, 1);
    c := Step(x, h, m, c, d, a, b, 2, 17, 0x242070DB, 2);
    b := Step(x, h, m, b, c, d, a, 3, 22, 0xC1BDCEEE, 3);
    a := Step(x, h, m, a, b, c, d, 4, 7, 0xF57C0FAF, 4);
    d := Step(x, h, m, d, a, b, c, 5, 12, 0x4787C62A, 5);
    c := Step(x, h, m, c, d, a, b, 6, 17, 0xA8304613, 6);
    b := Step(x, h, m, b, c, d, a, 7, 22, 0xFD469501, 7);
    a := Step(x, h, m, a, b, c, d, 8, 7, 0x698098D8, 8);
    d := Step(x, h, m, d, a, b, c, 9, 12, 0x8B44F7AF, 9);
    c := Step(x, h, m, c, d, a, b, 10, 17, 0xFFFF5BB1, 10);
    b := Step(x, h, m, b, c, d, a, 11, 22, 0x895CD7BE, 11);
    a := Step(x, h, m, a, b, c, d, 12, 7, 0x6B901122, 12);
    d := Step(x, h, m, d, a, b, c, 13, 12, 0xFD987193, 13);
    c := Step(x, h, m, c, d, a, b, 14, 17, 0xA679438E, 14);
    b := Step(x, h, m, b, c, d, a, 15, 22, 0x49B40821, 15);
  }

  lemma Table1()
    ensures T(0) == 0xD76AA478
    ensures T(1) == 0xE8C7B756
    ensures T(2) == 0x242070DB
    ensures T(3) == 0xC1BDCEEE
    ensures T(4) == 0xF57C0FAF
    ensures T(5) == 0x4787C62A
    ensures T(6) == 0xA8304613
    ensures T(7) == 0xFD469501
    ensures T(8) == 0x698098D8
    ensures T(9) == 0x8B44F7AF
    ensures T(10) == 0xFFFF5BB1
    ensures T(11) == 0x895CD7BE
    ensures T(12) == 0x6B901122
    ensures T(13) == 0xFD987193
    ensures T(14) == 0xA679438E
    ensures T(15) == 0x49B40821
  {
  }

  lemma Order1()
    ensures Index(0) == 0 && Amount(0) == 7
    ensures Index(1) == 1 && Amount(1) == 12
    ensures Index(2) == 2 && Amount(2) == 17
    ensures Index(3) == 3 && Amount(3) == 22
    ensures Index(4) == 4 && Amount(4) == 7
    ensures Index(5) == 5 && Amount(5) == 12
    ensures Index(6) == 6 && Amount(6) == 17
    ensures Index(7) == 7 && Amount(7) == 22
    ensures Index(8) == 8 && Amount(8) == 7
    ensures Index(9) == 9 && Amount(9) == 12
    ensures Index(10) == 10 && Amount(10) == 17
    ensures Index(11) == 11 && Amount(11) == 22
    ensures Index(12) == 12 && Amount(12) == 7
    ensures Index(13) == 13 && Amount(13) == 12
    ensures Index(14) == 14 && Amount(14) == 17
    ensures Index(15) == 15 && Amount(15) == 22
  {
  }

  /** Round 2. */
  method Round2(x: array<bv32>, ghost h: Regs, ghost m: Block, a0: bv32, b0: bv32, c0: bv32, d0: bv32) returns (a: bv32, b: bv32, c: bv32, d: bv32)
    requires x[..] == m && Operations(h, m, 16) == Regs(a0, b0, c0, d0)
    ensures Operations(h, m, 32) == Regs(a, b, c, d)
  {
    hide Operations, T;
    Table2();
    Order2();
    a, b, c, d := a0, b0, c0, d0;
    a := Step(x, h, m, a, b, c, d, 1, 5, 0xF61E2562, 16);
    d := Step(x, h, m, d, a, b, c, 6, 9, 0xC040B340, 17);
    c := Step(x, h, m, c, d, a, b, 11, 14, 0x265E5A51, 18);
    b := Step(x, h, m, b, c, d, a, 0, 20, 0xE9B6C7AA, 19);
    a := Step(x, h, m, a, b, c, d, 5, 5, 0xD62F105D, 20);
    d := Step(x, h, m, d, a, b, c, 10, 9, 0x02441453, 21);
    c := Step(x, h, m, c, d, a, b, 15, 14, 0xD8A1E681, 22);
    b := Step(x, h, m, b, c, d, a, 4, 20, 0xE7D3FBC8, 23);
    a := Step(x, h, m, a, b, c, d, 9, 5, 0x21E1CDE6, 24);
    d := Step(x, h, m, d, a, b, c, 14, 9, 0xC33707D6, 25);
    c := Step(x, h, m, c, d, a, b, 3, 14, 0xF4D50D87, 26);
    b := Step(x, h, m, b, c, d, a, 8, 20, 0x455A14ED, 27);
    a := Step(x, h, m, a, b, c, d, 13, 5, 0xA9E3E905, 28);
    d := Step(x, h, m, d, a, b, c, 2, 9, 0xFCEFA3F8, 29);
    c := Step(x, h, m, c, d, a, b, 7, 14, 0x676F02D9, 30);
    b := Step(x, h, m, b, c, d, a, 12, 20, 0x8D2A4C8A, 31);
  }

  lemma Table2()
    ensures T(16) == 0xF61E2562
    ensures T(17) == 0xC040B340
    ensures T(18) == 0x265E5A51
    ensures T(19) == 0xE9B6C7AA
    ensures T(20) == 0xD62F105D
    ensures T(21) == 0x02441453
    ensures T(22) == 0xD8A1E681
    ensures T(23) == 0xE7D3FBC8
    ensures T(24) == 0x21E1CDE6
    ensures T(25) == 0xC33707D6
    ensures T(26) == 0xF4D50D87
    ensures T(27) == 0x455A14ED
    ensures T(28) == 0xA9E3E905
    ensures T(29) == 0xFCEFA3F8
    ensures T(30) == 0x676F02D9
    ensures T(31) == 0x8D2A4C8A
  {
  }

  lemma Order2()
    ensures Index(16) == 1 && Amount(16) == 5
    ensures Index(17) == 6 && Amount(17) == 9
    ensures Index(18) == 11 && Amount(18) == 14
    ensures Index(19) == 0 && Amount(19) == 20
    ensures Index(20) == 5 && Amount(20) == 5
    ensures Index(21) == 10 && Amount(21) == 9
    ensures Index(22) == 15 && Amount(22) == 14
    ensures Index(23) == 4 && Amount(23) == 20
    ensures Index(24) == 9 && Amount(24) == 5
    ensures Index(25) == 14 && Amount(25) == 9
    ensures Index(26) == 3 && Amount(26) == 14
    ensures Index(27) == 8 && Amount(27) == 20
    ensures Index(28) == 13 && Amount(28) == 5
    ensures Index(29) == 2 && Amount(29) == 9
    ensures Index(30) == 7 && Amount(30) == 14
    ensures Index(31) == 12 && Amount(31) == 20
  {
  }

  /** Round 3. */
  method Round3(x: array<bv32>, ghost h: Regs, ghost m: Block, a0: bv32, b0: bv32, c0: bv32, d0: bv32) returns (a: bv32, b: bv32, c: bv32, d: bv32)
    requires x[..] == m && Operations(h, m, 32) == Regs(a0, b0, c0, d0)
    ensures Operations(h, m, 48) == Regs(a, b, c, d)
  {
    hide Operations, T;
    Table3();
    Order3();
    a, b, c, d := a0, b0, c0, d0;
    a := Step(x, h, m, a, b, c, d, 5, 4, 0xFFFA3942, 32);
    d := Step(x, h, m, d, a, b, c, 8, 11, 0x8771F681, 33);
    c := Step(x, h, m, c, d, a, b, 11, 16, 0x6D9D6122, 34);
    b := Step(x, h, m, b, c, d, a, 14, 23, 0xFDE5380C, 35);
    a := Step(x, h, m, a, b, c, d, 1, 4, 0xA4BEEA44, 36);
    d := Step(x, h, m, d, a, b, c, 4, 11, 0x4BDECFA9, 37);
    c := Step(x, h, m, c, d, a, b, 7, 16, 0xF6BB4B60, 38);
    b := Step(x, h, m, b, c, d, a, 10, 23, 0xBEBFBC70, 39);
    a := Step(x, h, m, a, b, c, d, 13, 4, 0x289B7EC6, 40);
    d := Step(x, h, m, d, a, b, c, 0, 11, 0xEAA127FA, 41);
    c := Step(x, h, m, c, d, a, b, 3, 16, 0xD4EF3085, 42);
    b := Step(x, h, m, b, c, d, a, 6, 23, 0x04881D05, 43);
    a := Step(x, h, m, a, b, c, d, 9, 4, 0xD9D4D039, 44);
    d := Step(x, h, m, d, a, b, c, 12, 11, 0xE6DB99E5, 45);
    c := Step(x, h, m, c, d, a, b, 15, 16, 0x1FA27CF8, 46);
    b := Step(x, h, m, b, c, d, a, 2, 23, 0xC4AC5665, 47);
  }

  lemma Table3()
    ensures T(32) == 0xFFFA3942
    ensures T(33) == 0x8771F681
    ensures T(34) == 0x6D9D6122
    ensures T(35) == 0xFDE5380C
    ensures T(36) == 0xA4BEEA44
    ensures T(37) == 0x4BDECFA9
    ensures T(38) == 0xF6BB4B60
    ensures T(39) == 0xBEBFBC70
    ensures T(40) == 0x289B7EC6
    ensures T(41) == 0xEAA127FA
    ensures T(42) == 0xD4EF3085
    ensures T(43) == 0x04881D05
    ensures T(44) == 0xD9D4D039
    ensures T(45) == 0xE6DB99E5
    ensures T(46) == 0x1FA27CF8
    ensures T(47) == 0xC4AC5665
  {
  }

  lemma Order3()
    ensures Index(32) == 5 && Amount(32) == 4
    ensures Index(33) == 8 && Amount(33) == 11
    ensures Index(34) == 11 && Amount(34) == 16
    ensures Index(35) == 14 && Amount(35) == 23
    ensures Index(36) == 1 && Amount(36) == 4
    ensures Index(37) == 4 && Amount(37) == 11
    ensures Index(38) == 7 && Amount(38) == 16
    ensures Index(39) == 10 && Amount(39) == 23
    ensures Index(40) == 13 && Amount(40) == 4
    ensures Index(41) == 0 && Amount(41) == 11
    ensures Index(42) == 3 && Amount(42) == 16
    ensures Index(43) == 6 && Amount(43) == 23
    ensures Index(44) == 9 && Amount(44) == 4
    ensures Index(45) == 12 && Amount(45) == 11
    ensures Index(46) == 15 && Amount(46) == 16
    ensures Index(47) == 2 && Amount(47) == 23
  {
  }

  /** Round 4. */
  method Round4(x: array<bv32>, ghost h: Regs, ghost m: Block, a0: bv32, b0: bv32, c0: bv32, d0: bv32) returns (a: bv32, b: bv32, c: bv32, d: bv32)
    requires x[..] == m && Operations(h, m, 48) == Regs(a0, b0, c0, d0)
    ensures Operations(h, m, 64) == Regs(a, b, c, d)
  {
    hide Operations, T;
    Table4();
    Order4();
    a, b, c, d := a0, b0, c0, d0;
    a := Step(x, h, m, a, b, c, d, 0, 6, 0xF4292244, 48);
    d := Step(x, h, m, d, a, b, c, 7, 10, 0x432AFF97, 49);
    c := Step(x, h, m, c, d, a, b, 14, 15, 0xAB9423A7, 50);
    b := Step(x, h, m, b, c, d, a, 5, 21, 0xFC93A039, 51);
    a := Step(x, h, m, a, b, c, d, 12, 6, 0x655B59C3, 52);
    d := Step(x, h, m, d, a, b, c, 3, 10, 0x8F0CCC92, 53);
    c := Step(x, h, m, c, d, a, b, 10, 15, 0xFFEFF47D, 54);
    b := Step(x, h, m, b, c, d, a, 1, 21, 0x85845DD1, 55);
    a := Step(x, h, m, a, b, c, d, 8, 6, 0x6FA87E4F, 56);
    d := Step(x, h, m, d, a, b, c, 15, 10, 0xFE2CE6E0, 57);
    c := Step(x, h, m, c, d, a, b, 6, 15, 0xA3014314, 58);
    b := Step(x, h, m, b, c, d, a, 13, 21, 0x4E0811A1, 59);
    a := Step(x, h, m, a, b, c, d, 4, 6, 0xF7537E82, 60);
    d := Step(x, h, m, d, a, b, c, 11, 10, 0xBD3AF235, 61);
    c := Step(x, h, m, c, d, a, b, 2, 15, 0x2AD7D2BB, 62);
    b := Step(x, h, m, b, c, d, a, 9, 21, 0xEB86D391, 63);
  }

  lemma Table4()
    ensures T(48) == 0xF4292244
    ensures T(49) == 0x432AFF97
    ensures T(50) == 0xAB9423A7
    ensures T(51) == 0xFC93A039
    ensures T(52) == 0x655B59C3
    ensures T(53) == 0x8F0CCC92
    ensures T(54) == 0xFFEFF47D
    ensures T(55) == 0x85845DD1
    ensures T(56) == 0x6FA87E4F
    ensures T(57) == 0xFE2CE6E0
    ensures T(58) == 0xA3014314
    ensures T(59) == 0x4E0811A1
    ensures T(60) == 0xF7537E82
    ensures T(61) == 0xBD3AF235
    ensures T(62) == 0x2AD7D2BB
    ensures T(63) == 0xEB86D391
  {
  }

  lemma Order4()
    ensures Index(48) == 0 && Amount(48) == 6
    ensures Index(49) == 7 && Amount(49) == 10
    ensures Index(50) == 14 && Amount(50) == 15
    ensures Index(51) == 5 && Amount(51) == 21
    ensures Index(52) == 12 && Amount(52) == 6
    ensures Index(53) == 3 && Amount(53) == 10
    ensures Index(54) == 10 && Amount(54) == 15
    ensures Index(55) == 1 && Amount(55) == 21
    ensures Index(56) == 8 && Amount(56) == 6
    ensures Index(57) == 15 && Amount(57) == 10
    ensures Index(58) == 6 && Amount(58) == 15
    ensures Index(59) == 13 && Amount(59) == 21
    ensures Index(60) == 4 && Amount(60) == 6
    ensures Index(61) == 11 && Amount(61) == 10
    ensures Index(62) == 2 && Amount(62) == 15
    ensures Index(63) == 9 && Amount(63) == 21
  {
  }

  /** Decode. */
  method Decode(input: Bytes8) returns (output: array<bv32>)
    requires |input| == 64
    ensures fresh(output) && output[..] == Words(input)
  {
    hide LittleEndian;
    output := new bv32[16];
    var j := 0;
    for i := 0 to 16
      invariant j == 4 * i && forall k :: 0 <= k < i ==> output[k] == Words(input)[k]
    {
      output[i] := LittleEndian(input[j], input[j + 1], input[j + 2], input[j + 3]);
      j := j + 4;
    }
  }

  /** Encode. */
  method Encode(output: array<bv8>, input: seq<bv32>)
    requires output.Length == 4 * |input|
    modifies output
    ensures output[..] == AllBytes(input)
  {
    hide WordBytes;
    var j := 0;
    for i := 0 to |input|
      invariant j == 4 * i && output[..j] == AllBytes(input[..i])
    {
      ghost var done := output[..j];
      var bytes := WordBytes(input[i]);
      FourBytes(input[i]);
      output[j], output[j + 1], output[j + 2], output[j + 3] := bytes[0], bytes[1], bytes[2], bytes[3];
      assert input[..i + 1] == input[..i] + [input[i]] && input[..i + 1][..i] == input[..i];
      assert output[..j + 4] == done + bytes;
      j := j + 4;
    }
    assert input[..|input|] == input;
  }

  lemma FourBytes(w: bv32)
    ensures |WordBytes(w)| == 4
  {
  }

  /** li_MD5Transform. */
  method Transform(state: Regs, block: Bytes8) returns (r: Regs)
    requires |block| == 64
    ensures r == Compress(state, block)
  {
    hide Operations, Words, Compress, Sum;
    var x := Decode(block);
    ghost var m := Words(block);
    NoOperations(state, m);
    var a, b, c, d := Round1(x, state, m, state.a, state.b, state.c, state.d);
    a, b, c, d := Round2(x, state, m, a, b, c, d);
    a, b, c, d := Round3(x, state, m, a, b, c, d);
    a, b, c, d := Round4(x, state, m, a, b, c, d);
    CompressIs(state, block, Regs(a, b, c, d));
    r := Sum(state, Regs(a, b, c, d));
  }

  lemma CompressIs(h: Regs, b: Bytes8, r: Regs)
    requires |b| == 64 && Operations(h, Words(b), 64) == r
    ensures Compress(h, b) == Sum(h, r)
  {
    hide Operations, Words, Sum;
  }

  lemma NoOperations(h: Regs, m: Block)
    ensures Operations(h, m, 0) == h
  {
  }

  // Hashing in parts.

  lemma {:induction false} HashSplit(h: Regs, a: Bytes8, b: Bytes8)
    requires |a| % 64 == 0
    ensures Hash(h, a + b) == Hash(Hash(h, a), b)
    decreases |a|
  {
    hide Compress;
    if a == [] {
      assert a + b == b;
    } else {
      assert (a + b)[..64] == a[..64] && (a + b)[64..] == a[64..] + b;
      HashSplit(Compress(h, a[..64]), a[64..], b);
    }
  }

  lemma HashTail(h: Regs, s: Bytes8)
    ensures Hash(h, s) == Hash(h, s[..|s| - |s| % 64])
  {
    S.TailMod(|s|);
    var a := s[..|s| - |s| % 64];
    HashSplit(h, a, S.Tail(s));
    assert s == a + S.Tail(s);
  }

  /** What is left of a message and as many bytes as make a block. */
  lemma HashNext(h: Regs, s: Bytes8, x: Bytes8)
    requires |S.Tail(s) + x| == 64
    ensures Hash(h, s + x) == Compress(Hash(h, s), S.Tail(s) + x) && |s + x| % 64 == 0
  {
    hide Compress, Hash;
    S.TailMod(|s|);
    HashTail(h, s);
    var a, b := s[..|s| - |s| % 64], S.Tail(s) + x;
    HashSplit(h, a, b);
    assert s + x == a + b;
    HashOne(Hash(h, a), b);
    S.NextBlock(|a|);
    assert |s + x| == |a| + 64;
  }

  lemma HashOne(h: Regs, b: Bytes8)
    requires |b| == 64
    ensures Hash(h, b) == Compress(h, b)
  {
    hide Compress;
    assert b[..64] == b && b[64..] == [];
  }

  lemma HashMore(h: Regs, s: Bytes8, x: Bytes8)
    requires |s| % 64 == 0 && |x| == 64
    ensures Hash(h, s + x) == Compress(Hash(h, s), x) && |s + x| % 64 == 0
  {
    hide Hash, Compress;
    assert S.Tail(s) + x == x;
    HashNext(h, s, x);
  }

  /** Bytes that complete no block. */
  lemma Settle(h: Regs, s: Bytes8, x: Bytes8)
    requires |S.Tail(s)| + |x| < 64
    ensures Hash(h, s + x) == Hash(h, s) && S.Tail(s + x) == S.Tail(s) + x && |s + x| % 64 == |S.Tail(s)| + |x|
  {
    hide Hash;
    var a := s[..|s| - |s| % 64];
    S.TailMod(|s|);
    assert |s + x| == 64 * (|s| / 64) + (|s| % 64 + |x|);
    HashTail(h, s);
    HashTail(h, s + x);
    assert (s + x)[..|s + x| - |s + x| % 64] == a;
  }

  // The context.

  const PADDING: Bytes8 := [0x80] + S.Zeros(63)

  class Context {
    var state: Regs
    /** The number of bits, in two words: count[0] and count[1]. */
    var count0: nat
    var count1: nat
    const buffer: array<bv8>
    /** All bytes so far. */
    ghost var fed: Bytes8

    ghost predicate Valid()
      reads this, buffer
    {
      && buffer.Length == 64
      && state == Hash(H0, fed) && count0 == S.Low(8 * |fed|) && count1 == S.High(8 * |fed|)
      && buffer[..|fed| % 64] == S.Tail(fed)
    }

    /** li_MD5_Init. */
    constructor ()
      ensures Valid() && fed == [] && fresh(buffer)
    {
      state, count0, count1, fed := H0, 0, 0, [];
      buffer := new bv8[64];
    }

    /** MD5_memcpy into the buffer. */
    method CopyIn(at: nat, data: Bytes8)
      requires at + |data| <= buffer.Length
      modifies buffer
      ensures buffer[..at] == old(buffer[..at]) && buffer[at..at + |data|] == data
    {
      forall k | 0 <= k < |data| {
        buffer[at + k] := data[k];
      }
    }

    /** The count of bits goes up by 8 * len. */
    method Count(len: nat)
      requires count0 == S.Low(8 * |fed|) && count1 == S.High(8 * |fed|) && len < S.TWO32
      modifies `count0, `count1
      ensures count0 == S.Low(8 * (|fed| + len)) && count1 == S.High(8 * (|fed| + len))
    {
      hide S.Low, S.High;
      S.CountUp(|fed|, len);
      var add := 8 * len % S.TWO32;
      var carry := 0;
      count0 := (count0 + add) % S.TWO32;
      if count0 < add { carry := 1; }
      S.HighWrap(count1 + carry, len / 0x2000_0000);
      count1 := (count1 + carry) % S.TWO32;
      count1 := (count1 + len / 0x2000_0000) % S.TWO32;
    }

    /** The blocks that data completes; i bytes of it are used up. */
    method Absorb(data: Bytes8, ndx: nat) returns (i: nat)
      requires buffer.Length == 64 && ndx == |fed| % 64 && state == Hash(H0, fed) && buffer[..ndx] == S.Tail(fed)
      modifies `state, buffer
      ensures i <= |data| && state == Hash(H0, fed + data[..i]) && |S.Tail(fed + data[..i])| + |data| - i < 64
      ensures |data| >= 64 - ndx ==> |fed + data[..i]| % 64 == 0
      ensures |data| < 64 - ndx ==> i == 0 && buffer[..ndx] == S.Tail(fed)
    {
      hide Hash, Compress;
      i := 0;
      assert fed + data[..0] == fed;
      var partLen := 64 - ndx;
      if |data| >= partLen {
        i := partLen;
        CopyIn(ndx, data[..i]);
        assert buffer[..] == S.Tail(fed) + data[..i];
        HashNext(H0, fed, data[..i]);
        state := Transform(state, buffer[..]);
        while i + 63 < |data|
          invariant i <= |data| && state == Hash(H0, fed + data[..i]) && |fed + data[..i]| % 64 == 0
        {
          HashMore(H0, fed + data[..i], data[i..i + 64]);
          assert fed + data[..i] + data[i..i + 64] == fed + data[..i + 64];
          state := Transform(state, data[i..i + 64]);
          i := i + 64;
        }
      }
    }

    /** li_MD5_Update. The test of its loop wraps around for longer data. */
    method Update(data: Bytes8)
      requires Valid() && |data| <= S.TWO32 - 64
      modifies this, buffer
      ensures Valid() && fed == old(fed) + data
    {
      hide Hash, Compress, S.Low, S.High, S.Tail;
      S.CountToBytes(|fed|);
      var ndx := count0 / 8 % 64;
      Count(|data|);
      var i := Absorb(data, ndx);
      if |data| >= 64 - ndx { ndx := 0; }
      ghost var start := S.Tail(fed + data[..i]);
      S.TailIs(fed + data[..i]);
      assert i == 0 ==> fed + data[..i] == fed;
      assert buffer[..ndx] == start;
      Settle(H0, fed + data[..i], data[i..]);
      assert fed + data[..i] + data[i..] == fed + data;
      CopyIn(ndx, data[i..]);
      assert buffer[..ndx + |data| - i] == buffer[..ndx] + buffer[ndx..ndx + |data| - i];
      fed := fed + data;
    }

    /** li_MD5_Final: padding, the digest, and a context wiped clean. */
    method Final() returns (digest: array<bv8>)
      requires Valid()
      modifies this, buffer
      ensures fresh(digest) && digest[..] == Digest(old(fed))
      ensures state == Regs(0, 0, 0, 0) && count0 == count1 == 0 && forall k :: 0 <= k < buffer.Length ==> buffer[k] == 0
    {
      hide Hash, Output, S.High, S.Low, AllBytes, S.Missing, Digest, Padded, S.Zeros, S.Tail, Word;
      ghost var s := fed;
      var bits := new bv8[8];
      Encode(bits, [Word(count0), Word(count1)]);
      S.CountToBytes(|fed|);
      var ndx := count0 / 8 % 64;
      var padLen := if ndx < 56 then 56 - ndx else 120 - ndx;
      PadLength(s, ndx, padLen);
      Update(PADDING[..padLen]);
      Update(bits[..]);
      DigestIs(s, fed);
      digest := new bv8[16];
      OutputIs(state);
      Encode(digest, [state.a, state.b, state.c, state.d]);
      state, count0, count1 := Regs(0, 0, 0, 0), 0, 0;
      forall n | 0 <= n < buffer.Length {
        buffer[n] := 0;
      }
    }
  }

  lemma PadLength(s: Bytes8, ndx: nat, padLen: nat)
    requires ndx == |s| % 64 && padLen == if ndx < 56 then 56 - ndx else 120 - ndx
    ensures |PADDING| == 64 && 0 < padLen <= 64 && s + PADDING[..padLen] == s + [0x80] + S.Zeros(S.Missing(|s|))
  {
    var k := S.Missing(|s|);
    S.MissingUnique(|s|, padLen - 1);
    assert PADDING[..padLen] == [0x80] + S.Zeros(k);
    assert s + ([0x80] + S.Zeros(k)) == s + [0x80] + S.Zeros(k);
  }

  lemma DigestIs(s: Bytes8, padded: Bytes8)
    requires padded == s + [0x80] + S.Zeros(S.Missing(|s|)) + AllBytes([Word(S.Low(8 * |s|)), Word(S.High(8 * |s|))])
    ensures Digest(s) == Output(Hash(H0, padded))
  {
    hide Hash, Output;
  }

  lemma OutputIs(h: Regs)
    ensures Output(h) == AllBytes([h.a, h.b, h.c, h.d])
  {
    hide AllBytes;
  }

  /** In whatever pieces a message comes, its digest is the standard's. */
  method HashPieces(pieces: seq<Bytes8>) returns (digest: array<bv8>)
    requires forall p :: p in pieces ==> |p| <= S.TWO32 - 64
    ensures digest[..] == Digest(S.Joined(pieces))
  {
    hide Digest, S.Joined, Context.Valid;
    var context := new Context();
    S.JoinedAll(pieces);
    for i := 0 to |pieces|
      invariant context.Valid() && fresh(context) && fresh(context.buffer) && context.fed + S.Joined(pieces[i..]) == S.Joined(pieces)
    {
      S.JoinedStep(context.fed, pieces, i);
      context.Update(pieces[i]);
    }
    digest := context.Final();
  }
}
