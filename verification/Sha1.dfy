/** The streaming SHA-1 of src/algo_sha1.c against sections 5.1.1 and 6.1.2 of FIPS 180-4. */
module Sha1 {

  type Bytes8 = seq<bv8>

  // The standard.

  // Rotations to the left (section 2.2.2).

  function Rotl1(v: bv32): bv32 { (v << 1) | (v >> 31) }

  function Rotl5(v: bv32): bv32 { (v << 5) | (v >> 27) }

  function Rotl8(v: bv32): bv32 { (v << 8) | (v >> 24) }

  function Rotl24(v: bv32): bv32 { (v << 24) | (v >> 8) }

  function Rotl30(v: bv32): bv32 { (v << 30) | (v >> 2) }

  // In the arithmetic of 32-bit words, modulo 2 ** 32: what the multiplication drops comes in below.

  lemma Rotl1IsArithmetic(v: bv32)
    ensures Rotl1(v) == v * 2 + v / 0x8000_0000
  {
  }

  lemma Rotl5IsArithmetic(v: bv32)
    ensures Rotl5(v) == v * 32 + v / 0x800_0000
  {
  }

  lemma Rotl8IsArithmetic(v: bv32)
    ensures Rotl8(v) == v * 0x100 + v / 0x100_0000
  {
  }

  lemma Rotl24IsArithmetic(v: bv32)
    ensures Rotl24(v) == v * 0x100_0000 + v / 0x100
  {
  }

  lemma Rotl30IsArithmetic(v: bv32)
    ensures Rotl30(v) == v * 0x4000_0000 + v / 4
  {
  }

  /** Every bit is found as many places further on, around the end of the word. */
  lemma RotationsMoveBits(v: bv32, i: bv32)
    requires i < 32
    ensures (Rotl1(v) >> ((i + 1) % 32)) & 1 == (v >> i) & 1
    ensures (Rotl5(v) >> ((i + 5) % 32)) & 1 == (v >> i) & 1
    ensures (Rotl8(v) >> ((i + 8) % 32)) & 1 == (v >> i) & 1
    ensures (Rotl24(v) >> ((i + 24) % 32)) & 1 == (v >> i) & 1
    ensures (Rotl30(v) >> ((i + 30) % 32)) & 1 == (v >> i) & 1
  {
  }

  // The functions of section 4.1.1.

  function Ch(x: bv32, y: bv32, z: bv32): bv32 { (x & y) ^ (!x & z) }

  function Maj(x: bv32, y: bv32, z: bv32): bv32 { (x & y) ^ (x & z) ^ (y & z) }

  function Parity(x: bv32, y: bv32, z: bv32): bv32 { x ^ y ^ z }

  function F(t: nat, x: bv32, y: bv32, z: bv32): bv32 {
    if t < 20 then Ch(x, y, z) else if 40 <= t < 60 then Maj(x, y, z) else Parity(x, y, z)
  }

  /** K_t of section 4.2.1. */
  function K(t: nat): bv32 {
    if t < 20 then 0x5A827999 else if t < 40 then 0x6ED9EBA1 else if t < 60 then 0x8F1BBCDC else 0xCA62C1D6
  }

  /** The constants are 2 ** 30 times the square roots of 2, 3, 5 and 10, rounded down. */
  lemma ConstantsAreRoots(t: nat)
    requires t < 80
    ensures var c := if t < 20 then 2 else if t < 40 then 3 else if t < 60 then 5 else 10;
      var k := K(t) as nat;
      k * k <= c * 0x1000_0000_0000_0000 < (k + 1) * (k + 1)
  {
    assert K(0) as nat == 0x5A827999 && K(20) as nat == 0x6ED9EBA1 && K(40) as nat == 0x8F1BBCDC && K(60) as nat == 0xCA62C1D6;
  }

  // Bit by bit.

  /** x chooses between y and z. */
  lemma ChOfBits(x: bv32, y: bv32, z: bv32)
    ensures Ch(x, y, z) & x == y & x && Ch(x, y, z) & !x == z & !x
  {
  }

  /** x and y decide where they agree, and z does elsewhere. */
  lemma MajOfBits(x: bv32, y: bv32, z: bv32)
    ensures Maj(x, y, z) & !(x ^ y) == x & !(x ^ y) && Maj(x, y, z) & (x ^ y) == z & (x ^ y)
  {
  }

  /** The bits are added. */
  lemma ParityOfBits(x: bv32, y: bv32, z: bv32)
    ensures Parity(x, y, z) ^ x ^ y == z
  {
  }

  type Block = m: seq<bv32> | |m| == 16 witness seq(16, i => 0)

  /** The message schedule of section 6.1.2. */
  function W(m: Block, t: nat): bv32 {
    if t < 16 then m[t] else Rotl1(W(m, t - 3) ^ W(m, t - 8) ^ W(m, t - 14) ^ W(m, t - 16))
  }

  datatype Regs = Regs(a: bv32, b: bv32, c: bv32, d: bv32, e: bv32)

  function NewA(a: bv32, f: bv32, e: bv32, k: bv32, w: bv32): bv32 { Rotl5(a) + f + e + k + w }

  function Round(r: Regs, t: nat, w: bv32): Regs {
    Regs(NewA(r.a, F(t, r.b, r.c, r.d), r.e, K(t), w), r.a, Rotl30(r.b), r.c, r.d)
  }

  /** The working variables after t rounds. */
  function Rounds(h: Regs, m: Block, t: nat): Regs {
    if t == 0 then h else Round(Rounds(h, m, t - 1), t - 1, W(m, t - 1))
  }

  function Sum(h: Regs, r: Regs): Regs {
    Regs(h.a + r.a, h.b + r.b, h.c + r.c, h.d + r.d, h.e + r.e)
  }

  function BigEndian(b0: bv8, b1: bv8, b2: bv8, b3: bv8): bv32 {
    (b0 as bv32 << 24) | (b1 as bv32 << 16) | (b2 as bv32 << 8) | b3 as bv32
  }

  /** The words of a block of 64 bytes. */
  function Words(b: Bytes8): Block
    requires |b| == 64
  {
    seq(16, i requires 0 <= i < 16 => BigEndian(b[4 * i], b[4 * i + 1], b[4 * i + 2], b[4 * i + 3]))
  }

  function Compress(h: Regs, b: Bytes8): Regs
    requires |b| == 64
  {
    Sum(h, Rounds(h, Words(b), 80))
  }

  /** The hash value after all complete blocks. */
  function Hash(h: Regs, s: Bytes8): Regs
    decreases |s|
  {
    if |s| < 64 then h else Hash(Compress(h, s[..64]), s[64..])
  }

  const H0: Regs := Regs(0x67452301, 0xEFCDAB89, 0x98BADCFE, 0x10325476, 0xC3D2E1F0)

  /** The bytes of the initial hash value, low byte first: up by nibbles, down again, and a pattern of the
      last word's own. */
  lemma InitialBytes()
    ensures BytesUp(H0.a) == [0x01, 0x23, 0x45, 0x67] && BytesUp(H0.b) == [0x89, 0xAB, 0xCD, 0xEF]
    ensures BytesUp(H0.c) == [0xFE, 0xDC, 0xBA, 0x98] && BytesUp(H0.d) == [0x76, 0x54, 0x32, 0x10]
    ensures BytesUp(H0.e) == [0xF0, 0xE1, 0xD2, 0xC3]
  {
  }

  function BytesUp(w: bv32): Bytes8 {
    [(w & 0xFF) as bv8, ((w >> 8) & 0xFF) as bv8, ((w >> 16) & 0xFF) as bv8, ((w >> 24) & 0xFF) as bv8]
  }

  // Rounds in place.

  /** blk0's change of byte order. */
  function Swap(v: bv32): bv32 {
    (Rotl24(v) & 0xFF00FF00) | (Rotl8(v) & 0x00FF00FF)
  }

  lemma SwapTwice(v: bv32)
    ensures Swap(Swap(v)) == v
  {
  }

  lemma SwapBytes(b0: bv8, b1: bv8, b2: bv8, b3: bv8)
    ensures Swap(BigEndian(b3, b2, b1, b0)) == BigEndian(b0, b1, b2, b3)
  {
  }

  /** Word t of the schedule is in its place in the circle. */
  predicate InPlace(l: seq<bv32>, m: Block, t: nat) {
    |l| == 16 && l[t % 16] == W(m, t)
  }

  /** The 16 words after n rounds: first those read, in order; then the last 16 of the schedule in
      a circle. */
  ghost predicate Sched(l: seq<bv32>, m: Block, n: nat) {
    && |l| == 16
    && (forall t: nat :: n <= t + 16 && t < n ==> InPlace(l, m, t))
    && (forall j: nat :: n <= j < 16 ==> l[j] == Swap(m[j]))
  }

  // What the macros R0 to R4 compute.

  function Choose(w: bv32, x: bv32, y: bv32): bv32 { (w & (x ^ y)) ^ y }

  function Majority(w: bv32, x: bv32, y: bv32): bv32 { ((w | x) & y) | (w & x) }

  function Mix(z: bv32, f: bv32, word: bv32, k: bv32, v: bv32): bv32 { z + (f + word + k + Rotl5(v)) }

  lemma ChooseIsCh(x: bv32, y: bv32, z: bv32)
    ensures Choose(x, y, z) == Ch(x, y, z)
  {
    ChForm(x, y, z);
  }

  lemma ChForm(x: bv32, y: bv32, z: bv32)
    ensures (x & (y ^ z)) ^ z == (x & y) ^ (!x & z)
  {
  }

  lemma MajorityIsMaj(x: bv32, y: bv32, z: bv32)
    ensures Majority(x, y, z) == Maj(x, y, z)
  {
    MajForm(x, y, z);
  }

  lemma MajForm(x: bv32, y: bv32, z: bv32)
    ensures ((x | y) & z) | (x & y) == (x & y) ^ (x & z) ^ (y & z)
  {
  }

  lemma MixIsNewA(z: bv32, f: bv32, w: bv32, k: bv32, a: bv32)
    ensures Mix(z, f, w, k, a) == NewA(a, f, z, k, w)
  {
    hide Rotl5;
  }

  function Chosen(t: nat, w: bv32, x: bv32, y: bv32): bv32 {
    if t < 20 then Choose(w, x, y) else if 40 <= t < 60 then Majority(w, x, y) else Parity(w, x, y)
  }

  /** A round with the roles of the registers moved on instead of the registers. */
  lemma RoundForm(h: Regs, m: Block, v: bv32, w: bv32, x: bv32, y: bv32, z: bv32, t: nat, word: bv32)
    requires Rounds(h, m, t) == Regs(v, w, x, y, z) && word == W(m, t)
    ensures Rounds(h, m, t + 1) == Regs(Mix(z, Chosen(t, w, x, y), word, K(t), v), v, Rotl30(w), x, y)
  {
    hide K, Mix, NewA, Rotl30, W, Choose, Majority, Parity, Ch, Maj;
    ChooseIsCh(w, x, y);
    MajorityIsMaj(w, x, y);
    MixIsNewA(z, F(t, w, x, y), word, K(t), v);
  }

  lemma SchedFirst(l: seq<bv32>, m: Block, i: nat)
    requires i < 16 && Sched(l, m, i)
    ensures Sched(l[i := Swap(l[i])], m, i + 1) && Swap(l[i]) == W(m, i)
  {
    hide Swap;
    SwapTwice(m[i]);
    var later := l[i := Swap(l[i])];
    forall t: nat | t < i + 1
      ensures InPlace(later, m, t)
    {
      if t < i { assert InPlace(l, m, t); }
    }
  }

  lemma Apart(t: nat, i: nat)
    requires t < i <= t + 15
    ensures t % 16 != i % 16
  {
    assert i - t == 16 * (i / 16 - t / 16) + (i % 16 - t % 16);
  }

  lemma Around(a: nat)
    ensures (a + 16) % 16 == a % 16
  {
  }

  lemma SchedNext(l: seq<bv32>, m: Block, i: nat)
    requires i >= 16 && Sched(l, m, i)
    ensures var v := Rotl1(l[(i + 13) % 16] ^ l[(i + 8) % 16] ^ l[(i + 2) % 16] ^ l[i % 16]);
      v == W(m, i) && Sched(l[i % 16 := v], m, i + 1)
  {
    hide Rotl1, Swap;
    Around(i - 3);
    Around(i - 8);
    Around(i - 14);
    Around(i - 16);
    assert InPlace(l, m, i - 3) && InPlace(l, m, i - 8) && InPlace(l, m, i - 14) && InPlace(l, m, i - 16);
    var v := Rotl1(l[(i + 13) % 16] ^ l[(i + 8) % 16] ^ l[(i + 2) % 16] ^ l[i % 16]);
    assert v == W(m, i);
    Kept(l, m, i, v);
  }

  lemma Kept(l: seq<bv32>, m: Block, i: nat, v: bv32)
    requires i >= 16 && Sched(l, m, i) && v == W(m, i)
    ensures Sched(l[i % 16 := v], m, i + 1)
  {
    hide W, Swap;
    var later := l[i % 16 := v];
    forall t: nat | i + 1 <= t + 16 && t < i + 1
      ensures InPlace(later, m, t)
    {
      if t < i {
        assert InPlace(l, m, t);
        Apart(t, i);
      }
    }
  }

  /** R0 to R4 of round i: the next word, read or made, and a step. The registers come back with
      their roles moved on. */
  method Step(l: array<bv32>, ghost h: Regs, ghost m: Block, v: bv32, w: bv32, x: bv32, y: bv32, z: bv32, i: nat)
    returns (z': bv32, w': bv32)
    requires Sched(l[..], m, i) && Rounds(h, m, i) == Regs(v, w, x, y, z)
    modifies l
    ensures Sched(l[..], m, i + 1) && Rounds(h, m, i + 1) == Regs(z', v, w', x, y)
  {
    hide Sched, W, Swap, Rotl1, Rotl30, Rounds, Chosen, Mix, K;
    SchedSize(l[..], m, i);
    ghost var was := l[..];
    if i < 16 {
      SchedFirst(l[..], m, i);
      l[i] := Swap(l[i]);
      assert l[..] == was[i := Swap(was[i])];
    } else {
      SchedNext(l[..], m, i);
      l[i % 16] := Rotl1(l[(i + 13) % 16] ^ l[(i + 8) % 16] ^ l[(i + 2) % 16] ^ l[i % 16]);
      assert l[..] == was[i % 16 := l[i % 16]];
    }
    var word := l[i % 16];
    RoundForm(h, m, v, w, x, y, z, i, word);
    z' := Mix(z, Chosen(i, w, x, y), word, K(i), v);
    w' := Rotl30(w);
  }

  lemma SchedSize(l: seq<bv32>, m: Block, i: nat)
    requires Sched(l, m, i)
    ensures |l| == 16
  {
  }

  /** Twenty rounds, after which every register has its role again. */
  method Twenty(l: array<bv32>, ghost h: Regs, ghost m: Block, a0: bv32, b0: bv32, c0: bv32, d0: bv32, e0: bv32, i: nat)
    returns (a: bv32, b: bv32, c: bv32, d: bv32, e: bv32)
    requires Sched(l[..], m, i) && Rounds(h, m, i) == Regs(a0, b0, c0, d0, e0)
    modifies l
    ensures Sched(l[..], m, i + 20) && Rounds(h, m, i + 20) == Regs(a, b, c, d, e)
  {
    hide Sched, Rounds;
    a, b, c, d, e := a0, b0, c0, d0, e0;
    e, b := Step(l, h, m, a, b, c, d, e, i);
    d, a := Step(l, h, m, e, a, b, c, d, i + 1);
    c, e := Step(l, h, m, d, e, a, b, c, i + 2);
    b, d := Step(l, h, m, c, d, e, a, b, i + 3);
    a, c := Step(l, h, m, b, c, d, e, a, i + 4);
    e, b := Step(l, h, m, a, b, c, d, e, i + 5);
    d, a := Step(l, h, m, e, a, b, c, d, i + 6);
    c, e := Step(l, h, m, d, e, a, b, c, i + 7);
    b, d := Step(l, h, m, c, d, e, a, b, i + 8);
    a, c := Step(l, h, m, b, c, d, e, a, i + 9);
    e, b := Step(l, h, m, a, b, c, d, e, i + 10);
    d, a := Step(l, h, m, e, a, b, c, d, i + 11);
    c, e := Step(l, h, m, d, e, a, b, c, i + 12);
    b, d := Step(l, h, m, c, d, e, a, b, i + 13);
    a, c := Step(l, h, m, b, c, d, e, a, i + 14);
    e, b := Step(l, h, m, a, b, c, d, e, i + 15);
    d, a := Step(l, h, m, e, a, b, c, d, i + 16);
    c, e := Step(l, h, m, d, e, a, b, c, i + 17);
    b, d := Step(l, h, m, c, d, e, a, b, i + 18);
    a, c := Step(l, h, m, b, c, d, e, a, i + 19);
  }

  /** A word as a little-endian machine reads it. */
  function Native(b: Bytes8, i: nat): bv32
    requires |b| == 64 && i < 16
  {
    BigEndian(b[4 * i + 3], b[4 * i + 2], b[4 * i + 1], b[4 * i])
  }

  lemma SchedStart(l: seq<bv32>, b: Bytes8)
    requires |b| == 64 && |l| == 16 && forall i :: 0 <= i < 16 ==> l[i] == Native(b, i)
    ensures Sched(l, Words(b), 0)
  {
    hide Swap, BigEndian;
    forall j: nat | j < 16
      ensures l[j] == Swap(Words(b)[j])
    {
      SwapBytes(b[4 * j + 3], b[4 * j + 2], b[4 * j + 1], b[4 * j]);
    }
  }

  /** SHA1_Transform, on a little-endian machine. */
  method Transform(state: Regs, buffer: Bytes8) returns (r: Regs)
    requires |buffer| == 64
    ensures r == Compress(state, buffer)
  {
    hide Sched, Rounds, Words, Native, Compress, Sum;
    var l := new bv32[16](i requires 0 <= i < 16 => Native(buffer, i));
    ghost var m := Words(buffer);
    SchedStart(l[..], buffer);
    RoundsStart(state, m);
    var a, b, c, d, e := Twenty(l, state, m, state.a, state.b, state.c, state.d, state.e, 0);
    a, b, c, d, e := Twenty(l, state, m, a, b, c, d, e, 20);
    a, b, c, d, e := Twenty(l, state, m, a, b, c, d, e, 40);
    a, b, c, d, e := Twenty(l, state, m, a, b, c, d, e, 60);
    CompressIs(state, buffer, Regs(a, b, c, d, e));
    r := Sum(state, Regs(a, b, c, d, e));
  }

  lemma CompressIs(h: Regs, b: Bytes8, r: Regs)
    requires |b| == 64 && Rounds(h, Words(b), 80) == r
    ensures Compress(h, b) == Sum(h, r)
  {
    hide Rounds, Words, Sum;
  }

  lemma RoundsStart(h: Regs, m: Block)
    ensures Rounds(h, m, 0) == h
  {
  }

  // Padding and output (sections 5.1.1 and 6.1.2).

  const TWO32: nat := 0x1_0000_0000

  function Zeros(n: nat): Bytes8 {
    seq(n, i => 0)
  }

  /** The number of zero bytes: the least for which 8 bytes are missing to a whole block. */
  function Missing(n: nat): (k: nat)
    ensures (n + 1 + k) % 64 == 56 && k < 64
  {
    (119 - n % 64) % 64
  }

  function Be32(v: nat): Bytes8
    requires v < TWO32
  {
    [(v / 0x100_0000) as bv8, (v / 0x1_0000 % 0x100) as bv8, (v / 0x100 % 0x100) as bv8, (v % 0x100) as bv8]
  }

  /** The two halves of a number of bits as 64 bits. */
  function High(bits: nat): (v: nat)
    ensures v < TWO32
  {
    bits / TWO32 % TWO32
  }

  function Low(bits: nat): (v: nat)
    ensures v < TWO32
  {
    bits % TWO32
  }

  function Padded(s: Bytes8): Bytes8 {
    s + [0x80] + Zeros(Missing(|s|)) + (Be32(High(8 * |s|)) + Be32(Low(8 * |s|)))
  }

  function WordBytes(w: bv32): Bytes8 {
    [((w >> 24) & 0xFF) as bv8, ((w >> 16) & 0xFF) as bv8, ((w >> 8) & 0xFF) as bv8, (w & 0xFF) as bv8]
  }

  function Output(h: Regs): Bytes8 {
    WordBytes(h.a) + WordBytes(h.b) + WordBytes(h.c) + WordBytes(h.d) + WordBytes(h.e)
  }

  /** The digest of a message. */
  function Digest(s: Bytes8): Bytes8 {
    Output(Hash(H0, Padded(s)))
  }

  // Hashing in parts.

  lemma {:induction false} HashSplit(h: Regs, a: Bytes8, b: Bytes8)
    requires |a| % 64 == 0
    ensures Hash(h, a + b) == Hash(Hash(h, a), b)
    decreases |a|
  {
    hide Compress;
    if a == [] {
      assert a + b == b;
    } else {
      assert (a + b)[..64] == a[..64] && (a + b)[64..] == a[64..] + b;
      HashSplit(Compress(h, a[..64]), a[64..], b);
    }
  }

  /** The whole blocks of a message, and what is left. */
  function Tail(s: Bytes8): Bytes8 {
    s[|s| - |s| % 64..]
  }

  lemma TailMod(n: nat)
    ensures (n - n % 64) % 64 == 0
  {
    assert n - n % 64 == 64 * (n / 64);
  }

  lemma HashTail(h: Regs, s: Bytes8)
    ensures Hash(h, s) == Hash(h, s[..|s| - |s| % 64])
  {
    TailMod(|s|);
    var a := s[..|s| - |s| % 64];
    HashSplit(h, a, Tail(s));
    assert s == a + Tail(s);
  }

  /** What is left of a message and as many bytes as make a block. */
  lemma HashNext(h: Regs, s: Bytes8, x: Bytes8)
    requires |Tail(s) + x| == 64
    ensures Hash(h, s + x) == Compress(Hash(h, s), Tail(s) + x) && |s + x| % 64 == 0
  {
    hide Compress, Hash;
    TailMod(|s|);
    HashTail(h, s);
    var a, b := s[..|s| - |s| % 64], Tail(s) + x;
    HashSplit(h, a, b);
    assert s + x == a + b;
    HashOne(Hash(h, a), b);
    NextBlock(|a|);
    assert |s + x| == |a| + 64;
  }

  lemma HashOne(h: Regs, b: Bytes8)
    requires |b| == 64
    ensures Hash(h, b) == Compress(h, b)
  {
    hide Compress;
    assert b[..64] == b && b[64..] == [];
  }

  lemma NextBlock(n: nat)
    ensures (n + 64) % 64 == n % 64
  {
  }

  // Counting bits in two words.

  lemma CountUp(n: nat, len: nat)
    requires len < TWO32
    ensures var lo, add := Low(8 * n), 8 * len % TWO32;
      && (lo + add) % TWO32 == Low(8 * (n + len))
      && (High(8 * n) + (if (lo + add) % TWO32 < add then 1 else 0) + len / 0x2000_0000) % TWO32 == High(8 * (n + len))
  {
    var bits, more := 8 * n, 8 * len;
    assert bits == TWO32 * (bits / TWO32) + bits % TWO32;
    assert more == TWO32 * (more / TWO32) + more % TWO32 && more / TWO32 == len / 0x2000_0000;
    var carry := if bits % TWO32 + more % TWO32 >= TWO32 then 1 else 0;
    SumWords(bits / TWO32, bits % TWO32, more / TWO32, more % TWO32);
    assert 8 * (n + len) == bits + more;
    HighWrap(bits / TWO32, more / TWO32 + carry);
  }

  lemma SumWords(a: nat, x: nat, b: nat, y: nat)
    requires x < TWO32 && y < TWO32
    ensures var carry := if x + y >= TWO32 then 1 else 0; var s := (TWO32 * a + x) + (TWO32 * b + y);
      && s / TWO32 == a + b + carry && s % TWO32 == (x + y) % TWO32 == x + y - TWO32 * carry
      && (carry == 1 <==> (x + y) % TWO32 < y)
  {
  }

  lemma HighWrap(a: nat, b: nat)
    ensures (a % TWO32 + b) % TWO32 == (a + b) % TWO32
  {
    assert a + b == TWO32 * (a / TWO32) + (a % TWO32 + b);
  }

  // The context.

  /** Where the bytes of a message that are not hashed yet start in the buffer, from the counter. */
  lemma CountToBytes(n: nat)
    ensures Low(8 * n) / 8 % 64 == n % 64
  {
    assert 8 * n == TWO32 * (8 * n / TWO32) + Low(8 * n);
    assert Low(8 * n) == 8 * (n - 0x2000_0000 * (8 * n / TWO32));
    assert Low(8 * n) / 8 == n - 0x2000_0000 * (8 * n / TWO32);
    Multiple(n - 0x2000_0000 * (8 * n / TWO32), 0x80_0000 * (8 * n / TWO32));
  }

  lemma Multiple(a: nat, k: nat)
    ensures (a + 64 * k) % 64 == a % 64
  {
    var q := a / 64;
    assert a + 64 * k == 64 * (q + k) + a % 64;
  }

  class Context {
    var state: Regs
    /** The number of bits, in two words: count[0] and count[1]. */
    var count0: nat
    var count1: nat
    const buffer: array<bv8>
    /** All bytes so far. */
    ghost var fed: Bytes8

    ghost predicate Valid()
      reads this, buffer
    {
      && buffer.Length == 64
      && state == Hash(H0, fed) && count0 == Low(8 * |fed|) && count1 == High(8 * |fed|)
      && buffer[..|fed| % 64] == Tail(fed)
    }

    /** SHA1_Init. */
    constructor ()
      ensures Valid() && fed == [] && fresh(buffer)
    {
      state, count0, count1, fed := H0, 0, 0, [];
      buffer := new bv8[64];
    }

    /** memcpy into the buffer. */
    method CopyIn(at: nat, data: Bytes8)
      requires at + |data| <= buffer.Length
      modifies buffer
      ensures buffer[..at] == old(buffer[..at]) && buffer[at..at + |data|] == data
    {
      forall k | 0 <= k < |data| {
        buffer[at + k] := data[k];
      }
    }

    /** The count of bits goes up by 8 * len. */
    method Count(len: nat)
      requires count0 == Low(8 * |fed|) && count1 == High(8 * |fed|) && len < TWO32
      modifies `count0, `count1
      ensures count0 == Low(8 * (|fed| + len)) && count1 == High(8 * (|fed| + len))
    {
      hide Low, High;
      CountUp(|fed|, len);
      var add := 8 * len % TWO32;
      var carry := 0;
      count0 := (count0 + add) % TWO32;
      if count0 < add { carry := 1; }
      HighWrap(count1 + carry, len / 0x2000_0000);
      count1 := (count1 + carry) % TWO32;
      count1 := (count1 + len / 0x2000_0000) % TWO32;
    }

    /** The blocks that data completes; i bytes of it are used up. */
    method Absorb(data: Bytes8, j: nat) returns (i: nat)
      requires buffer.Length == 64 && j == |fed| % 64 && state == Hash(H0, fed) && buffer[..j] == Tail(fed)
      modifies `state, buffer
      ensures i <= |data| && state == Hash(H0, fed + data[..i]) && |Tail(fed + data[..i])| + |data| - i < 64
      ensures j + |data| > 63 ==> |fed + data[..i]| % 64 == 0
      ensures j + |data| <= 63 ==> i == 0 && buffer[..j] == Tail(fed)
    {
      hide Hash, Compress;
      i := 0;
      assert fed + data[..0] == fed;
      if j + |data| > 63 {
        i := 64 - j;
        CopyIn(j, data[..i]);
        assert buffer[..] == Tail(fed) + data[..i];
        HashNext(H0, fed, data[..i]);
        state := Transform(state, buffer[..]);
        while i + 63 < |data|
          invariant i <= |data| && state == Hash(H0, fed + data[..i]) && |fed + data[..i]| % 64 == 0
        {
          HashMore(H0, fed + data[..i], data[i..i + 64]);
          assert fed + data[..i] + data[i..i + 64] == fed + data[..i + 64];
          state := Transform(state, data[i..i + 64]);
          i := i + 64;
        }
      }
    }

    /** SHA1_Update. The test of its loop wraps around for longer data. */
    method Update(data: Bytes8)
      requires Valid() && |data| <= TWO32 - 64
      modifies this, buffer
      ensures Valid() && fed == old(fed) + data
    {
      hide Hash, Compress, Low, High, Tail;
      CountToBytes(|fed|);
      var j := count0 / 8 % 64;
      Count(|data|);
      var i := Absorb(data, j);
      if j + |data| > 63 { j := 0; }
      ghost var start := Tail(fed + data[..i]);
      TailIs(fed + data[..i]);
      assert i == 0 ==> fed + data[..i] == fed;
      assert buffer[..j] == start;
      Settle(H0, fed + data[..i], data[i..]);
      assert fed + data[..i] + data[i..] == fed + data;
      CopyIn(j, data[i..]);
      assert buffer[..j + |data| - i] == buffer[..j] + buffer[j..j + |data| - i];
      fed := fed + data;
    }

    /** SHA1_Final: padding, the digest, and a context wiped clean. */
    method Final() returns (digest: Bytes8)
      requires Valid()
      modifies this, buffer
      ensures digest == Digest(old(fed))
      ensures state == Regs(0, 0, 0, 0, 0) && count0 == count1 == 0 && forall k :: 0 <= k < buffer.Length ==> buffer[k] == 0
    {
      hide Hash, Output, High, Low, Be32, Missing, Digest, Padded, Zeros, Tail;
      ghost var s := fed;
      var finalCount := Be32(count1) + Be32(count0);
      Update([0x80]);
      ghost var k := 0;
      ZerosNone(s);
      CountToBytes(|fed|);
      while count0 / 8 % 64 * 8 != 448
        invariant Valid() && k <= Missing(|s|) && fed == s + [0x80] + Zeros(k) && |fed| == |s| + 1 + k && count0 / 8 % 64 == |fed| % 64
        decreases Missing(|s|) - k
      {
        Update([0]);
        ZerosMore(s, k);
        k := k + 1;
        CountToBytes(|fed|);
      }
      MissingUnique(|s|, k);
      Be32Size();
      Update(finalCount);
      DigestIs(s, fed);
      digest := Output(state);
      state, count0, count1 := Regs(0, 0, 0, 0, 0), 0, 0;
      forall n | 0 <= n < buffer.Length {
        buffer[n] := 0;
      }
    }
  }

  lemma ZerosNone(s: Bytes8)
    ensures s + [0x80] + Zeros(0) == s + [0x80]
  {
  }

  lemma ZerosMore(s: Bytes8, k: nat)
    ensures s + [0x80] + Zeros(k) + [0] == s + [0x80] + Zeros(k + 1)
  {
    assert Zeros(k) + [0] == Zeros(k + 1);
  }

  lemma DigestIs(s: Bytes8, padded: Bytes8)
    requires padded == s + [0x80] + Zeros(Missing(|s|)) + (Be32(High(8 * |s|)) + Be32(Low(8 * |s|)))
    ensures Digest(s) == Output(Hash(H0, padded))
  {
    hide Hash, Output;
  }

  lemma MissingUnique(n: nat, k: nat)
    requires k <= Missing(n) && (n + 1 + k) % 64 == 56
    ensures k == Missing(n)
  {
    Apart64(n + 1 + k, n + 1 + Missing(n));
  }

  lemma Apart64(a: nat, b: nat)
    requires a <= b < a + 64 && a % 64 == b % 64
    ensures a == b
  {
    assert b - a == 64 * (b / 64 - a / 64);
  }

  lemma Be32Size()
    ensures forall v: nat :: v < TWO32 ==> |Be32(v)| == 4
  {
  }

  function Joined(pieces: seq<Bytes8>): Bytes8 {
    if pieces == [] then [] else pieces[0] + Joined(pieces[1..])
  }

  /** In whatever pieces a message comes, its digest is the standard's. */
  method HashPieces(pieces: seq<Bytes8>) returns (digest: Bytes8)
    requires forall p :: p in pieces ==> |p| <= TWO32 - 64
    ensures digest == Digest(Joined(pieces))
  {
    hide Digest, Joined, Context.Valid;
    var context := new Context();
    JoinedAll(pieces);
    for i := 0 to |pieces|
      invariant context.Valid() && fresh(context) && fresh(context.buffer) && context.fed + Joined(pieces[i..]) == Joined(pieces)
    {
      JoinedStep(context.fed, pieces, i);
      context.Update(pieces[i]);
    }
    digest := context.Final();
  }

  lemma JoinedAll(pieces: seq<Bytes8>)
    ensures [] + Joined(pieces[0..]) == Joined(pieces)
    ensures forall was: Bytes8 :: was + Joined(pieces[|pieces|..]) == was
  {
    assert pieces[0..] == pieces;
  }

  lemma JoinedStep(was: Bytes8, pieces: seq<Bytes8>, i: nat)
    requires i < |pieces|
    ensures was + pieces[i] + Joined(pieces[i + 1..]) == was + Joined(pieces[i..])
  {
    assert pieces[i..][1..] == pieces[i + 1..];
    assert was + (pieces[i] + Joined(pieces[i + 1..])) == was + pieces[i] + Joined(pieces[i + 1..]);
  }

  lemma TailIs(s: Bytes8)
    ensures |Tail(s)| == |s| % 64 && (|s| % 64 == 0 ==> Tail(s) == [])
  {
  }

  lemma HashMore(h: Regs, s: Bytes8, x: Bytes8)
    requires |s| % 64 == 0 && |x| == 64
    ensures Hash(h, s + x) == Compress(Hash(h, s), x) && |s + x| % 64 == 0
  {
    hide Hash, Compress;
    assert Tail(s) + x == x;
    HashNext(h, s, x);
  }

  /** Bytes that complete no block. */
  lemma Settle(h: Regs, s: Bytes8, x: Bytes8)
    requires |Tail(s)| + |x| < 64
    ensures Hash(h, s + x) == Hash(h, s) && Tail(s + x) == Tail(s) + x && |s + x| % 64 == |Tail(s)| + |x|
  {
    hide Hash;
    var a := s[..|s| - |s| % 64];
    TailMod(|s|);
    assert |s + x| == 64 * (|s| / 64) + (|s| % 64 + |x|);
    HashTail(h, s);
    HashTail(h, s + x);
    assert (s + x)[..|s + x| - |s + x| % 64] == a;
  }
}
