/** What the standard's functions come to: the digest of its example "abc", and what each constant and each
    bitwise function means. */
module Fips180Example {
  import opened Fips180

  // ---------- the constants and the functions on words ----------

  /** Section 4.2.1: each constant is the first 32 bits of a square root, of 2, 3, 5 and 10 in turn. */
  lemma ConstantsAreRoots(t: nat)
    requires t < 80
    ensures var k, c := K(t) as int, if t < 20 then 2 else if t < 40 then 3 else if t < 60 then 5 else 10;
      k * k <= c * 0x1000_0000_0000_0000 < (k + 1) * (k + 1)
  {
    assert 0x5a827999 as Word as int == 0x5a827999 && 0x6ed9eba1 as Word as int == 0x6ed9eba1;
    assert 0x8f1bbcdc as Word as int == 0x8f1bbcdc && 0xca62c1d6 as Word as int == 0xca62c1d6;
  }

  /** Section 5.3.1: the bytes of the initial value, each word from its last byte on, count up and down the digits. */
  lemma InitialBytes()
    ensures BytesOf(H0.a) == [0x67, 0x45, 0x23, 0x01] && BytesOf(H0.b) == [0xef, 0xcd, 0xab, 0x89]
    ensures BytesOf(H0.c) == [0x98, 0xba, 0xdc, 0xfe] && BytesOf(H0.d) == [0x10, 0x32, 0x54, 0x76]
    ensures BytesOf(H0.e) == [0xc3, 0xd2, 0xe1, 0xf0]
  {
  }

  predicate IsBit(m: Word) { m != 0 && m & (m - 1) == 0 }

  function Ones(m: Word, x: Word, y: Word, z: Word): nat {
    (if x & m != 0 then 1 else 0) + (if y & m != 0 then 1 else 0) + (if z & m != 0 then 1 else 0)
  }

  /** Bit by bit, Ch takes y where x is one and z elsewhere. */
  lemma ChChooses(m: Word, x: Word, y: Word, z: Word)
    requires IsBit(m)
    ensures Ch(x, y, z) & m != 0 <==> if x & m != 0 then y & m != 0 else z & m != 0
  {
    AtBit(m, x);
    ChAt(m, x, y, z);
    if x & m == m {
      ChOne(m, y, z);
    } else {
      ChZero(m, y, z);
    }
    hide Ch, IsBit;
  }

  lemma ChAt(m: Word, x: Word, y: Word, z: Word)
    ensures Ch(x, y, z) & m == Ch(x & m, y & m, z & m)
  {
  }

  lemma ChOne(m: Word, y: Word, z: Word)
    ensures Ch(m, y & m, z & m) == y & m
  {
  }

  lemma ChZero(m: Word, y: Word, z: Word)
    ensures Ch(0, y & m, z & m) == z & m
  {
  }

  /** Bit by bit, Maj is the majority and Parity the sum. */
  lemma MajorityAndParity(m: Word, x: Word, y: Word, z: Word)
    requires IsBit(m)
    ensures Maj(x, y, z) & m != 0 <==> Ones(m, x, y, z) >= 2
    ensures Parity(x, y, z) & m != 0 <==> Ones(m, x, y, z) % 2 == 1
  {
    AtBit(m, x);
    AtBit(m, y);
    AtBit(m, z);
    MajAt(m, x, y, z);
    ParityAt(m, x, y, z);
    MajorityOf(m, x & m, y & m, z & m);
    hide Maj, Parity, IsBit;
  }

  /** What a function does with three bits, from its table for one, two and three that are set. */
  lemma OfThree<W>(no: W, m: W, a: W, b: W, c: W, f: (W, W, W) -> W, one: bool, two: bool)
    requires no != m && (a == no || a == m) && (b == no || b == m) && (c == no || c == m)
    requires f(no, no, no) == no && f(m, m, m) == m
    requires f(m, no, no) == f(no, m, no) == f(no, no, m) == if one then m else no
    requires f(m, m, no) == f(m, no, m) == f(no, m, m) == if two then m else no
    ensures var ones := (if a != no then 1 else 0) + (if b != no then 1 else 0) + (if c != no then 1 else 0);
      f(a, b, c) != no <==> (ones == 1 && one) || (ones == 2 && two) || ones == 3
  {
  }

  lemma MajorityOf(m: Word, a: Word, b: Word, c: Word)
    requires m != 0 && (a == 0 || a == m) && (b == 0 || b == m) && (c == 0 || c == m)
    ensures var ones := (if a != 0 then 1 else 0) + (if b != 0 then 1 else 0) + (if c != 0 then 1 else 0);
      (Maj(a, b, c) != 0 <==> ones >= 2) && (Parity(a, b, c) != 0 <==> ones % 2 == 1)
  {
    SmallMajorities(m);
    OfThree(0, m, a, b, c, Maj, false, true);
    OfThree(0, m, a, b, c, Parity, true, false);
    hide Maj, Parity;
  }

  lemma MajAt(m: Word, x: Word, y: Word, z: Word)
    ensures Maj(x, y, z) & m == Maj(x & m, y & m, z & m)
  {
  }

  lemma ParityAt(m: Word, x: Word, y: Word, z: Word)
    ensures Parity(x, y, z) & m == Parity(x & m, y & m, z & m)
  {
  }

  lemma SmallMajorities(m: Word)
    ensures Maj(0, 0, 0) == Maj(m, 0, 0) == Maj(0, m, 0) == Maj(0, 0, m) == 0
    ensures Maj(m, m, 0) == Maj(m, 0, m) == Maj(0, m, m) == Maj(m, m, m) == m
    ensures Parity(0, 0, 0) == Parity(m, m, 0) == Parity(m, 0, m) == Parity(0, m, m) == 0
    ensures Parity(m, 0, 0) == Parity(0, m, 0) == Parity(0, 0, m) == Parity(m, m, m) == m
  {
  }

  lemma AtBit(m: Word, x: Word)
    requires IsBit(m)
    ensures x & m == 0 || x & m == m
  {
  }

  /** The rotations in use, as arithmetic on 32 bits. */
  lemma RotationsAreArithmetic(x: Word)
    ensures RotL(x, 1) == x * 2 + x / 0x8000_0000
    ensures RotL(x, 5) == x * 0x20 + x / 0x800_0000
    ensures RotL(x, 30) == x * 0x4000_0000 + x / 4
  {
    Rotation1(x);
    Rotation5(x);
    Rotation30(x);
    hide RotL;
  }

  lemma Rotation1(x: Word)
    ensures RotL(x, 1) == x * 2 + x / 0x8000_0000
  {
    assert x << 1 == x * 2;
    assert x >> 31 == x / 0x8000_0000;
    assert (x << 1) | (x >> 31) == (x << 1) + (x >> 31);
  }

  lemma Rotation5(x: Word)
    ensures RotL(x, 5) == x * 0x20 + x / 0x800_0000
  {
    assert x << 5 == x * 0x20;
    assert x >> 27 == x / 0x800_0000;
    assert (x << 5) | (x >> 27) == (x << 5) + (x >> 27);
  }

  lemma Rotation30(x: Word)
    ensures RotL(x, 30) == x * 0x4000_0000 + x / 4
  {
    assert x << 30 == x * 0x4000_0000;
    assert x >> 2 == x / 4;
    assert (x << 30) | (x >> 2) == (x << 30) + (x >> 2);
  }

  // ---------- the 80 rounds of the one block of the padded message "abc" ----------

  function Block(): seq<Word> {
    [0x61626380, 0, 0, 0, 0, 0, 0, 0, 0, 0, 0, 0, 0, 0, 0, 0x18]
  }

  /** One round: r becomes next with the word w of the schedule. */
  lemma Turned(block: seq<Word>, t: nat, r: Regs, w: Word, next: Regs) returns (after: Regs)
    requires |block| == 16 && Rounds(H0, block, t) == r
    requires Schedule(block, t) == w && Round(r, t, w) == next
    ensures after == next && Rounds(H0, block, t + 1) == next
  {
    hide Schedule, Round;
    after := next;
  }

  lemma FirstWords(block: seq<Word>)
    requires |block| == 16
    ensures forall t: nat :: t < 16 ==> Schedule(block, t) == block[t]
  {
  }

  lemma Words0(block: seq<Word>)
    requires block == Block()
    ensures Schedule(block, 0) == 0x61626380 && Schedule(block, 15) == 0x18
    ensures forall t: nat :: 0 < t < 15 ==> Schedule(block, t) == 0
  {
    FirstWords(block);
    hide Schedule;
  }

  lemma Words1(block: seq<Word>)
    requires block == Block()
    ensures Schedule(block, 16) == 0xc2c4c700 && Schedule(block, 17) == 0x00000000
    ensures Schedule(block, 18) == 0x00000030 && Schedule(block, 19) == 0x85898e01
    ensures Schedule(block, 20) == 0x00000000 && Schedule(block, 21) == 0x00000060
    ensures Schedule(block, 22) == 0x0b131c03 && Schedule(block, 23) == 0x00000030
    ensures Schedule(block, 24) == 0x85898ec1 && Schedule(block, 25) == 0x16263806
    ensures Schedule(block, 26) == 0x00000000 && Schedule(block, 27) == 0x00000180
    ensures Schedule(block, 28) == 0x2c4c700c && Schedule(block, 29) == 0x000000f0
    ensures Schedule(block, 30) == 0x93afb507 && Schedule(block, 31) == 0x5898e048
  {
    Words0(block);
  }

  lemma Words2(block: seq<Word>)
    requires block == Block()
    ensures Schedule(block, 32) == 0x8e9a9202 && Schedule(block, 33) == 0x00000600
    ensures Schedule(block, 34) == 0xb131c0f0 && Schedule(block, 35) == 0x16263bc6
    ensures Schedule(block, 36) == 0x4ebed41e && Schedule(block, 37) == 0x626380a1
    ensures Schedule(block, 38) == 0x16263806 && Schedule(block, 39) == 0x000018c0
    ensures Schedule(block, 40) == 0xd2e138c4 && Schedule(block, 41) == 0x00000f00
    ensures Schedule(block, 42) == 0x3afb5079 && Schedule(block, 43) == 0x898e04e5
    ensures Schedule(block, 44) == 0xe2ba3c2b && Schedule(block, 45) == 0x000060c0
    ensures Schedule(block, 46) == 0x053a37cd && Schedule(block, 47) == 0x74458547
  {
    Words0(block);
    Words1(block);
  }

  lemma Words3(block: seq<Word>)
    requires block == Block()
    ensures Schedule(block, 48) == 0xda9415ed && Schedule(block, 49) == 0x26380a16
    ensures Schedule(block, 50) == 0x626383a1 && Schedule(block, 51) == 0x4ebf54de
    ensures Schedule(block, 52) == 0x3835b44b && Schedule(block, 53) == 0x0000f600
    ensures Schedule(block, 54) == 0x1e84c7a3 && Schedule(block, 55) == 0x98e04d98
    ensures Schedule(block, 56) == 0x651d16a0 && Schedule(block, 57) == 0x62658ca1
    ensures Schedule(block, 58) == 0x458544d6 && Schedule(block, 59) == 0x44584cb7
    ensures Schedule(block, 60) == 0x7ba06619 && Schedule(block, 61) == 0x6380aea2
    ensures Schedule(block, 62) == 0x0ae55269 && Schedule(block, 63) == 0x627b49a1
  {
    Words0(block);
    Words1(block);
    Words2(block);
  }

  lemma Words4(block: seq<Word>)
    requires block == Block()
    ensures Schedule(block, 64) == 0x7cd45c9d && Schedule(block, 65) == 0x000f0000
    ensures Schedule(block, 66) == 0xfb50753a && Schedule(block, 67) == 0xec6765e8
    ensures Schedule(block, 68) == 0xba3c2be2 && Schedule(block, 69) == 0x0060c000
    ensures Schedule(block, 70) == 0x3a37cd05 && Schedule(block, 71) == 0x458546f4
    ensures Schedule(block, 72) == 0xb8599dd6 && Schedule(block, 73) == 0x380a1a26
    ensures Schedule(block, 74) == 0x01e02203 && Schedule(block, 75) == 0xe7cc3456
    ensures Schedule(block, 76) == 0xe6e60b69 && Schedule(block, 77) == 0x00f60a00
    ensures Schedule(block, 78) == 0x5795ef4f && Schedule(block, 79) == 0x822e0879
  {
    Words0(block);
    Words1(block);
    Words2(block);
    Words3(block);
  }

  lemma Rounds10(block: seq<Word>)
    requires block == Block()
    ensures Rounds(H0, block, 10) == Regs(0x8351f929, 0x4b6ae328, 0x27a301f5, 0x664f8c30, 0x0ff1f290)
  {
    NoRounds(block);
    hide Rounds, Schedule;
    Words0(block);
    var r := Regs(0x67452301, 0xefcdab89, 0x98badcfe, 0x10325476, 0xc3d2e1f0);
    r := Turned(block, 0, r, 0x61626380, Regs(0x0116fc33, 0x67452301, 0x7bf36ae2, 0x98badcfe, 0x10325476));
    r := Turned(block, 1, r, 0x00000000, Regs(0x8990536d, 0x0116fc33, 0x59d148c0, 0x7bf36ae2, 0x98badcfe));
    r := Turned(block, 2, r, 0x00000000, Regs(0xa1390f08, 0x8990536d, 0xc045bf0c, 0x59d148c0, 0x7bf36ae2));
    r := Turned(block, 3, r, 0x00000000, Regs(0xcdd8e11b, 0xa1390f08, 0x626414db, 0xc045bf0c, 0x59d148c0));
    r := Turned(block, 4, r, 0x00000000, Regs(0xcfd499de, 0xcdd8e11b, 0x284e43c2, 0x626414db, 0xc045bf0c));
    r := Turned(block, 5, r, 0x00000000, Regs(0x3fc7ca40, 0xcfd499de, 0xf3763846, 0x284e43c2, 0x626414db));
    r := Turned(block, 6, r, 0x00000000, Regs(0x993e30c1, 0x3fc7ca40, 0xb3f52677, 0xf3763846, 0x284e43c2));
    r := Turned(block, 7, r, 0x00000000, Regs(0x9e8c07d4, 0x993e30c1, 0x0ff1f290, 0xb3f52677, 0xf3763846));
    r := Turned(block, 8, r, 0x00000000, Regs(0x4b6ae328, 0x9e8c07d4, 0x664f8c30, 0x0ff1f290, 0xb3f52677));
    r := Turned(block, 9, r, 0x00000000, Regs(0x8351f929, 0x4b6ae328, 0x27a301f5, 0x664f8c30, 0x0ff1f290));
  }

  lemma Rounds20(block: seq<Word>)
    requires block == Block()
    ensures Rounds(H0, block, 20) == Regs(0xfd9e1d7d, 0xdc64901d, 0x20aa99ca, 0xd3a49608, 0xc82f758b)
  {
    hide Rounds, Schedule;
    Rounds10(block);
    Words0(block);
    Words1(block);
    var r := Regs(0x8351f929, 0x4b6ae328, 0x27a301f5, 0x664f8c30, 0x0ff1f290);
    r := Turned(block, 10, r, 0x00000000, Regs(0xfbda9e89, 0x8351f929, 0x12dab8ca, 0x27a301f5, 0x664f8c30));
    r := Turned(block, 11, r, 0x00000000, Regs(0x63188fe4, 0xfbda9e89, 0x60d47e4a, 0x12dab8ca, 0x27a301f5));
    r := Turned(block, 12, r, 0x00000000, Regs(0x4607b664, 0x63188fe4, 0x7ef6a7a2, 0x60d47e4a, 0x12dab8ca));
    r := Turned(block, 13, r, 0x00000000, Regs(0x9128f695, 0x4607b664, 0x18c623f9, 0x7ef6a7a2, 0x60d47e4a));
    r := Turned(block, 14, r, 0x00000000, Regs(0x196bee77, 0x9128f695, 0x1181ed99, 0x18c623f9, 0x7ef6a7a2));
    r := Turned(block, 15, r, 0x00000018, Regs(0x20bdd62f, 0x196bee77, 0x644a3da5, 0x1181ed99, 0x18c623f9));
    r := Turned(block, 16, r, 0xc2c4c700, Regs(0x4e925823, 0x20bdd62f, 0xc65afb9d, 0x644a3da5, 0x1181ed99));
    r := Turned(block, 17, r, 0x00000000, Regs(0x82aa6728, 0x4e925823, 0xc82f758b, 0xc65afb9d, 0x644a3da5));
    r := Turned(block, 18, r, 0x00000030, Regs(0xdc64901d, 0x82aa6728, 0xd3a49608, 0xc82f758b, 0xc65afb9d));
    r := Turned(block, 19, r, 0x85898e01, Regs(0xfd9e1d7d, 0xdc64901d, 0x20aa99ca, 0xd3a49608, 0xc82f758b));
  }

  lemma Rounds30(block: seq<Word>)
    requires block == Block()
    ensures Rounds(H0, block, 30) == Regs(0xc5fbaf5d, 0x8370b52e, 0xd2aa1365, 0x6f8d7ef5, 0x12104ee9)
  {
    hide Rounds, Schedule;
    Rounds20(block);
    Words1(block);
    var r := Regs(0xfd9e1d7d, 0xdc64901d, 0x20aa99ca, 0xd3a49608, 0xc82f758b);
    r := Turned(block, 20, r, 0x00000000, Regs(0x1a37b0ca, 0xfd9e1d7d, 0x77192407, 0x20aa99ca, 0xd3a49608));
    r := Turned(block, 21, r, 0x00000060, Regs(0x33a23bfc, 0x1a37b0ca, 0x7f67875f, 0x77192407, 0x20aa99ca));
    r := Turned(block, 22, r, 0x0b131c03, Regs(0x21283486, 0x33a23bfc, 0x868dec32, 0x7f67875f, 0x77192407));
    r := Turned(block, 23, r, 0x00000030, Regs(0xd541f12d, 0x21283486, 0x0ce88eff, 0x868dec32, 0x7f67875f));
    r := Turned(block, 24, r, 0x85898ec1, Regs(0xc7567dc6, 0xd541f12d, 0x884a0d21, 0x0ce88eff, 0x868dec32));
    r := Turned(block, 25, r, 0x16263806, Regs(0x48413ba4, 0xc7567dc6, 0x75507c4b, 0x884a0d21, 0x0ce88eff));
    r := Turned(block, 26, r, 0x00000000, Regs(0xbe35fbd5, 0x48413ba4, 0xb1d59f71, 0x75507c4b, 0x884a0d21));
    r := Turned(block, 27, r, 0x00000180, Regs(0x4aa84d97, 0xbe35fbd5, 0x12104ee9, 0xb1d59f71, 0x75507c4b));
    r := Turned(block, 28, r, 0x2c4c700c, Regs(0x8370b52e, 0x4aa84d97, 0x6f8d7ef5, 0x12104ee9, 0xb1d59f71));
    r := Turned(block, 29, r, 0x000000f0, Regs(0xc5fbaf5d, 0x8370b52e, 0xd2aa1365, 0x6f8d7ef5, 0x12104ee9));
  }

  lemma Rounds40(block: seq<Word>)
    requires block == Block()
    ensures Rounds(H0, block, 40) == Regs(0x32de1cba, 0x4c986405, 0xf718e5cf, 0x03d447f6, 0xf72eec32)
  {
    hide Rounds, Schedule;
    Rounds30(block);
    Words1(block);
    Words2(block);
    var r := Regs(0xc5fbaf5d, 0x8370b52e, 0xd2aa1365, 0x6f8d7ef5, 0x12104ee9);
    r := Turned(block, 30, r, 0x93afb507, Regs(0x1267b407, 0xc5fbaf5d, 0xa0dc2d4b, 0xd2aa1365, 0x6f8d7ef5));
    r := Turned(block, 31, r, 0x5898e048, Regs(0x3b845d33, 0x1267b407, 0x717eebd7, 0xa0dc2d4b, 0xd2aa1365));
    r := Turned(block, 32, r, 0x8e9a9202, Regs(0x046faa0a, 0x3b845d33, 0xc499ed01, 0x717eebd7, 0xa0dc2d4b));
    r := Turned(block, 33, r, 0x00000600, Regs(0x2c0ebc11, 0x046faa0a, 0xcee1174c, 0xc499ed01, 0x717eebd7));
    r := Turned(block, 34, r, 0xb131c0f0, Regs(0x21796ad4, 0x2c0ebc11, 0x811bea82, 0xcee1174c, 0xc499ed01));
    r := Turned(block, 35, r, 0x16263bc6, Regs(0xdcbbb0cb, 0x21796ad4, 0x4b03af04, 0x811bea82, 0xcee1174c));
    r := Turned(block, 36, r, 0x4ebed41e, Regs(0x0f511fd8, 0xdcbbb0cb, 0x085e5ab5, 0x4b03af04, 0x811bea82));
    r := Turned(block, 37, r, 0x626380a1, Regs(0xdc63973f, 0x0f511fd8, 0xf72eec32, 0x085e5ab5, 0x4b03af04));
    r := Turned(block, 38, r, 0x16263806, Regs(0x4c986405, 0xdc63973f, 0x03d447f6, 0xf72eec32, 0x085e5ab5));
    r := Turned(block, 39, r, 0x000018c0, Regs(0x32de1cba, 0x4c986405, 0xf718e5cf, 0x03d447f6, 0xf72eec32));
  }

  lemma Rounds50(block: seq<Word>)
    requires block == Block()
    ensures Rounds(H0, block, 50) == Regs(0x120731c5, 0xbaf39337, 0xafab40b2, 0x2806e11b, 0x8714787c)
  {
    hide Rounds, Schedule;
    Rounds40(block);
    Words2(block);
    Words3(block);
    var r := Regs(0x32de1cba, 0x4c986405, 0xf718e5cf, 0x03d447f6, 0xf72eec32);
    r := Turned(block, 40, r, 0xd2e138c4, Regs(0xfc87dedf, 0x32de1cba, 0x53261901, 0xf718e5cf, 0x03d447f6));
    r := Turned(block, 41, r, 0x00000f00, Regs(0x970a0d5c, 0xfc87dedf, 0x8cb7872e, 0x53261901, 0xf718e5cf));
    r := Turned(block, 42, r, 0x3afb5079, Regs(0x7f193dc5, 0x970a0d5c, 0xff21f7b7, 0x8cb7872e, 0x53261901));
    r := Turned(block, 43, r, 0x898e04e5, Regs(0xee1b1aaf, 0x7f193dc5, 0x25c28357, 0xff21f7b7, 0x8cb7872e));
    r := Turned(block, 44, r, 0xe2ba3c2b, Regs(0x40f28e09, 0xee1b1aaf, 0x5fc64f71, 0x25c28357, 0xff21f7b7));
    r := Turned(block, 45, r, 0x000060c0, Regs(0x1c51e1f2, 0x40f28e09, 0xfb86c6ab, 0x5fc64f71, 0x25c28357));
    r := Turned(block, 46, r, 0x053a37cd, Regs(0xa01b846c, 0x1c51e1f2, 0x503ca382, 0xfb86c6ab, 0x5fc64f71));
    r := Turned(block, 47, r, 0x74458547, Regs(0xbead02ca, 0xa01b846c, 0x8714787c, 0x503ca382, 0xfb86c6ab));
    r := Turned(block, 48, r, 0xda9415ed, Regs(0xbaf39337, 0xbead02ca, 0x2806e11b, 0x8714787c, 0x503ca382));
    r := Turned(block, 49, r, 0x26380a16, Regs(0x120731c5, 0xbaf39337, 0xafab40b2, 0x2806e11b, 0x8714787c));
  }

  lemma Rounds60(block: seq<Word>)
    requires block == Block()
    ensures Rounds(H0, block, 60) == Regs(0x3f52de5a, 0x09d785fd, 0x3498bfd4, 0xf211824f, 0xd79915ab)
  {
    hide Rounds, Schedule;
    Rounds50(block);
    Words3(block);
    var r := Regs(0x120731c5, 0xbaf39337, 0xafab40b2, 0x2806e11b, 0x8714787c);
    r := Turned(block, 50, r, 0x626383a1, Regs(0x641db2ce, 0x120731c5, 0xeebce4cd, 0xafab40b2, 0x2806e11b));
    r := Turned(block, 51, r, 0x4ebf54de, Regs(0x3847ad66, 0x641db2ce, 0x4481cc71, 0xeebce4cd, 0xafab40b2));
    r := Turned(block, 52, r, 0x3835b44b, Regs(0xe490436d, 0x3847ad66, 0x99076cb3, 0x4481cc71, 0xeebce4cd));
    r := Turned(block, 53, r, 0x0000f600, Regs(0x27e9f1d8, 0xe490436d, 0x8e11eb59, 0x99076cb3, 0x4481cc71));
    r := Turned(block, 54, r, 0x1e84c7a3, Regs(0x7b71f76d, 0x27e9f1d8, 0x792410db, 0x8e11eb59, 0x99076cb3));
    r := Turned(block, 55, r, 0x98e04d98, Regs(0x5e6456af, 0x7b71f76d, 0x09fa7c76, 0x792410db, 0x8e11eb59));
    r := Turned(block, 56, r, 0x651d16a0, Regs(0xc846093f, 0x5e6456af, 0x5edc7ddb, 0x09fa7c76, 0x792410db));
    r := Turned(block, 57, r, 0x62658ca1, Regs(0xd262ff50, 0xc846093f, 0xd79915ab, 0x5edc7ddb, 0x09fa7c76));
    r := Turned(block, 58, r, 0x458544d6, Regs(0x09d785fd, 0xd262ff50, 0xf211824f, 0xd79915ab, 0x5edc7ddb));
    r := Turned(block, 59, r, 0x44584cb7, Regs(0x3f52de5a, 0x09d785fd, 0x3498bfd4, 0xf211824f, 0xd79915ab));
  }

  lemma Rounds70(block: seq<Word>)
    requires block == Block()
    ensures Rounds(H0, block, 70) == Regs(0x3f2588c2, 0x497093c0, 0xde37534a, 0x030f7cad, 0x4405957e)
  {
    hide Rounds, Schedule;
    Rounds60(block);
    Words3(block);
    Words4(block);
    var r := Regs(0x3f52de5a, 0x09d785fd, 0x3498bfd4, 0xf211824f, 0xd79915ab);
    r := Turned(block, 60, r, 0x7ba06619, Regs(0xd756c147, 0x3f52de5a, 0x4275e17f, 0x3498bfd4, 0xf211824f));
    r := Turned(block, 61, r, 0x6380aea2, Regs(0x548c9cb2, 0xd756c147, 0x8fd4b796, 0x4275e17f, 0x3498bfd4));
    r := Turned(block, 62, r, 0x0ae55269, Regs(0xb66c020b, 0x548c9cb2, 0xf5d5b051, 0x8fd4b796, 0x4275e17f));
    r := Turned(block, 63, r, 0x627b49a1, Regs(0x6b61c9e1, 0xb66c020b, 0x9523272c, 0xf5d5b051, 0x8fd4b796));
    r := Turned(block, 64, r, 0x7cd45c9d, Regs(0x19dfa7ac, 0x6b61c9e1, 0xed9b0082, 0x9523272c, 0xf5d5b051));
    r := Turned(block, 65, r, 0x000f0000, Regs(0x101655f9, 0x19dfa7ac, 0x5ad87278, 0xed9b0082, 0x9523272c));
    r := Turned(block, 66, r, 0xfb50753a, Regs(0x0c3df2b4, 0x101655f9, 0x0677e9eb, 0x5ad87278, 0xed9b0082));
    r := Turned(block, 67, r, 0xec6765e8, Regs(0x78dd4d2b, 0x0c3df2b4, 0x4405957e, 0x0677e9eb, 0x5ad87278));
    r := Turned(block, 68, r, 0xba3c2be2, Regs(0x497093c0, 0x78dd4d2b, 0x030f7cad, 0x4405957e, 0x0677e9eb));
    r := Turned(block, 69, r, 0x0060c000, Regs(0x3f2588c2, 0x497093c0, 0xde37534a, 0x030f7cad, 0x4405957e));
  }

  lemma Rounds80(block: seq<Word>)
    requires block == Block()
    ensures Rounds(H0, block, 80) == Regs(0x42541b35, 0x5738d5e1, 0x21834873, 0x681e6df6, 0xd8fdf6ad)
  {
    hide Rounds, Schedule;
    Rounds70(block);
    Words4(block);
    var r := Regs(0x3f2588c2, 0x497093c0, 0xde37534a, 0x030f7cad, 0x4405957e);
    r := Turned(block, 70, r, 0x3a37cd05, Regs(0xc199f8c7, 0x3f2588c2, 0x125c24f0, 0xde37534a, 0x030f7cad));
    r := Turned(block, 71, r, 0x458546f4, Regs(0x39859de7, 0xc199f8c7, 0x8fc96230, 0x125c24f0, 0xde37534a));
    r := Turned(block, 72, r, 0xb8599dd6, Regs(0xedb42de4, 0x39859de7, 0xf0667e31, 0x8fc96230, 0x125c24f0));
    r := Turned(block, 73, r, 0x380a1a26, Regs(0x11793f6f, 0xedb42de4, 0xce616779, 0xf0667e31, 0x8fc96230));
    r := Turned(block, 74, r, 0x01e02203, Regs(0x5ee76897, 0x11793f6f, 0x3b6d0b79, 0xce616779, 0xf0667e31));
    r := Turned(block, 75, r, 0xe7cc3456, Regs(0x63f7dab7, 0x5ee76897, 0xc45e4fdb, 0x3b6d0b79, 0xce616779));
    r := Turned(block, 76, r, 0xe6e60b69, Regs(0xa079b7d9, 0x63f7dab7, 0xd7b9da25, 0xc45e4fdb, 0x3b6d0b79));
    r := Turned(block, 77, r, 0x00f60a00, Regs(0x860d21cc, 0xa079b7d9, 0xd8fdf6ad, 0xd7b9da25, 0xc45e4fdb));
    r := Turned(block, 78, r, 0x5795ef4f, Regs(0x5738d5e1, 0x860d21cc, 0x681e6df6, 0xd8fdf6ad, 0xd7b9da25));
    r := Turned(block, 79, r, 0x822e0879, Regs(0x42541b35, 0x5738d5e1, 0x21834873, 0x681e6df6, 0xd8fdf6ad));
  }

  lemma NoRounds(block: seq<Word>)
    requires block == Block()
    ensures Rounds(H0, block, 0) == Regs(0x67452301, 0xefcdab89, 0x98badcfe, 0x10325476, 0xc3d2e1f0)
  {
  }

  lemma Compressed(block: seq<Word>)
    requires block == Block()
    ensures Compress(H0, block) == Regs(0xa9993e36, 0x4706816a, 0xba3e2571, 0x7850c26c, 0x9cd0d89d)
  {
    Rounds80(block);
    hide Rounds;
  }

  // ---------- the digest ----------

  lemma PaddedIsBlock(m: seq<Byte>)
    requires m == [0x61, 0x62, 0x63]
    ensures Words(Pad(m)) == Block()
  {
    assert ZeroCount(|m|) == 52;
    LengthOf24();
    PadBytes(m);
    hide Pad, WordOf;
    FirstWord();
    ZeroWord();
    LastWord();
  }

  lemma LengthOf24()
    ensures LengthBlock(24) == [0, 0, 0, 0, 0, 0, 0, 24]
  {
  }

  lemma PadBytes(m: seq<Byte>)
    requires m == [0x61, 0x62, 0x63] && LengthBlock(24) == [0, 0, 0, 0, 0, 0, 0, 24]
    ensures var p := Pad(m);
      && |p| == 64 && p[..4] == [0x61, 0x62, 0x63, 0x80]
      && (forall i :: 4 <= i < 63 ==> p[i] == 0) && p[63] == 24
  {
    hide LengthBlock;
  }

  lemma FirstWord()
    ensures WordOf(0x61, 0x62, 0x63, 0x80) == 0x61626380
  {
  }

  lemma ZeroWord()
    ensures WordOf(0, 0, 0, 0) == 0
  {
  }

  lemma LastWord()
    ensures WordOf(0, 0, 0, 24) == 0x18
  {
  }

  /** The example of appendix A.1 in FIPS 180-2, the standard's earlier edition: the digest of "abc". */
  lemma DigestOfAbc(m: seq<Byte>)
    requires m == [0x61, 0x62, 0x63]
    ensures Sha1(m) == [0xa9, 0x99, 0x3e, 0x36, 0x47, 0x06, 0x81, 0x6a, 0xba, 0x3e,
      0x25, 0x71, 0x78, 0x50, 0xc2, 0x6c, 0x9c, 0xd0, 0xd8, 0x9d]
  {
    PaddedIsBlock(m);
    var block := Words(Pad(m));
    Compressed(block);
    assert Fold([]) == H0 && [] + block == block;
    FoldLast([], block);
    hide Pad, Words, Fold, Compress;
    DigestBytes(Fold(block));
  }

  lemma DigestBytes(h: Regs)
    requires h == Regs(0xa9993e36, 0x4706816a, 0xba3e2571, 0x7850c26c, 0x9cd0d89d)
    ensures Digest(h) == [0xa9, 0x99, 0x3e, 0x36, 0x47, 0x06, 0x81, 0x6a, 0xba, 0x3e,
      0x25, 0x71, 0x78, 0x50, 0xc2, 0x6c, 0x9c, 0xd0, 0xd8, 0x9d]
  {
  }
}
