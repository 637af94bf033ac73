/** SHA-1 as FIPS 180-4 states it: pad the whole message (section 5.1.1), parse it into
    512-bit blocks (5.2.1) and fold the compression function (6.1.2) over the blocks. */
module Fips180 {

  type Word = bv32
  type Byte = bv8

  /** The working variables a..e, and also the five words of a hash value. */
  datatype Regs = Regs(a: Word, b: Word, c: Word, d: Word, e: Word)

  /** Section 3.2, operation 4, folded from the left: the sum modulo 2^32. */
  function Plus(x: Word, y: Word): Word { x + y }

  function Sum(x: Word, f: Word, e: Word, k: Word, w: Word): Word {
    Plus(Plus(Plus(Plus(x, f), e), k), w)
  }

  /** Section 3.2, operation 5: the circular left shift. */
  function RotL(x: Word, n: bv6): Word
    requires 0 < n < 32
  {
    (x << n) | (x >> (32 - n))
  }

  // Section 4.1.1.
  function Ch(x: Word, y: Word, z: Word): Word { (x & y) ^ (!x & z) }
  function Parity(x: Word, y: Word, z: Word): Word { x ^ y ^ z }
  function Maj(x: Word, y: Word, z: Word): Word { (x & y) ^ (x & z) ^ (y & z) }

  function F(t: nat, x: Word, y: Word, z: Word): Word {
    if t < 20 then Ch(x, y, z)
    else if t < 40 then Parity(x, y, z)
    else if t < 60 then Maj(x, y, z)
    else Parity(x, y, z)
  }

  // Section 4.2.1.
  function K(t: nat): Word {
    if t < 20 then 0x5a827999
    else if t < 40 then 0x6ed9eba1
    else if t < 60 then 0x8f1bbcdc
    else 0xca62c1d6
  }

  // Section 5.3.1.
  const H0 := Regs(0x67452301, 0xefcdab89, 0x98badcfe, 0x10325476, 0xc3d2e1f0)

  /** Section 6.1.2, step 1: the message schedule of one block. */
  function Schedule(block: seq<Word>, t: nat): Word
    requires |block| == 16
  {
    if t < 16 then block[t]
    else RotL(Schedule(block, t - 3) ^ Schedule(block, t - 8)
              ^ Schedule(block, t - 14) ^ Schedule(block, t - 16), 1)
  }

  /** Section 6.1.2, step 3: one round, f and k being the values for that round. */
  function Turn(r: Regs, f: Word, k: Word, w: Word): Regs {
    Regs(Sum(RotL(r.a, 5), f, r.e, k, w), r.a, RotL(r.b, 30), r.c, r.d)
  }

  function Round(r: Regs, t: nat, w: Word): Regs {
    Turn(r, F(t, r.b, r.c, r.d), K(t), w)
  }

  /** The working variables after the first t rounds. */
  function Rounds(h: Regs, block: seq<Word>, t: nat): Regs
    requires |block| == 16
  {
    if t == 0 then h else Round(Rounds(h, block, t - 1), t - 1, Schedule(block, t - 1))
  }

  function AddRegs(x: Regs, y: Regs): Regs {
    Regs(Plus(x.a, y.a), Plus(x.b, y.b), Plus(x.c, y.c), Plus(x.d, y.d), Plus(x.e, y.e))
  }

  /** Section 6.1.2, steps 2 to 4. The number of rounds is 80, five for each word of the block. */
  function Compress(h: Regs, block: seq<Word>): Regs
    requires |block| == 16
  {
    AddRegs(h, Rounds(h, block, 5 * |block|))
  }

  /** The hash value after all blocks, the last block taken off first. */
  function Fold(words: seq<Word>): Regs {
    if |words| < 16 then H0
    else Compress(Fold(words[..|words| - 16]), words[|words| - 16..])
  }

  function WordOf(b0: Byte, b1: Byte, b2: Byte, b3: Byte): Word {
    (b0 as Word << 24) | (b1 as Word << 16) | (b2 as Word << 8) | b3 as Word
  }

  function ByteOf(w: Word, shift: bv6): Byte
    requires shift <= 32
  {
    ((w >> shift) & 0xff) as Byte
  }

  function BytesOf(w: Word): (s: seq<Byte>)
    ensures |s| == 4
  {
    [ByteOf(w, 24), ByteOf(w, 16), ByteOf(w, 8), ByteOf(w, 0)]
  }

  /** Section 5.2.1: a byte string as big-endian words. */
  function Words(s: seq<Byte>): (ws: seq<Word>)
    ensures |ws| == |s| / 4
  {
    seq(|s| / 4, i requires 0 <= i < |s| / 4 => WordOf(s[4 * i], s[4 * i + 1], s[4 * i + 2], s[4 * i + 3]))
  }

  function Zeros(n: nat): (s: seq<Byte>)
    ensures |s| == n
  {
    seq(n, _ => 0)
  }

  /** How many zero bytes follow the 0x80 byte: the least that leaves room for eight bytes. */
  function ZeroCount(n: nat): (z: nat)
    ensures z < 64 && (n + 1 + z + 8) % 64 == 0
  {
    (119 - n % 64) % 64
  }

  /** The 64-bit block that is equal to l, in two words. */
  function LengthBlock(l: nat): (s: seq<Byte>)
    requires l < 0x1_0000_0000_0000_0000
    ensures |s| == 8
  {
    BytesOf((l / 0x1_0000_0000) as Word) + BytesOf((l % 0x1_0000_0000) as Word)
  }

  /** Section 5.1.1 with the eight length bytes left open. */
  function PadWith(m: seq<Byte>, length: seq<Byte>): (s: seq<Byte>)
    requires |length| == 8
    ensures |s| % 64 == 0
  {
    m + [0x80] + Zeros(ZeroCount(|m|)) + length
  }

  function Pad(m: seq<Byte>): seq<Byte>
    requires |m| < 0x2000_0000_0000_0000
  {
    PadWith(m, LengthBlock(8 * |m|))
  }

  function Digest(h: Regs): seq<Byte> {
    BytesOf(h.a) + BytesOf(h.b) + BytesOf(h.c) + BytesOf(h.d) + BytesOf(h.e)
  }

  function Sha1(m: seq<Byte>): seq<Byte>
    requires |m| < 0x2000_0000_0000_0000
  {
    Digest(Fold(Words(Pad(m))))
  }

  lemma WordBytes(w: Word)
    ensures Words(BytesOf(w)) == [w]
  {
    var b := BytesOf(w);
    assert WordOf(b[0], b[1], b[2], b[3]) == w;
  }

  lemma WordsConcat(x: seq<Byte>, y: seq<Byte>)
    requires |x| % 4 == 0 && |y| % 4 == 0
    ensures Words(x + y) == Words(x) + Words(y)
  {
  }

  /** One more block of bytes is one more compression. */
  lemma FoldBlock(x: seq<Byte>, y: seq<Byte>)
    requires |x| % 64 == 0 && |y| == 64
    ensures Fold(Words(x + y)) == Compress(Fold(Words(x)), Words(y))
  {
    hide Compress, WordOf, Words, Fold;
    WholeWords(|x|);
    WordsConcat(x, y);
    FoldLast(Words(x), Words(y));
  }

  lemma WholeWords(n: nat)
    requires n % 64 == 0
    ensures n % 4 == 0
  {
    assert n == 4 * (16 * (n / 64));
  }

  lemma FoldLast(ws: seq<Word>, last: seq<Word>)
    requires |last| == 16
    ensures Fold(ws + last) == Compress(Fold(ws), last)
  {
    hide Compress;
    assert (ws + last)[..|ws + last| - 16] == ws && (ws + last)[|ws + last| - 16..] == last;
  }
}
