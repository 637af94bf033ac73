/** The update packer's own SHA-1: one pass over the buffer, with the padding built in place in
    the scratch array that also holds the message schedule. */
module PackerSha1 {
  import opened Fips180

  // 0x1_0000_0000: all lengths and offsets of the source are 32-bit unsigned.
  const UINT32_SIZE: nat := 0x1_0000_0000

  function Sha1Shift(v: Word, shift: bv6): Word
    requires 0 < shift < 32
  {
    (v << shift) | (v >> (32 - shift))
  }

  /** The OR-forms of the source; section 4.1.1 writes both with exclusive or. */
  function ChOr(b: Word, c: Word, d: Word): Word { (b & c) | (!b & d) }
  function MajOr(b: Word, c: Word, d: Word): Word { (b & c) | (b & d) | (c & d) }

  lemma OrForms(x: Word, y: Word, z: Word)
    ensures ChOr(x, y, z) == Ch(x, y, z)
    ensures MajOr(x, y, z) == Maj(x, y, z)
  {
    assert (x & y) | (!x & z) == (x & y) ^ (!x & z);
    assert (x & y) | (x & z) | (y & z) == (x & y) ^ (x & z) ^ (y & z);
  }

  /** The statement `_shiftswap(f, v)` on the five locals. */
  function ShiftSwap(r: Regs, f: Word, v: Word, w: Word): Regs {
    Regs(Sum(Sha1Shift(r.a, 5), f, r.e, v, w), r.a, Sha1Shift(r.b, 30), r.c, r.d)
  }

  lemma ShiftSwapIsTurn(r: Regs, f: Word, v: Word, w: Word)
    ensures ShiftSwap(r, f, v, w) == Turn(r, f, v, w)
  {
  }

  lemma NextRound(h: Regs, block: seq<Word>, t: nat, r: Regs, f: Word, v: Word, w: Word)
    requires |block| == 16 && r == Rounds(h, block, t)
    requires f == F(t, r.b, r.c, r.d) && v == K(t) && w == Schedule(block, t)
    ensures ShiftSwap(r, f, v, w) == Rounds(h, block, t + 1)
  {
    ShiftSwapIsTurn(r, f, v, w);
  }

  /** The word that `_shiftshiftswap` writes at `temp[round]`. */
  function Expand(temp: seq<Word>, round: nat): Word
    requires 16 <= round <= |temp|
  {
    Sha1Shift(temp[round - 3] ^ temp[round - 8] ^ temp[round - 14] ^ temp[round - 16], 1)
  }

  ghost predicate ScheduleUpTo(temp: seq<Word>, block: seq<Word>, t: nat)
    requires |block| == 16
  {
    t <= |temp| && forall i: nat :: i < t ==> temp[i] == Schedule(block, i)
  }

  lemma FirstSchedule(temp: seq<Word>, block: seq<Word>)
    requires |block| == 16 <= |temp| && temp[..16] == block
    ensures ScheduleUpTo(temp, block, 16)
  {
  }

  lemma ExpandIsSchedule(temp: seq<Word>, block: seq<Word>, round: nat)
    requires |block| == 16 && 16 <= round < |temp|
    requires ScheduleUpTo(temp, block, round)
    ensures Expand(temp, round) == Schedule(block, round)
  {
  }

  /** The first statement of `_shiftshiftswap`. */
  method ExpandAt(temp: array<Word>, round: nat, ghost block: seq<Word>)
    requires |block| == 16 && 16 <= round < temp.Length
    requires ScheduleUpTo(temp[..], block, round)
    modifies temp
    ensures ScheduleUpTo(temp[..], block, round + 1)
  {
    ghost var before := temp[..];
    ExpandIsSchedule(before, block, round);
    temp[round] := Expand(temp[..], round);
    assert temp[..] == before[round := Schedule(block, round)];
  }

  ghost function State(sha: array<Word>): Regs
    requires sha.Length == 5
    reads sha
  {
    Regs(sha[0], sha[1], sha[2], sha[3], sha[4])
  }

  /** The five round loops of one block, on the locals `a` to `e`. */
  method RunRounds(h: Regs, temp: array<Word>) returns (r: Regs)
    requires temp.Length == 80
    modifies temp
    ensures r == Rounds(h, old(temp[..16]), 5 * |temp[..16]|)
  {
    hide Plus, RotL, Sha1Shift, Schedule, ChOr, MajOr, Ch, Maj, Parity, ShiftSwap;
    ghost var block := temp[..16];
    FirstSchedule(temp[..], block);
    var round := 0;
    r := h;
    while round < 16
      invariant 0 <= round <= 16
      invariant r == Rounds(h, block, round)
      invariant ScheduleUpTo(temp[..], block, 16)
    {
      OrForms(r.b, r.c, r.d);
      NextRound(h, block, round, r, ChOr(r.b, r.c, r.d), 0x5a827999, temp[..][round]);
      r := ShiftSwap(r, ChOr(r.b, r.c, r.d), 0x5a827999, temp[round]);
      round := round + 1;
    }
    while round < 20
      invariant 16 <= round <= 20
      invariant r == Rounds(h, block, round)
      invariant ScheduleUpTo(temp[..], block, round)
    {
      ExpandAt(temp, round, block);
      OrForms(r.b, r.c, r.d);
      NextRound(h, block, round, r, ChOr(r.b, r.c, r.d), 0x5a827999, temp[..][round]);
      r := ShiftSwap(r, ChOr(r.b, r.c, r.d), 0x5a827999, temp[round]);
      round := round + 1;
    }
    while round < 40
      invariant 20 <= round <= 40
      invariant r == Rounds(h, block, round)
      invariant ScheduleUpTo(temp[..], block, round)
    {
      ExpandAt(temp, round, block);
      NextRound(h, block, round, r, Parity(r.b, r.c, r.d), 0x6ed9eba1, temp[..][round]);
      r := ShiftSwap(r, Parity(r.b, r.c, r.d), 0x6ed9eba1, temp[round]);
      round := round + 1;
    }
    while round < 60
      invariant 40 <= round <= 60
      invariant r == Rounds(h, block, round)
      invariant ScheduleUpTo(temp[..], block, round)
    {
      ExpandAt(temp, round, block);
      OrForms(r.b, r.c, r.d);
      NextRound(h, block, round, r, MajOr(r.b, r.c, r.d), 0x8f1bbcdc, temp[..][round]);
      r := ShiftSwap(r, MajOr(r.b, r.c, r.d), 0x8f1bbcdc, temp[round]);
      round := round + 1;
    }
    while round < 80
      invariant 60 <= round <= 80
      invariant r == Rounds(h, block, round)
      invariant ScheduleUpTo(temp[..], block, round)
    {
      ExpandAt(temp, round, block);
      NextRound(h, block, round, r, Parity(r.b, r.c, r.d), 0xca62c1d6, temp[..][round]);
      r := ShiftSwap(r, Parity(r.b, r.c, r.d), 0xca62c1d6, temp[round]);
      round := round + 1;
    }
  }

  /** One block: the first 16 cells of `temp` are the block, the other 64 are overwritten. */
  method Sha1PartHash(sha: array<Word>, temp: array<Word>)
    requires sha.Length == 5 && temp.Length == 80 && sha != temp
    modifies sha, temp
    ensures State(sha) == Compress(old(State(sha)), old(temp[..16]))
  {
    var h := Regs(sha[0], sha[1], sha[2], sha[3], sha[4]);
    var r := RunRounds(h, temp);
    sha[0] := Plus(sha[0], r.a);
    sha[1] := Plus(sha[1], r.b);
    sha[2] := Plus(sha[2], r.c);
    sha[3] := Plus(sha[3], r.d);
    sha[4] := Plus(sha[4], r.e);
  }

  /** `(3 - (i & 3)) << 3`: where byte i of a big-endian word string sits in its word. */
  function ShiftOf(i: nat): bv6 {
    if i % 4 == 0 then 24 else if i % 4 == 1 then 16 else if i % 4 == 2 then 8 else 0
  }

  /** The bytes p of an unfinished block, the rest of the block being zero. */
  function Unfinished(p: seq<Byte>): (ws: seq<Word>)
    requires |p| <= 64
    ensures |ws| == 16
  {
    Words(p + Zeros(64 - |p|))
  }

  // A byte or-ed into a zero position takes that position; the positions below stay zero.
  lemma OrByte0(b: Byte)
    ensures WordOf(0, 0, 0, 0) | (b as Word << 24) == WordOf(b, 0, 0, 0)
  {
  }

  lemma OrByte1(b0: Byte, b: Byte)
    ensures WordOf(b0, 0, 0, 0) | (b as Word << 16) == WordOf(b0, b, 0, 0)
  {
  }

  lemma OrByte2(b0: Byte, b1: Byte, b: Byte)
    ensures WordOf(b0, b1, 0, 0) | (b as Word << 8) == WordOf(b0, b1, b, 0)
  {
  }

  lemma OrByte3(b0: Byte, b1: Byte, b2: Byte, b: Byte)
    ensures WordOf(b0, b1, b2, 0) | (b as Word << 0) == WordOf(b0, b1, b2, b)
  {
  }

  function Or(x: Word, b: Byte, i: nat): Word { x | (b as Word << ShiftOf(i)) }

  lemma OrIntoWord(q: seq<Byte>, w: nat, k: nat, b: Byte)
    requires 4 * w + 3 < |q| && 4 * w <= k < 4 * w + 4
    requires forall i :: k <= i < 4 * w + 4 ==> q[i] == 0
    ensures Or(WordOf(q[4 * w], q[4 * w + 1], q[4 * w + 2], q[4 * w + 3]), b, k)
         == var q' := q[k := b]; WordOf(q'[4 * w], q'[4 * w + 1], q'[4 * w + 2], q'[4 * w + 3])
  {
    if k == 4 * w {
      OrByte0(b);
    } else if k == 4 * w + 1 {
      OrByte1(q[4 * w], b);
    } else if k == 4 * w + 2 {
      OrByte2(q[4 * w], q[4 * w + 1], b);
    } else {
      OrByte3(q[4 * w], q[4 * w + 1], q[4 * w + 2], b);
    }
  }

  lemma WordsAt(q: seq<Byte>, w: nat)
    requires 4 * w + 3 < |q|
    ensures Words(q)[w] == WordOf(q[4 * w], q[4 * w + 1], q[4 * w + 2], q[4 * w + 3])
  {
  }

  lemma WordsUpdate(q: seq<Byte>, k: nat, b: Byte, v: Word)
    requires |q| % 4 == 0 && k < |q|
    requires var w, q' := k / 4, q[k := b];
             v == WordOf(q'[4 * w], q'[4 * w + 1], q'[4 * w + 2], q'[4 * w + 3])
    ensures Words(q[k := b]) == Words(q)[k / 4 := v]
  {
  }

  /** `temp[last >> 2] |= b << ((3 - (last & 3)) << 3)` appends one byte to the unfinished block. */
  lemma OrAppendsByte(p: seq<Byte>, b: Byte)
    requires |p| < 64
    ensures var w := |p| / 4;
            Unfinished(p + [b]) == Unfinished(p)[w := Or(Unfinished(p)[w], b, |p|)]
  {
    hide Or, WordOf, Words;
    var w := |p| / 4;
    var q := p + Zeros(64 - |p|);
    assert p + [b] + Zeros(63 - |p|) == q[|p| := b];
    OrIntoWord(q, w, |p|, b);
    WordsAt(q, w);
    WordsUpdate(q, |p|, b, Or(Unfinished(p)[w], b, |p|));
  }

  lemma LoadWord(b0: Byte, b1: Byte, b2: Byte, b3: Byte)
    ensures b3 as Word | (b2 as Word << 8) | (b1 as Word << 16) | (b0 as Word << 24) == WordOf(b0, b1, b2, b3)
  {
  }

  /** The length field this code writes: `len << 3` on 32 bits, below a zero word. */
  function LowLength(len: nat): Word { (8 * len % UINT32_SIZE) as Word }

  function ShortLength(len: nat): (s: seq<Byte>)
    ensures |s| == 8
  {
    BytesOf(0) + BytesOf(LowLength(len))
  }

  /** The padding this code performs. */
  function PackerPad(m: seq<Byte>): (s: seq<Byte>)
    ensures |s| % 64 == 0
  {
    PadWith(m, ShortLength(|m|))
  }

  function LastBlock(rest: seq<Byte>, length: seq<Byte>): (s: seq<Byte>)
    requires |rest| <= 56 && |length| == 8
    ensures |s| == 64
  {
    rest + Zeros(56 - |rest|) + length
  }

  /** Writing the length word into a block whose last eight bytes are still zero. */
  lemma LengthWord(q: seq<Byte>, w: Word)
    requires |q| <= 56
    ensures Unfinished(q)[15 := w] == Words(LastBlock(q, BytesOf(0) + BytesOf(w)))
  {
    var x := q + Zeros(56 - |q|);
    assert q + Zeros(64 - |q|) == x + Zeros(8);
    WordsConcat(x, Zeros(8));
    WordsConcat(x, BytesOf(0) + BytesOf(w));
    WordsConcat(BytesOf(0), BytesOf(w));
    WordBytes(0);
    WordBytes(w);
    assert Words(Zeros(8)) == [0, 0];
  }

  /** With room for the length, the padding ends in one more block. */
  lemma PadShortTail(x: seq<Byte>, p: seq<Byte>, length: seq<Byte>)
    requires |x| % 64 == 0 && |p| < 56 && |length| == 8
    ensures PadWith(x + p, length) == x + (p + [0x80] + Zeros(55 - |p|) + length)
  {
    assert ZeroCount(|x + p|) == 55 - |p|;
  }

  /** Without it, one block is closed and the length goes into a second one. */
  lemma PadLongTail(x: seq<Byte>, p: seq<Byte>, length: seq<Byte>)
    requires |x| % 64 == 0 && 56 <= |p| < 64 && |length| == 8
    ensures PadWith(x + p, length) == x + (p + [0x80] + Zeros(63 - |p|)) + (Zeros(56) + length)
  {
    assert ZeroCount(|x + p|) == 119 - |p|;
    assert Zeros(119 - |p|) == Zeros(63 - |p|) + Zeros(56);
  }

  /** Loading one full block of the buffer into the scratch array. */
  method LoadBlock(data: array<Byte>, block: nat, temp: array<Word>)
    requires block + 64 <= data.Length && temp.Length == 80
    modifies temp
    ensures temp[..16] == Words(data[block..block + 64])
  {
    hide WordOf;
    ghost var bytes := data[block..block + 64];
    for i := 0 to 16
      invariant temp[..i] == Words(bytes)[..i]
    {
      var at := block + 4 * i;
      LoadWord(data[at], data[at + 1], data[at + 2], data[at + 3]);
      temp[i] := data[at + 3] as Word | (data[at + 2] as Word << 8) | (data[at + 1] as Word << 16)
                 | (data[at] as Word << 24);
      assert temp[i] == Words(bytes)[i];
    }
  }

  /** `memset(temp, 0, sizeof(uint32) * 16)`. */
  method ClearBlock(temp: array<Word>)
    requires temp.Length == 80
    modifies temp
    ensures temp[..16] == Unfinished([])
  {
    forall i | 0 <= i < 16 {
      temp[i] := 0;
    }
    assert forall i :: 0 <= i < 16 ==> Unfinished([])[i] == WordOf(0, 0, 0, 0);
  }

  /** The unfinished rest of the buffer, closed with the 0x80 byte. */
  method LoadTail(data: array<Byte>, block: nat, end: nat, temp: array<Word>)
    requires block + end <= data.Length && end < 64 && temp.Length == 80
    modifies temp
    ensures temp[..16] == Unfinished(data[block..block + end] + [0x80])
  {
    hide Or, Words, Zeros;
    ghost var p := data[block..block + end];
    ClearBlock(temp);
    var last := 0;
    while last < end
      invariant 0 <= last <= end
      invariant temp[..16] == Unfinished(p[..last])
    {
      OrAppendsByte(p[..last], p[last]);
      assert p[..last + 1] == p[..last] + [p[last]];
      temp[last / 4] := Or(temp[last / 4], data[last + block], last);
      last := last + 1;
    }
    assert p[..last] == p;
    OrAppendsByte(p, 0x80);
    temp[last / 4] := Or(temp[last / 4], 0x80, last);
  }

  lemma FiveParts(p: seq<seq<Byte>>, i: nat)
    requires |p| == 5 && forall k :: 0 <= k < 5 ==> |p[k]| == 4
    requires i < 20
    ensures (p[0] + p[1] + p[2] + p[3] + p[4])[i] == p[i / 4][i % 4]
  {
  }

  lemma ByteOfBytes(w: Word, i: nat)
    ensures BytesOf(w)[i % 4] == ByteOf(w, ShiftOf(i))
  {
  }

  lemma DigestByte(sha: seq<Word>, i: nat)
    requires |sha| == 5 && i < 20
    ensures Digest(Regs(sha[0], sha[1], sha[2], sha[3], sha[4]))[i] == ByteOf(sha[i / 4], ShiftOf(i))
  {
    var parts := seq(5, k requires 0 <= k < 5 => BytesOf(sha[k]));
    FiveParts(parts, i);
    ByteOfBytes(sha[i / 4], i);
  }

  /** The twenty digest bytes, written from the last to the first. */
  method StoreDigest(sha: array<Word>, dest: array<Byte>)
    requires sha.Length == 5 && dest.Length >= 20
    modifies dest
    ensures dest[..20] == Digest(State(sha)) && dest[20..] == old(dest[20..])
  {
    ghost var digest := Digest(State(sha));
    var i := 19;
    while i >= 0
      invariant -1 <= i <= 19
      invariant forall j :: i < j < 20 ==> dest[j] == digest[j]
      invariant dest[20..] == old(dest[20..])
    {
      DigestByte(sha[..], i);
      dest[i] := ByteOf(sha[i / 4], ShiftOf(i));
      i := i - 1;
    }
  }

  /** The last words compressed, in both tail cases: the length word l goes into the block that
      holds the 0x80 byte, or into one more block. */
  lemma TailCompressions(x: seq<Byte>, p: seq<Byte>, l: Word)
    requires |x| % 64 == 0 && |p| < 64
    ensures Fold(Words(PadWith(x + p, BytesOf(0) + BytesOf(l))))
         == if |p| < 56 then Compress(Fold(Words(x)), Unfinished(p + [0x80])[15 := l])
            else Compress(Compress(Fold(Words(x)), Unfinished(p + [0x80])), Unfinished([])[15 := l])
  {
    hide Compress, WordOf, ByteOf, Words, Zeros;
    var length := BytesOf(0) + BytesOf(l);
    if |p| < 56 {
      PadShortTail(x, p, length);
      LengthWord(p + [0x80], l);
      assert p + [0x80] + Zeros(55 - |p|) + length == LastBlock(p + [0x80], length);
      FoldBlock(x, LastBlock(p + [0x80], length));
    } else {
      PadLongTail(x, p, length);
      LengthWord([], l);
      var full := p + [0x80] + Zeros(63 - |p|);
      assert Zeros(56) + length == LastBlock([], length);
      FoldBlock(x, full);
      FoldBlock(x + full, LastBlock([], length));
    }
  }

  /** All full blocks of the buffer. */
  method HashBlocks(data: array<Byte>, len: nat, sha: array<Word>, temp: array<Word>) returns (block: nat)
    requires len <= data.Length && len + 64 < UINT32_SIZE
    requires sha.Length == 5 && temp.Length == 80 && sha != temp && State(sha) == H0
    modifies sha, temp
    ensures block % 64 == 0 && block <= len < block + 64
    ensures State(sha) == Fold(Words(data[..block]))
  {
    hide Compress, Words, Fold;
    block := 0;
    WordsEmpty();
    while block + 64 <= len
      invariant block % 64 == 0 && block <= len
      invariant State(sha) == Fold(Words(data[..block]))
    {
      assert block + 64 < UINT32_SIZE;
      ghost var x, y := data[..block], data[block..block + 64];
      LoadBlock(data, block, temp);
      FoldBlock(x, y);
      assert data[..block + 64] == x + y;
      Sha1PartHash(sha, temp);
      block := block + 64;
    }
  }

  lemma WordsEmpty()
    ensures Fold(Words([])) == H0
  {
  }

  /** The padded tail: one block more, or two when the length word l does not fit behind 0x80. */
  method HashTail(data: array<Byte>, len: nat, block: nat, l: Word, sha: array<Word>, temp: array<Word>)
    requires block % 64 == 0 && block <= len < block + 64 && len <= data.Length
    requires sha.Length == 5 && temp.Length == 80 && sha != temp
    requires State(sha) == Fold(Words(data[..block]))
    modifies sha, temp
    ensures State(sha) == Fold(Words(PadWith(data[..len], BytesOf(0) + BytesOf(l))))
  {
    hide Compress, Plus, BytesOf, ByteOf, Words;
    var end := len - block;
    ghost var x, p := data[..block], data[block..block + end];
    assert data[..len] == x + p;
    TailCompressions(x, p, l);
    LoadTail(data, block, end, temp);
    ghost var h, open := Fold(Words(x)), Unfinished(p + [0x80]);
    if end >= 56 {
      Sha1PartHash(sha, temp);
      ClearBlock(temp);
      h, open := Compress(h, open), Unfinished([]);
    }
    assert State(sha) == h && temp[..16] == open;
    temp[15] := l;
    assert temp[..16] == open[15 := l];
    Sha1PartHash(sha, temp);
    assert State(sha) == Compress(h, open[15 := l]);
  }

  /** What the packer computes on a buffer of any length below 2^32 - 64 (from there on the 32-bit
      sum `block + 64` wraps and the block loop does not end). */
  method HashSha1(data: array<Byte>, len: nat, dest: array<Byte>)
    requires len <= data.Length && len + 64 < UINT32_SIZE && dest.Length >= 20
    modifies dest
    ensures dest[..20] == Digest(Fold(Words(PackerPad(old(data[..len])))))
    ensures len < 0x2000_0000 ==> dest[..20] == Sha1(old(data[..len]))
    ensures dest[20..] == old(dest[20..])
  {
    hide Fold, Compress, LowLength, BytesOf, Words, PadWith, Digest;
    var temp := new Word[80];
    var sha := new Word[5] [0x67452301, 0xefcdab89, 0x98badcfe, 0x10325476, 0xc3d2e1f0];
    var block := HashBlocks(data, len, sha, temp);
    HashTail(data, len, block, LowLength(len), sha, temp);
    if len < 0x2000_0000 {
      PackerPadIsPad(data[..len]);
    }
    assert PackerPad(data[..len]) == PadWith(data[..len], BytesOf(0) + BytesOf(LowLength(len)));
    StoreDigest(sha, dest);
  }

  lemma WordZero(n: nat)
    requires n < UINT32_SIZE
    ensures n as Word == 0 <==> n == 0
  {
  }

  lemma BytesInjective(v: Word, w: Word)
    requires BytesOf(v) == BytesOf(w)
    ensures v == w
  {
    WordBytes(v);
    WordBytes(w);
    assert Words(BytesOf(v))[0] == v && Words(BytesOf(w))[0] == w;
  }

  /** The one place where this code can leave the standard: its padding is the standard's exactly
      when the bit length fits the single word it writes. */
  lemma PackerPadIsPad(m: seq<Byte>)
    requires |m| < 0x2000_0000_0000_0000
    ensures PackerPad(m) == Pad(m) <==> |m| < 0x2000_0000
  {
    var hi := (8 * |m|) / 0x1_0000_0000;
    WordZero(hi);
    var front := m + [0x80] + Zeros(ZeroCount(|m|));
    if PackerPad(m) == Pad(m) {
      assert ShortLength(|m|) == PackerPad(m)[|front|..] == LengthBlock(8 * |m|);
      assert BytesOf(0) == ShortLength(|m|)[..4] == BytesOf(hi as Word);
      BytesInjective(0, hi as Word);
    }
  }
}
