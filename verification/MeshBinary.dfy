/** The compact mesh file: big-endian sections of 32-bit floats, then the corners. */
module MeshBinary {
  import opened Basics

  type Byte = b: int | 0 <= b < 0x100
  /** The bit pattern of a 32-bit float. */
  type Cell = c: int | 0 <= c < 0x1_0000_0000

  datatype Corner = Corner(pos: int, uv: int, norm: int)

  datatype Mesh = Mesh(positions: seq<Cell>, uvs: seq<Cell>, normals: seq<Cell>, corners: seq<Corner>)

  predicate IsInt32(i: int) { -0x8000_0000 <= i < 0x8000_0000 }

  function BigEndian(c: Cell): (s: seq<Byte>)
    ensures |s| == 4
  {
    [c / 0x100_0000, c / 0x1_0000 % 0x100, c / 0x100 % 0x100, c % 0x100]
  }

  function CellOf(b0: Byte, b1: Byte, b2: Byte, b3: Byte): Cell {
    b0 as int * 0x100_0000 + b1 as int * 0x1_0000 + b2 as int * 0x100 + b3 as int
  }

  lemma CellOfBigEndian(c: Cell)
    ensures var s := BigEndian(c); CellOf(s[0], s[1], s[2], s[3]) == c
  {
    var h := c / 0x100;
    assert c == h * 0x100 + c % 0x100;
    assert h == h / 0x100 * 0x100 + h % 0x100;
    assert h / 0x100 == c / 0x1_0000;
    assert c / 0x1_0000 == c / 0x100_0000 * 0x100 + c / 0x1_0000 % 0x100;
  }

  lemma BigEndianOfCell(b0: Byte, b1: Byte, b2: Byte, b3: Byte)
    ensures BigEndian(CellOf(b0, b1, b2, b3)) == [b0, b1, b2, b3]
  {
    var a, b, c := b0 as int, b1 as int, b2 as int;
    var v := CellOf(b0, b1, b2, b3);
    assert v / 0x100 == (a * 0x100 + b) * 0x100 + c;
    assert v / 0x1_0000 == a * 0x100 + b;
    assert v / 0x100_0000 == a;
  }

  /** Two's complement. */
  function Pack(i: int): Cell { i % 0x1_0000_0000 }

  function Unpack(c: Cell): (i: int)
    ensures IsInt32(i) && Pack(i) == c
  {
    if c >= 0x8000_0000 then c - 0x1_0000_0000 else c
  }

  function Int(i: int): (s: seq<Byte>)
    ensures |s| == 4
  {
    BigEndian(Pack(i))
  }

  function Floats(cells: seq<Cell>): (s: seq<Byte>)
    ensures |s| == 4 * |cells|
  {
    if cells == [] then [] else Floats(cells[..|cells| - 1]) + BigEndian(cells[|cells| - 1])
  }

  predicate IsCorner(c: Corner) { IsInt32(c.pos) && IsInt32(c.uv) && IsInt32(c.norm) }

  function Corners(corners: seq<Corner>): (s: seq<Byte>)
    ensures |s| == 12 * |corners|
  {
    if corners == [] then []
    else
      var c := corners[|corners| - 1];
      Corners(corners[..|corners| - 1]) + (Int(c.pos) + Int(c.uv) + Int(c.norm))
  }

  function Section(cells: seq<Cell>): seq<Byte> { Int(|cells|) + Floats(cells) }

  function CornerSection(corners: seq<Corner>): seq<Byte> { Int(|corners|) + Corners(corners) }

  /** What the 32-bit counts and indices of the format can hold. */
  predicate Fits(m: Mesh) {
    && |m.positions| < 0x8000_0000 && |m.uvs| < 0x8000_0000 && |m.normals| < 0x8000_0000
    && |m.corners| < 0x8000_0000 && forall c :: c in m.corners ==> IsCorner(c)
  }

  function Bytes(m: Mesh): seq<Byte> {
    Section(m.positions) + (Section(m.uvs) + (Section(m.normals) + CornerSection(m.corners)))
  }

  // ---------- the format is unambiguous ----------

  lemma IntInjective(i: int, j: int)
    requires IsInt32(i) && IsInt32(j) && Int(i) == Int(j)
    ensures i == j
  {
    CellOfBigEndian(Pack(i));
    CellOfBigEndian(Pack(j));
    hide CellOf, BigEndian;
    assert Pack(i) == Pack(j);
  }

  lemma {:induction false} FloatsInjective(x: seq<Cell>, y: seq<Cell>)
    requires Floats(x) == Floats(y)
    ensures x == y
  {
    assert |x| == |y|;
    if x != [] {
      var n := |x| - 1;
      assert Floats(x)[..4 * n] == Floats(x[..n]) && Floats(y)[..4 * n] == Floats(y[..n]);
      assert Floats(x)[4 * n..] == BigEndian(x[n]) && Floats(y)[4 * n..] == BigEndian(y[n]);
      CellOfBigEndian(x[n]);
      CellOfBigEndian(y[n]);
      FloatsInjective(x[..n], y[..n]);
      assert x == x[..n] + [x[n]] && y == y[..n] + [y[n]];
    }
  }

  lemma CornerInjective(a: Corner, b: Corner)
    requires IsCorner(a) && IsCorner(b)
    requires Int(a.pos) + Int(a.uv) + Int(a.norm) == Int(b.pos) + Int(b.uv) + Int(b.norm)
    ensures a == b
  {
    var s := Int(a.pos) + Int(a.uv) + Int(a.norm);
    assert s[..4] == Int(a.pos) && s[..4] == Int(b.pos);
    assert s[4..8] == Int(a.uv) && s[4..8] == Int(b.uv);
    assert s[8..] == Int(a.norm) && s[8..] == Int(b.norm);
    IntInjective(a.pos, b.pos);
    IntInjective(a.uv, b.uv);
    IntInjective(a.norm, b.norm);
  }

  lemma {:induction false} CornersInjective(x: seq<Corner>, y: seq<Corner>)
    requires (forall c :: c in x ==> IsCorner(c)) && (forall c :: c in y ==> IsCorner(c))
    requires Corners(x) == Corners(y)
    ensures x == y
  {
    hide Int;
    assert |x| == |y|;
    if x != [] {
      var n := |x| - 1;
      assert Corners(x)[..12 * n] == Corners(x[..n]) && Corners(y)[..12 * n] == Corners(y[..n]);
      assert Corners(x)[12 * n..] == Int(x[n].pos) + Int(x[n].uv) + Int(x[n].norm);
      assert Corners(y)[12 * n..] == Int(y[n].pos) + Int(y[n].uv) + Int(y[n].norm);
      CornerInjective(x[n], y[n]);
      CornersInjective(x[..n], y[..n]);
      assert x == x[..n] + [x[n]] && y == y[..n] + [y[n]];
    }
  }

  /** A section can be followed by anything and is still read back whole. */
  lemma SectionPrefix(x: seq<Cell>, r: seq<Byte>, y: seq<Cell>, t: seq<Byte>)
    requires |x| < 0x8000_0000 && |y| < 0x8000_0000
    requires Section(x) + r == Section(y) + t
    ensures x == y && r == t
  {
    var s := Section(x) + r;
    assert s[..4] == Int(|x|) && s[..4] == Int(|y|);
    IntInjective(|x|, |y|);
    assert s[4..4 + 4 * |x|] == Floats(x) && s[4..4 + 4 * |x|] == Floats(y);
    FloatsInjective(x, y);
    assert s[4 + 4 * |x|..] == r && s[4 + 4 * |x|..] == t;
  }

  lemma BytesInjective(m: Mesh, n: Mesh)
    requires Fits(m) && Fits(n) && Bytes(m) == Bytes(n)
    ensures m == n
  {
    var m1, n1 := Section(m.normals) + CornerSection(m.corners), Section(n.normals) + CornerSection(n.corners);
    SectionPrefix(m.positions, Section(m.uvs) + m1, n.positions, Section(n.uvs) + n1);
    SectionPrefix(m.uvs, m1, n.uvs, n1);
    SectionPrefix(m.normals, CornerSection(m.corners), n.normals, CornerSection(n.corners));
    var s := CornerSection(m.corners);
    assert s[4..] == Corners(m.corners) && s[4..] == Corners(n.corners);
    CornersInjective(m.corners, n.corners);
  }

  // ---------- the encoder ----------

  method PackInt(out: seq<Byte>, i: int) returns (ok: bool, out': seq<Byte>)
    ensures ok <==> IsInt32(i)
    ensures ok ==> out' == out + Int(i)
  {
    if !(-0x8000_0000 <= i < 0x8000_0000) {
      return false, out;
    }
    return true, out + BigEndian(Pack(i));
  }

  method PackSection(out: seq<Byte>, cells: seq<Cell>) returns (ok: bool, out': seq<Byte>)
    ensures ok <==> |cells| < 0x8000_0000
    ensures ok ==> out' == out + Section(cells)
  {
    ok, out' := PackInt(out, |cells|);
    if !ok { return; }
    for i := 0 to |cells|
      invariant out' == out + Int(|cells|) + Floats(cells[..i])
    {
      assert cells[..i + 1][..i] == cells[..i];
      out' := out' + BigEndian(cells[i]);
    }
    assert cells[..|cells|] == cells;
  }

  method PackCorners(out: seq<Byte>, corners: seq<Corner>) returns (ok: bool, out': seq<Byte>)
    ensures ok <==> |corners| < 0x8000_0000 && forall c :: c in corners ==> IsCorner(c)
    ensures ok ==> out' == out + CornerSection(corners)
  {
    hide Int;
    ok, out' := PackInt(out, |corners|);
    if !ok { return; }
    for i := 0 to |corners|
      invariant ok && forall c :: c in corners[..i] ==> IsCorner(c)
      invariant out' == out + Int(|corners|) + Corners(corners[..i])
    {
      assert corners[..i + 1][..i] == corners[..i];
      ok, out' := PackCorner(out', corners[i]);
      if !ok { return; }
    }
    assert corners[..|corners|] == corners;
  }

  method PackCorner(out: seq<Byte>, c: Corner) returns (ok: bool, out': seq<Byte>)
    ensures ok <==> IsCorner(c)
    ensures ok ==> out' == out + (Int(c.pos) + Int(c.uv) + Int(c.norm))
  {
    hide Int;
    ok, out' := PackInt(out, c.pos);
    if !ok { return; }
    ok, out' := PackInt(out', c.uv);
    if !ok { return; }
    ok, out' := PackInt(out', c.norm);
  }

  /** The writing half of `obj2binobj.py`; a count or index outside 32 bits raises. */
  method Encode(m: Mesh) returns (r: Option<seq<Byte>>)
    ensures r == if Fits(m) then Some(Bytes(m)) else None
  {
    hide Section, CornerSection;
    var ok, out := PackSection([], m.positions);
    if !ok { return None; }
    ok, out := PackSection(out, m.uvs);
    if !ok { return None; }
    ok, out := PackSection(out, m.normals);
    if !ok { return None; }
    ok, out := PackCorners(out, m.corners);
    if !ok { return None; }
    assert out == Bytes(m);
    return Some(out);
  }

  // ---------- the decoder ----------

  /** The nested `read_int` and `read_floats` of `binobj2obj.py`, sharing one offset. */
  method UnpackInt(data: seq<Byte>, offset: nat) returns (r: Option<int>)
    ensures r.Some? <==> offset + 4 <= |data|
    ensures r.Some? ==> IsInt32(r.value) && data[offset..offset + 4] == Int(r.value)
  {
    if offset + 4 > |data| {
      return None;
    }
    BigEndianOfCell(data[offset], data[offset + 1], data[offset + 2], data[offset + 3]);
    var c := CellOf(data[offset], data[offset + 1], data[offset + 2], data[offset + 3]);
    assert data[offset..offset + 4] == BigEndian(c);
    return Some(Unpack(c));
  }

  lemma SectionCount(x: seq<Cell>, t: seq<Byte>, s: seq<Byte>, n: int)
    requires |x| < 0x8000_0000 && s == Section(x) + t && IsInt32(n) && s[..4] == Int(n)
    ensures |x| == n
  {
    assert (Section(x) + t)[..4] == Int(|x|);
    IntInjective(|x|, n);
  }

  /** A section is read exactly when there is one; then it is the only one the bytes can hold. */
  method UnpackSection(data: seq<Byte>, offset: nat) returns (r: Option<seq<Cell>>, next: nat)
    requires offset <= |data|
    ensures r.Some? ==> offset <= next <= |data| && |r.value| < 0x8000_0000 && data[offset..next] == Section(r.value)
    ensures r.None? ==> forall x: seq<Cell>, t :: |x| < 0x8000_0000 ==> data[offset..] != Section(x) + t
  {
    next := offset;
    var n := UnpackInt(data, offset);
    if n.None? {
      return None, offset;
    }
    next := offset + 4;
    forall x: seq<Cell>, t | |x| < 0x8000_0000 && data[offset..] == Section(x) + t ensures |x| == n.value {
      SectionCount(x, t, data[offset..], n.value);
    }
    if n.value < 0 || next + 4 * n.value > |data| {
      return None, offset;
    }
    var cells: seq<Cell> := [];
    for i := 0 to n.value
      invariant |cells| == i && Floats(cells) == data[next..next + 4 * i]
    {
      var at := next + 4 * i;
      BigEndianOfCell(data[at], data[at + 1], data[at + 2], data[at + 3]);
      var c := CellOf(data[at], data[at + 1], data[at + 2], data[at + 3]);
      assert BigEndian(c) == data[at..at + 4];
      assert (cells + [c])[..i] == cells;
      cells := cells + [c];
    }
    r, next := Some(cells), next + 4 * n.value;
    assert data[offset..next] == data[offset..offset + 4] + data[offset + 4..next];
  }

  method UnpackCorner(data: seq<Byte>, at: nat) returns (r: Option<Corner>)
    ensures r.Some? <==> at + 12 <= |data|
    ensures r.Some? ==> IsCorner(r.value)
    ensures r.Some? ==> data[at..at + 12] == Int(r.value.pos) + Int(r.value.uv) + Int(r.value.norm)
  {
    var a := UnpackInt(data, at);
    var b := UnpackInt(data, at + 4);
    var c := UnpackInt(data, at + 8);
    if c.None? {
      return None;
    }
    assert data[at..at + 12] == data[at..at + 4] + data[at + 4..at + 8] + data[at + 8..at + 12];
    return Some(Corner(a.value, b.value, c.value));
  }

  /** `[struct.unpack_from('>3i', data, offset + 12 * i) for i in range(corner_count)]`. */
  method ReadCorners(data: seq<Byte>, start: nat, n: int) returns (r: Option<seq<Corner>>)
    requires start <= |data|
    ensures r.Some? <==> n <= 0 || start + 12 * n <= |data|
    ensures r.Some? ==> |r.value| == (if n < 0 then 0 else n) && forall c :: c in r.value ==> IsCorner(c)
    ensures r.Some? ==> Corners(r.value) == data[start..start + 12 * |r.value|]
  {
    hide Int;
    var corners := [];
    var i := 0;
    while i < n
      invariant 0 <= i && (n >= 0 ==> i <= n) && (n < 0 ==> i == 0)
      invariant |corners| == i && start + 12 * i <= |data|
      invariant forall c :: c in corners ==> IsCorner(c)
      invariant Corners(corners) == data[start..start + 12 * i]
    {
      var at := start + 12 * i;
      var c := UnpackCorner(data, at);
      if c.None? {
        return None;
      }
      assert (corners + [c.value])[..i] == corners;
      assert data[start..at + 12] == data[start..at] + data[at..at + 12];
      corners := corners + [c.value];
      i := i + 1;
    }
    return Some(corners);
  }

  lemma CornerCount(x: seq<Corner>, s: seq<Byte>, n: int)
    requires |x| < 0x8000_0000 && s == CornerSection(x) && IsInt32(n) && |s| >= 4 && s[..4] == Int(n)
    ensures |x| == n
  {
    assert CornerSection(x)[..4] == Int(|x|);
    IntInjective(|x|, n);
  }

  lemma CornerSize(x: seq<Corner>)
    ensures |CornerSection(x)| == 4 + 12 * |x|
  {
  }

  lemma CornerSectionIs(s: seq<Byte>, x: seq<Corner>)
    requires |s| >= 4 && s[..4] == Int(|x|) && s[4..] == Corners(x)
    ensures s == CornerSection(x)
  {
    hide Int, Corners;
    assert s == s[..4] + s[4..];
  }

  /** The corners, and the check that nothing is left after them. */
  method UnpackCorners(data: seq<Byte>, offset: nat) returns (r: Option<seq<Corner>>)
    requires offset <= |data|
    ensures r.Some? ==> |r.value| < 0x8000_0000 && forall c :: c in r.value ==> IsCorner(c)
    ensures r.Some? ==> data[offset..] == CornerSection(r.value)
    ensures r.None? ==> forall x: seq<Corner> :: |x| < 0x8000_0000 ==> data[offset..] != CornerSection(x)
  {
    hide Int, Corners, CornerSection;
    ghost var rest := data[offset..];
    forall x: seq<Corner> ensures |CornerSection(x)| == 4 + 12 * |x| {
      CornerSize(x);
    }
    var n := UnpackInt(data, offset);
    if n.None? {
      return None;
    }
    assert rest[..4] == data[offset..offset + 4];
    forall x: seq<Corner> | |x| < 0x8000_0000 && rest == CornerSection(x) ensures |x| == n.value {
      CornerCount(x, rest, n.value);
    }
    var start := offset + 4;
    var corners := ReadCorners(data, start, n.value);
    if corners.None? || start + 12 * n.value != |data| {
      return None;
    }
    assert rest[4..] == data[start..start + 12 * n.value];
    CornerSectionIs(rest, corners.value);
    return corners;
  }

  /** Reading succeeds exactly on the files that are the encoding of a mesh, and returns that mesh. */
  method Decode(data: seq<Byte>) returns (r: Option<Mesh>)
    ensures r.Some? ==> Fits(r.value) && data == Bytes(r.value)
    ensures r.None? ==> forall m: Mesh :: Fits(m) ==> data != Bytes(m)
  {
    hide Section, CornerSection;
    assert data[0..] == data;
    var positions, o1 := UnpackSection(data, 0);
    if positions.None? {
      return None;
    }
    forall m | Fits(m) && data == Bytes(m)
      ensures m.positions == positions.value
      ensures data[o1..] == Section(m.uvs) + (Section(m.normals) + CornerSection(m.corners)) {
      SectionRead(data, 0, o1, positions.value, m.positions,
        Section(m.uvs) + (Section(m.normals) + CornerSection(m.corners)));
    }
    var uvs, o2 := UnpackSection(data, o1);
    if uvs.None? {
      return None;
    }
    forall m | Fits(m) && data == Bytes(m)
      ensures m.uvs == uvs.value && data[o2..] == Section(m.normals) + CornerSection(m.corners) {
      SectionRead(data, o1, o2, uvs.value, m.uvs, Section(m.normals) + CornerSection(m.corners));
    }
    var normals, o3 := UnpackSection(data, o2);
    if normals.None? {
      return None;
    }
    forall m | Fits(m) && data == Bytes(m)
      ensures m.normals == normals.value && data[o3..] == CornerSection(m.corners) {
      SectionRead(data, o2, o3, normals.value, m.normals, CornerSection(m.corners));
    }
    var corners := UnpackCorners(data, o3);
    if corners.None? {
      return None;
    }
    ThreeCuts(data, o1, o2, o3);
    return Some(Mesh(positions.value, uvs.value, normals.value, corners.value));
  }

  /** The section read from a file is the one any mesh with these bytes has there, and what follows it too. */
  lemma SectionRead(data: seq<Byte>, o: nat, next: nat, read: seq<Cell>, x: seq<Cell>, rest: seq<Byte>)
    requires o <= next <= |data| && data[o..next] == Section(read) && data[o..] == Section(x) + rest
    requires |read| < 0x8000_0000 && |x| < 0x8000_0000
    ensures x == read && data[next..] == rest
  {
    assert data[o..] == data[o..next] + data[next..];
    SectionPrefix(read, data[next..], x, rest);
  }

  lemma ThreeCuts(data: seq<Byte>, a: nat, b: nat, c: nat)
    requires a <= b <= c <= |data|
    ensures data == data[0..a] + (data[a..b] + (data[b..c] + data[c..]))
  {
  }
}
