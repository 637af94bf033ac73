/** The Wavefront side of the two mesh converters, and what a trip through both keeps. */
module MeshObj {
  import opened Basics
  import opened MeshBinary
  import opened MeshText

  /** `'%.9g' % x` followed by `float()` and the rounding to 32 bits, on bit patterns. */
  datatype Codec = Codec(print_: Cell -> string, parse: string -> Option<Cell>)

  const QUIET_NAN: Cell := 0x7fc0_0000

  /** Text has one spelling for all NaNs. */
  function Canon(c: Cell): Cell {
    if c % 0x8000_0000 > 0x7f80_0000 then QUIET_NAN else c
  }

  /** Nine digits tell all 32-bit floats apart, and a printed float is one token. */
  ghost predicate IsFloatCodec(x: Codec) {
    && (forall c: Cell :: x.parse(x.print_(c)) == Some(Canon(c)))
    && (forall c: Cell :: IsToken(x.print_(c)))
  }

  // ---------- reading ----------

  const EMPTY := Mesh([], [], [], [])

  function ParseFloats(x: Codec, parts: seq<string>): Option<seq<Cell>> {
    if parts == [] then Some([])
    else
      match (ParseFloats(x, parts[..|parts| - 1]), x.parse(parts[|parts| - 1]))
      case (Some(cells), Some(c)) => Some(cells + [c])
      case _ => None
  }

  /** A missing field stands for no index. */
  function ParseIndex(field: string): Option<int> {
    if field == [] then Some(-1)
    else match ParseInt(field)
         case None => None
         case Some(i) => Some(i - 1)
  }

  function ParseCorner(vertex: string): Option<Corner> {
    var fields := Fields(vertex, '/') + [[], []];
    match (ParseIndex(fields[0]), ParseIndex(fields[1]), ParseIndex(fields[2]))
    case (Some(a), Some(b), Some(c)) => Some(Corner(a, b, c))
    case _ => None
  }

  function ParseFace(parts: seq<string>): (r: Option<seq<Corner>>)
    ensures r.Some? ==> |r.value| == |parts|
  {
    if parts == [] then Some([])
    else
      match (ParseFace(parts[..|parts| - 1]), ParseCorner(parts[|parts| - 1]))
      case (Some(face), Some(c)) => Some(face + [c])
      case _ => None
  }

  /** The triangles of the fan whose last corner is face[k]. */
  function FanUpTo(face: seq<Corner>, k: nat): (t: seq<Corner>)
    requires k < |face| || k == 0
    ensures |t| == if k < 2 then 0 else 3 * (k - 1)
  {
    if k < 2 then [] else FanUpTo(face, k - 1) + [face[0], face[k - 1], face[k]]
  }

  function Fan(face: seq<Corner>): seq<Corner> {
    FanUpTo(face, if |face| == 0 then 0 else |face| - 1)
  }

  predicate IsComment(part: string) { part != [] && part[0] == '#' }

  function ParseLine(x: Codec, m: Mesh, line: string): Option<Mesh> {
    ParseParts(x, m, Words(line))
  }

  /** What one line adds to the mesh; a missing part or a bad number raises. */
  function ParseParts(x: Codec, m: Mesh, parts: seq<string>): Option<Mesh> {
    if parts == [] || IsComment(parts[0]) then Some(m)
    else if parts[0] == "v" || parts[0] == "vn" then
      if |parts| < 4 then None
      else
        match ParseFloats(x, parts[1..4])
        case None => None
        case Some(cells) =>
          Some(if parts[0] == "v" then m.(positions := m.positions + cells) else m.(normals := m.normals + cells))
    else if parts[0] == "vt" then
      if |parts| < 3 then None
      else
        match ParseFloats(x, parts[1..3])
        case None => None
        case Some(cells) => Some(m.(uvs := m.uvs + cells))
    else if parts[0] == "f" then
      match ParseFace(parts[1..])
      case None => None
      case Some(face) => Some(m.(corners := m.corners + Fan(face)))
    else Some(m)
  }

  function ParseLines(x: Codec, m: Mesh, lines: seq<string>): Option<Mesh> {
    if lines == [] then Some(m)
    else
      match ParseLines(x, m, lines[..|lines| - 1])
      case None => None
      case Some(n) => ParseLine(x, n, lines[|lines| - 1])
  }

  function ParseText(x: Codec, text: string): Option<Mesh> {
    ParseLines(x, EMPTY, Lines(text))
  }

  // ---------- writing ----------

  const COMMENT_1A := "# 3D mesh decoded from .binobj "
  const COMMENT_1B := "(source of truth; baked back"
  const COMMENT_1C := " to .binobj at build time)."
  const COMMENT_2A := "# UVs are stored raw here; the V "
  const COMMENT_2B := "coordinate is flipped (1-v)"
  const COMMENT_2C := " at load time."

  /** The two comment lines at the top of a written file. */
  function Comments(): seq<string> {
    [COMMENT_1A + COMMENT_1B + COMMENT_1C, COMMENT_2A + COMMENT_2B + COMMENT_2C]
  }

  function TripleLine(x: Codec, tag: string, a: Cell, b: Cell, c: Cell): string {
    tag + " " + x.print_(a) + " " + x.print_(b) + " " + x.print_(c)
  }

  function PairLine(x: Codec, tag: string, a: Cell, b: Cell): string {
    tag + " " + x.print_(a) + " " + x.print_(b)
  }

  function PrintCorner(c: Corner): string {
    PrintInt(c.pos + 1) + "/" + PrintInt(c.uv + 1) + "/" + PrintInt(c.norm + 1)
  }

  function FaceLine(a: Corner, b: Corner, c: Corner): string {
    "f" + " " + PrintCorner(a) + " " + PrintCorner(b) + " " + PrintCorner(c)
  }

  /** The lines of the first n groups of a section. */
  function TripleLines(x: Codec, tag: string, cells: seq<Cell>, n: nat): seq<string>
    requires 3 * n <= |cells|
  {
    if n == 0 then []
    else TripleLines(x, tag, cells, n - 1) + [TripleLine(x, tag, cells[3 * n - 3], cells[3 * n - 2], cells[3 * n - 1])]
  }

  function PairLines(x: Codec, tag: string, cells: seq<Cell>, n: nat): seq<string>
    requires 2 * n <= |cells|
  {
    if n == 0 then []
    else PairLines(x, tag, cells, n - 1) + [PairLine(x, tag, cells[2 * n - 2], cells[2 * n - 1])]
  }

  function FaceLines(corners: seq<Corner>, n: nat): seq<string>
    requires 3 * n <= |corners|
  {
    if n == 0 then []
    else FaceLines(corners, n - 1) + [FaceLine(corners[3 * n - 3], corners[3 * n - 2], corners[3 * n - 1])]
  }

  function PrintedLines(x: Codec, m: Mesh): seq<string> {
    Comments()
    + TripleLines(x, "v", m.positions, |m.positions| / 3)
    + PairLines(x, "vt", m.uvs, |m.uvs| / 2)
    + TripleLines(x, "vn", m.normals, |m.normals| / 3)
    + FaceLines(m.corners, |m.corners| / 3)
  }

  // ---------- reading one written line ----------

  lemma FourWords(a: string, b: string, c: string, d: string)
    requires IsToken(a) && IsToken(b) && IsToken(c) && IsToken(d)
    ensures Words(a + " " + b + " " + c) == [a, b, c]
    ensures Words(a + " " + b + " " + c + " " + d) == [a, b, c, d]
  {
    hide Words;
    WordsEmpty();
    WordsAppend([], a);
    assert [] + a == a;
    WordsBlank(a);
    WordsAppend(a + " ", b);
    WordsBlank(a + " " + b);
    WordsAppend(a + " " + b + " ", c);
    WordsBlank(a + " " + b + " " + c);
    WordsAppend(a + " " + b + " " + c + " ", d);
  }

  lemma WordsEmpty()
    ensures Words([]) == []
  {
  }

  lemma OneMoreFloat(x: Codec, parts: seq<string>, cells: seq<Cell>, c: Cell)
    requires IsFloatCodec(x) && ParseFloats(x, parts) == Some(cells)
    ensures ParseFloats(x, parts + [x.print_(c)]) == Some(cells + [Canon(c)])
  {
    assert (parts + [x.print_(c)])[..|parts|] == parts;
  }

  lemma ThreeFloats(x: Codec, a: Cell, b: Cell, c: Cell)
    requires IsFloatCodec(x)
    ensures ParseFloats(x, [x.print_(a), x.print_(b)]) == Some([Canon(a), Canon(b)])
    ensures ParseFloats(x, [x.print_(a), x.print_(b), x.print_(c)]) == Some([Canon(a), Canon(b), Canon(c)])
  {
    var p, q := [x.print_(a)], [x.print_(a), x.print_(b)];
    OneMoreFloat(x, [], [], a);
    assert [] + p == p && [] + [Canon(a)] == [Canon(a)];
    OneMoreFloat(x, p, [Canon(a)], b);
    assert p + [x.print_(b)] == q && [Canon(a)] + [Canon(b)] == [Canon(a), Canon(b)];
    OneMoreFloat(x, q, [Canon(a), Canon(b)], c);
    assert q + [x.print_(c)] == [x.print_(a), x.print_(b), x.print_(c)];
    assert [Canon(a), Canon(b)] + [Canon(c)] == [Canon(a), Canon(b), Canon(c)];
  }

  lemma PrintedToken(x: Codec, c: Cell)
    requires IsFloatCodec(x)
    ensures IsToken(x.print_(c))
  {
  }

  lemma TripleRead(x: Codec, m: Mesh, tag: string, a: Cell, b: Cell, c: Cell)
    requires IsFloatCodec(x) && (tag == "v" || tag == "vn")
    ensures ParseLine(x, m, TripleLine(x, tag, a, b, c))
         == Some(if tag == "v" then m.(positions := m.positions + [Canon(a), Canon(b), Canon(c)])
                 else m.(normals := m.normals + [Canon(a), Canon(b), Canon(c)]))
  {
    hide Words, ParseFloats, Canon, IsFloatCodec;
    PrintedToken(x, a);
    PrintedToken(x, b);
    PrintedToken(x, c);
    FourWords(tag, x.print_(a), x.print_(b), x.print_(c));
    ThreeFloats(x, a, b, c);
    var parts := [tag, x.print_(a), x.print_(b), x.print_(c)];
    assert parts[1..4] == [x.print_(a), x.print_(b), x.print_(c)];
  }

  lemma PairRead(x: Codec, m: Mesh, a: Cell, b: Cell)
    requires IsFloatCodec(x)
    ensures ParseLine(x, m, PairLine(x, "vt", a, b)) == Some(m.(uvs := m.uvs + [Canon(a), Canon(b)]))
  {
    hide Words, ParseFloats, Canon, IsFloatCodec;
    PrintedToken(x, a);
    PrintedToken(x, b);
    FourWords("vt", x.print_(a), x.print_(b), x.print_(b));
    ThreeFloats(x, a, b, b);
    var parts := ["vt", x.print_(a), x.print_(b)];
    assert parts[1..3] == [x.print_(a), x.print_(b)];
  }

  lemma PrintedInt(i: int)
    ensures IsToken(PrintInt(i)) && '/' !in PrintInt(i)
  {
    hide PrintNat;
    var s := PrintInt(i);
    forall c | c in s ensures IsDigit(c) || c == '-' {
    }
  }

  /** A NaN with its sign set, which text can spell, but which is never printed. */
  const SIGNED_NAN: Cell := 0xffc0_0000

  /** A pair that meets the hypothesis, and reads a signed NaN: floats printed as their bit patterns in decimal. */
  const BIT_CODEC := Codec(
    (c: Cell) => PrintNat(Canon(c)),
    (s: string) => if s == "-nan" then Some(SIGNED_NAN) else CellOfNat(ParseNat(s)))

  function CellOfNat(n: Option<nat>): Option<Cell> {
    match n
    case Some(v) => if v < 0x1_0000_0000 then Some(v) else None
    case None => None
  }

  lemma BitCodecIsCodec()
    ensures IsFloatCodec(BIT_CODEC) && BIT_CODEC.parse("-nan") == Some(SIGNED_NAN) && BIT_CODEC.parse("0") == Some(0)
  {
    forall c: Cell ensures BIT_CODEC.parse(BIT_CODEC.print_(c)) == Some(Canon(c)) && IsToken(BIT_CODEC.print_(c)) {
      ParsePrintNat(Canon(c));
      PrintedInt(Canon(c));
      assert PrintNat(Canon(c))[0] in PrintNat(Canon(c)) && "-nan"[0] == '-';
    }
    ParsePrintNat(0);
    assert PrintNat(0) == "0";
  }

  lemma CornerRead(c: Corner)
    ensures IsToken(PrintCorner(c)) && ParseCorner(PrintCorner(c)) == Some(c)
  {
    hide PrintInt, ParseInt, Fields;
    var a, b, n := PrintInt(c.pos + 1), PrintInt(c.uv + 1), PrintInt(c.norm + 1);
    PrintedInt(c.pos + 1);
    PrintedInt(c.uv + 1);
    PrintedInt(c.norm + 1);
    ThreeFields(a, b, n);
    ParsePrintInt(c.pos + 1);
    ParsePrintInt(c.uv + 1);
    ParsePrintInt(c.norm + 1);
    var fields := [a, b, n] + [[], []];
    assert fields[0] == a && fields[1] == b && fields[2] == n;
  }

  lemma OneMoreCorner(parts: seq<string>, face: seq<Corner>, c: Corner)
    requires ParseFace(parts) == Some(face)
    ensures ParseFace(parts + [PrintCorner(c)]) == Some(face + [c])
  {
    hide PrintCorner, ParseCorner;
    CornerRead(c);
    assert (parts + [PrintCorner(c)])[..|parts|] == parts;
  }

  lemma TriangleFace(a: Corner, b: Corner, c: Corner)
    ensures ParseFace([PrintCorner(a), PrintCorner(b), PrintCorner(c)]) == Some([a, b, c])
    ensures Fan([a, b, c]) == [a, b, c]
  {
    hide PrintCorner, ParseCorner;
    var p, q := [PrintCorner(a)], [PrintCorner(a), PrintCorner(b)];
    OneMoreCorner([], [], a);
    assert [] + p == p && [] + [a] == [a];
    OneMoreCorner(p, [a], b);
    assert p + [PrintCorner(b)] == q && [a] + [b] == [a, b];
    OneMoreCorner(q, [a, b], c);
    assert q + [PrintCorner(c)] == [PrintCorner(a), PrintCorner(b), PrintCorner(c)] && [a, b] + [c] == [a, b, c];
    assert FanUpTo([a, b, c], 1) == [];
  }

  lemma TriangleRead(x: Codec, m: Mesh, a: Corner, b: Corner, c: Corner)
    ensures ParseLine(x, m, FaceLine(a, b, c)) == Some(m.(corners := m.corners + [a, b, c]))
  {
    hide PrintCorner, ParseCorner, Words, ParseFace, Fan;
    CornerRead(a);
    CornerRead(b);
    CornerRead(c);
    TriangleFace(a, b, c);
    var p := [PrintCorner(a), PrintCorner(b), PrintCorner(c)];
    FourWords("f", p[0], p[1], p[2]);
    assert ["f", p[0], p[1], p[2]][1..] == p;
  }

  /** A line that starts with '#' is a comment. */
  lemma {:induction false} FirstWord(s: string)
    requires s != [] && !IsBlank(s[0])
    ensures Words(s) != [] && Words(s)[0] != [] && Words(s)[0][0] == s[0]
    decreases |s|
  {
    if |s| > 1 {
      FirstWord(s[..|s| - 1]);
    }
  }

  lemma CommentRead(x: Codec, m: Mesh, l: string)
    requires l != [] && l[0] == '#'
    ensures ParseLine(x, m, l) == Some(m)
  {
    FirstWord(l);
  }

  lemma EmptyRead(x: Codec, m: Mesh)
    ensures ParseLine(x, m, []) == Some(m)
  {
  }
}
