/** The two converters with their loops, and their compositions. */
module MeshTools {
  import opened Basics
  import opened MeshBinary
  import opened MeshText
  import opened MeshFaces
  import opened MeshObj
  import opened MeshTrip

  // ---------- which texts give a file that survives ----------

  lemma {:induction false} ParsedFloats(x: Codec, parts: seq<string>)
    requires ParseFloats(x, parts).Some?
    ensures |ParseFloats(x, parts).value| == |parts|
  {
    if parts != [] {
      ParsedFloats(x, parts[..|parts| - 1]);
    }
  }

  lemma LineKeepsGrouped(x: Codec, m: Mesh, line: string)
    requires Grouped(m) && ParseLine(x, m, line).Some?
    ensures Grouped(ParseLine(x, m, line).value)
  {
    var parts := Words(line);
    hide Words, ParseFace, ParseFloats, Fan;
    var n := ParseLine(x, m, line).value;
    if n.positions != m.positions || n.normals != m.normals {
      ParsedFloats(x, parts[1..4]);
    } else if n.uvs != m.uvs {
      ParsedFloats(x, parts[1..3]);
    } else if n.corners != m.corners {
      FanSize(ParseFace(parts[1..]).value);
    }
  }

  lemma FanSize(face: seq<Corner>)
    ensures |Fan(face)| % 3 == 0
  {
  }

  lemma {:induction false} LinesKeepGrouped(x: Codec, lines: seq<string>)
    requires ParseLines(x, EMPTY, lines).Some?
    ensures Grouped(ParseLines(x, EMPTY, lines).value)
  {
    hide ParseLine;
    if lines != [] {
      LinesKeepGrouped(x, lines[..|lines| - 1]);
      LineKeepsGrouped(x, ParseLines(x, EMPTY, lines[..|lines| - 1]).value, lines[|lines| - 1]);
    }
  }

  /** A converted text survives the trip back byte for byte exactly when none of its floats is an odd NaN. */
  lemma ConvertedTextSurvivesExactlyWhenCanonical(x: Codec, text: string)
    requires IsFloatCodec(x) && ParseText(x, text).Some? && Fits(ParseText(x, text).value)
    ensures var m := ParseText(x, text).value;
      var t := ParseText(x, Joined(PrintedLines(x, m)));
      && t.Some? && Fits(t.value)
      && (Bytes(t.value) == Bytes(m) <==> Canonical(m))
  {
    LinesKeepGrouped(x, Lines(text));
    ByteIdenticalExactlyWhenWellFormed(x, ParseText(x, text).value);
    hide IsFloatCodec, ParseLines, PrintedLines, Bytes, Fits, Canonical;
  }

  /** There are such texts: one line with a signed NaN converts, and the file does not survive. */
  lemma SignedNanDoesNotSurvive(x: Codec)
    requires IsFloatCodec(x) && x.parse("-nan") == Some(SIGNED_NAN) && x.parse("0").Some?
    ensures var z := x.parse("0").value;
      var m := ParseText(x, "v" + " " + "-nan" + " " + "0" + " " + "0");
      && m == Some(Mesh([SIGNED_NAN, z, z], [], [], [])) && Fits(m.value)
      && var t := ParseText(x, Joined(PrintedLines(x, m.value)));
      && t.Some? && Fits(t.value) && Bytes(t.value) != Bytes(m.value)
  {
    var line := "v" + " " + "-nan" + " " + "0" + " " + "0";
    var z := x.parse("0").value;
    FourWords("v", "-nan", "0", "0");
    NanLineIsLine(line);
    NanLineRead(x, z);
    var m := Mesh([SIGNED_NAN, z, z], [], [], []);
    assert SIGNED_NAN in m.positions && Canon(SIGNED_NAN) != SIGNED_NAN;
    hide IsFloatCodec, PrintedLines, Bytes, ParseLine, Lines;
    assert ParseLines(x, EMPTY, [line]) == ParseLine(x, EMPTY, line) by { OneMoreLine(x, EMPTY, [], EMPTY, line); }
    ConvertedTextSurvivesExactlyWhenCanonical(x, line);
  }

  lemma NanLineIsLine(line: string)
    requires line == "v" + " " + "-nan" + " " + "0" + " " + "0"
    ensures Lines(line) == [line]
  {
    LinesAppend([], line);
    assert [] + line == line;
  }

  lemma NanLineRead(x: Codec, z: Cell)
    requires x.parse("-nan") == Some(SIGNED_NAN) && x.parse("0") == Some(z)
    ensures ParseParts(x, EMPTY, ["v", "-nan", "0", "0"]) == Some(Mesh([SIGNED_NAN, z, z], [], [], []))
  {
    FloatsRead(x, "-nan", "0", SIGNED_NAN, z);
    var parts := ["v", "-nan", "0", "0"];
    assert parts[1..4] == ["-nan", "0", "0"];
    PositionRead(x, parts, [SIGNED_NAN, z, z]);
    assert EMPTY.positions + [SIGNED_NAN, z, z] == [SIGNED_NAN, z, z];
  }

  lemma PositionRead(x: Codec, parts: seq<string>, cells: seq<Cell>)
    requires |parts| == 4 && parts[0] == "v" && ParseFloats(x, parts[1..4]) == Some(cells)
    ensures ParseParts(x, EMPTY, parts) == Some(EMPTY.(positions := EMPTY.positions + cells))
  {
  }

  lemma FloatsRead(x: Codec, a: string, b: string, u: Cell, z: Cell)
    requires x.parse(a) == Some(u) && x.parse(b) == Some(z)
    ensures ParseFloats(x, [a, b, b]) == Some([u, z, z])
  {
    assert [] + [a] == [a] && [a] + [b] == [a, b] && [a, b] + [b] == [a, b, b];
    assert [] + [u] == [u] && [u] + [z] == [u, z] && [u, z] + [z] == [u, z, z];
    NextFloat(x, [], a, [], u);
    NextFloat(x, [a], b, [u], z);
    NextFloat(x, [a, b], b, [u, z], z);
  }

  lemma NextFloat(x: Codec, parts: seq<string>, part: string, cells: seq<Cell>, c: Cell)
    requires ParseFloats(x, parts) == Some(cells) && x.parse(part) == Some(c)
    ensures ParseFloats(x, parts + [part]) == Some(cells + [c])
  {
    var more := parts + [part];
    assert more[..|parts|] == parts && more[|more| - 1] == part;
  }

  // ---------- `obj2binobj.py` ----------

  method FanCorners(corners: seq<Corner>, face: seq<Corner>) returns (out: seq<Corner>)
    ensures out == corners + Fan(face)
    ensures forall j: nat :: j + 2 < |face| ==>
      out[|corners| + 3 * j..|corners| + 3 * j + 3] == [face[0], face[j + 1], face[j + 2]]
  {
    FanAt(face);
    out := corners;
    var i := 1;
    while i < |face| - 1
      invariant 1 <= i && (|face| >= 2 ==> i <= |face| - 1) && (|face| < 2 ==> i == 1)
      invariant out == corners + FanUpTo(face, if |face| < 2 then 0 else i)
    {
      out := out + [face[0], face[i], face[i + 1]];
      i := i + 1;
    }
  }

  method ReadFace(parts: seq<string>) returns (face: Option<seq<Corner>>)
    ensures face == ParseFace(parts)
  {
    var corners := [];
    for i := 0 to |parts|
      invariant ParseFace(parts[..i]) == Some(corners)
    {
      assert parts[..i + 1][..i] == parts[..i];
      var corner := ParseCorner(parts[i]);
      if corner.None? {
        FaceFails(parts, i + 1);
        return None;
      }
      corners := corners + [corner.value];
    }
    assert parts[..|parts|] == parts;
    return Some(corners);
  }

  lemma {:induction false} FaceFails(parts: seq<string>, k: nat)
    requires k <= |parts| && ParseFace(parts[..k]).None?
    ensures ParseFace(parts).None?
    decreases |parts| - k
  {
    if k == |parts| {
      assert parts[..k] == parts;
    } else {
      assert parts[..k + 1][..k] == parts[..k];
      FaceFails(parts, k + 1);
    }
  }

  method ReadLine(x: Codec, m: Mesh, line: string) returns (r: Option<Mesh>)
    ensures r == ParseLine(x, m, line)
    ensures r.Some? && Words(line) != [] && Words(line)[0] == "f" ==> AddsFan(m, r.value, Words(line)[1..])
  {
    hide Words, AddsFan;
    var parts := Words(line);
    if parts == [] || IsComment(parts[0]) {
      return Some(m);
    }
    if parts[0] == "f" {
      FaceLineAddsFan(x, m, line);
      var face := ReadFace(parts[1..]);
      if face.None? {
        return None;
      }
      var corners := FanCorners(m.corners, face.value);
      return Some(m.(corners := corners));
    }
    return ParseParts(x, m, parts);
  }

  /** The whole of `obj2binobj.py`. */
  method ObjToBin(x: Codec, text: string) returns (r: Option<seq<Byte>>)
    ensures r == match ParseText(x, text)
                 case Some(m) => if Fits(m) then Some(Bytes(m)) else None
                 case None => None
  {
    hide ParseLine, Bytes, Fits;
    var lines := Lines(text);
    var m := EMPTY;
    for i := 0 to |lines|
      invariant ParseLines(x, EMPTY, lines[..i]) == Some(m)
    {
      assert lines[..i + 1][..i] == lines[..i];
      var n := ReadLine(x, m, lines[i]);
      if n.None? {
        LinesFail(x, lines, i + 1);
        return None;
      }
      m := n.value;
    }
    assert lines[..|lines|] == lines;
    r := Encode(m);
  }

  lemma {:induction false} LinesFail(x: Codec, lines: seq<string>, k: nat)
    requires k <= |lines| && ParseLines(x, EMPTY, lines[..k]).None?
    ensures ParseLines(x, EMPTY, lines).None?
    decreases |lines| - k
  {
    if k == |lines| {
      assert lines[..k] == lines;
    } else {
      assert lines[..k + 1][..k] == lines[..k];
      LinesFail(x, lines, k + 1);
    }
  }

  // ---------- `binobj2obj.py` ----------

  method WriteTriples(x: Codec, tag: string, cells: seq<Cell>, lines: seq<string>) returns (out: seq<string>)
    ensures out == lines + TripleLines(x, tag, cells, |cells| / 3)
  {
    hide TripleLine;
    out := lines;
    for i := 0 to |cells| / 3
      invariant out == lines + TripleLines(x, tag, cells, i)
    {
      out := out + [TripleLine(x, tag, cells[3 * i], cells[3 * i + 1], cells[3 * i + 2])];
    }
  }

  method WritePairs(x: Codec, tag: string, cells: seq<Cell>, lines: seq<string>) returns (out: seq<string>)
    ensures out == lines + PairLines(x, tag, cells, |cells| / 2)
  {
    hide PairLine;
    out := lines;
    for i := 0 to |cells| / 2
      invariant out == lines + PairLines(x, tag, cells, i)
    {
      out := out + [PairLine(x, tag, cells[2 * i], cells[2 * i + 1])];
    }
  }

  method WriteFaces(corners: seq<Corner>, lines: seq<string>) returns (out: seq<string>)
    ensures out == lines + FaceLines(corners, |corners| / 3)
  {
    hide FaceLine;
    out := lines;
    for t := 0 to |corners| / 3
      invariant out == lines + FaceLines(corners, t)
    {
      out := out + [FaceLine(corners[3 * t], corners[3 * t + 1], corners[3 * t + 2])];
    }
  }

  method BinToObj(x: Codec, data: seq<Byte>) returns (r: Option<string>)
    ensures r.Some? ==> exists m :: Fits(m) && data == Bytes(m) && r.value == Joined(PrintedLines(x, m))
    ensures r.None? ==> forall m: Mesh :: Fits(m) ==> data != Bytes(m)
  {
    hide Comments, TripleLines, PairLines, FaceLines;
    var m := Decode(data);
    if m.None? {
      return None;
    }
    var out := WriteTriples(x, "v", m.value.positions, Comments());
    out := WritePairs(x, "vt", m.value.uvs, out);
    out := WriteTriples(x, "vn", m.value.normals, out);
    out := WriteFaces(m.value.corners, out);
    assert out == PrintedLines(x, m.value);
    return Some(Joined(out));
  }

  /** Decoding a file and baking it back: the same bytes exactly for a well-formed file. */
  method RoundTrip(x: Codec, data: seq<Byte>) returns (r: Option<seq<Byte>>)
    requires IsFloatCodec(x)
    ensures r == Some(data) <==> exists m :: Fits(m) && WellFormed(m) && data == Bytes(m)
  {
    hide Bytes, Fits, WellFormed, ParseText, PrintedLines;
    var text := BinToObj(x, data);
    if text.None? {
      return None;
    }
    ghost var m :| Fits(m) && data == Bytes(m) && text.value == Joined(PrintedLines(x, m));
    ByteIdenticalExactlyWhenWellFormed(x, m);
    forall n: Mesh | Fits(n) && data == Bytes(n) ensures n == m {
      BytesInjective(m, n);
    }
    r := ObjToBin(x, text.value);
  }
}
