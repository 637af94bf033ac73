/** Binary to text and back, and text to binary and back. */
module MeshTrip {
  import opened Basics
  import opened MeshBinary
  import opened MeshText
  import opened MeshObj

  function CanonAll(cells: seq<Cell>): (r: seq<Cell>)
    ensures |r| == |cells|
  {
    seq(|cells|, i requires 0 <= i < |cells| => Canon(cells[i]))
  }

  function Whole<T>(s: seq<T>, group: nat): (r: seq<T>)
    requires group > 0
    ensures |r| == |s| / group * group
  {
    Groups(|s|, group);
    s[..|s| / group * group]
  }

  lemma Groups(n: nat, group: nat)
    requires group > 0
    ensures n / group * group <= n
  {
  }

  /** What the text form keeps of a mesh: whole groups, and one NaN. */
  function Kept(m: Mesh): Mesh {
    Mesh(CanonAll(Whole(m.positions, 3)), CanonAll(Whole(m.uvs, 2)), CanonAll(Whole(m.normals, 3)), Whole(m.corners, 3))
  }

  predicate Grouped(m: Mesh) {
    |m.positions| % 3 == 0 && |m.uvs| % 2 == 0 && |m.normals| % 3 == 0 && |m.corners| % 3 == 0
  }

  ghost predicate Canonical(m: Mesh) {
    forall c: Cell :: c in m.positions || c in m.uvs || c in m.normals ==> Canon(c) == c
  }

  ghost predicate WellFormed(m: Mesh) { Grouped(m) && Canonical(m) }

  // ---------- reading the written lines ----------

  lemma OneMoreLine(x: Codec, m: Mesh, lines: seq<string>, n: Mesh, l: string)
    requires ParseLines(x, m, lines) == Some(n)
    ensures ParseLines(x, m, lines + [l]) == ParseLine(x, n, l)
  {
    assert (lines + [l])[..|lines|] == lines;
  }

  lemma {:induction false} TriplesRead(x: Codec, m: Mesh, lines: seq<string>, base: Mesh, tag: string,
    cells: seq<Cell>, n: nat)
    requires IsFloatCodec(x) && (tag == "v" || tag == "vn") && 3 * n <= |cells|
    requires ParseLines(x, m, lines) == Some(base)
    ensures ParseLines(x, m, lines + TripleLines(x, tag, cells, n))
         == Some(if tag == "v" then base.(positions := base.positions + CanonAll(cells[..3 * n]))
                 else base.(normals := base.normals + CanonAll(cells[..3 * n])))
  {
    hide ParseLine, ParseLines, TripleLine, Canon, IsFloatCodec;
    if n == 0 {
      assert lines + TripleLines(x, tag, cells, 0) == lines;
      assert base.positions + CanonAll(cells[..0]) == base.positions;
      assert base.normals + CanonAll(cells[..0]) == base.normals;
    } else {
      var before := TripleLines(x, tag, cells, n - 1);
      var a, b, c := cells[3 * n - 3], cells[3 * n - 2], cells[3 * n - 1];
      var l := TripleLine(x, tag, a, b, c);
      var soFar := CanonAll(cells[..3 * (n - 1)]);
      var mid := if tag == "v" then base.(positions := base.positions + soFar)
                 else base.(normals := base.normals + soFar);
      TriplesRead(x, m, lines, base, tag, cells, n - 1);
      OneMoreLine(x, m, lines + before, mid, l);
      TripleRead(x, mid, tag, a, b, c);
      assert lines + TripleLines(x, tag, cells, n) == lines + before + [l];
      assert CanonAll(cells[..3 * n]) == soFar + [Canon(a), Canon(b), Canon(c)];
      assert base.positions + soFar + [Canon(a), Canon(b), Canon(c)] == base.positions + CanonAll(cells[..3 * n]);
      assert base.normals + soFar + [Canon(a), Canon(b), Canon(c)] == base.normals + CanonAll(cells[..3 * n]);
    }
  }

  lemma {:induction false} PairsRead(x: Codec, m: Mesh, lines: seq<string>, base: Mesh, cells: seq<Cell>, n: nat)
    requires IsFloatCodec(x) && 2 * n <= |cells|
    requires ParseLines(x, m, lines) == Some(base)
    ensures ParseLines(x, m, lines + PairLines(x, "vt", cells, n))
         == Some(base.(uvs := base.uvs + CanonAll(cells[..2 * n])))
  {
    hide ParseLine, ParseLines, PairLine, Canon, IsFloatCodec;
    if n == 0 {
      assert lines + PairLines(x, "vt", cells, 0) == lines;
      assert base.uvs + CanonAll(cells[..0]) == base.uvs;
    } else {
      var before := PairLines(x, "vt", cells, n - 1);
      var a, b := cells[2 * n - 2], cells[2 * n - 1];
      var soFar := CanonAll(cells[..2 * (n - 1)]);
      var mid := base.(uvs := base.uvs + soFar);
      PairsRead(x, m, lines, base, cells, n - 1);
      OneMoreLine(x, m, lines + before, mid, PairLine(x, "vt", a, b));
      PairRead(x, mid, a, b);
      assert lines + PairLines(x, "vt", cells, n) == lines + before + [PairLine(x, "vt", a, b)];
      assert CanonAll(cells[..2 * n]) == soFar + [Canon(a), Canon(b)];
      assert base.uvs + soFar + [Canon(a), Canon(b)] == base.uvs + CanonAll(cells[..2 * n]);
    }
  }

  lemma {:induction false} FacesRead(x: Codec, m: Mesh, lines: seq<string>, base: Mesh, corners: seq<Corner>, n: nat)
    requires 3 * n <= |corners|
    requires ParseLines(x, m, lines) == Some(base)
    ensures ParseLines(x, m, lines + FaceLines(corners, n))
         == Some(base.(corners := base.corners + corners[..3 * n]))
  {
    hide ParseLine, ParseLines, FaceLine;
    if n == 0 {
      assert lines + FaceLines(corners, 0) == lines;
      assert base.corners + corners[..0] == base.corners;
    } else {
      var before := FaceLines(corners, n - 1);
      var a, b, c := corners[3 * n - 3], corners[3 * n - 2], corners[3 * n - 1];
      var mid := base.(corners := base.corners + corners[..3 * (n - 1)]);
      FacesRead(x, m, lines, base, corners, n - 1);
      OneMoreLine(x, m, lines + before, mid, FaceLine(a, b, c));
      TriangleRead(x, mid, a, b, c);
      assert lines + FaceLines(corners, n) == lines + before + [FaceLine(a, b, c)];
      assert base.corners + corners[..3 * (n - 1)] + [a, b, c] == base.corners + corners[..3 * n];
    }
  }

  lemma CommentsRead(x: Codec)
    ensures ParseLines(x, EMPTY, Comments()) == Some(EMPTY)
  {
    hide ParseLine;
    var a, b := Comments()[0], Comments()[1];
    assert COMMENT_1A[0] == '#' && COMMENT_2A[0] == '#';
    CommentRead(x, EMPTY, a);
    CommentRead(x, EMPTY, b);
    assert ParseLines(x, EMPTY, []) == Some(EMPTY);
    OneMoreLine(x, EMPTY, [], EMPTY, a);
    assert [] + [a] == [a] && [a] + [b] == Comments();
    OneMoreLine(x, EMPTY, [a], EMPTY, b);
  }

  lemma LinesRead(x: Codec, m: Mesh)
    requires IsFloatCodec(x)
    ensures ParseLines(x, EMPTY, PrintedLines(x, m)) == Some(Kept(m))
  {
    hide ParseLines, TripleLines, PairLines, FaceLines, IsFloatCodec, CanonAll, Comments;
    var c := Comments();
    var n1, n2, n3, n4 := |m.positions| / 3, |m.uvs| / 2, |m.normals| / 3, |m.corners| / 3;
    var v, t, n := TripleLines(x, "v", m.positions, n1), PairLines(x, "vt", m.uvs, n2), TripleLines(x, "vn", m.normals,
      n3);
    var p, u, q := CanonAll(m.positions[..3 * n1]), CanonAll(m.uvs[..2 * n2]), CanonAll(m.normals[..3 * n3]);
    CommentsRead(x);
    TriplesRead(x, EMPTY, c, EMPTY, "v", m.positions, n1);
    assert [] + p == p && [] + u == u && [] + q == q && [] + m.corners[..3 * n4] == m.corners[..3 * n4];
    PairsRead(x, EMPTY, c + v, Mesh(p, [], [], []), m.uvs, n2);
    TriplesRead(x, EMPTY, c + v + t, Mesh(p, u, [], []), "vn", m.normals, n3);
    FacesRead(x, EMPTY, c + v + t + n, Mesh(p, u, q, []), m.corners, n4);
  }

  // ---------- the lines in the file ----------

  ghost predicate AllLines(lines: seq<string>) { forall l :: l in lines ==> IsLine(l) }

  lemma TokenLine(s: string)
    requires IsToken(s)
    ensures IsLine(s)
  {
  }

  lemma JoinLine(s: string, t: string)
    requires IsLine(s) && IsToken(t)
    ensures IsLine(s + " " + t)
  {
    TokenLine(t);
  }

  lemma {:induction false} TripleLinesOk(x: Codec, tag: string, cells: seq<Cell>, n: nat)
    requires IsFloatCodec(x) && IsToken(tag) && 3 * n <= |cells|
    ensures AllLines(TripleLines(x, tag, cells, n))
  {
    if n > 0 {
      TripleLinesOk(x, tag, cells, n - 1);
      var a, b, c := x.print_(cells[3 * n - 3]), x.print_(cells[3 * n - 2]), x.print_(cells[3 * n - 1]);
      TokenLine(tag);
      JoinLine(tag, a);
      JoinLine(tag + " " + a, b);
      JoinLine(tag + " " + a + " " + b, c);
    }
  }

  lemma {:induction false} PairLinesOk(x: Codec, tag: string, cells: seq<Cell>, n: nat)
    requires IsFloatCodec(x) && IsToken(tag) && 2 * n <= |cells|
    ensures AllLines(PairLines(x, tag, cells, n))
  {
    if n > 0 {
      PairLinesOk(x, tag, cells, n - 1);
      var a, b := x.print_(cells[2 * n - 2]), x.print_(cells[2 * n - 1]);
      TokenLine(tag);
      JoinLine(tag, a);
      JoinLine(tag + " " + a, b);
    }
  }

  lemma {:induction false} FaceLinesOk(corners: seq<Corner>, n: nat)
    requires 3 * n <= |corners|
    ensures AllLines(FaceLines(corners, n))
  {
    if n > 0 {
      hide PrintCorner;
      FaceLinesOk(corners, n - 1);
      var a, b, c := corners[3 * n - 3], corners[3 * n - 2], corners[3 * n - 1];
      CornerRead(a);
      CornerRead(b);
      CornerRead(c);
      JoinLine("f", PrintCorner(a));
      JoinLine("f" + " " + PrintCorner(a), PrintCorner(b));
      JoinLine("f" + " " + PrintCorner(a) + " " + PrintCorner(b), PrintCorner(c));
    }
  }

  lemma PrintedLinesOk(x: Codec, m: Mesh)
    requires IsFloatCodec(x)
    ensures AllLines(PrintedLines(x, m))
  {
    hide IsFloatCodec, TripleLines, PairLines, FaceLines, Comments;
    TripleLinesOk(x, "v", m.positions, |m.positions| / 3);
    PairLinesOk(x, "vt", m.uvs, |m.uvs| / 2);
    TripleLinesOk(x, "vn", m.normals, |m.normals| / 3);
    FaceLinesOk(m.corners, |m.corners| / 3);
    CommentLines();
  }

  lemma CommentLines()
    ensures AllLines(Comments())
  {
    FirstComment();
    SecondComment();
    hide IsLine;
    var a, b := COMMENT_1A + COMMENT_1B + COMMENT_1C, COMMENT_2A + COMMENT_2B + COMMENT_2C;
    assert Comments() == [a, b];
  }

  lemma FirstComment()
    ensures IsLine(COMMENT_1A + COMMENT_1B + COMMENT_1C)
  {
    Piece1a();
    Piece1b();
    Piece1c();
    hide IsLine;
    LineConcat(COMMENT_1A, COMMENT_1B, COMMENT_1C);
  }

  lemma Piece1a()
    ensures IsLine(COMMENT_1A)
  {
  }

  lemma Piece1b()
    ensures IsLine(COMMENT_1B)
  {
  }

  lemma Piece1c()
    ensures IsLine(COMMENT_1C)
  {
  }

  lemma SecondComment()
    ensures IsLine(COMMENT_2A + COMMENT_2B + COMMENT_2C)
  {
    Piece2a();
    Piece2b();
    Piece2c();
    hide IsLine;
    LineConcat(COMMENT_2A, COMMENT_2B, COMMENT_2C);
  }

  lemma Piece2a()
    ensures IsLine(COMMENT_2A)
  {
  }

  lemma Piece2b()
    ensures IsLine(COMMENT_2B)
  {
  }

  lemma Piece2c()
    ensures IsLine(COMMENT_2C)
  {
  }

  lemma LineConcat(a: string, b: string, c: string)
    requires IsLine(a) && IsLine(b) && IsLine(c)
    ensures IsLine(a + b + c)
  {
  }

  /** Writing a mesh as text and reading the text gives back what text can keep of it. */
  lemma TextTrip(x: Codec, m: Mesh)
    requires IsFloatCodec(x)
    ensures ParseText(x, Joined(PrintedLines(x, m))) == Some(Kept(m))
  {
    hide IsFloatCodec, PrintedLines, ParseLine, Lines, Joined;
    PrintedLinesOk(x, m);
    LinesJoined(PrintedLines(x, m));
    LinesRead(x, m);
    OneMoreLine(x, EMPTY, PrintedLines(x, m), Kept(m), []);
    EmptyRead(x, Kept(m));
  }

  // ---------- the two programs ----------

  lemma KeptFits(m: Mesh)
    requires Fits(m)
    ensures Fits(Kept(m))
  {
    Groups(|m.positions|, 3);
    Groups(|m.uvs|, 2);
    Groups(|m.normals|, 3);
  }

  lemma WholeIsAll<T>(s: seq<T>, group: nat)
    requires group > 0
    ensures Whole(s, group) == s <==> |s| % group == 0
  {
    assert |s| == |s| / group * group + |s| % group;
  }

  lemma CanonAllSame(cells: seq<Cell>)
    ensures CanonAll(cells) == cells <==> forall c: Cell :: c in cells ==> Canon(c) == c
  {
    if CanonAll(cells) == cells {
      forall c: Cell | c in cells ensures Canon(c) == c {
        var i :| 0 <= i < |cells| && cells[i] == c;
        assert CanonAll(cells)[i] == Canon(cells[i]);
      }
    }
  }

  lemma SectionKept(cells: seq<Cell>, group: nat)
    requires group > 0
    ensures CanonAll(Whole(cells, group)) == cells
      <==> |cells| % group == 0 && forall c: Cell :: c in cells ==> Canon(c) == c
  {
    hide CanonAll, Whole;
    WholeIsAll(cells, group);
    CanonAllSame(cells);
    if |Whole(cells, group)| == |cells| {
      assert |cells| == |cells| / group * group + |cells| % group;
    }
  }

  lemma KeptSame(m: Mesh)
    ensures Kept(m) == m <==> WellFormed(m)
  {
    SectionKept(m.positions, 3);
    SectionKept(m.uvs, 2);
    SectionKept(m.normals, 3);
    WholeIsAll(m.corners, 3);
    hide Canon, CanonAll, Whole;
  }

  /** A file survives the trip to text and back byte for byte exactly when its counts are whole
      groups and none of its floats is an odd NaN. */
  lemma ByteIdenticalExactlyWhenWellFormed(x: Codec, m: Mesh)
    requires IsFloatCodec(x) && Fits(m)
    ensures var t := ParseText(x, Joined(PrintedLines(x, m)));
      && t.Some? && Fits(t.value)
      && (Bytes(t.value) == Bytes(m) <==> WellFormed(m))
  {
    hide ParseText, PrintedLines, Bytes, Fits, Kept, WellFormed;
    TextTrip(x, m);
    KeptFits(m);
    KeptSame(m);
    if Bytes(Kept(m)) == Bytes(m) {
      BytesInjective(Kept(m), m);
    }
  }

  lemma CanonAllCanonical(cells: seq<Cell>)
    ensures forall c: Cell :: c in CanonAll(cells) ==> Canon(c) == c
  {
    forall c: Cell | c in CanonAll(cells) ensures Canon(c) == c {
      var i :| 0 <= i < |cells| && CanonAll(cells)[i] == c;
    }
  }

  lemma KeptIsWellFormed(m: Mesh)
    ensures WellFormed(Kept(m))
  {
    CanonAllCanonical(Whole(m.positions, 3));
    CanonAllCanonical(Whole(m.uvs, 2));
    CanonAllCanonical(Whole(m.normals, 3));
    hide Canon, CanonAll;
  }

  /** One trip is enough: whatever file is decoded and baked again, the result survives every later trip. */
  lemma OneTripIsEnough(x: Codec, m: Mesh)
    requires IsFloatCodec(x) && Fits(m)
    ensures var t := ParseText(x, Joined(PrintedLines(x, m)));
      && t.Some? && Fits(t.value)
      && var u := ParseText(x, Joined(PrintedLines(x, t.value)));
      && u == t
  {
    hide ParseText, PrintedLines, Fits, Kept, WellFormed;
    TextTrip(x, m);
    KeptFits(m);
    KeptIsWellFormed(m);
    KeptSame(Kept(m));
    TextTrip(x, Kept(m));
  }
}
