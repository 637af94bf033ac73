/** What the lines of a Wavefront text add to the mesh, corner by corner and word by word. */
module MeshFaces {
  import opened Basics
  import opened MeshBinary
  import opened MeshText
  import opened MeshObj

  // ---------- faces ----------

  lemma {:induction false} FanUpToAt(face: seq<Corner>, k: nat, j: nat)
    requires j + 2 <= k < |face|
    ensures var t := FanUpTo(face, k);
      && |t| == 3 * (k - 1) && t[3 * j] == face[0] && t[3 * j + 1] == face[j + 1] && t[3 * j + 2] == face[j + 2]
    decreases k
  {
    if j + 2 < k {
      FanUpToAt(face, k - 1, j);
    }
  }

  /** Triangle j of a face has its corners 0, j + 1 and j + 2, and a face with k corners has k - 2 triangles. */
  lemma FanAt(face: seq<Corner>)
    ensures |Fan(face)| == if |face| < 3 then 0 else 3 * (|face| - 2)
    ensures forall j: nat :: j + 2 < |face| ==>
      && Fan(face)[3 * j] == face[0] && Fan(face)[3 * j + 1] == face[j + 1] && Fan(face)[3 * j + 2] == face[j + 2]
  {
    forall j: nat | j + 2 < |face|
      ensures |Fan(face)| == 3 * (|face| - 2)
      ensures Fan(face)[3 * j] == face[0] && Fan(face)[3 * j + 1] == face[j + 1]
      ensures Fan(face)[3 * j + 2] == face[j + 2]
    {
      FanUpToAt(face, |face| - 1, j);
    }
  }

  /** A face is read exactly when each of its corners is, one corner for one word. */
  lemma {:induction false} FaceIsItsCorners(parts: seq<string>)
    ensures ParseFace(parts).Some? <==> forall i :: 0 <= i < |parts| ==> ParseCorner(parts[i]).Some?
    ensures ParseFace(parts).Some? ==>
      forall i :: 0 <= i < |parts| ==> ParseCorner(parts[i]) == Some(ParseFace(parts).value[i])
  {
    hide ParseCorner;
    if parts != [] {
      var front := parts[..|parts| - 1];
      FaceIsItsCorners(front);
      assert forall i :: 0 <= i < |front| ==> front[i] == parts[i];
    }
  }

  /** The triangles that a line with k corners adds after the corners read so far. */
  ghost predicate AddsFan(m: Mesh, n: Mesh, words: seq<string>) {
    && n == m.(corners := n.corners)
    && |n.corners| == |m.corners| + (if |words| < 3 then 0 else 3 * (|words| - 2))
    && m.corners <= n.corners
    && forall j: nat :: j + 2 < |words| ==>
      && ParseCorner(words[0]) == Some(n.corners[|m.corners| + 3 * j])
      && ParseCorner(words[j + 1]) == Some(n.corners[|m.corners| + 3 * j + 1])
      && ParseCorner(words[j + 2]) == Some(n.corners[|m.corners| + 3 * j + 2])
  }

  /** A face line is accepted exactly when each corner is, and adds the fan of its corners. */
  lemma FaceLineAddsFan(x: Codec, m: Mesh, line: string)
    requires Words(line) != [] && Words(line)[0] == "f"
    ensures var words := Words(line)[1..];
      && (ParseLine(x, m, line).Some? <==> forall i :: 0 <= i < |words| ==> ParseCorner(words[i]).Some?)
      && (ParseLine(x, m, line).Some? ==> AddsFan(m, ParseLine(x, m, line).value, words))
  {
    hide Words, ParseCorner, ParseFace, Fan;
    var words := Words(line)[1..];
    FaceIsItsCorners(words);
    if ParseFace(words).Some? {
      FanAt(ParseFace(words).value);
    }
  }

  /** A quad gives two triangles that share its first and third corner. */
  lemma QuadIsTwoTriangles(a: Corner, b: Corner, c: Corner, d: Corner)
    ensures Fan([a, b, c, d]) == [a, b, c, a, c, d]
  {
    FanAt([a, b, c, d]);
    var t := Fan([a, b, c, d]);
    assert t[3 * 0] == a && t[3 * 0 + 1] == b && t[3 * 0 + 2] == c;
    assert t[3 * 1] == a && t[3 * 1 + 1] == c && t[3 * 1 + 2] == d;
    hide Fan;
  }

  // ---------- corners ----------

  lemma NoSlash(s: string)
    requires '/' !in s
    ensures Fields(s, '/') == [s]
  {
    FieldsAppend([], s, '/');
    assert [] + s == s;
  }

  lemma AfterSlash(s: string, t: string)
    requires '/' !in t
    ensures Fields(s + "/" + t, '/') == Fields(s, '/') + [t]
  {
    hide Fields;
    SlashEnds(s);
    FieldsAppend(s + "/", t, '/');
    assert (Fields(s, '/') + [[]])[..|Fields(s, '/')|] == Fields(s, '/');
    assert [] + t == t;
  }

  lemma SlashEnds(s: string)
    ensures Fields(s + "/", '/') == Fields(s, '/') + [[]]
  {
    assert (s + "/")[..|s|] == s;
  }

  /** An empty field stands for no index, any other for one less than its number. */
  predicate StandsFor(field: string, index: int) {
    if field == [] then index == -1 else ParseInt(field) == Some(index + 1)
  }

  lemma FieldIndex(field: string, index: int)
    ensures ParseIndex(field) == Some(index) <==> StandsFor(field, index)
  {
    hide ParseInt;
  }

  /** Of its three fields a corner may have any empty, and the last ones missing with their slashes. */
  lemma CornerIsItsFields(a: string, b: string, c: string, r: Corner)
    requires '/' !in a && '/' !in b && '/' !in c
    ensures ParseCorner(a) == Some(r) <==> StandsFor(a, r.pos) && r.uv == -1 && r.norm == -1
    ensures ParseCorner(a + "/" + b) == Some(r) <==> StandsFor(a, r.pos) && StandsFor(b, r.uv) && r.norm == -1
    ensures ParseCorner(a + "/" + b + "/" + c) == Some(r) <==>
      StandsFor(a, r.pos) && StandsFor(b, r.uv) && StandsFor(c, r.norm)
  {
    NoSlash(a);
    AfterSlash(a, b);
    AfterSlash(a + "/" + b, c);
    FieldIndex(a, r.pos);
    FieldIndex(b, r.uv);
    FieldIndex(c, r.norm);
    FieldIndex([], r.uv);
    FieldIndex([], r.norm);
    hide ParseIndex, Fields, ParseInt;
  }

  /** Fields after the third are ignored. */
  lemma FurtherFields(s: string, t: string)
    requires '/' !in t && |Fields(s, '/')| >= 3
    ensures ParseCorner(s + "/" + t) == ParseCorner(s)
  {
    hide Fields, ParseIndex;
    AfterSlash(s, t);
  }

  // ---------- the other lines ----------

  /** Words after those a line needs are ignored. */
  lemma FurtherWords(x: Codec, m: Mesh, parts: seq<string>, more: seq<string>)
    requires (|parts| == 4 && (parts[0] == "v" || parts[0] == "vn")) || (|parts| == 3 && parts[0] == "vt")
    ensures ParseParts(x, m, parts + more) == ParseParts(x, m, parts)
  {
    hide ParseFloats;
    assert |parts| == 4 ==> (parts + more)[1..4] == parts[1..4];
    assert |parts| == 3 ==> (parts + more)[1..3] == parts[1..3];
  }

  /** A line with too few words raises, and so does one with a word that is no number. */
  lemma ShortOrBadWords(x: Codec, m: Mesh, parts: seq<string>)
    requires parts != [] && (parts[0] == "v" || parts[0] == "vn" || parts[0] == "vt")
    ensures var need := if parts[0] == "vt" then 2 else 3;
      ParseParts(x, m, parts).Some? <==> |parts| > need && forall i :: 1 <= i <= need ==> x.parse(parts[i]).Some?
  {
    var need := if parts[0] == "vt" then 2 else 3;
    if |parts| > need {
      FloatsAreParsed(x, parts[1..need + 1]);
      assert forall i :: 1 <= i <= need ==> parts[1..need + 1][i - 1] == parts[i];
    }
    hide ParseFloats;
  }

  lemma {:induction false} FloatsAreParsed(x: Codec, parts: seq<string>)
    ensures ParseFloats(x, parts).Some? <==> forall i :: 0 <= i < |parts| ==> x.parse(parts[i]).Some?
    ensures ParseFloats(x, parts).Some? ==> |ParseFloats(x, parts).value| == |parts|
    ensures ParseFloats(x, parts).Some? ==>
      forall i :: 0 <= i < |parts| ==> x.parse(parts[i]) == Some(ParseFloats(x, parts).value[i])
  {
    if parts != [] {
      var front := parts[..|parts| - 1];
      FloatsAreParsed(x, front);
      assert forall i :: 0 <= i < |front| ==> front[i] == parts[i];
    }
  }

  /** The numbers of a line go to the end of its own list, in order, and nothing else changes. */
  lemma NumbersAreAppended(x: Codec, m: Mesh, parts: seq<string>)
    requires parts != [] && (parts[0] == "v" || parts[0] == "vn" || parts[0] == "vt")
    requires ParseParts(x, m, parts).Some?
    ensures var n, need := ParseParts(x, m, parts).value, if parts[0] == "vt" then 2 else 3;
      var cells := if parts[0] == "v" then n.positions else if parts[0] == "vt" then n.uvs else n.normals;
      var before := if parts[0] == "v" then m.positions else if parts[0] == "vt" then m.uvs else m.normals;
      && n == (if parts[0] == "v" then m.(positions := cells)
               else if parts[0] == "vt" then m.(uvs := cells) else m.(normals := cells))
      && |cells| == |before| + need && before <= cells && |parts| > need
      && forall i :: 1 <= i <= need ==> x.parse(parts[i]) == Some(cells[|before| + i - 1])
  {
    var need := if parts[0] == "vt" then 2 else 3;
    FloatsAreParsed(x, parts[1..need + 1]);
    assert forall i :: 1 <= i <= need ==> parts[1..need + 1][i - 1] == parts[i];
    hide ParseFloats;
  }

  /** Any other line adds nothing. */
  lemma OtherLinesAddNothing(x: Codec, m: Mesh, parts: seq<string>)
    requires parts == [] || parts[0] !in ["v", "vt", "vn", "f"]
    ensures ParseParts(x, m, parts) == Some(m)
  {
    assert "v" in ["v", "vt", "vn", "f"] && "vt" in ["v", "vt", "vn", "f"];
    assert "vn" in ["v", "vt", "vn", "f"] && "f" in ["v", "vt", "vn", "f"];
  }

  // ---------- words and numbers ----------

  /** The blanks among the ASCII characters: tab to carriage return, the four separators, and the space. */
  lemma BlanksAre(c: char)
    ensures IsBlank(c) <==> c as int in {9, 10, 11, 12, 13, 28, 29, 30, 31, 32}
  {
  }

  lemma {:induction false} UnderscoreBetween(a: string, d: char, n: nat)
    requires ParseNat(a) == Some(n) && IsDigit(d)
    ensures ParseNat(a + [d]) == ParseNat(a + "_" + [d]) == Some(10 * n + Value(d))
  {
    var plain, spaced := a + [d], a + "_" + [d];
    assert a != [] && a[|a| - 1] != '_';
    assert plain[..|plain| - 1] == a && plain[|plain| - 1] == d;
    assert spaced[..|spaced| - 1] == a + "_" && spaced[|spaced| - 1] == d;
    assert (a + "_")[..|a|] == a && (a + "_")[|a|] == '_';
  }

  /** An integer may have a sign, and single underscores between its digits. */
  lemma SignsAndUnderscores(a: string, n: nat)
    requires ParseNat(a) == Some(n)
    ensures var i: int := n; ParseInt(a) == ParseInt("+" + a) == Some(i) && ParseInt("-" + a) == Some(-i)
    ensures ParseNat(a + "_").None? && ParseNat("_" + a).None?
  {
    assert ("+" + a)[1..] == a && ("-" + a)[1..] == a;
    FirstIsDigit(a);
    assert (a + "_")[|a|] == '_' && a != [];
    UnderscoreFirst(a);
  }

  lemma {:induction false} FirstIsDigit(a: string)
    requires ParseNat(a).Some?
    ensures a != [] && IsDigit(a[0])
    decreases |a|
  {
    var front := a[..|a| - 1];
    if front != [] {
      FirstIsDigit(if front[|front| - 1] == '_' then front[..|front| - 1] else front);
    }
  }

  lemma UnderscoreFirst(a: string)
    ensures ParseNat("_" + a).None?
  {
    if ParseNat("_" + a).Some? {
      FirstIsDigit("_" + a);
    }
  }

  // ---------- NaN ----------

  /** Text changes a float exactly when it is a NaN other than the quiet one; all others keep every bit. */
  lemma TextChangesOnlyNan(c: Cell)
    ensures var exponent, fraction := c / 0x80_0000 % 0x100, c % 0x80_0000;
      Canon(c) == if exponent == 0xff && fraction != 0 then 0x7fc0_0000 else c
  {
    var top := c / 0x80_0000;
    assert c == 0x80_0000 * top + c % 0x80_0000;
    assert top == 0x100 * (top / 0x100) + top % 0x100;
    assert c == 0x8000_0000 * (top / 0x100) + (0x80_0000 * (top % 0x100) + c % 0x80_0000);
    LowBits(top / 0x100, 0x80_0000 * (top % 0x100) + c % 0x80_0000);
  }

  lemma LowBits(high: int, low: int)
    requires 0 <= low < 0x8000_0000
    ensures (0x8000_0000 * high + low) % 0x8000_0000 == low
  {
  }
}
