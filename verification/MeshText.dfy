/** The pieces of text both converters share: decimal integers, blanks, slashes and lines. */
module MeshText {
  import opened Basics
  import opened MeshBinary

  // ---------- decimal integers: `%d` and `int()` ----------

  function Digit(d: int): char
    requires 0 <= d < 10
  {
    '0' + d as char
  }

  predicate IsDigit(c: char) { '0' <= c <= '9' }

  function Value(c: char): int
    requires IsDigit(c)
  {
    c as int - '0' as int
  }

  function PrintNat(n: nat): (s: string)
    ensures s != [] && forall c :: c in s ==> IsDigit(c)
  {
    if n < 10 then [Digit(n)] else PrintNat(n / 10) + [Digit(n % 10)]
  }

  function PrintInt(i: int): string {
    if i < 0 then "-" + PrintNat(-i) else PrintNat(i)
  }

  /** Digits, with single underscores allowed between them. */
  function ParseNat(s: string): Option<nat>
    decreases |s|
  {
    if s == [] || !IsDigit(s[|s| - 1]) then None
    else
      var front, d := s[..|s| - 1], Value(s[|s| - 1]);
      if front == [] then Some(d)
      else
        match ParseNat(if front[|front| - 1] == '_' then front[..|front| - 1] else front)
        case None => None
        case Some(n) => Some(10 * n + d)
  }

  function ParseInt(s: string): Option<int> {
    if s == [] then None
    else if s[0] == '-' then
      match ParseNat(s[1..])
      case None => None
      case Some(n) => var i: int := n; Some(-i)
    else ParseNat(if s[0] == '+' then s[1..] else s)
  }

  lemma {:induction false} ParsePrintNat(n: nat)
    ensures ParseNat(PrintNat(n)) == Some(n)
  {
    if n >= 10 {
      ParsePrintNat(n / 10);
      var s := PrintNat(n);
      assert s[..|s| - 1] == PrintNat(n / 10);
      assert IsDigit(PrintNat(n / 10)[|PrintNat(n / 10)| - 1]);
    }
  }

  lemma ParsePrintInt(i: int)
    ensures ParseInt(PrintInt(i)) == Some(i)
  {
    hide ParseNat, PrintNat;
    if i < 0 {
      ParsePrintNat(-i);
      assert PrintInt(i)[1..] == PrintNat(-i);
    } else {
      ParsePrintNat(i);
      assert IsDigit(PrintNat(i)[0]);
    }
  }

  // ---------- splitting ----------

  predicate IsBlank(c: char) { c == ' ' || '\t' <= c <= '\r' || '\U{1c}' <= c <= '\U{1f}' }

  ghost predicate IsToken(s: string) { s != [] && forall c :: c in s ==> !IsBlank(c) }

  /** The last string of a list made longer. */
  function Extend(list: seq<string>, t: string): (r: seq<string>)
    requires list != []
    ensures |r| == |list|
  {
    list[..|list| - 1] + [list[|list| - 1] + t]
  }

  lemma ExtendTwice(list: seq<string>, s: string, t: string)
    requires list != []
    ensures Extend(list, []) == list
    ensures Extend(Extend(list, s), t) == Extend(list, s + t)
  {
    assert list[|list| - 1] + [] == list[|list| - 1];
    assert list[|list| - 1] + s + t == list[|list| - 1] + (s + t);
  }

  /** One more character: a blank adds nothing, any other begins a word or goes on with the last one. */
  function WithChar(words: seq<string>, begins: bool, c: char): seq<string> {
    if IsBlank(c) then words
    else if begins || words == [] then words + [[c]]
    else Extend(words, [c])
  }

  predicate EndsBlank(s: string) { s == [] || IsBlank(s[|s| - 1]) }

  /** `s.split()`: the maximal runs without blanks, read from the end. */
  function Words(s: string): seq<string>
    decreases |s|
  {
    if s == [] then [] else WithChar(Words(s[..|s| - 1]), EndsBlank(s[..|s| - 1]), s[|s| - 1])
  }

  /** `s.split(sep)`: every separator ends a field, also an empty one. */
  function Fields(s: string, sep: char): (f: seq<string>)
    ensures f != []
    decreases |s|
  {
    if s == [] then [[]]
    else
      var f, c := Fields(s[..|s| - 1], sep), s[|s| - 1];
      if c == sep then f + [[]] else Extend(f, [c])
  }

  lemma WordsNext(s: string, c: char)
    ensures Words(s + [c]) == WithChar(Words(s), EndsBlank(s), c)
  {
    hide WithChar, EndsBlank;
    assert (s + [c])[..|s|] == s;
  }

  lemma {:induction false} WordsAppend(s: string, t: string)
    requires IsToken(t) && EndsBlank(s)
    ensures Words(s + t) == Words(s) + [t]
    decreases |t|
  {
    hide Words;
    var front, c := t[..|t| - 1], t[|t| - 1];
    assert t == front + [c] && !IsBlank(c);
    assert s + t == s + front + [c];
    WordsNext(s + front, c);
    if front == [] {
      assert s + front == s && t == [c];
    } else {
      WordsAppend(s, front);
      assert (s + front)[|s + front| - 1] == front[|front| - 1] && front[|front| - 1] in t;
      assert (Words(s) + [front])[..|Words(s)|] == Words(s);
    }
  }

  lemma WordsBlank(s: string)
    ensures Words(s + " ") == Words(s)
  {
    assert (s + " ")[..|s|] == s;
  }

  lemma {:induction false} FieldsAppend(s: string, t: string, sep: char)
    requires sep !in t
    ensures Fields(s + t, sep) == Extend(Fields(s, sep), t)
    decreases |t|
  {
    if t == [] {
      assert s + t == s;
      ExtendTwice(Fields(s, sep), [], []);
    } else {
      var front, c := t[..|t| - 1], t[|t| - 1];
      assert (s + t)[..|s + t| - 1] == s + front && (s + t)[|s + t| - 1] == c;
      FieldsAppend(s, front, sep);
      ExtendTwice(Fields(s, sep), front, [c]);
      assert t == front + [c];
    }
  }

  lemma FieldsNext(s: string, t: string, sep: char)
    requires sep !in t
    ensures Fields(s + [sep] + t, sep) == Fields(s, sep) + [t]
  {
    var u := s + [sep];
    assert u[..|s|] == s && u[|s|] == sep;
    FieldsAppend(u, t, sep);
    assert [] + t == t;
  }

  lemma ThreeFields(a: string, b: string, c: string)
    requires '/' !in a && '/' !in b && '/' !in c
    ensures Fields(a + "/" + b + "/" + c, '/') == [a, b, c]
  {
    FieldsAppend([], a, '/');
    assert [] + a == a;
    FieldsNext(a, b, '/');
    FieldsNext(a + "/" + b, c, '/');
  }

  // ---------- lines ----------

  predicate EndsLine(c: char) { c == '\n' || c == '\r' }

  /** The lines of a text file, whichever way they are ended; a pair of end characters gives an
      empty line between, which no line of this format minds. */
  function Lines(text: string): (ls: seq<string>)
    ensures ls != []
    decreases |text|
  {
    if text == [] then [[]]
    else
      var ls, c := Lines(text[..|text| - 1]), text[|text| - 1];
      if EndsLine(c) then ls + [[]] else Extend(ls, [c])
  }

  function Joined(lines: seq<string>): string {
    if lines == [] then [] else Joined(lines[..|lines| - 1]) + lines[|lines| - 1] + "\n"
  }

  ghost predicate IsLine(l: string) { forall c :: c in l ==> !EndsLine(c) }

  lemma {:induction false} LinesAppend(text: string, l: string)
    requires IsLine(l)
    ensures Lines(text + l) == Extend(Lines(text), l)
    decreases |l|
  {
    if l == [] {
      assert text + l == text;
      ExtendTwice(Lines(text), [], []);
    } else {
      var front, c := l[..|l| - 1], l[|l| - 1];
      assert (text + l)[..|text + l| - 1] == text + front && (text + l)[|text + l| - 1] == c;
      LinesAppend(text, front);
      ExtendTwice(Lines(text), front, [c]);
      assert l == front + [c];
    }
  }

  /** Lines written one after the other are read back, and an empty rest after the last end. */
  lemma {:induction false} LinesJoined(lines: seq<string>)
    requires forall l :: l in lines ==> IsLine(l)
    ensures Lines(Joined(lines)) == lines + [[]]
  {
    if lines != [] {
      var front, l := lines[..|lines| - 1], lines[|lines| - 1];
      LinesJoined(front);
      LinesAppend(Joined(front), l);
      assert [] + l == l;
      assert (Joined(front) + l + "\n")[..|Joined(front) + l|] == Joined(front) + l;
      assert lines == front + [l];
    }
  }
}
