/** What single lines of a text mesh add: fans of triangles, corners with parts left out, floats, and nothing. */
module MeshLaws {
  import opened Wrappers
  import opened Words
  import opened Parsing
  import opened MeshText
  import opened MeshFormat
  import opened MeshTheorems

  // A face of n corners is cut into n - 2 triangles around its first corner.
  lemma {:induction false} FanIs(face: seq<Corner>, i: nat)
    requires i + 2 < |face|
    ensures |Fan(face)| == 3 * (|face| - 2)
    ensures Fan(face)[3 * i..3 * i + 3] == [face[0], face[i + 1], face[i + 2]]
  {
    var n := |face| - 1;
    var front := face[..n];
    if |face| == 3 {
      assert Fan(front) == [];
    } else if i + 2 < n {
      FanIs(front, i);
      assert Fan(face)[3 * i..3 * i + 3] == Fan(front)[3 * i..3 * i + 3];
    } else {
      FanIs(front, 0);
    }
  }

  lemma SmallFaceIsNothing(face: seq<Corner>)
    requires |face| < 3
    ensures Fan(face) == []
  {
  }

  // The corners that the vertices of a face line stand for
  ghost predicate AreCorners(vertices: seq<string>, face: seq<Corner>) {
    |vertices| == |face| && forall k :: 0 <= k < |face| ==> ParseCorner(vertices[k]) == Some(face[k])
  }

  lemma {:induction false} FaceIs(vertices: seq<string>, face: seq<Corner>)
    requires AreCorners(vertices, face)
    ensures ParseFace(vertices) == Some(face)
  {
    hide ParseCorner;
    if face != [] {
      var n := |face| - 1;
      FaceIs(vertices[..n], face[..n]);
      assert face == face[..n] + [face[n]];
    }
  }

  lemma {:induction false} BadVertexFails(vertices: seq<string>, k: nat)
    requires k < |vertices| && ParseCorner(vertices[k]).None?
    ensures ParseFace(vertices).None?
  {
    hide ParseCorner;
    if k < |vertices| - 1 {
      BadVertexFails(vertices[..|vertices| - 1], k);
    }
  }

  // A face line of n vertices adds the triangles of its fan behind the corners so far, and changes nothing else.
  lemma FaceLineAdds(m: Mesh, vertices: seq<string>, face: seq<Corner>, g: Floats, i: nat)
    requires AreCorners(vertices, face) && i + 2 < |face|
    ensures var t := ReadParts(m, ["f"] + vertices, g);
            && t.Some? && t.value == m.(corners := t.value.corners)
            && |t.value.corners| == |m.corners| + 3 * (|face| - 2) && t.value.corners[..|m.corners|] == m.corners
            && t.value.corners[|m.corners| + 3 * i..|m.corners| + 3 * i + 3] == [face[0], face[i + 1], face[i + 2]]
  {
    hide ParseFace, Fan, AreCorners;
    var parts := ["f"] + vertices;
    assert parts[1..] == vertices;
    assert !("#" <= parts[0]) by { assert parts[0][0] == 'f'; }
    FaceIs(vertices, face);
    FanIs(face, i);
    var (n, fan) := (|m.corners|, Fan(face));
    assert (m.corners + fan)[n + 3 * i..n + 3 * i + 3] == fan[3 * i..3 * i + 3];
  }

  // Fewer than three corners add nothing; a vertex that cannot be read makes the line fail.
  lemma SmallFaceLine(m: Mesh, vertices: seq<string>, face: seq<Corner>, g: Floats)
    requires AreCorners(vertices, face) && |face| < 3
    ensures ReadParts(m, ["f"] + vertices, g) == Some(m)
  {
    hide ParseFace, AreCorners;
    var parts := ["f"] + vertices;
    assert parts[1..] == vertices;
    assert !("#" <= parts[0]) by { assert parts[0][0] == 'f'; }
    FaceIs(vertices, face);
    assert m.corners + [] == m.corners;
  }

  lemma BadFaceLine(m: Mesh, vertices: seq<string>, k: nat, g: Floats)
    requires k < |vertices| && ParseCorner(vertices[k]).None?
    ensures ReadParts(m, ["f"] + vertices, g) == None
  {
    hide ParseFace, ParseCorner;
    var parts := ["f"] + vertices;
    assert parts[1..] == vertices;
    assert !("#" <= parts[0]) by { assert parts[0][0] == 'f'; }
    BadVertexFails(vertices, k);
  }

  // Indices count from one in the text; one that is left out is -1.
  lemma CornerForms(p: int, u: int, n: int)
    ensures var (a, b, c) := (PrintInt(p + 1), PrintInt(u + 1), PrintInt(n + 1));
            && ParseCorner(a) == Some(Corner(p, -1, -1))
            && ParseCorner(a + "/" + b) == Some(Corner(p, u, -1))
            && ParseCorner(a + "//" + c) == Some(Corner(p, -1, n))
            && ParseCorner(a + "/" + b + "/" + c) == Some(Corner(p, u, n))
            && ParseCorner(a + "/" + b + "/" + c + "/" + a) == Some(Corner(p, u, n))
  {
    hide ParseInt, PrintInt, SplitAt;
    var (a, b, c) := (PrintInt(p + 1), PrintInt(u + 1), PrintInt(n + 1));
    ParsePrinted(p + 1);
    ParsePrinted(u + 1);
    ParsePrinted(n + 1);
    SplitAtWhole(a, '/');
    SplitAtWhole(b, '/');
    SplitAtWhole(c, '/');
    SplitAtWhole("", '/');
    SplitAtFirst(a, '/', b);
    SplitAtFirst("", '/', c);
    SplitAtFirst(a, '/', "/" + c);
    SplitAtFirst(b, '/', c);
    SplitAtFirst(a, '/', b + "/" + c);
    SplitAtFirst(c, '/', a);
    SplitAtFirst(b, '/', c + "/" + a);
    SplitAtFirst(a, '/', b + "/" + c + "/" + a);
    assert "" + ['/'] + c == "/" + c;
    assert a + ['/'] + ("/" + c) == a + "//" + c;
    assert a + ['/'] + (b + "/" + c) == a + "/" + b + "/" + c;
    assert a + ['/'] + (b + "/" + c + "/" + a) == a + "/" + b + "/" + c + "/" + a;
    assert b + ['/'] + (c + "/" + a) == b + "/" + c + "/" + a;
  }

  // The floats of a line: as many as the tag asks for, whatever follows them; with fewer the line fails.
  lemma FloatsLineAdds(m: Mesh, fields: seq<string>, words: seq<Word>, g: Floats, count: nat)
    requires count <= |fields| && |words| == count && forall k :: 0 <= k < count ==> g.read(fields[k]) == Some(words[k])
    ensures count == 3 ==> ReadParts(m, ["v"] + fields, g) == Some(m.(positions := m.positions + words))
    ensures count == 2 ==> ReadParts(m, ["vt"] + fields, g) == Some(m.(uvs := m.uvs + words))
    ensures count == 3 ==> ReadParts(m, ["vn"] + fields, g) == Some(m.(normals := m.normals + words))
  {
    hide ParseFloats;
    forall tag: string
      ensures LineFloats([tag] + fields, count, g) == Some(words)
    {
      assert ([tag] + fields)[1..1 + count] == fields[..count];
      ParseWritten(fields[..count], words, g);
    }
    AreNoComments();
  }

  lemma AreNoComments()
    ensures !("#" <= "v") && !("#" <= "vt") && !("#" <= "vn") && "v" != "vt" && "v" != "vn" && "vt" != "vn"
  {
    assert "v"[0] == "vt"[0] == "vn"[0] == 'v' && "vt"[1] == 't' && "vn"[1] == 'n';
  }

  lemma ShortLineFails(m: Mesh, fields: seq<string>, g: Floats)
    ensures |fields| < 3 ==> ReadParts(m, ["v"] + fields, g) == None && ReadParts(m, ["vn"] + fields, g) == None
    ensures |fields| < 2 ==> ReadParts(m, ["vt"] + fields, g) == None
  {
    AreNoComments();
  }

  lemma {:induction false} BadFloatFails(fields: seq<string>, k: nat, g: Floats)
    requires k < |fields| && g.read(fields[k]).None?
    ensures ParseFloats(fields, g).None?
  {
    if k < |fields| - 1 {
      BadFloatFails(fields[..|fields| - 1], k, g);
    }
  }

  lemma BadFloatLine(m: Mesh, fields: seq<string>, k: nat, g: Floats)
    requires k < |fields| && g.read(fields[k]).None?
    ensures k < 3 ==> ReadParts(m, ["v"] + fields, g) == None && ReadParts(m, ["vn"] + fields, g) == None
    ensures k < 2 ==> ReadParts(m, ["vt"] + fields, g) == None
  {
    hide ParseFloats;
    AreNoComments();
    forall tag: string, count: nat | k < count <= |fields|
      ensures LineFloats([tag] + fields, count, g) == None
    {
      assert ([tag] + fields)[1..1 + count] == fields[..count];
      BadFloatFails(fields[..count], k, g);
    }
  }

  // Empty lines, comments, and lines with any other tag add nothing.
  lemma OtherLinesAddNothing(m: Mesh, parts: seq<string>, g: Floats)
    requires parts == [] || (parts[0] != "" && parts[0][0] == '#') || parts[0] !in {"v", "vt", "vn", "f"}
    ensures ReadParts(m, parts, g) == Some(m)
  {
    if parts != [] && parts[0] != "" && parts[0][0] == '#' {
      assert parts[0] == "#" + parts[0][1..];
    }
  }

  // A line ends at a line feed, a carriage return, or both of them together; the last one may have no end.
  lemma {:induction false} UniversalBehind(a: string, rest: string)
    requires '\r' !in a
    ensures Universal(a + rest) == a + Universal(rest)
  {
    if a == "" {
      assert a + rest == rest;
    } else {
      UniversalBehind(a[1..], rest);
      assert (a + rest)[1..] == a[1..] + rest;
      assert [a[0]] + (a[1..] + Universal(rest)) == a + Universal(rest);
    }
  }

  lemma EndIsLineFeed(ending: string, rest: string)
    requires ending == "\n" || ending == "\r\n" || (ending == "\r" && (rest == "" || rest[0] != '\n'))
    ensures Universal(ending + rest) == "\n" + Universal(rest)
  {
    assert (ending + rest)[|ending|..] == rest;
    assert ending == "\r" && rest != "" ==> (ending + rest)[1] == rest[0];
  }

  lemma LineOfAnyEnding(line: string, ending: string, rest: string)
    requires IsLine(line)
    requires ending == "\n" || ending == "\r\n" || (ending == "\r" && (rest == "" || rest[0] != '\n'))
    ensures Lines(line + ending + rest) == [line] + Lines(rest)
  {
    hide SplitAt, Universal;
    EndIsLineFeed(ending, rest);
    UniversalBehind(line, ending + rest);
    assert line + ending + rest == line + (ending + rest);
    var u := Universal(rest);
    assert Universal(line + ending + rest) == line + ['\n'] + u;
    SplitAtFirst(line, '\n', u);
    var parts := SplitAt(u, '\n');
    assert ([line] + parts)[..|parts|] == [line] + parts[..|parts| - 1];
  }

  lemma LastLineNeedsNoEnd(line: string)
    requires IsLine(line)
    ensures Lines(line) == if line == "" then [] else [line]
  {
    UniversalKeeps(line);
    SplitAtWhole(line, '\n');
  }

  // Fields are what is between stretches of whitespace, before and behind them too.
  lemma SpaceBefore(c: char, rest: string)
    requires IsSpace(c)
    ensures Split([c] + rest) == Split(rest)
  {
    assert ([c] + rest)[1..] == rest;
  }

  lemma FieldBeforeSpace(field: string, c: char, rest: string)
    requires IsField(field) && IsSpace(c)
    ensures Split(field + [c] + rest) == [field] + Split(rest)
  {
    hide Split;
    FirstField(field, [c] + rest);
    SpaceBefore(c, rest);
    assert field + [c] + rest == field + ([c] + rest);
  }

  // Integers may have a sign, and single underscores between their digits.
  lemma SignedIntegers(n: int)
    requires n >= 0
    ensures ParseInt(Decimal(n)) == ParseInt("+" + Decimal(n)) == Some(n)
    ensures ParseInt("-" + Decimal(n)) == Some(-n)
  {
    hide Number, Decimal;
    NumberOfDecimal(n);
    var s := Decimal(n);
    assert s[0] in s && ("+" + s)[1..] == s && ("-" + s)[1..] == s;
  }

  lemma {:induction false} UnderscoreBetween(a: string, b: string)
    requires AreDigits(a) && AreDigits(b)
    ensures Number(a + "_" + b) == Number(a + b)
    decreases |b|
  {
    var (front, last) := (b[..|b| - 1], b[|b| - 1]);
    assert last in b && a[|a| - 1] in a;
    assert a + b == a + front + [last] && a + "_" + b == a + "_" + front + [last];
    if front == "" {
      assert a + "_" + front == a + "_" && a + front == a;
      LastDigit(a, last);
      LastDigitBehindUnderscore(a, last);
    } else {
      assert forall c :: c in front ==> c in b;
      assert front[|front| - 1] in front;
      UnderscoreBetween(a, front);
      LastDigit(a + "_" + front, last);
      LastDigit(a + front, last);
    }
  }

  lemma LastDigit(s: string, c: char)
    requires s != "" && s[|s| - 1] != '_' && DigitValue(c).Some?
    ensures Number(s + [c]) == if Number(s).None? then None else Some(10 * Number(s).value + DigitValue(c).value)
  {
    hide DigitValue;
    var t := s + [c];
    assert |t| > 1 && t[|t| - 1] == c && t[|t| - 2] == s[|s| - 1];
    assert t[..|t| - 1] == s;
  }

  lemma LastDigitBehindUnderscore(s: string, c: char)
    requires s != "" && DigitValue(c).Some?
    ensures Number(s + "_" + [c]) == if Number(s).None? then None else Some(10 * Number(s).value + DigitValue(c).value)
  {
    var t := s + "_" + [c];
    assert t[|t| - 2] == '_' && t[..|t| - 2] == s;
  }
}
