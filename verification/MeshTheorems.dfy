/** Printing a mesh and baking it again: exactly when the bytes come back, and that a baked mesh is a fixed point. */
module MeshTheorems {
  import opened Wrappers
  import opened Words
  import opened Parsing
  import opened BigEndian
  import opened MeshText
  import opened MeshFormat

  // The binary form
  lemma WordRoundTrip(w: Word, rest: Bytes)
    ensures TakeWord(WordBytes(w) + rest) == Some(Step(w, rest))
  {
    hide Digits, Value;
    var s := WordBytes(w) + rest;
    assert s[..4] == WordBytes(w) && s[4..] == rest;
    assert Pow256(4) == 0x1_0000_0000;
    ValueOfDigits(w, 4);
  }

  lemma WordUnique(s: Bytes)
    requires TakeWord(s).Some?
    ensures s == WordBytes(TakeWord(s).value.value) + TakeWord(s).value.rest
  {
    hide Digits, Value;
    DigitsOfValue(s[..4]);
    assert s == s[..4] + s[4..];
  }

  lemma IntRoundTrip(v: Int32, rest: Bytes)
    ensures TakeInt(IntBytes(v) + rest) == Some(Step(v, rest))
  {
    hide WordBytes, TakeWord;
    WordRoundTrip(ToWord(v), rest);
  }

  lemma IntUnique(s: Bytes)
    requires TakeInt(s).Some?
    ensures s == IntBytes(TakeInt(s).value.value) + TakeInt(s).value.rest
  {
    hide WordBytes, TakeWord;
    WordUnique(s);
  }

  lemma {:induction false} WordsRoundTrip(words: seq<Word>, rest: Bytes)
    ensures TakeWords(WordsBytes(words) + rest, |words|) == Some(Step(words, rest))
  {
    hide WordBytes, TakeWord;
    if words == [] {
      assert WordsBytes(words) + rest == rest;
    } else {
      var more := WordsBytes(words[1..]) + rest;
      assert WordsBytes(words) + rest == WordBytes(words[0]) + more;
      WordRoundTrip(words[0], more);
      WordsRoundTrip(words[1..], rest);
      assert words == [words[0]] + words[1..];
    }
  }

  lemma {:induction false} WordsUnique(s: Bytes, count: nat)
    requires TakeWords(s, count).Some?
    ensures var t := TakeWords(s, count).value; s == WordsBytes(t.value) + t.rest && |t.value| == count
    decreases count
  {
    hide WordBytes, TakeWord;
    if count > 0 {
      WordUnique(s);
      var first := TakeWord(s).value;
      WordsUnique(first.rest, count - 1);
      var more := TakeWords(first.rest, count - 1).value;
      assert ([first.value] + more.value)[1..] == more.value;
      assert s == WordBytes(first.value) + WordsBytes(more.value) + more.rest;
    }
  }

  lemma FloatsRoundTrip(words: seq<Word>, rest: Bytes)
    requires |words| < 0x8000_0000
    ensures TakeFloats(FloatsBytes(words) + rest) == Some(Step(words, rest))
  {
    hide IntBytes, TakeInt, WordsBytes, TakeWords;
    assert FloatsBytes(words) + rest == IntBytes(|words|) + (WordsBytes(words) + rest);
    IntRoundTrip(|words|, WordsBytes(words) + rest);
    WordsRoundTrip(words, rest);
  }

  lemma FloatsUnique(s: Bytes)
    requires TakeFloats(s).Some?
    ensures var t := TakeFloats(s).value; |t.value| < 0x8000_0000 && s == FloatsBytes(t.value) + t.rest
  {
    hide IntBytes, TakeInt, WordsBytes, TakeWords;
    IntUnique(s);
    var count := TakeInt(s).value;
    WordsUnique(count.rest, count.value);
    var t := TakeWords(count.rest, count.value).value;
    assert s == IntBytes(count.value) + WordsBytes(t.value) + t.rest;
  }

  lemma CornerRoundTrip(c: Corner, rest: Bytes)
    requires FitsCorner(c)
    ensures TakeCorner(CornerBytes(c) + rest) == Some(Step(c, rest))
  {
    hide IntBytes, TakeInt;
    assert CornerBytes(c) + rest == IntBytes(c.position) + (IntBytes(c.uv) + (IntBytes(c.normal) + rest));
    IntRoundTrip(c.position, IntBytes(c.uv) + (IntBytes(c.normal) + rest));
    IntRoundTrip(c.uv, IntBytes(c.normal) + rest);
    IntRoundTrip(c.normal, rest);
  }

  lemma CornerUnique(s: Bytes)
    requires TakeCorner(s).Some?
    ensures var t := TakeCorner(s).value; FitsCorner(t.value) && s == CornerBytes(t.value) + t.rest
  {
    hide IntBytes, TakeInt;
    IntUnique(s);
    var position := TakeInt(s).value;
    IntUnique(position.rest);
    var uv := TakeInt(position.rest).value;
    IntUnique(uv.rest);
    var normal := TakeInt(uv.rest).value;
    assert s == IntBytes(position.value) + IntBytes(uv.value) + IntBytes(normal.value) + normal.rest;
  }

  lemma {:induction false} CornersRoundTrip(corners: seq<Corner>, rest: Bytes)
    requires FitCorners(corners)
    ensures TakeCorners(CornersBytes(corners) + rest, |corners|) == Some(Step(corners, rest))
  {
    hide CornerBytes, TakeCorner;
    if corners == [] {
      assert CornersBytes(corners) + rest == rest;
    } else {
      var more := CornersBytes(corners[1..]) + rest;
      assert CornersBytes(corners) + rest == CornerBytes(corners[0]) + more;
      CornerRoundTrip(corners[0], more);
      CornersRoundTrip(corners[1..], rest);
      assert corners == [corners[0]] + corners[1..];
    }
  }

  lemma {:induction false} CornersUnique(s: Bytes, count: nat)
    requires TakeCorners(s, count).Some?
    ensures var t := TakeCorners(s, count).value;
            FitCorners(t.value) && s == CornersBytes(t.value) + t.rest && |t.value| == count
    decreases count
  {
    hide CornerBytes, TakeCorner;
    if count > 0 {
      CornerUnique(s);
      var first := TakeCorner(s).value;
      CornersUnique(first.rest, count - 1);
      var more := TakeCorners(first.rest, count - 1).value;
      assert ([first.value] + more.value)[1..] == more.value;
      assert s == CornerBytes(first.value) + CornersBytes(more.value) + more.rest;
    }
  }

  lemma CornerListRoundTrip(corners: seq<Corner>)
    requires |corners| < 0x8000_0000 && FitCorners(corners)
    ensures TakeCornerList(CornerListBytes(corners)) == Some(Step(corners, []))
  {
    hide IntBytes, TakeInt, CornersBytes, TakeCorners;
    IntRoundTrip(|corners|, CornersBytes(corners));
    CornersRoundTrip(corners, []);
    assert CornersBytes(corners) + [] == CornersBytes(corners);
  }

  lemma CornerListUnique(s: Bytes)
    requires TakeCornerList(s).Some?
    ensures var t := TakeCornerList(s).value;
            && |t.value| < 0x8000_0000 && FitCorners(t.value)
            && (t.rest == [] ==> s == CornerListBytes(t.value))
  {
    hide IntBytes, TakeInt, CornersBytes, TakeCorners;
    IntUnique(s);
    var count := TakeInt(s).value;
    CornersUnique(count.rest, count.value);
    var t := TakeCorners(count.rest, count.value).value;
    assert t.rest == [] ==> CornersBytes(t.value) + t.rest == CornersBytes(t.value);
  }

  // The binary form is uniquely decodable, and every accepted file is the encoding of its mesh.
  lemma DecodeEncoded(m: Mesh)
    requires Fits(m)
    ensures Decode(MeshBytes(m)) == Some(m)
  {
    hide FloatsBytes, TakeFloats, CornerListBytes, TakeCornerList, FitCorners;
    FloatsRoundTrip(m.positions, FloatsBytes(m.uvs) + (FloatsBytes(m.normals) + CornerListBytes(m.corners)));
    FloatsRoundTrip(m.uvs, FloatsBytes(m.normals) + CornerListBytes(m.corners));
    FloatsRoundTrip(m.normals, CornerListBytes(m.corners));
    CornerListRoundTrip(m.corners);
  }

  lemma EncodeDecoded(data: Bytes)
    requires Decode(data).Some?
    ensures Encode(Decode(data).value) == Some(data)
  {
    hide FloatsBytes, TakeFloats, CornerListBytes, TakeCornerList, FitCorners;
    FloatsUnique(data);
    var positions := TakeFloats(data).value;
    FloatsUnique(positions.rest);
    var uvs := TakeFloats(positions.rest).value;
    FloatsUnique(uvs.rest);
    var normals := TakeFloats(uvs.rest).value;
    CornerListUnique(normals.rest);
  }

  // The text form: every line splits into the fields it was made of.
  lemma {:induction false} SpacedIsLine(fields: seq<string>)
    requires AreFields(fields)
    ensures IsLine(Spaced(fields))
  {
    hide IsSpace;
    SpaceIsSpace();
    if fields != [] {
      assert fields[0] in fields;
      SpacedIsLine(fields[1..]);
    }
  }

  lemma CornerTextIsField(c: Corner)
    ensures IsField(CornerText(c))
  {
    hide ParseInt, PrintInt;
    ParsePrinted(c.position + 1);
    ParsePrinted(c.uv + 1);
    ParsePrinted(c.normal + 1);
  }

  lemma ParseCornerText(c: Corner)
    ensures ParseCorner(CornerText(c)) == Some(c)
  {
    hide ParseInt, PrintInt, SplitAt;
    var (p, u, n) := (PrintInt(c.position + 1), PrintInt(c.uv + 1), PrintInt(c.normal + 1));
    ParsePrinted(c.position + 1);
    ParsePrinted(c.uv + 1);
    ParsePrinted(c.normal + 1);
    SplitAtFirst(p, '/', u + "/" + n);
    SplitAtFirst(u, '/', n);
    SplitAtWhole(n, '/');
    assert CornerText(c) == p + ['/'] + (u + "/" + n);
    assert u + "/" + n == u + ['/'] + n;
    assert SplitAt(CornerText(c), '/') == [p, u, n];
  }

  ghost predicate Readable(words: seq<Word>, g: Floats) {
    forall w :: w in words ==> g.Exact(w)
  }

  lemma WordsAreExact(words: seq<Word>, i: nat, n: nat, g: Floats)
    requires i + n <= |words| && Readable(words, g)
    ensures forall k :: i <= k < i + n ==> g.Exact(words[k])
  {
  }

  lemma ReadTag(m: Mesh, parts: seq<string>, g: Floats)
    requires parts != [] && parts[0] in ["v", "vt", "vn", "f"]
    ensures parts[0] == "v" ==> ReadParts(m, parts, g) == AddPositions(m, LineFloats(parts, 3, g))
    ensures parts[0] == "vt" ==> ReadParts(m, parts, g) == AddUvs(m, LineFloats(parts, 2, g))
    ensures parts[0] == "vn" ==> ReadParts(m, parts, g) == AddNormals(m, LineFloats(parts, 3, g))
    ensures parts[0] == "f" ==> ReadParts(m, parts, g) == AddFace(m, ParseFace(parts[1..]))
  {
    hide LineFloats, ParseFace, AddPositions, AddUvs, AddNormals, AddFace;
    assert "v"[0] == 'v' && "vt"[0] == 'v' && "vn"[0] == 'v' && "f"[0] == 'f' && "#"[0] == '#';
    assert |"v"| == 1 && "vt"[1] == 't' && "vn"[1] == 'n';
  }

  lemma TripleFields(tag: string, words: seq<Word>, i: nat, g: Floats)
    requires 3 * i + 3 <= |words| && Readable(words, g) && IsField(tag)
    ensures IsLine(TripleLine(tag, words, i, g))
    ensures Split(TripleLine(tag, words, i, g))
            == [tag, g.write(words[3 * i]), g.write(words[3 * i + 1]), g.write(words[3 * i + 2])]
  {
    hide IsField, Split, Spaced, IsLine, Readable;
    WordsAreExact(words, 3 * i, 3, g);
    var fields := [tag, g.write(words[3 * i]), g.write(words[3 * i + 1]), g.write(words[3 * i + 2])];
    SpacedIsLine(fields);
    SplitSpaced(fields);
  }

  lemma {:induction false} ParseWritten(fields: seq<string>, words: seq<Word>, g: Floats)
    requires |fields| == |words| && forall k :: 0 <= k < |words| ==> g.read(fields[k]) == Some(words[k])
    ensures ParseFloats(fields, g) == Some(words)
  {
    if fields != [] {
      var n := |words| - 1;
      ParseWritten(fields[..n], words[..n], g);
      assert words == words[..n] + [words[n]];
    }
  }

  lemma ReadTriple(words: seq<Word>, i: nat, g: Floats, parts: seq<string>)
    requires 3 * i + 3 <= |words| && Readable(words, g) && |parts| == 4
    requires parts[1..] == [g.write(words[3 * i]), g.write(words[3 * i + 1]), g.write(words[3 * i + 2])]
    ensures LineFloats(parts, 3, g) == Some(words[3 * i..3 * i + 3])
  {
    hide IsField, Readable, ParseFloats;
    WordsAreExact(words, 3 * i, 3, g);
    assert parts[1..4] == parts[1..];
    ParseWritten(parts[1..4], words[3 * i..3 * i + 3], g);
  }

  lemma {:induction false} ReadPositions(m: Mesh, words: seq<Word>, n: nat, g: Floats)
    requires 3 * n <= |words| && Readable(words, g)
    ensures AreLines(TripleLines("v", words, n, g))
    ensures ReadLines(m, TripleLines("v", words, n, g), g) == Some(m.(positions := m.positions + words[..3 * n]))
  {
    hide TripleLine, Split, LineFloats, Readable, IsLine, ReadParts;
    if n == 0 {
      assert m.positions + words[..0] == m.positions;
    } else {
      ReadPositions(m, words, n - 1, g);
      var (lines, before) := (TripleLines("v", words, n, g), TripleLines("v", words, n - 1, g));
      assert lines == before + [TripleLine("v", words, n - 1, g)];
      TagFields();
      TripleFields("v", words, n - 1, g);
      ReadTriple(words, n - 1, g, Split(TripleLine("v", words, n - 1, g)));
      ReadTag(ReadLines(m, before, g).value, Split(TripleLine("v", words, n - 1, g)), g);
      assert m.positions + words[..3 * n] == m.positions + words[..3 * (n - 1)] + words[3 * (n - 1)..3 * (n - 1) + 3];
    }
  }

  lemma {:induction false} ReadNormals(m: Mesh, words: seq<Word>, n: nat, g: Floats)
    requires 3 * n <= |words| && Readable(words, g)
    ensures AreLines(TripleLines("vn", words, n, g))
    ensures ReadLines(m, TripleLines("vn", words, n, g), g) == Some(m.(normals := m.normals + words[..3 * n]))
  {
    hide TripleLine, Split, LineFloats, Readable, IsLine, ReadParts;
    if n == 0 {
      assert m.normals + words[..0] == m.normals;
    } else {
      ReadNormals(m, words, n - 1, g);
      var (lines, before) := (TripleLines("vn", words, n, g), TripleLines("vn", words, n - 1, g));
      assert lines == before + [TripleLine("vn", words, n - 1, g)];
      TagFields();
      TripleFields("vn", words, n - 1, g);
      ReadTriple(words, n - 1, g, Split(TripleLine("vn", words, n - 1, g)));
      ReadTag(ReadLines(m, before, g).value, Split(TripleLine("vn", words, n - 1, g)), g);
      assert m.normals + words[..3 * n] == m.normals + words[..3 * (n - 1)] + words[3 * (n - 1)..3 * (n - 1) + 3];
    }
  }

  lemma TagFields()
    ensures IsField("v") && IsField("vt") && IsField("vn") && IsField("f")
  {
  }

  lemma ReadPair(words: seq<Word>, i: nat, g: Floats)
    requires 2 * i + 2 <= |words| && Readable(words, g)
    ensures IsLine(PairLine(words, i, g))
    ensures Split(PairLine(words, i, g)) == ["vt", g.write(words[2 * i]), g.write(words[2 * i + 1])]
    ensures LineFloats(Split(PairLine(words, i, g)), 2, g) == Some(words[2 * i..2 * i + 2])
  {
    hide IsField, Split, Spaced, IsLine, Readable, ParseFloats;
    WordsAreExact(words, 2 * i, 2, g);
    var fields := ["vt", g.write(words[2 * i]), g.write(words[2 * i + 1])];
    TagFields();
    SpacedIsLine(fields);
    SplitSpaced(fields);
    ParseWritten(fields[1..3], words[2 * i..2 * i + 2], g);
  }

  lemma {:induction false} ReadPairs(m: Mesh, words: seq<Word>, n: nat, g: Floats)
    requires 2 * n <= |words| && Readable(words, g)
    ensures AreLines(PairLines(words, n, g))
    ensures ReadLines(m, PairLines(words, n, g), g) == Some(m.(uvs := m.uvs + words[..2 * n]))
  {
    hide PairLine, Split, LineFloats, Readable, IsLine, ReadParts;
    if n == 0 {
      assert m.uvs + words[..0] == m.uvs;
    } else {
      ReadPairs(m, words, n - 1, g);
      var (lines, before) := (PairLines(words, n, g), PairLines(words, n - 1, g));
      assert lines == before + [PairLine(words, n - 1, g)];
      ReadPair(words, n - 1, g);
      ReadTag(ReadLines(m, before, g).value, Split(PairLine(words, n - 1, g)), g);
      assert m.uvs + words[..2 * n] == m.uvs + words[..2 * (n - 1)] + words[2 * (n - 1)..2 * (n - 1) + 2];
    }
  }

  lemma FaceFields(corners: seq<Corner>, t: nat)
    requires 3 * t + 3 <= |corners|
    ensures IsLine(FaceLine(corners, t))
    ensures Split(FaceLine(corners, t))
            == ["f", CornerText(corners[3 * t]), CornerText(corners[3 * t + 1]), CornerText(corners[3 * t + 2])]
  {
    hide IsField, Split, Spaced, IsLine, CornerText;
    var fields := ["f", CornerText(corners[3 * t]), CornerText(corners[3 * t + 1]), CornerText(corners[3 * t + 2])];
    TagFields();
    CornerTextIsField(corners[3 * t]);
    CornerTextIsField(corners[3 * t + 1]);
    CornerTextIsField(corners[3 * t + 2]);
    SpacedIsLine(fields);
    SplitSpaced(fields);
  }

  lemma {:induction false} ParseFaceTexts(vertices: seq<string>, face: seq<Corner>)
    requires |vertices| == |face| && forall k :: 0 <= k < |face| ==> vertices[k] == CornerText(face[k])
    ensures ParseFace(vertices) == Some(face)
  {
    hide ParseCorner, CornerText;
    if face != [] {
      var n := |face| - 1;
      ParseFaceTexts(vertices[..n], face[..n]);
      ParseCornerText(face[n]);
      assert face == face[..n] + [face[n]];
    }
  }

  lemma ReadTriangle(a: Corner, b: Corner, c: Corner)
    ensures ParseFace([CornerText(a), CornerText(b), CornerText(c)]) == Some([a, b, c])
    ensures Fan([a, b, c]) == [a, b, c]
  {
    hide ParseFace, CornerText;
    ParseFaceTexts([CornerText(a), CornerText(b), CornerText(c)], [a, b, c]);
    assert [a, b, c][..2] == [a, b];
  }

  lemma {:induction false} ReadFaces(m: Mesh, corners: seq<Corner>, n: nat, g: Floats)
    requires 3 * n <= |corners|
    ensures AreLines(FaceLines(corners, n))
    ensures ReadLines(m, FaceLines(corners, n), g) == Some(m.(corners := m.corners + corners[..3 * n]))
  {
    hide FaceLine, Split, IsLine, CornerText, ParseFace, Fan, ReadParts;
    if n == 0 {
      assert m.corners + corners[..0] == m.corners;
    } else {
      ReadFaces(m, corners, n - 1, g);
      var (lines, before) := (FaceLines(corners, n), FaceLines(corners, n - 1));
      assert lines == before + [FaceLine(corners, n - 1)];
      FaceFields(corners, n - 1);
      var k := 3 * (n - 1);
      var parts := Split(FaceLine(corners, n - 1));
      assert parts[1..] == [CornerText(corners[k]), CornerText(corners[k + 1]), CornerText(corners[k + 2])];
      ReadTriangle(corners[k], corners[k + 1], corners[k + 2]);
      ReadTag(ReadLines(m, before, g).value, parts, g);
      assert m.corners + corners[..3 * n] == m.corners + corners[..k] + [corners[k], corners[k + 1], corners[k + 2]];
    }
  }

  lemma {:induction false} ReadConcat(m: Mesh, a: seq<string>, b: seq<string>, g: Floats)
    ensures ReadLines(m, a + b, g) == match ReadLines(m, a, g) case None => None case Some(n) => ReadLines(n, b, g)
  {
    hide ReadParts, Split;
    if b == [] {
      assert a + b == a;
    } else {
      ReadConcat(m, a, b[..|b| - 1], g);
      assert (a + b)[..|a + b| - 1] == a + b[..|b| - 1];
    }
  }

  lemma CommentIsSkipped(m: Mesh, line: string, g: Floats)
    requires line != "" && line[0] == '#'
    ensures ReadParts(m, Split(line), g) == Some(m)
  {
    var n := FieldLength(line);
    assert !IsSpace('#');
    assert n > 0 && Split(line)[0] == line[..n];
  }

  lemma ReadHeader(m: Mesh, g: Floats)
    ensures ReadLines(m, HEADER, g) == Some(m)
  {
    hide ReadParts, Split;
    CommentIsSkipped(m, HEADER[0], g);
    CommentIsSkipped(m, HEADER[1], g);
    assert HEADER[..1][..0] == [];
    assert ReadLines(m, HEADER[..1], g) == Some(m);
  }

  lemma FirstHeaderStart()
    ensures IsLine("# 3D mesh decoded from .binobj")
  {
  }

  lemma FirstHeaderMiddle()
    ensures IsLine(" (source of truth; baked back")
  {
  }

  lemma SecondHeaderStart()
    ensures IsLine("# UVs are stored raw here;")
  {
  }

  lemma SecondHeaderMiddle()
    ensures IsLine(" the V coordinate is flipped")
  {
  }

  lemma HeaderEnds()
    ensures IsLine(" to .binobj at build time).") && IsLine(" (1-v) at load time.")
  {
  }

  lemma PiecesAreLine(a: string, b: string, c: string)
    requires IsLine(a) && IsLine(b) && IsLine(c)
    ensures IsLine(a + b + c)
  {
  }

  lemma HeaderIsLines()
    ensures AreLines(HEADER)
  {
    hide IsLine;
    FirstHeaderStart();
    FirstHeaderMiddle();
    SecondHeaderStart();
    SecondHeaderMiddle();
    HeaderEnds();
    PiecesAreLine("# 3D mesh decoded from .binobj", " (source of truth; baked back", " to .binobj at build time).");
    PiecesAreLine("# UVs are stored raw here;", " the V coordinate is flipped", " (1-v) at load time.");
  }

  // What the text shows of a mesh
  function Whole(m: Mesh): Mesh {
    Mesh(m.positions[..3 * (|m.positions| / 3)], m.uvs[..2 * (|m.uvs| / 2)],
         m.normals[..3 * (|m.normals| / 3)], m.corners[..3 * (|m.corners| / 3)])
  }

  predicate Divisible(m: Mesh) {
    |m.positions| % 3 == 0 && |m.uvs| % 2 == 0 && |m.normals| % 3 == 0 && |m.corners| % 3 == 0
  }

  lemma WholeIffDivisible(m: Mesh)
    ensures Whole(m) == m <==> Divisible(m)
  {
    if Whole(m) == m {
      assert |Whole(m).positions| == |m.positions| && |Whole(m).uvs| == |m.uvs|;
      assert |Whole(m).normals| == |m.normals| && |Whole(m).corners| == |m.corners|;
    }
  }

  lemma ReadTextOfMesh(m: Mesh, g: Floats)
    requires g.AllExact(m)
    ensures ReadText(Text(m, g), g) == Some(Whole(m))
  {
    hide ReadLines, Lines, Joined, TripleLines, PairLines, FaceLines, Floats.Exact;
    var (p, u, n, c) := (|m.positions| / 3, |m.uvs| / 2, |m.normals| / 3, |m.corners| / 3);
    var (vs, ts, ns, fs) := (TripleLines("v", m.positions, p, g), PairLines(m.uvs, u, g),
                             TripleLines("vn", m.normals, n, g), FaceLines(m.corners, c));
    HeaderIsLines();
    var m1 := NOTHING.(positions := m.positions[..3 * p]);
    var m2 := m1.(uvs := m.uvs[..2 * u]);
    var m3 := m2.(normals := m.normals[..3 * n]);
    ReadHeader(NOTHING, g);
    ReadPositions(NOTHING, m.positions, p, g);
    ReadPairs(m1, m.uvs, u, g);
    ReadNormals(m2, m.normals, n, g);
    ReadFaces(m3, m.corners, c, g);
    ReadConcat(NOTHING, HEADER, vs, g);
    ReadConcat(NOTHING, HEADER + vs, ts, g);
    ReadConcat(NOTHING, HEADER + vs + ts, ns, g);
    ReadConcat(NOTHING, HEADER + vs + ts + ns, fs, g);
    assert [] + m.positions[..3 * p] == m.positions[..3 * p] && [] + m.uvs[..2 * u] == m.uvs[..2 * u];
    assert [] + m.normals[..3 * n] == m.normals[..3 * n] && [] + m.corners[..3 * c] == m.corners[..3 * c];
    LinesOfJoined(TextLines(m, g));
  }

  // A printed file bakes to the encoding of what the text shows of it: to its own bytes exactly when every count
  // fills whole lines.
  lemma PrintThenBake(data: Bytes, g: Floats)
    requires Decode(data).Some? && g.AllExact(Decode(data).value)
    ensures Bake(Print(data, g).value, g) == Encode(Whole(Decode(data).value))
    ensures Bake(Print(data, g).value, g) == Some(data) <==> Divisible(Decode(data).value)
  {
    hide Decode, ReadText, Text, Encode, Whole;
    var m := Decode(data).value;
    ReadTextOfMesh(m, g);
    EncodeDecoded(data);
    WholeIffDivisible(m);
    if Encode(Whole(m)) == Some(data) {
      EncodeIsExact(Whole(m), data);
    }
  }

  lemma EncodeIsExact(m: Mesh, data: Bytes)
    requires Encode(m) == Some(data)
    ensures Decode(data) == Some(m)
  {
    hide MeshBytes, Decode;
    DecodeEncoded(m);
  }

  // Faces add whole triangles.
  lemma {:induction false} FanIsTriangles(face: seq<Corner>)
    ensures |Fan(face)| % 3 == 0
  {
    if |face| >= 3 {
      FanIsTriangles(face[..|face| - 1]);
    }
  }

  lemma {:induction false} FloatsRead(fields: seq<string>, g: Floats)
    ensures ParseFloats(fields, g).Some? ==> |ParseFloats(fields, g).value| == |fields|
  {
    if fields != [] {
      FloatsRead(fields[..|fields| - 1], g);
    }
  }

  lemma ReadKeepsDivisible(m: Mesh, parts: seq<string>, g: Floats)
    requires Divisible(m) && ReadParts(m, parts, g).Some?
    ensures Divisible(ReadParts(m, parts, g).value)
  {
    hide ParseFloats, ParseFace, Fan;
    if |parts| >= 3 {
      FloatsRead(parts[1..3], g);
    }
    if |parts| >= 4 {
      FloatsRead(parts[1..4], g);
    }
    if parts != [] && ParseFace(parts[1..]).Some? {
      FanIsTriangles(ParseFace(parts[1..]).value);
    }
  }

  lemma {:induction false} ReadLinesDivisible(lines: seq<string>, g: Floats)
    requires ReadLines(NOTHING, lines, g).Some?
    ensures Divisible(ReadLines(NOTHING, lines, g).value)
  {
    hide ReadParts, Split;
    if lines != [] {
      var front := lines[..|lines| - 1];
      ReadLinesDivisible(front, g);
      ReadKeepsDivisible(ReadLines(NOTHING, front, g).value, Split(lines[|lines| - 1]), g);
    }
  }

  // Whatever text it was baked from, a baked file prints and bakes back to itself.
  lemma BakeThenPrintThenBake(text: string, g: Floats)
    requires Bake(text, g).Some?
    ensures Decode(Bake(text, g).value).Some?
    ensures var data := Bake(text, g).value;
            g.AllExact(Decode(data).value) ==> Print(data, g).Some? && Bake(Print(data, g).value, g) == Some(data)
  {
    hide Decode, Encode, ReadLines, Text, Divisible, Floats.AllExact;
    var data, m := Bake(text, g).value, ReadText(text, g).value;
    EncodeIsExact(m, data);
    ReadLinesDivisible(Lines(text), g);
    if g.AllExact(m) {
      PrintThenBake(data, g);
    }
  }

  // The smallest file that does not come back: its one float fills no line.
  lemma LoneFloatIsLost(w: Word, g: Floats)
    requires g.Exact(w)
    ensures Fits(Mesh([w], [], [], [])) && Fits(NOTHING)
    ensures var data := MeshBytes(Mesh([w], [], [], []));
            && Decode(data).Some? && Print(data, g).Some?
            && Bake(Print(data, g).value, g) == Some(MeshBytes(NOTHING)) && MeshBytes(NOTHING) != data
  {
    hide MeshBytes, Bake, Decode, Text;
    var m := Mesh([w], [], [], []);
    DecodeEncoded(m);
    DecodeEncoded(NOTHING);
    PrintThenBake(MeshBytes(m), g);
    assert Whole(m) == NOTHING;
  }
}
