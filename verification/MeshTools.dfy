/** The two mesh tools: the printer moves an offset over the file, the baker collects lists line by line. */
module MeshTools {
  import opened Wrappers
  import opened Words
  import opened Parsing
  import opened MeshText
  import opened MeshFormat

  // The printer's reader
  method ReadInt(reader: Reader) returns (value: Option<Int32>)
    requires reader.Valid()
    modifies reader
    ensures reader.Has(TakeInt(old(reader.Rest())), value)
  {
    hide TakeWord, OfWord;
    var word := ReadWord(reader);
    value := if word.Some? then Some(OfWord(word.value)) else None;
  }

  method ReadWord(reader: Reader) returns (value: Option<Word>)
    requires reader.Valid()
    modifies reader
    ensures reader.Has(TakeWord(old(reader.Rest())), value)
  {
    ghost var s := reader.Rest();
    var taken := TakeWord(reader.data[reader.offset..]);
    if taken.None? {
      return None;
    }
    reader.offset := reader.offset + 4;
    assert reader.Rest() == s[4..];
    value := Some(taken.value.value);
  }

  lemma NextWord(s: Bytes, count: nat)
    requires count > 0
    ensures TakeWords(s, count) == match TakeWord(s)
                                   case None => None
                                   case Some(first) => Continued([first.value], TakeWords(first.rest, count - 1))
  {
    hide TakeWord;
  }

  method ReadFloats(reader: Reader) returns (values: Option<seq<Word>>)
    requires reader.Valid()
    modifies reader
    ensures reader.Has(TakeFloats(old(reader.Rest())), values)
  {
    hide TakeInt, TakeWords;
    var count := ReadInt(reader);
    if count.None? || count.value < 0 {
      return None;
    }
    values := ReadWords(reader, count.value);
  }

  method ReadWords(reader: Reader, count: nat) returns (values: Option<seq<Word>>)
    requires reader.Valid()
    modifies reader
    ensures reader.Has(TakeWords(old(reader.Rest()), count), values)
  {
    hide TakeWord;
    var read: seq<Word> := [];
    NothingRead(TakeWords(reader.Rest(), count));
    for i := 0 to count
      invariant reader.Valid()
      invariant TakeWords(old(reader.Rest()), count) == Continued(read, TakeWords(reader.Rest(), count - i))
    {
      NextWord(reader.Rest(), count - i);
      var word := ReadWord(reader);
      if word.None? {
        return None;
      }
      OneMoreRead(read, word.value, TakeWords(reader.Rest(), count - i - 1));
      read := read + [word.value];
    }
    assert read + [] == read;
    values := Some(read);
  }

  method ReadCorner(reader: Reader) returns (corner: Option<Corner>)
    requires reader.Valid()
    modifies reader
    ensures reader.Has(TakeCorner(old(reader.Rest())), corner)
  {
    hide TakeInt;
    var position := ReadInt(reader);
    if position.None? {
      return None;
    }
    var uv := ReadInt(reader);
    if uv.None? {
      return None;
    }
    var normal := ReadInt(reader);
    if normal.None? {
      return None;
    }
    corner := Some(Corner(position.value, uv.value, normal.value));
  }

  lemma NextCorner(s: Bytes, count: nat)
    requires count > 0
    ensures TakeCorners(s, count) == match TakeCorner(s)
                                     case None => None
                                     case Some(first) => Continued([first.value], TakeCorners(first.rest, count - 1))
  {
    hide TakeCorner;
  }

  method ReadCorners(reader: Reader, count: nat) returns (corners: Option<seq<Corner>>)
    requires reader.Valid()
    modifies reader
    ensures reader.Has(TakeCorners(old(reader.Rest()), count), corners)
  {
    hide TakeCorner;
    var read: seq<Corner> := [];
    NothingRead(TakeCorners(reader.Rest(), count));
    for i := 0 to count
      invariant reader.Valid()
      invariant TakeCorners(old(reader.Rest()), count) == Continued(read, TakeCorners(reader.Rest(), count - i))
    {
      NextCorner(reader.Rest(), count - i);
      var corner := ReadCorner(reader);
      if corner.None? {
        return None;
      }
      OneMoreRead(read, corner.value, TakeCorners(reader.Rest(), count - i - 1));
      read := read + [corner.value];
    }
    assert read + [] == read;
    corners := Some(read);
  }

  // A negative corner count reads no corner and moves the offset back, so that it misses the end of the file.
  method ReadCornerList(reader: Reader) returns (corners: Option<seq<Corner>>)
    requires reader.Valid()
    modifies reader
    ensures reader.Valid()
    ensures corners == match TakeCornerList(old(reader.Rest()))
                       case None => None
                       case Some(t) => if t.rest == [] then Some(t.value) else None
  {
    hide TakeInt, TakeCorners;
    var count := ReadInt(reader);
    if count.None? {
      return None;
    }
    if count.value < 0 {
      var cornerCount: int := count.value;
      var offset := reader.offset + 12 * cornerCount;
      assert offset != |reader.data|;
      return None;
    }
    corners := ReadCorners(reader, count.value);
    if reader.offset != |reader.data| {
      return None;
    }
  }

  method DecodeMesh(data: Bytes) returns (m: Option<Mesh>)
    ensures m == Decode(data)
  {
    hide TakeFloats, TakeCornerList;
    var reader := new Reader(data);
    var positions := ReadFloats(reader);
    if positions.None? {
      return None;
    }
    var uvs := ReadFloats(reader);
    if uvs.None? {
      return None;
    }
    var normals := ReadFloats(reader);
    if normals.None? {
      return None;
    }
    var corners := ReadCornerList(reader);
    if corners.None? {
      return None;
    }
    m := Some(Mesh(positions.value, uvs.value, normals.value, corners.value));
  }

  // The printer's writer
  method PrintTriples(out: string, tag: string, words: seq<Word>, g: Floats) returns (text: string)
    ensures text == out + Joined(TripleLines(tag, words, |words| / 3, g))
  {
    hide TripleLine;
    text := out;
    for i := 0 to |words| / 3
      invariant text == out + Joined(TripleLines(tag, words, i, g))
    {
      NextTriple(tag, words, i, g);
      text := text + (tag + " " + g.write(words[3 * i]) + " " + g.write(words[3 * i + 1]) + " "
                      + g.write(words[3 * i + 2]) + "\n");
    }
  }

  lemma NextTriple(tag: string, words: seq<Word>, i: nat, g: Floats)
    requires 3 * i + 3 <= |words|
    ensures Joined(TripleLines(tag, words, i + 1, g))
            == Joined(TripleLines(tag, words, i, g))
               + (tag + " " + g.write(words[3 * i]) + " " + g.write(words[3 * i + 1]) + " " + g.write(words[3 * i + 2])
                  + "\n")
  {
    SpacedFour(tag, g.write(words[3 * i]), g.write(words[3 * i + 1]), g.write(words[3 * i + 2]));
    assert TripleLines(tag, words, i + 1, g) == TripleLines(tag, words, i, g) + [TripleLine(tag, words, i, g)];
    JoinedStep(TripleLines(tag, words, i, g), TripleLine(tag, words, i, g));
  }

  lemma JoinedStep(lines: seq<string>, line: string)
    ensures Joined(lines + [line]) == Joined(lines) + (line + "\n")
  {
    assert (lines + [line])[..|lines|] == lines;
  }

  lemma SpacedFour(a: string, b: string, c: string, d: string)
    ensures Spaced([a, b, c, d]) == a + " " + b + " " + c + " " + d
    ensures Spaced([a, b, c]) == a + " " + b + " " + c
  {
    assert [a, b, c, d][1..] == [b, c, d] && [b, c, d][1..] == [c, d] && [c, d][1..] == [d];
    assert [a, b, c][1..] == [b, c] && [b, c][1..] == [c];
    assert Spaced([c, d]) == c + " " + d && Spaced([b, c]) == b + " " + c;
    assert Spaced([b, c, d]) == b + " " + Spaced([c, d]);
  }

  method PrintPairs(out: string, words: seq<Word>, g: Floats) returns (text: string)
    ensures text == out + Joined(PairLines(words, |words| / 2, g))
  {
    hide PairLine;
    text := out;
    for i := 0 to |words| / 2
      invariant text == out + Joined(PairLines(words, i, g))
    {
      NextPair(words, i, g);
      text := text + ("vt " + g.write(words[2 * i]) + " " + g.write(words[2 * i + 1]) + "\n");
    }
  }

  lemma NextPair(words: seq<Word>, i: nat, g: Floats)
    requires 2 * i + 2 <= |words|
    ensures Joined(PairLines(words, i + 1, g))
            == Joined(PairLines(words, i, g)) + ("vt " + g.write(words[2 * i]) + " " + g.write(words[2 * i + 1]) + "\n")
  {
    SpacedFour("vt", g.write(words[2 * i]), g.write(words[2 * i + 1]), "");
    assert "vt" + " " == "vt ";
    assert PairLines(words, i + 1, g) == PairLines(words, i, g) + [PairLine(words, i, g)];
    JoinedStep(PairLines(words, i, g), PairLine(words, i, g));
  }

  method PrintFaces(out: string, corners: seq<Corner>) returns (text: string)
    ensures text == out + Joined(FaceLines(corners, |corners| / 3))
  {
    hide FaceLine, CornerText;
    text := out;
    for t := 0 to |corners| / 3
      invariant text == out + Joined(FaceLines(corners, t))
    {
      NextFace(corners, t);
      var (a, b, c) := (corners[3 * t], corners[3 * t + 1], corners[3 * t + 2]);
      text := text + ("f " + CornerText(a) + " " + CornerText(b) + " " + CornerText(c) + "\n");
    }
  }

  lemma NextFace(corners: seq<Corner>, t: nat)
    requires 3 * t + 3 <= |corners|
    ensures Joined(FaceLines(corners, t + 1))
            == Joined(FaceLines(corners, t))
               + ("f " + CornerText(corners[3 * t]) + " " + CornerText(corners[3 * t + 1]) + " "
                  + CornerText(corners[3 * t + 2]) + "\n")
  {
    hide CornerText;
    SpacedFour("f", CornerText(corners[3 * t]), CornerText(corners[3 * t + 1]), CornerText(corners[3 * t + 2]));
    assert "f" + " " == "f ";
    assert FaceLines(corners, t + 1) == FaceLines(corners, t) + [FaceLine(corners, t)];
    JoinedStep(FaceLines(corners, t), FaceLine(corners, t));
  }

  method BinobjToObj(data: Bytes, g: Floats) returns (text: Option<string>)
    ensures text == Print(data, g)
  {
    hide Decode, TripleLines, PairLines, FaceLines, Joined;
    var m := DecodeMesh(data);
    if m.None? {
      return None;
    }
    var out := PrintMesh(m.value, g);
    text := Some(out);
  }

  method PrintMesh(m: Mesh, g: Floats) returns (text: string)
    ensures text == Text(m, g)
  {
    hide TripleLines, PairLines, FaceLines, Joined;
    JoinedLines(m, g);
    text := PrintTriples(Joined(HEADER), "v", m.positions, g);
    text := PrintPairs(text, m.uvs, g);
    text := PrintTriples(text, "vn", m.normals, g);
    text := PrintFaces(text, m.corners);
  }

  lemma JoinedLines(m: Mesh, g: Floats)
    ensures Text(m, g) == Joined(HEADER) + Joined(TripleLines("v", m.positions, |m.positions| / 3, g))
                          + Joined(PairLines(m.uvs, |m.uvs| / 2, g))
                          + Joined(TripleLines("vn", m.normals, |m.normals| / 3, g))
                          + Joined(FaceLines(m.corners, |m.corners| / 3))
  {
    hide TripleLines, PairLines, FaceLines, Joined;
    var (vs, ts, ns, fs) := (TripleLines("v", m.positions, |m.positions| / 3, g), PairLines(m.uvs, |m.uvs| / 2, g),
                             TripleLines("vn", m.normals, |m.normals| / 3, g), FaceLines(m.corners, |m.corners| / 3));
    JoinedConcat(HEADER, vs);
    JoinedConcat(HEADER + vs, ts);
    JoinedConcat(HEADER + vs + ts, ns);
    JoinedConcat(HEADER + vs + ts + ns, fs);
  }

  // The baker's parser
  method ReadLineFloats(parts: seq<string>, count: nat, g: Floats) returns (words: Option<seq<Word>>)
    ensures words == LineFloats(parts, count, g)
  {
    if |parts| < 1 + count {
      return None;
    }
    ghost var fields := parts[1..1 + count];
    var read: seq<Word> := [];
    for k := 0 to count
      invariant ParseFloats(fields[..k], g) == Some(read)
    {
      assert fields[..k + 1][..k] == fields[..k] && fields[..k + 1][k] == fields[k] == parts[1 + k];
      var word := g.read(parts[1 + k]);
      if word.None? {
        FloatsFail(fields, k + 1, g);
        return None;
      }
      read := read + [word.value];
    }
    assert fields[..count] == fields;
    words := Some(read);
  }

  lemma {:induction false} FloatsFail(fields: seq<string>, k: nat, g: Floats)
    requires k <= |fields| && ParseFloats(fields[..k], g).None?
    ensures ParseFloats(fields, g).None?
    decreases |fields|
  {
    if k == |fields| {
      assert fields[..k] == fields;
    } else {
      var front := fields[..|fields| - 1];
      assert front[..k] == fields[..k];
      FloatsFail(front, k, g);
    }
  }

  method ReadIndex(fields: seq<string>, i: nat) returns (index: Option<int>)
    ensures index == ParseIndex(fields, i)
  {
    if i >= |fields| || fields[i] == "" {
      return Some(-1);
    }
    var value := ParseInt(fields[i]);
    index := if value.Some? then Some(value.value - 1) else None;
  }

  method ReadVertex(vertex: string) returns (corner: Option<Corner>)
    ensures corner == ParseCorner(vertex)
  {
    hide ParseIndex, SplitAt;
    var fields := SplitAt(vertex, '/');
    var position := ReadIndex(fields, 0);
    if position.None? {
      return None;
    }
    var uv := ReadIndex(fields, 1);
    if uv.None? {
      return None;
    }
    var normal := ReadIndex(fields, 2);
    if normal.None? {
      return None;
    }
    corner := Some(Corner(position.value, uv.value, normal.value));
  }

  method ReadFace(vertices: seq<string>) returns (face: Option<seq<Corner>>)
    ensures face == ParseFace(vertices)
  {
    hide ParseCorner;
    var read: seq<Corner> := [];
    for i := 0 to |vertices|
      invariant ParseFace(vertices[..i]) == Some(read)
    {
      assert vertices[..i + 1][..i] == vertices[..i];
      var corner := ReadVertex(vertices[i]);
      if corner.None? {
        FaceFails(vertices, i + 1);
        return None;
      }
      read := read + [corner.value];
    }
    assert vertices[..|vertices|] == vertices;
    face := Some(read);
  }

  lemma {:induction false} FaceFails(vertices: seq<string>, k: nat)
    requires k <= |vertices| && ParseFace(vertices[..k]).None?
    ensures ParseFace(vertices).None?
    decreases |vertices|
  {
    hide ParseCorner;
    if k == |vertices| {
      assert vertices[..k] == vertices;
    } else {
      var front := vertices[..|vertices| - 1];
      assert front[..k] == vertices[..k];
      FaceFails(front, k);
    }
  }

  method Triangulate(face: seq<Corner>) returns (corners: seq<Corner>)
    ensures corners == Fan(face)
  {
    corners := [];
    var i := 1;
    while i < |face| - 1
      invariant 1 <= i && (i <= |face| - 1 || (i == 1 && |face| < 2))
      invariant i + 1 <= |face| ==> corners == Fan(face[..i + 1])
      invariant |face| < 2 ==> corners == []
    {
      assert face[..i + 2][..i + 1] == face[..i + 1];
      corners := corners + [face[0], face[i], face[i + 1]];
      i := i + 1;
    }
    assert |face| >= 2 ==> face[..|face|] == face;
  }

  class Lists {
    var positions: seq<Word>
    var uvs: seq<Word>
    var normals: seq<Word>
    var corners: seq<Corner>

    function Value(): Mesh
      reads this
    {
      Mesh(positions, uvs, normals, corners)
    }

    constructor ()
      ensures Value() == NOTHING
    {
      positions, uvs, normals, corners := [], [], [], [];
    }

    method ReadLine(parts: seq<string>, g: Floats) returns (ok: bool)
      modifies this
      ensures ok <==> ReadParts(old(Value()), parts, g).Some?
      ensures ok ==> Value() == ReadParts(old(Value()), parts, g).value
    {
      hide LineFloats, ParseFace, Fan;
      if parts == [] || "#" <= parts[0] {
        return true;
      }
      var tag := parts[0];
      if tag == "v" {
        var words := ReadLineFloats(parts, 3, g);
        if words.None? {
          return false;
        }
        positions := positions + words.value;
      } else if tag == "vt" {
        var words := ReadLineFloats(parts, 2, g);
        if words.None? {
          return false;
        }
        uvs := uvs + words.value;
      } else if tag == "vn" {
        var words := ReadLineFloats(parts, 3, g);
        if words.None? {
          return false;
        }
        normals := normals + words.value;
      } else if tag == "f" {
        var face := ReadFace(parts[1..]);
        if face.None? {
          return false;
        }
        var more := Triangulate(face.value);
        corners := corners + more;
      }
      ok := true;
    }
  }

  lemma {:induction false} LinesFail(m: Mesh, lines: seq<string>, k: nat, g: Floats)
    requires k <= |lines| && ReadLines(m, lines[..k], g).None?
    ensures ReadLines(m, lines, g).None?
    decreases |lines|
  {
    hide ReadParts, Split;
    if k == |lines| {
      assert lines[..k] == lines;
    } else {
      var front := lines[..|lines| - 1];
      assert front[..k] == lines[..k];
      LinesFail(m, front, k, g);
    }
  }

  method ReadObj(text: string, g: Floats) returns (m: Option<Mesh>)
    ensures m == ReadText(text, g)
  {
    hide ReadParts, Split, Lines;
    var lists := new Lists();
    var lines := Lines(text);
    for i := 0 to |lines|
      invariant ReadLines(NOTHING, lines[..i], g) == Some(lists.Value())
    {
      assert lines[..i + 1][..i] == lines[..i];
      var ok := lists.ReadLine(Split(lines[i]), g);
      if !ok {
        LinesFail(NOTHING, lines, i + 1, g);
        return None;
      }
    }
    assert lines[..|lines|] == lines;
    m := Some(lists.Value());
  }

  // The baker's writer
  lemma {:induction false} WordsBytesGrow(words: seq<Word>, i: nat)
    requires i < |words|
    ensures WordsBytes(words[..i + 1]) == WordsBytes(words[..i]) + WordBytes(words[i])
  {
    hide WordBytes;
    if i == 0 {
      assert words[..1][1..] == [];
    } else {
      WordsBytesGrow(words[1..], i - 1);
      assert words[..i + 1][1..] == words[1..][..i] && words[..i][1..] == words[1..][..i - 1];
    }
  }

  method PackFloats(out: Bytes, words: seq<Word>) returns (bytes: Bytes)
    requires |words| < 0x8000_0000
    ensures bytes == out + FloatsBytes(words)
  {
    hide IntBytes, WordBytes;
    bytes := out + IntBytes(|words|);
    for i := 0 to |words|
      invariant bytes == out + (IntBytes(|words|) + WordsBytes(words[..i]))
    {
      WordsBytesGrow(words, i);
      bytes := bytes + WordBytes(words[i]);
    }
    assert words[..|words|] == words;
  }

  lemma {:induction false} CornersBytesGrow(corners: seq<Corner>, i: nat)
    requires i < |corners| && FitCorners(corners[..i]) && FitsCorner(corners[i])
    ensures FitCorners(corners[..i + 1])
    ensures CornersBytes(corners[..i + 1]) == CornersBytes(corners[..i]) + CornerBytes(corners[i])
  {
    hide CornerBytes, FitsCorner;
    assert corners[..i + 1] == corners[..i] + [corners[i]];
    if i == 0 {
      assert corners[..1][1..] == [];
    } else {
      assert corners[..i + 1][1..] == corners[1..][..i] && corners[..i][1..] == corners[1..][..i - 1];
      CornersBytesGrow(corners[1..], i - 1);
    }
  }

  // An index that does not fit 32 bits makes the packing fail.
  method PackCorners(out: Bytes, corners: seq<Corner>) returns (bytes: Option<Bytes>)
    requires |corners| < 0x8000_0000
    ensures bytes == if FitCorners(corners) then Some(out + CornerListBytes(corners)) else None
  {
    hide IntBytes, CornerBytes, FitsCorner;
    var packed := out + IntBytes(|corners|);
    for i := 0 to |corners|
      invariant FitCorners(corners[..i])
      invariant packed == out + (IntBytes(|corners|) + CornersBytes(corners[..i]))
    {
      if !FitsCorner(corners[i]) {
        return None;
      }
      CornersBytesGrow(corners, i);
      packed := packed + CornerBytes(corners[i]);
    }
    assert corners[..|corners|] == corners;
    bytes := Some(packed);
  }

  method PackMesh(m: Mesh) returns (bytes: Option<Bytes>)
    ensures bytes == Encode(m)
  {
    hide FloatsBytes, CornerListBytes, FitCorners;
    if || |m.positions| >= 0x8000_0000 || |m.uvs| >= 0x8000_0000
       || |m.normals| >= 0x8000_0000 || |m.corners| >= 0x8000_0000 {
      return None;
    }
    var out := PackFloats([], m.positions);
    out := PackFloats(out, m.uvs);
    out := PackFloats(out, m.normals);
    bytes := PackCorners(out, m.corners);
    assert Fits(m) <==> FitCorners(m.corners);
    assert bytes.Some? ==> bytes.value == MeshBytes(m);
  }

  method ObjToBinobj(text: string, g: Floats) returns (bytes: Option<Bytes>)
    ensures bytes == Bake(text, g)
  {
    hide ReadText, Encode;
    var m := ReadObj(text, g);
    if m.None? {
      return None;
    }
    bytes := PackMesh(m.value);
  }
}
