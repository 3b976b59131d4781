/** A mesh, its binary form and its text form. */
module MeshFormat {
  import opened Wrappers
  import opened Words
  import opened Parsing
  import opened BigEndian
  import opened MeshText

  type Int32 = v: int | -0x8000_0000 <= v < 0x8000_0000

  // Indices are unbounded while the text is read; the binary form holds 32-bit ones.
  datatype Corner = Corner(position: int, uv: int, normal: int)

  // Floats are the 32-bit words that encode them.
  datatype Mesh = Mesh(positions: seq<Word>, uvs: seq<Word>, normals: seq<Word>, corners: seq<Corner>)

  // The formatting of floats, of which nothing is known but what Exact says
  datatype Floats = Floats(write: Word -> string, read: string -> Option<Word>) {
    ghost predicate Exact(w: Word) {
      IsField(write(w)) && read(write(w)) == Some(w)
    }

    ghost predicate AllExact(m: Mesh) {
      forall w :: w in m.positions || w in m.uvs || w in m.normals ==> Exact(w)
    }
  }

  // The binary form
  function ToWord(v: Int32): Word {
    if v < 0 then v + 0x1_0000_0000 else v
  }

  function OfWord(w: Word): (v: Int32)
    ensures ToWord(v) == w
  {
    if w < 0x8000_0000 then w else w - 0x1_0000_0000
  }

  function WordBytes(w: Word): (b: Bytes)
    ensures |b| == 4
  {
    Digits(w, 4)
  }

  function IntBytes(v: Int32): (b: Bytes)
    ensures |b| == 4
  {
    WordBytes(ToWord(v))
  }

  function WordsBytes(words: seq<Word>): Bytes {
    if words == [] then [] else WordBytes(words[0]) + WordsBytes(words[1..])
  }

  predicate FitsCorner(c: Corner) {
    && -0x8000_0000 <= c.position < 0x8000_0000
    && -0x8000_0000 <= c.uv < 0x8000_0000
    && -0x8000_0000 <= c.normal < 0x8000_0000
  }

  function CornerBytes(c: Corner): Bytes
    requires FitsCorner(c)
  {
    IntBytes(c.position) + IntBytes(c.uv) + IntBytes(c.normal)
  }

  predicate FitCorners(corners: seq<Corner>) {
    forall c :: c in corners ==> FitsCorner(c)
  }

  function CornersBytes(corners: seq<Corner>): Bytes
    requires FitCorners(corners)
  {
    if corners == [] then [] else CornerBytes(corners[0]) + CornersBytes(corners[1..])
  }

  predicate Fits(m: Mesh) {
    && |m.positions| < 0x8000_0000 && |m.uvs| < 0x8000_0000 && |m.normals| < 0x8000_0000 && |m.corners| < 0x8000_0000
    && FitCorners(m.corners)
  }

  function FloatsBytes(words: seq<Word>): Bytes
    requires |words| < 0x8000_0000
  {
    IntBytes(|words|) + WordsBytes(words)
  }

  function CornerListBytes(corners: seq<Corner>): Bytes
    requires |corners| < 0x8000_0000 && FitCorners(corners)
  {
    IntBytes(|corners|) + CornersBytes(corners)
  }

  function MeshBytes(m: Mesh): Bytes
    requires Fits(m)
  {
    FloatsBytes(m.positions) + (FloatsBytes(m.uvs) + (FloatsBytes(m.normals) + CornerListBytes(m.corners)))
  }

  function Encode(m: Mesh): Option<Bytes> {
    if Fits(m) then Some(MeshBytes(m)) else None
  }

  function TakeWord(s: Bytes): Option<Step<Word>> {
    if |s| < 4 then None else
      FourBytes(s[..4]);
      Some(Step(Value(s[..4]), s[4..]))
  }

  function TakeInt(s: Bytes): Option<Step<Int32>> {
    var w :- TakeWord(s);
    Some(Step(OfWord(w.value), w.rest))
  }

  function TakeWords(s: Bytes, count: nat): Option<Step<seq<Word>>>
    decreases count
  {
    if count == 0 then Some(Step([], s)) else
      var first :- TakeWord(s);
      var more :- TakeWords(first.rest, count - 1);
      Some(Step([first.value] + more.value, more.rest))
  }

  function TakeFloats(s: Bytes): Option<Step<seq<Word>>> {
    var count :- TakeInt(s);
    if count.value < 0 then None else TakeWords(count.rest, count.value)
  }

  function TakeCorner(s: Bytes): Option<Step<Corner>> {
    var position :- TakeInt(s);
    var uv :- TakeInt(position.rest);
    var normal :- TakeInt(uv.rest);
    Some(Step(Corner(position.value, uv.value, normal.value), normal.rest))
  }

  function TakeCorners(s: Bytes, count: nat): Option<Step<seq<Corner>>>
    decreases count
  {
    if count == 0 then Some(Step([], s)) else
      var first :- TakeCorner(s);
      var more :- TakeCorners(first.rest, count - 1);
      Some(Step([first.value] + more.value, more.rest))
  }

  function TakeCornerList(s: Bytes): Option<Step<seq<Corner>>> {
    var count :- TakeInt(s);
    if count.value < 0 then None else TakeCorners(count.rest, count.value)
  }

  function Decode(data: Bytes): Option<Mesh> {
    var positions :- TakeFloats(data);
    var uvs :- TakeFloats(positions.rest);
    var normals :- TakeFloats(uvs.rest);
    var corners :- TakeCornerList(normals.rest);
    if corners.rest != [] then None else Some(Mesh(positions.value, uvs.value, normals.value, corners.value))
  }

  // The text form
  const HEADER: seq<string> := [
    "# 3D mesh decoded from .binobj" + " (source of truth; baked back" + " to .binobj at build time).",
    "# UVs are stored raw here;" + " the V coordinate is flipped" + " (1-v) at load time."]

  function TripleLine(tag: string, words: seq<Word>, i: nat, g: Floats): string
    requires 3 * i + 3 <= |words|
  {
    Spaced([tag, g.write(words[3 * i]), g.write(words[3 * i + 1]), g.write(words[3 * i + 2])])
  }

  function PairLine(words: seq<Word>, i: nat, g: Floats): string
    requires 2 * i + 2 <= |words|
  {
    Spaced(["vt", g.write(words[2 * i]), g.write(words[2 * i + 1])])
  }

  function CornerText(c: Corner): string {
    PrintInt(c.position + 1) + "/" + PrintInt(c.uv + 1) + "/" + PrintInt(c.normal + 1)
  }

  function FaceLine(corners: seq<Corner>, t: nat): string
    requires 3 * t + 3 <= |corners|
  {
    Spaced(["f", CornerText(corners[3 * t]), CornerText(corners[3 * t + 1]), CornerText(corners[3 * t + 2])])
  }

  function TripleLines(tag: string, words: seq<Word>, n: nat, g: Floats): (lines: seq<string>)
    requires 3 * n <= |words|
    ensures |lines| == n
  {
    seq(n, i requires 0 <= i < n => TripleLine(tag, words, i, g))
  }

  function PairLines(words: seq<Word>, n: nat, g: Floats): (lines: seq<string>)
    requires 2 * n <= |words|
    ensures |lines| == n
  {
    seq(n, i requires 0 <= i < n => PairLine(words, i, g))
  }

  function FaceLines(corners: seq<Corner>, n: nat): (lines: seq<string>)
    requires 3 * n <= |corners|
    ensures |lines| == n
  {
    seq(n, t requires 0 <= t < n => FaceLine(corners, t))
  }

  // What does not fill a whole line is not printed.
  function TextLines(m: Mesh, g: Floats): seq<string> {
    HEADER + TripleLines("v", m.positions, |m.positions| / 3, g) + PairLines(m.uvs, |m.uvs| / 2, g)
    + TripleLines("vn", m.normals, |m.normals| / 3, g) + FaceLines(m.corners, |m.corners| / 3)
  }

  function Text(m: Mesh, g: Floats): string {
    Joined(TextLines(m, g))
  }

  // Reading the text: each line adds to the mesh or fails.
  const NOTHING := Mesh([], [], [], [])

  function ParseFloats(fields: seq<string>, g: Floats): Option<seq<Word>> {
    if fields == [] then Some([]) else
      var (front, last) := (fields[..|fields| - 1], fields[|fields| - 1]);
      var before :- ParseFloats(front, g);
      var word :- g.read(last);
      Some(before + [word])
  }

  // The floats of a line, as many as its tag asks for; what follows them is ignored.
  function LineFloats(parts: seq<string>, count: nat, g: Floats): Option<seq<Word>> {
    if |parts| < 1 + count then None else ParseFloats(parts[1..1 + count], g)
  }

  function ParseIndex(fields: seq<string>, i: nat): Option<int> {
    if i >= |fields| || fields[i] == "" then Some(-1) else
      var v :- ParseInt(fields[i]);
      Some(v - 1)
  }

  function ParseCorner(vertex: string): Option<Corner> {
    var fields := SplitAt(vertex, '/');
    var position :- ParseIndex(fields, 0);
    var uv :- ParseIndex(fields, 1);
    var normal :- ParseIndex(fields, 2);
    Some(Corner(position, uv, normal))
  }

  function ParseFace(vertices: seq<string>): Option<seq<Corner>> {
    if vertices == [] then Some([]) else
      var (front, last) := (vertices[..|vertices| - 1], vertices[|vertices| - 1]);
      var more :- ParseFace(front);
      var corner :- ParseCorner(last);
      Some(more + [corner])
  }

  // The triangles of a fan around its first corner
  function Fan(face: seq<Corner>): seq<Corner> {
    if |face| < 3 then []
    else Fan(face[..|face| - 1]) + [face[0], face[|face| - 2], face[|face| - 1]]
  }

  function AddPositions(m: Mesh, words: Option<seq<Word>>): Option<Mesh> {
    if words.None? then None else Some(m.(positions := m.positions + words.value))
  }

  function AddUvs(m: Mesh, words: Option<seq<Word>>): Option<Mesh> {
    if words.None? then None else Some(m.(uvs := m.uvs + words.value))
  }

  function AddNormals(m: Mesh, words: Option<seq<Word>>): Option<Mesh> {
    if words.None? then None else Some(m.(normals := m.normals + words.value))
  }

  function AddFace(m: Mesh, face: Option<seq<Corner>>): Option<Mesh> {
    if face.None? then None else Some(m.(corners := m.corners + Fan(face.value)))
  }

  function ReadParts(m: Mesh, parts: seq<string>, g: Floats): Option<Mesh> {
    if parts == [] || "#" <= parts[0] then Some(m)
    else if parts[0] == "v" then AddPositions(m, LineFloats(parts, 3, g))
    else if parts[0] == "vt" then AddUvs(m, LineFloats(parts, 2, g))
    else if parts[0] == "vn" then AddNormals(m, LineFloats(parts, 3, g))
    else if parts[0] == "f" then AddFace(m, ParseFace(parts[1..]))
    else Some(m)
  }

  function ReadLines(m: Mesh, lines: seq<string>, g: Floats): Option<Mesh> {
    if lines == [] then Some(m) else
      var before :- ReadLines(m, lines[..|lines| - 1], g);
      ReadParts(before, Split(lines[|lines| - 1]), g)
  }

  function ReadText(text: string, g: Floats): Option<Mesh> {
    ReadLines(NOTHING, Lines(text), g)
  }

  // The two tools
  function Print(data: Bytes, g: Floats): Option<string> {
    var m :- Decode(data);
    Some(Text(m, g))
  }

  function Bake(text: string, g: Floats): Option<Bytes> {
    var m :- ReadText(text, g);
    Encode(m)
  }
}
