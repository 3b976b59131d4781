/** The bytes of a binary mesh, place by place. */
module MeshLayoutLaws {
  import opened Wrappers
  import opened Words
  import opened Parsing
  import opened BigEndian
  import opened MeshFormat

  // The number that four bytes are, the most significant one first, read as two's complement
  function IntAt(b: Bytes, at: nat): int
    requires at + 4 <= |b|
  {
    var v := 0x100_0000 * b[at] as int + 0x1_0000 * b[at + 1] as int + 0x100 * b[at + 2] as int + b[at + 3] as int;
    if b[at] < 0x80 then v else v - 0x1_0000_0000
  }

  lemma WordIs(w: Word, a: Bytes, c: Bytes)
    ensures var b := a + WordBytes(w) + c; |b| == |a| + 4 + |c| && IntAt(b, |a|) % 0x1_0000_0000 == w
  {
    assert Pow256(4) == 0x1_0000_0000;
    ValueOfDigits(w, 4);
    hide Digits, Value, Pow256;
    FourBytes(WordBytes(w));
    var (b, d) := (a + WordBytes(w) + c, WordBytes(w));
    assert b[|a|] == d[0] && b[|a| + 1] == d[1] && b[|a| + 2] == d[2] && b[|a| + 3] == d[3];
  }

  lemma IntIs(v: Int32, a: Bytes, c: Bytes)
    ensures var b := a + IntBytes(v) + c; |b| == |a| + 4 + |c| && IntAt(b, |a|) == v
  {
    WordIs(ToWord(v), a, c);
    hide WordBytes;
  }

  // A list of floats and a list of corners, between other bytes
  lemma {:induction false} WordsAre(words: seq<Word>, a: Bytes, c: Bytes, i: nat)
    requires i < |words|
    ensures |WordsBytes(words)| == 4 * |words|
    ensures IntAt(a + WordsBytes(words) + c, |a| + 4 * i) % 0x1_0000_0000 == words[i]
  {
    hide WordBytes;
    var (first, more) := (WordBytes(words[0]), WordsBytes(words[1..]));
    if i == 0 {
      WordIs(words[0], a, more + c);
      assert a + WordsBytes(words) + c == a + first + (more + c);
      WordsLength(words);
    } else {
      WordsAre(words[1..], a + first, c, i - 1);
      assert a + WordsBytes(words) + c == (a + first) + more + c;
    }
  }

  lemma {:induction false} WordsLength(words: seq<Word>)
    ensures |WordsBytes(words)| == 4 * |words|
  {
    hide WordBytes;
    if words != [] {
      WordsLength(words[1..]);
    }
  }

  lemma CornerIs(corner: Corner, a: Bytes, c: Bytes)
    requires FitsCorner(corner)
    ensures var b := a + CornerBytes(corner) + c;
            && |b| == |a| + 12 + |c| && IntAt(b, |a|) == corner.position && IntAt(b, |a| + 4) == corner.uv
            && IntAt(b, |a| + 8) == corner.normal
  {
    hide IntBytes, IntAt;
    var (p, u, n) := (IntBytes(corner.position), IntBytes(corner.uv), IntBytes(corner.normal));
    IntIs(corner.position, a, u + n + c);
    IntIs(corner.uv, a + p, n + c);
    IntIs(corner.normal, a + p + u, c);
    assert a + CornerBytes(corner) + c == a + p + (u + n + c);
    assert a + CornerBytes(corner) + c == (a + p) + u + (n + c);
    assert a + CornerBytes(corner) + c == (a + p + u) + n + c;
  }

  lemma {:induction false} CornersAre(corners: seq<Corner>, a: Bytes, i: nat)
    requires FitCorners(corners) && i < |corners|
    ensures var (b, at) := (a + CornersBytes(corners), |a| + 12 * i);
            && |CornersBytes(corners)| == 12 * |corners|
            && IntAt(b, at) == corners[i].position && IntAt(b, at + 4) == corners[i].uv
            && IntAt(b, at + 8) == corners[i].normal
  {
    hide IntAt, CornerBytes;
    var (first, more) := (CornerBytes(corners[0]), CornersBytes(corners[1..]));
    assert corners[0] in corners && FitCorners(corners[1..]);
    CornersLength(corners);
    if i == 0 {
      CornerIs(corners[0], a, more);
      assert a + CornersBytes(corners) == a + first + more;
    } else {
      CornersAre(corners[1..], a + first, i - 1);
      assert |first| == 12 by { CornerIs(corners[0], [], []); }
      assert a + CornersBytes(corners) == (a + first) + more;
    }
  }

  lemma {:induction false} CornersLength(corners: seq<Corner>)
    requires FitCorners(corners)
    ensures |CornersBytes(corners)| == 12 * |corners|
  {
    hide CornerBytes;
    if corners != [] {
      CornersLength(corners[1..]);
      CornerIs(corners[0], [], []);
    }
  }

  // A list behind the number of its entries
  lemma FloatsAre(words: seq<Word>, a: Bytes, c: Bytes)
    requires |words| < 0x8000_0000
    ensures var (b, n) := (a + FloatsBytes(words) + c, |a| + 4 + 4 * |words|);
            && |b| == n + |c| && IntAt(b, |a|) == |words| && b[|a| + 4..n] == WordsBytes(words)
  {
    hide IntBytes, IntAt, WordsBytes;
    WordsLength(words);
    IntIs(|words|, a, WordsBytes(words) + c);
    Between(a, IntBytes(|words|), WordsBytes(words), c);
  }

  lemma Between(a: Bytes, count: Bytes, all: Bytes, c: Bytes)
    requires |count| == 4
    ensures var b := a + (count + all) + c;
            b == a + count + (all + c) && b[|a| + 4..|a| + 4 + |all|] == all
  {
  }

  lemma CornerListIs(corners: seq<Corner>, a: Bytes)
    requires |corners| < 0x8000_0000 && FitCorners(corners)
    ensures var b := a + CornerListBytes(corners);
            && |b| == |a| + 4 + 12 * |corners| && IntAt(b, |a|) == |corners| && b[|a| + 4..] == CornersBytes(corners)
  {
    hide IntBytes, IntAt, CornersBytes;
    CornersLength(corners);
    IntIs(|corners|, a, CornersBytes(corners));
    assert a + CornerListBytes(corners) == a + IntBytes(|corners|) + CornersBytes(corners);
  }

  // The file: four lists, each behind the number of its entries, and nothing else.
  lemma FileIs(m: Mesh)
    requires Fits(m)
    ensures var b := MeshBytes(m);
            var (p, u, n) := (|m.positions|, |m.uvs|, |m.normals|);
            var (uvs, normals, corners) := (4 + 4 * p, 8 + 4 * p + 4 * u, 12 + 4 * p + 4 * u + 4 * n);
            && |b| == corners + 4 + 12 * |m.corners|
            && IntAt(b, 0) == p && IntAt(b, uvs) == u && IntAt(b, normals) == n && IntAt(b, corners) == |m.corners|
            && b[4..uvs] == WordsBytes(m.positions) && b[uvs + 4..normals] == WordsBytes(m.uvs)
            && b[normals + 4..corners] == WordsBytes(m.normals) && b[corners + 4..] == CornersBytes(m.corners)
  {
    hide IntAt, FloatsBytes, CornerListBytes, WordsBytes, CornersBytes, FitCorners;
    var (ps, us, ns) := (FloatsBytes(m.positions), FloatsBytes(m.uvs), FloatsBytes(m.normals));
    var cs := CornerListBytes(m.corners);
    FloatsAre(m.positions, [], us + ns + cs);
    FloatsAre(m.uvs, ps, ns + cs);
    FloatsAre(m.normals, ps + us, cs);
    CornerListIs(m.corners, ps + us + ns);
    Regrouped(ps, us, ns, cs);
    assert |ps| == |[] + ps + []|;
    FloatsAre(m.positions, [], []);
    FloatsAre(m.uvs, [], []);
    FloatsAre(m.normals, [], []);
    assert |us| == |[] + us + []| && |ns| == |[] + ns + []|;
  }

  lemma Regrouped(ps: Bytes, us: Bytes, ns: Bytes, cs: Bytes)
    ensures var b := ps + (us + (ns + cs));
            b == [] + ps + (us + ns + cs) == ps + us + (ns + cs) == (ps + us) + ns + cs == (ps + us + ns) + cs
  {
  }
}
