/** Numbers and their bytes, the most significant one first. */
module BigEndian {
  import opened Words

  function Value(bytes: seq<Byte>): nat {
    if |bytes| == 0 then 0 else Value(bytes[..|bytes| - 1]) * 0x100 + bytes[|bytes| - 1]
  }

  function Digits(v: nat, count: nat): (bytes: seq<Byte>)
    ensures |bytes| == count
  {
    if count == 0 then [] else Digits(v / 0x100, count - 1) + [v % 0x100]
  }

  lemma {:induction false} ValueOfDigits(v: nat, count: nat)
    requires v < Pow256(count)
    ensures Value(Digits(v, count)) == v
  {
    if count > 0 {
      ValueOfDigits(v / 0x100, count - 1);
      var d := Digits(v, count);
      assert d[..count - 1] == Digits(v / 0x100, count - 1);
    }
  }

  lemma {:induction false} DigitsOfValue(b: seq<Byte>)
    ensures Digits(Value(b), |b|) == b
  {
    if b != [] {
      var n := |b| - 1;
      assert Value(b) / 0x100 == Value(b[..n]) && Value(b) % 0x100 == b[n];
      DigitsOfValue(b[..n]);
    }
  }

  lemma {:induction false} DigitsInjective(v: nat, w: nat, count: nat)
    requires v < Pow256(count) && w < Pow256(count)
    ensures Digits(v, count) == Digits(w, count) <==> v == w
  {
    if count > 0 {
      DigitsInjective(v / 0x100, w / 0x100, count - 1);
      var (x, y) := (Digits(v, count), Digits(w, count));
      assert x[..count - 1] == Digits(v / 0x100, count - 1) && x[count - 1] == v % 0x100;
      assert y[..count - 1] == Digits(w / 0x100, count - 1) && y[count - 1] == w % 0x100;
    }
  }

  lemma FourBytes(b: seq<Byte>)
    requires |b| == 4
    ensures Value(b) == b[0] as nat * 0x100_0000 + b[1] as nat * 0x1_0000 + b[2] as nat * 0x100 + b[3] < 0x1_0000_0000
  {
    var (b3, b2, b1, b0) := (b[..3], b[..2], b[..1], b[..0]);
    assert b3[..2] == b2 && b2[..1] == b1 && b1[..0] == b0;
    assert Value(b0) == 0;
    assert Value(b1) == b[0];
    assert Value(b2) == Value(b1) * 0x100 + b[1];
    assert Value(b3) == Value(b2) * 0x100 + b[2];
  }
}
