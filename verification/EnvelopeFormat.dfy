/** The layout of a version 2 update envelope, field by field, with the reader of each field. */
module EnvelopeFormat {
  import opened Wrappers
  import opened Words
  import opened Parsing

  const TWO32: nat := 0x1_0000_0000

  type U64 = v: nat | v < 0x1_0000_0000_0000_0000

  type I64 = v: int | -0x8000_0000_0000_0000 <= v < 0x8000_0000_0000_0000

  function TakeU8(s: Bytes): Option<Step<Byte>> {
    if s == [] then None else Some(Step(s[0], s[1..]))
  }

  // The bytes of a number, the least significant one first
  function Le(v: nat, count: nat): (s: Bytes)
    ensures |s| == count
  {
    if count == 0 then [] else [v % 0x100] + Le(v / 0x100, count - 1)
  }

  function FromLe(s: Bytes): (v: nat)
    ensures v < Pow256(|s|)
  {
    if s == [] then 0 else s[0] + 0x100 * FromLe(s[1..])
  }

  lemma {:induction false} NumberOfBytes(v: nat, count: nat)
    requires v < Pow256(count)
    ensures FromLe(Le(v, count)) == v
  {
    if count > 0 {
      NumberOfBytes(v / 0x100, count - 1);
    }
  }

  lemma {:induction false} BytesOfNumber(s: Bytes)
    ensures Le(FromLe(s), |s|) == s
  {
    if s != [] {
      var v := FromLe(s[1..]);
      assert FromLe(s) % 0x100 == s[0] && FromLe(s) / 0x100 == v;
      BytesOfNumber(s[1..]);
    }
  }

  function TakeNumber(s: Bytes, count: nat): Option<Step<nat>> {
    if |s| < count then None else Some(Step(FromLe(s[..count]), s[count..]))
  }

  lemma NumberRoundTrip(v: nat, count: nat, rest: Bytes)
    requires v < Pow256(count)
    ensures TakeNumber(Le(v, count) + rest, count) == Some(Step(v, rest))
  {
    var s := Le(v, count) + rest;
    assert s[..count] == Le(v, count) && s[count..] == rest;
    NumberOfBytes(v, count);
  }

  lemma NumberUnique(s: Bytes, count: nat)
    requires TakeNumber(s, count).Some?
    ensures var t := TakeNumber(s, count).value; s == Le(t.value, count) + t.rest && t.value < Pow256(count)
  {
    hide Le, FromLe;
    BytesOfNumber(s[..count]);
    assert s == s[..count] + s[count..];
  }

  // Signed times travel as their two's complement.
  function AsUnsigned(v: I64): U64 {
    if v < 0 then v + 0x1_0000_0000_0000_0000 else v
  }

  function AsSigned(v: U64): I64 {
    if v < 0x8000_0000_0000_0000 then v else v - 0x1_0000_0000_0000_0000
  }

  // A byte string behind its size, which the writer truncates to 32 bits
  function Blob(b: Bytes): Bytes {
    Le(|b| % TWO32, 4) + b
  }

  // The readers accept sizes between two bounds only.
  datatype Range = Range(min: nat, max: nat) {
    predicate Has(n: nat) {
      min <= n <= max
    }
  }

  function TakeBlob(s: Bytes, sizes: Range): Option<Step<Bytes>> {
    var size :- TakeNumber(s, 4);
    if !sizes.Has(size.value) then None else TakeBytes(size.rest, size.value)
  }

  lemma BlobRoundTrip(b: Bytes, rest: Bytes, sizes: Range)
    requires sizes.Has(|b|) && |b| < TWO32
    ensures TakeBlob(Blob(b) + rest, sizes) == Some(Step(b, rest))
  {
    assert Pow256(4) == TWO32;
    NumberRoundTrip(|b|, 4, b + rest);
    hide Le, FromLe, TakeNumber, Pow256;
    assert Blob(b) + rest == Le(|b|, 4) + (b + rest) by { assert |b| % TWO32 == |b|; }
    assert (b + rest)[..|b|] == b && (b + rest)[|b|..] == rest;
  }

  lemma BlobUnique(s: Bytes, sizes: Range)
    requires TakeBlob(s, sizes).Some?
    ensures var t := TakeBlob(s, sizes).value; s == Blob(t.value) + t.rest && sizes.Has(|t.value|) && |t.value| < TWO32
  {
    assert Pow256(4) == TWO32;
    NumberUnique(s, 4);
    hide Le, FromLe, TakeNumber, Pow256;
    var size := TakeNumber(s, 4).value;
    var b := size.rest[..size.value];
    assert size.rest == b + size.rest[size.value..];
    assert s == Le(|b| % TWO32, 4) + b + size.rest[size.value..] by { assert |b| % TWO32 == |b|; }
  }
}
