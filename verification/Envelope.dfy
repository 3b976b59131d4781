/** The envelope writer and reader as the packer and the client run them, and the two ways to sign an update. */
module EnvelopeCode {
  import opened Words
  import opened Parsing
  import opened EnvelopeFormat
  import opened EnvelopeSpec

  // A number moved up by m bytes
  function Up(high: nat, m: nat): nat
    decreases m
  {
    if m == 0 then high else 0x100 * Up(high, m - 1)
  }

  lemma {:induction false} LeSplits(high: nat, low: nat, m: nat, n: nat)
    requires low < Pow256(m)
    ensures Le(Up(high, m) + low, m + n) == Le(low, m) + Le(high, n)
  {
    if m > 0 {
      var v, a := Up(high, m) + low, Up(high, m - 1) + low / 0x100;
      assert v == 0x100 * a + low % 0x100;
      assert v / 0x100 == a && v % 0x100 == low % 0x100;
      LeSplits(high, low / 0x100, m - 1, n);
      assert Le(v, m + n) == [low % 0x100] + Le(a, m - 1 + n);
    }
  }

  lemma TwoWords(v: U64)
    ensures Le(v, 8) == Le(v % TWO32, 4) + Le(v / TWO32, 4)
  {
    hide Le;
    assert Pow256(4) == TWO32;
    assert Up(v / TWO32, 4) == v / TWO32 * TWO32;
    LeSplits(v / TWO32, v % TWO32, 4, 4);
  }

  lemma FourLe(w: Word)
    ensures Le(w, 4) == [w % 0x100, w / 0x100 % 0x100, w / 0x1_0000 % 0x100, w / 0x100_0000 % 0x100]
  {
    var (w1, w2, w3) := (w / 0x100, w / 0x1_0000, w / 0x100_0000);
    assert w2 == w1 / 0x100 && w3 == w2 / 0x100;
    assert Le(w3, 1) == [w3 % 0x100];
    assert Le(w2, 2) == [w2 % 0x100, w3 % 0x100];
    assert Le(w1, 3) == [w1 % 0x100, w2 % 0x100, w3 % 0x100];
  }

  class ByteArray {
    var bytes: Bytes

    constructor ()
      ensures bytes == []
    {
      bytes := [];
    }

    method Append(more: Bytes)
      modifies this
      ensures bytes == old(bytes) + more
    {
      bytes := bytes + more;
    }

    method AppendLeU32(value: Word)
      modifies this
      ensures bytes == old(bytes) + Le(value, 4)
    {
      hide Shr;
      ShiftedWord(value);
      FourLe(value);
      Append([StoreByte(value, 0), StoreByte(value, 1), StoreByte(value, 2), StoreByte(value, 3)]);
    }

    method AppendLeU64(value: U64)
      modifies this
      ensures bytes == old(bytes) + Le(value, 8)
    {
      hide Le, And;
      TwoWords(value);
      LowWord(value);
      AppendLeU32(And(value, 0xFFFF_FFFF));
      AppendLeU32(value / TWO32);
    }

    // A size is cast to 32 bits.
    method AppendBlob(blob: Bytes)
      modifies this
      ensures bytes == old(bytes) + Blob(blob)
    {
      hide Le;
      AppendLeU32(|blob| % TWO32);
      Append(blob);
    }
  }

  lemma LowWord(v: U64)
    ensures And(v, 0xFFFF_FFFF) == v % TWO32
  {
    Pow2Values();
    MaskIsModulo(v, 32);
  }

  method AppendHead(to: ByteArray, e: Envelope)
    modifies to
    ensures to.bytes == old(to.bytes) + Head(e)
  {
    hide Le;
    to.Append(MAGIC);
    to.AppendLeU32(FORMAT);
    to.Append([e.channel]);
    to.Append([e.os]);
    to.Append([e.arch]);
    to.AppendLeU64(e.version);
    to.AppendLeU64(AsUnsigned(e.created));
  }

  lemma SignatureBlobsGrow(signatures: seq<Signature>, i: nat)
    requires i < |signatures|
    ensures SignatureBlobs(signatures[..i + 1])
            == SignatureBlobs(signatures[..i]) + Blob(signatures[i].keyId) + Blob(signatures[i].bytes)
  {
    hide Blob;
    if i == 0 {
      assert signatures[..1][1..] == [];
    } else {
      SignatureBlobsGrow(signatures[1..], i - 1);
      assert signatures[..i + 1][1..] == signatures[1..][..i] && signatures[..i][1..] == signatures[1..][..i - 1];
    }
  }

  method AppendSignatures(to: ByteArray, signatures: seq<Signature>)
    modifies to
    ensures to.bytes == old(to.bytes) + (Le(|signatures| % TWO32, 4) + SignatureBlobs(signatures))
  {
    hide Blob, Le;
    to.AppendLeU32(|signatures| % TWO32);
    ghost var start := to.bytes;
    for i := 0 to |signatures|
      invariant to.bytes == start + SignatureBlobs(signatures[..i])
    {
      SignatureBlobsGrow(signatures, i);
      to.AppendBlob(signatures[i].keyId);
      to.AppendBlob(signatures[i].bytes);
    }
    assert signatures[..|signatures|] == signatures;
  }

  method BuildV2Envelope(e: Envelope) returns (result: Bytes)
    ensures result == Build(e)
  {
    hide Head, Blob, SignatureBlobs, Le;
    var to := new ByteArray();
    AppendHead(to, e);
    to.AppendBlob(e.manifest);
    to.AppendBlob(e.manifestSignature);
    AppendSignatures(to, e.signatures);
    to.AppendBlob(e.payload);
    result := to.bytes;
  }
}
