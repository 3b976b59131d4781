/** The client's reader of an envelope: a cursor over the bytes that every check moves forward. */
module EnvelopeReader {
  import opened Wrappers
  import opened Words
  import opened Parsing
  import opened EnvelopeFormat
  import opened EnvelopeSpec
  import opened EnvelopeCode

  lemma FourFromLe(s: Bytes)
    requires |s| == 4
    ensures FromLe(s) == s[3] as nat * 0x100_0000 + s[2] as nat * 0x1_0000 + s[1] as nat * 0x100 + s[0]
    ensures FromLe(s) < TWO32
  {
    var (s1, s2, s3) := (s[1..], s[2..], s[3..]);
    assert s1[1..] == s2 && s2[1..] == s3 && s3[1..] == [];
    assert FromLe(s3) == s[3];
    assert FromLe(s2) == s[2] + 0x100 * FromLe(s3);
    assert FromLe(s1) == s[1] + 0x100 * FromLe(s2);
    assert FromLe(s) == s[0] + 0x100 * FromLe(s1);
  }

  lemma {:induction false} FromLeSplits(s: Bytes, m: nat)
    requires m <= |s|
    ensures FromLe(s) == FromLe(s[..m]) + Up(FromLe(s[m..]), m)
  {
    if m == 0 {
      assert s[..0] == [] && s[0..] == s;
    } else {
      FromLeSplits(s[1..], m - 1);
      assert s[1..][..m - 1] == s[..m][1..] && s[1..][m - 1..] == s[m..];
    }
  }

  lemma EightFromLe(s: Bytes)
    requires |s| == 8
    ensures FromLe(s) == FromLe(s[4..]) * TWO32 + FromLe(s[..4])
    ensures FromLe(s[..4]) < TWO32 && FromLe(s[4..]) < TWO32
  {
    hide FromLe;
    FromLeSplits(s, 4);
    assert Up(FromLe(s[4..]), 4) == FromLe(s[4..]) * TWO32;
    FourFromLe(s[..4]);
    FourFromLe(s[4..]);
  }

  function JoinWords(low: Word, high: Word): (v: nat)
    ensures v == high * TWO32 + low
  {
    Pow2Values();
    OrBelow(high, 32, TWO32, low);
    Or(low, high * TWO32)
  }

  method ReadU8(reader: Reader) returns (result: Option<Byte>)
    requires reader.Valid()
    modifies reader
    ensures reader.Has(TakeU8(old(reader.Rest())), result)
  {
    var bytes := reader.ReadBytes(1);
    result := if bytes.Some? then Some(bytes.value[0]) else None;
  }

  method ReadU32(reader: Reader) returns (result: Option<Word>)
    requires reader.Valid()
    modifies reader
    ensures reader.Has(TakeNumber(old(reader.Rest()), 4), result)
  {
    hide LoadWord, FromLe;
    var bytes := reader.ReadBytes(4);
    if bytes.None? {
      return None;
    }
    var b := bytes.value;
    FourFromLe(b);
    LoadWordMatches(b[3], b[2], b[1], b[0]);
    result := Some(LoadWord(b[3], b[2], b[1], b[0]));
  }

  method ReadU64(reader: Reader) returns (result: Option<U64>)
    requires reader.Valid()
    modifies reader
    ensures reader.Has(TakeNumber(old(reader.Rest()), 8), result)
  {
    hide FromLe, JoinWords;
    ghost var s := reader.Rest();
    var low := ReadU32(reader);
    if low.None? {
      return None;
    }
    var high := ReadU32(reader);
    if high.None? {
      return None;
    }
    EightFromLe(s[..8]);
    assert s[..8][..4] == s[..4] && s[..8][4..] == s[4..][..4] && s[4..][4..] == s[8..];
    result := Some(JoinWords(low.value, high.value));
  }

  method ReadBlob(reader: Reader, sizes: Range) returns (result: Option<Bytes>)
    requires reader.Valid()
    modifies reader
    ensures reader.Has(TakeBlob(old(reader.Rest()), sizes), result)
  {
    hide FromLe;
    var size := ReadU32(reader);
    if size.None? || !sizes.Has(size.value) {
      return None;
    }
    result := reader.ReadBytes(size.value);
  }

  method ReadTarget(reader: Reader, l: Limits) returns (result: Option<(Byte, Byte, Byte)>)
    requires reader.Valid()
    modifies reader
    ensures reader.Has(TakeTarget(old(reader.Rest()), l), result)
  {
    var channel := ReadU8(reader);
    if channel.None? || channel.value > l.channel {
      return None;
    }
    var os := ReadU8(reader);
    if os.None? || os.value > l.os {
      return None;
    }
    var arch := ReadU8(reader);
    if arch.None? || arch.value > l.arch {
      return None;
    }
    result := Some((channel.value, os.value, arch.value));
  }

  method ReadStart(reader: Reader, l: Limits) returns (result: Option<Start>)
    requires reader.offset == 0
    modifies reader
    ensures reader.Has(TakeStart(reader.data, l), result)
  {
    hide FromLe;
    if !(MAGIC <= reader.data) {
      return None;
    }
    reader.offset := 4;
    var format := ReadU32(reader);
    if format.None? || format.value != FORMAT {
      return None;
    }
    var target := ReadTarget(reader, l);
    if target.None? {
      return None;
    }
    result := ReadTimes(reader, target.value.0, target.value.1, target.value.2);
  }

  method ReadTimes(reader: Reader, channel: Byte, os: Byte, arch: Byte) returns (result: Option<Start>)
    requires reader.Valid()
    modifies reader
    ensures reader.Has(TakeTimes(channel, os, arch, old(reader.Rest())), result)
  {
    hide FromLe;
    var version := ReadU64(reader);
    if version.None? {
      return None;
    }
    var created := ReadU64(reader);
    if created.None? {
      return None;
    }
    result := Some(Start(channel, os, arch, version.value, AsSigned(created.value)));
  }

  lemma NextSignature(s: Bytes, count: nat, l: Limits)
    requires count > 0
    ensures TakeSignatures(s, count, l) == match TakeSignature(s, l)
                                           case None => None
                                           case Some(t) => Continued([t.value], TakeSignatures(t.rest, count - 1, l))
  {
    hide TakeSignature;
  }

  method ReadSignature(reader: Reader, l: Limits) returns (result: Option<Signature>)
    requires reader.Valid()
    modifies reader
    ensures reader.Has(TakeSignature(old(reader.Rest()), l), result)
  {
    hide TakeBlob;
    var keyId := ReadBlob(reader, l.keyId);
    if keyId.None? {
      return None;
    }
    var bytes := ReadBlob(reader, l.signature);
    if bytes.None? {
      return None;
    }
    result := Some(Signature(keyId.value, bytes.value));
  }

  method ReadSignatures(reader: Reader, l: Limits) returns (result: Option<seq<Signature>>)
    requires reader.Valid()
    modifies reader
    ensures reader.Has(TakeSignatureList(old(reader.Rest()), l), result)
  {
    hide TakeSignatures, FromLe;
    var count := ReadU32(reader);
    if count.None? || count.value > l.count {
      return None;
    }
    result := ReadSignatureItems(reader, count.value, l);
  }

  method ReadSignatureItems(reader: Reader, count: nat, l: Limits) returns (result: Option<seq<Signature>>)
    requires reader.Valid()
    modifies reader
    ensures reader.Has(TakeSignatures(old(reader.Rest()), count, l), result)
  {
    hide TakeSignature;
    var read: seq<Signature> := [];
    var i := 0;
    NothingRead(TakeSignatures(reader.Rest(), count, l));
    while i != count
      invariant reader.Valid() && i <= count
      invariant TakeSignatures(old(reader.Rest()), count, l)
                == Continued(read, TakeSignatures(reader.Rest(), count - i, l))
    {
      NextSignature(reader.Rest(), count - i, l);
      var signature := ReadSignature(reader, l);
      if signature.None? {
        return None;
      }
      OneMoreRead(read, signature.value, TakeSignatures(reader.Rest(), count - i - 1, l));
      read := read + [signature.value];
      i := i + 1;
    }
    assert read + [] == read;
    result := Some(read);
  }

  method ReadBody(reader: Reader, start: Start, l: Limits) returns (result: Option<Parsed>)
    requires reader.Valid()
    modifies reader
    ensures result == ParseBody(reader.data, start, old(reader.Rest()), l)
  {
    hide TakeBlob, TakeSignatureList;
    var manifest := ReadBlob(reader, l.manifest);
    if manifest.None? {
      return None;
    }
    var signedRegion := reader.data[..reader.offset];
    var manifestSignature := ReadBlob(reader, l.manifestSignature);
    if manifestSignature.None? {
      return None;
    }
    var signatures := ReadSignatures(reader, l);
    if signatures.None? {
      return None;
    }
    var payload := ReadBlob(reader, l.payload);
    if payload.None? || reader.offset != |reader.data| {
      return None;
    }
    var Start(channel, os, arch, version, created) := start;
    var e := Envelope(channel, os, arch, version, created,
                      manifest.value, manifestSignature.value, signatures.value, payload.value);
    result := Some(Parsed(e, signedRegion));
  }

  method ParseEnvelope(data: Bytes) returns (result: Option<Parsed>)
    ensures result == Parse(data, CLIENT_LIMITS)
  {
    hide TakeStart, ParseBody;
    var reader := new Reader(data);
    var start := ReadStart(reader, CLIENT_LIMITS);
    if start.None? {
      return None;
    }
    result := ReadBody(reader, start.value, CLIENT_LIMITS);
  }
}
