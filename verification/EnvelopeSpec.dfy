/** What an envelope is, how it is laid out, and which byte strings a client accepts as one. */
module EnvelopeSpec {
  import opened Wrappers
  import opened Words
  import opened Parsing
  import opened EnvelopeFormat

  datatype Signature = Signature(keyId: Bytes, bytes: Bytes)

  datatype Envelope = Envelope(
    channel: Byte, os: Byte, arch: Byte, version: U64, created: I64,
    manifest: Bytes, manifestSignature: Bytes, signatures: seq<Signature>, payload: Bytes)

  datatype Limits = Limits(
    channel: Byte, os: Byte, arch: Byte,
    manifest: Range, manifestSignature: Range, count: nat, keyId: Range, signature: Range, payload: Range)

  const CLIENT_LIMITS :=
    Limits(3, 2, 2, Range(1, 256 * 1024), Range(1, 256), 16, Range(1, 64), Range(1, 512), Range(1, 256 * 1024 * 1024))

  // A reader of the layout that checks nothing.
  const NO_LIMITS :=
    Limits(0xFF, 0xFF, 0xFF, Range(0, TWO32), Range(0, TWO32), TWO32, Range(0, TWO32), Range(0, TWO32), Range(0, TWO32))

  predicate FitsIn(e: Envelope, l: Limits) {
    && e.channel <= l.channel && e.os <= l.os && e.arch <= l.arch
    && Small(e.manifest, l.manifest) && Small(e.manifestSignature, l.manifestSignature)
    && |e.signatures| <= l.count && |e.signatures| < TWO32
    && (forall s :: s in e.signatures ==> Small(s.keyId, l.keyId) && Small(s.bytes, l.signature))
    && Small(e.payload, l.payload)
  }

  predicate Small(b: Bytes, sizes: Range) {
    sizes.Has(|b|) && |b| < TWO32
  }

  const MAGIC: Bytes := [0x54, 0x44, 0x55, 0x50]

  const FORMAT := 2

  // The layout
  function Head(e: Envelope): Bytes {
    MAGIC + Le(FORMAT, 4) + [e.channel, e.os, e.arch] + Le(e.version, 8) + Le(AsUnsigned(e.created), 8)
  }

  // The part that is signed
  function Region(e: Envelope): Bytes {
    Head(e) + Blob(e.manifest)
  }

  function SignatureBlobs(signatures: seq<Signature>): Bytes {
    if signatures == [] then []
    else Blob(signatures[0].keyId) + Blob(signatures[0].bytes) + SignatureBlobs(signatures[1..])
  }

  function Tail(e: Envelope): Bytes {
    Blob(e.manifestSignature)
    + (Le(|e.signatures| % TWO32, 4) + SignatureBlobs(e.signatures))
    + Blob(e.payload)
  }

  function Build(e: Envelope): Bytes {
    Region(e) + Tail(e)
  }

  // The reader, stage by stage
  datatype Start = Start(channel: Byte, os: Byte, arch: Byte, version: U64, created: I64)

  function TakeStart(s: Bytes, l: Limits): Option<Step<Start>> {
    if !(MAGIC <= s) then None else
      var format :- TakeNumber(s[4..], 4);
      if format.value != FORMAT then None else
        var target :- TakeTarget(format.rest, l);
        TakeTimes(target.value.0, target.value.1, target.value.2, target.rest)
  }

  function TakeTarget(s: Bytes, l: Limits): Option<Step<(Byte, Byte, Byte)>> {
    var channel :- TakeU8(s);
    if channel.value > l.channel then None else
      var os :- TakeU8(channel.rest);
      if os.value > l.os then None else
        var arch :- TakeU8(os.rest);
        if arch.value > l.arch then None else Some(Step((channel.value, os.value, arch.value), arch.rest))
  }

  function TakeTimes(channel: Byte, os: Byte, arch: Byte, s: Bytes): Option<Step<Start>> {
    var version :- TakeNumber(s, 8);
    var created :- TakeNumber(version.rest, 8);
    U64Bound(s);
    U64Bound(version.rest);
    Some(Step(Start(channel, os, arch, version.value, AsSigned(created.value)), created.rest))
  }

  lemma U64Bound(s: Bytes)
    requires |s| >= 8
    ensures FromLe(s[..8]) < 0x1_0000_0000_0000_0000
  {
    assert Pow256(8) == 0x1_0000_0000_0000_0000;
  }

  function TakeSignature(s: Bytes, l: Limits): Option<Step<Signature>> {
    var keyId :- TakeBlob(s, l.keyId);
    var bytes :- TakeBlob(keyId.rest, l.signature);
    Some(Step(Signature(keyId.value, bytes.value), bytes.rest))
  }

  function TakeSignatures(s: Bytes, count: nat, l: Limits): Option<Step<seq<Signature>>>
    decreases count
  {
    if count == 0 then Some(Step([], s)) else
      var first :- TakeSignature(s, l);
      var more :- TakeSignatures(first.rest, count - 1, l);
      Some(Step([first.value] + more.value, more.rest))
  }

  function TakeSignatureList(s: Bytes, l: Limits): Option<Step<seq<Signature>>> {
    var count :- TakeNumber(s, 4);
    if count.value > l.count then None else TakeSignatures(count.rest, count.value, l)
  }

  datatype Parsed = Parsed(envelope: Envelope, signedRegion: Bytes)

  function Parse(data: Bytes, l: Limits): Option<Parsed> {
    var start :- TakeStart(data, l);
    ParseBody(data, start.value, start.rest, l)
  }

  function ParseBody(data: Bytes, start: Start, s: Bytes, l: Limits): Option<Parsed> {
    var manifest :- TakeBlob(s, l.manifest);
    var manifestSignature :- TakeBlob(manifest.rest, l.manifestSignature);
    var signatures :- TakeSignatureList(manifestSignature.rest, l);
    var payload :- TakeBlob(signatures.rest, l.payload);
    if payload.rest != [] then None else
      var Start(channel, os, arch, version, created) := start;
      var e := Envelope(channel, os, arch, version, created,
                        manifest.value, manifestSignature.value, signatures.value, payload.value);
      Some(Parsed(e, Before(data, manifest.rest)))
  }

  // The bytes of data before its end `rest`
  function Before(data: Bytes, rest: Bytes): Bytes {
    if |rest| <= |data| then data[..|data| - |rest|] else []
  }
}
