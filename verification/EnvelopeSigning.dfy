/** The two ways to sign an update: in one pass with a local key, or by embedding signatures into an unsigned file. */
module EnvelopeSigning {
  import opened Wrappers
  import opened Words
  import opened Parsing
  import opened EnvelopeSpec
  import opened EnvelopeTheorems
  import opened EnvelopeCode
  import opened EnvelopeReader
  import opened EnvelopeVerify

  // A local key signs the signing input; an empty signature is a failure.
  datatype Key = Key(id: Bytes, sign: Bytes -> Bytes)

  function SignLocally(p: Parsed, key: Key, hash: Bytes -> Bytes): Option<Signature> {
    var input := SigningInput(p, hash);
    if input == [] then None else
      var signature := key.sign(input);
      if signature == [] then None else Some(Signature(key.id, signature))
  }

  // The packer asks of a packed file what a client would that runs nothing yet, for the package's channel and target.
  function FirstClient(e: Envelope, held: Manifest): Client {
    Client(e.channel, true, e.os, e.arch, 0, Some(held))
  }

  method VerifyPackedV2(bytes: Bytes, e: Envelope, held: Manifest, crypto: Crypto, now: int) returns (ok: bool)
    ensures ok <==> Verified(bytes, FirstClient(e, held), crypto, now).Some?
  {
    hide Verified;
    var verified := VerifyUpdate(bytes, FirstClient(e, held), crypto, now);
    ok := verified.Some?;
  }

  // A signing path yields the bytes of the signed envelope, unless a client would refuse them.
  function Packed(e: Envelope, signatures: Option<seq<Signature>>, held: Manifest, crypto: Crypto, now: int)
      : Option<Bytes>
  {
    if signatures.None? then None else
      var bytes := Build(e.(signatures := signatures.value));
      if Verified(bytes, FirstClient(e, held), crypto, now).Some? then Some(bytes) else None
  }

  // The one pass: the manifest comes from the key files, and the packer holds it.
  function OnePass(e: Envelope, key: Key, crypto: Crypto, now: int): Option<Bytes> {
    var held :- crypto.manifest(e.manifest, e.manifestSignature);
    if !FitsIn(e, CLIENT_LIMITS) then None
    else Packed(e, Listed([], SignLocally(Parsed(e, Region(e)), key, crypto.hash)), held, crypto, now)
  }

  // The unsigned bytes are parsed back, their signing input is signed, the bytes are built again and verified.
  method WriteV2Update(e: Envelope, key: Key, crypto: Crypto, now: int) returns (result: Option<Bytes>)
    requires e.signatures == []
    ensures result == OnePass(e, key, crypto, now)
  {
    hide Build, Parse, Region, SignLocally, FitsIn, Verified;
    var held := crypto.manifest(e.manifest, e.manifestSignature);
    if held.None? {
      return None;
    }
    var unsigned := BuildV2Envelope(e);
    var envelope := ParseEnvelope(unsigned);
    ClientsParseIffFits(e);
    if envelope.None? {
      return None;
    }
    var signature := SignLocally(envelope.value, key, crypto.hash);
    if signature.None? {
      return None;
    }
    var built := BuildV2Envelope(e.(signatures := [signature.value], created := envelope.value.envelope.created));
    assert [] + [signature.value] == [signature.value];
    var ok := VerifyPackedV2(built, e, held.value, crypto, now);
    result := if ok then Some(built) else None;
  }

  // The signatures read from files, then the local one if it was made
  function Listed(files: seq<Signature>, local: Option<Signature>): Option<seq<Signature>> {
    if local.None? then None else Some(files + [local.value])
  }

  function AllSignatures(p: Parsed, files: seq<Signature>, key: Option<Key>, hash: Bytes -> Bytes)
      : Option<seq<Signature>>
  {
    if exists s :: s in files && s.bytes == [] then None
    else if key.Some? then
      if key.value.id == [] then None else Listed(files, SignLocally(p, key.value, hash))
    else if files == [] then None
    else Some(files)
  }

  // The second of two passes, over an unsigned file, with the manifest of the key files held
  function Embedded(bytes: Bytes, channel: Option<Byte>, files: seq<Signature>, key: Option<Key>,
                    held: Option<Manifest>, crypto: Crypto, now: int): Option<Bytes>
  {
    var h :- held;
    var p :- Parse(bytes, CLIENT_LIMITS);
    if p.envelope.signatures != [] || (channel.Some? && channel.value != p.envelope.channel) then None
    else Packed(p.envelope, AllSignatures(p, files, key, crypto.hash), h, crypto, now)
  }

  // Signatures are embedded into an unsigned file of the right channel. A signature file that is empty is a failure.
  method EmbedV2Signatures(bytes: Bytes, channel: Option<Byte>, files: seq<Signature>, key: Option<Key>,
                           held: Option<Manifest>, crypto: Crypto, now: int)
      returns (result: Option<Bytes>)
    ensures result == Embedded(bytes, channel, files, key, held, crypto, now)
  {
    hide Build, Parse, Region, SignLocally, FitsIn, Verified;
    if held.None? {
      return None;
    }
    var envelope := ParseEnvelope(bytes);
    if envelope.None? {
      return None;
    }
    var e := envelope.value.envelope;
    if e.signatures != [] || (channel.Some? && channel.value != e.channel) {
      return None;
    }
    var signatures := ReadSignatureFiles(files);
    if signatures.None? {
      return None;
    }
    var all := signatures.value;
    if key.Some? {
      if key.value.id == [] {
        return None;
      }
      var signature := SignLocally(envelope.value, key.value, crypto.hash);
      if signature.None? {
        return None;
      }
      all := all + [signature.value];
    }
    if all == [] {
      return None;
    }
    var built := BuildV2Envelope(e.(signatures := all));
    var ok := VerifyPackedV2(built, e, held.value, crypto, now);
    result := if ok then Some(built) else None;
  }

  method ReadSignatureFiles(files: seq<Signature>) returns (signatures: Option<seq<Signature>>)
    ensures signatures == if exists s :: s in files && s.bytes == [] then None else Some(files)
  {
    var read: seq<Signature> := [];
    for i := 0 to |files|
      invariant read == files[..i] && forall s :: s in read ==> s.bytes != []
    {
      if files[i].bytes == [] {
        assert files[i] in files;
        return None;
      }
      read := read + [files[i]];
    }
    assert read == files;
    signatures := Some(read);
  }

  // Embedding the local signature gives the bytes of the one pass, for every envelope that the packer writes unsigned.
  lemma TwoPassIsOnePass(e: Envelope, key: Key, crypto: Crypto, now: int)
    requires e.signatures == []
    ensures var held := crypto.manifest(e.manifest, e.manifestSignature);
            Embedded(Build(e), Some(e.channel), [], Some(key), held, crypto, now) == OnePass(e, key, crypto, now)
  {
    hide Build, Parse, Region, SignLocally, FitsIn, Verified;
    ClientsParseIffFits(e);
    if key.id == [] && FitsIn(e, CLIENT_LIMITS) && crypto.manifest(e.manifest, e.manifestSignature).Some? {
      NamelessIsRefused(e, key, crypto, now);
    }
  }

  // The first pass does not ask whether the key has an id, but no client takes a signature without one.
  lemma NamelessIsRefused(e: Envelope, key: Key, crypto: Crypto, now: int)
    requires key.id == [] && crypto.manifest(e.manifest, e.manifestSignature).Some?
    ensures var held := crypto.manifest(e.manifest, e.manifestSignature).value;
            Packed(e, Listed([], SignLocally(Parsed(e, Region(e)), key, crypto.hash)), held, crypto, now) == None
  {
    hide Build, Parse, Region;
    var local := SignLocally(Parsed(e, Region(e)), key, crypto.hash);
    if local.Some? {
      var signed := e.(signatures := [] + [local.value]);
      assert local.value in signed.signatures;
      ClientsParseIffFits(signed);
    }
  }

  // A client that recovers a signed envelope checks the signatures against the bytes that were signed.
  lemma SignedInputIsVerified(bytes: Bytes, signatures: seq<Signature>, hash: Bytes -> Bytes)
    requires Parse(bytes, CLIENT_LIMITS).Some?
    requires FitsIn(Parse(bytes, CLIENT_LIMITS).value.envelope.(signatures := signatures), CLIENT_LIMITS)
    ensures var p := Parse(bytes, CLIENT_LIMITS).value;
            var q := Parse(Build(p.envelope.(signatures := signatures)), CLIENT_LIMITS);
            && q.Some? && q.value.envelope == p.envelope.(signatures := signatures)
            && SigningInput(q.value, hash) == SigningInput(p, hash)
  {
    hide Build, Parse, FitsIn;
    var e := Parse(bytes, CLIENT_LIMITS).value.envelope;
    ParseThenBuild(bytes, CLIENT_LIMITS);
    BuildThenParse(e.(signatures := signatures), CLIENT_LIMITS);
  }

  // A client of the package's channel and target takes what the packer writes in one pass, if it runs an older version
  // and holds no manifest, an older one, or the same one.
  lemma PackedIsTaken(e: Envelope, key: Key, crypto: Crypto, now: int, c: Client)
    requires e.signatures == [] && OnePass(e, key, crypto, now).Some?
    requires c.channel == e.channel && c.os == e.os && c.arch == e.arch && c.running < e.version
    requires c.held.None? || c.held.value.version < crypto.manifest(e.manifest, e.manifestSignature).value.version
             || c.held == crypto.manifest(e.manifest, e.manifestSignature)
    ensures var taken := Verified(OnePass(e, key, crypto, now).value, c, crypto, now);
            taken.Some? && taken.value.envelope.payload == e.payload && taken.value.envelope.version == e.version
  {
    hide Build, Parse, Region, SignLocally, FitsIn, Authorizes;
    var signature := SignLocally(Parsed(e, Region(e)), key, crypto.hash).value;
    var signed := e.(signatures := [] + [signature]);
    assert OnePass(e, key, crypto, now) == Some(Build(signed));
    ClientsParseIffFits(signed);
  }
}
