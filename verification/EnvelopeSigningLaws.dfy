/** The bytes of an envelope place by place, the bounds that a client sets, and what signing leaves. */
module EnvelopeSigningLaws {
  import opened Wrappers
  import opened Words
  import opened Parsing
  import opened EnvelopeFormat
  import opened EnvelopeSpec
  import opened EnvelopeTheorems
  import opened EnvelopeReader
  import opened EnvelopeVerify
  import opened EnvelopeSigning
  import opened EnvelopeLaws

  // The numbers in an envelope have their lowest byte first.
  lemma FourLe(s: Bytes)
    requires |s| == 4
    ensures FromLe(s) == s[0] as int + 0x100 * s[1] as int + 0x1_0000 * s[2] as int + 0x100_0000 * s[3] as int
  {
    assert s[1..][1..] == s[2..] && s[2..][1..] == s[3..] && s[3..][1..] == [];
    assert FromLe(s[3..]) == s[3];
    assert FromLe(s[2..]) == s[2] as int + 0x100 * s[3] as int;
  }

  lemma EightLe(s: Bytes)
    requires |s| == 8
    ensures FromLe(s) == FromLe(s[..4]) + TWO32 * FromLe(s[4..])
  {
    var t := s[..4];
    FourLe(t);
    assert s[1..][1..] == s[2..] && s[2..][1..] == s[3..] && s[3..][1..] == s[4..];
    assert FromLe(s[3..]) == s[3] + 0x100 * FromLe(s[4..]);
    assert FromLe(s[2..]) == s[2] + 0x100 * FromLe(s[3..]);
    assert FromLe(s[1..]) == s[1] + 0x100 * FromLe(s[2..]);
  }

  // The number that stands at a place
  function NumberAt(b: Bytes, at: nat, count: nat): nat
    requires at + count <= |b|
  {
    FromLe(b[at..at + count])
  }

  lemma Pow4()
    ensures Pow256(4) == TWO32 && Pow256(8) == 0x1_0000_0000_0000_0000
  {
  }

  // The head: the letters TDUP, the format 2, the target, the version, the time as its two's complement
  lemma HeadIs(e: Envelope)
    ensures var b := Head(e);
            && |b| == 27 && b[..4] == [0x54, 0x44, 0x55, 0x50] && b[4..8] == [2, 0, 0, 0]
            && b[8..11] == [e.channel, e.os, e.arch]
            && NumberAt(b, 11, 8) == e.version
            && NumberAt(b, 19, 8) == e.created % 0x1_0000_0000_0000_0000
  {
    Pow4();
    SmallLe();
    hide Le, FromLe, Pow256;
    var (version, created) := (Le(e.version, 8), Le(AsUnsigned(e.created), 8));
    NumberOfBytes(e.version, 8);
    NumberOfBytes(AsUnsigned(e.created), 8);
    HeadPieces(MAGIC, [2, 0, 0, 0], [e.channel, e.os, e.arch], version, created);
  }

  lemma HeadPieces(magic: Bytes, format: Bytes, target: Bytes, version: Bytes, created: Bytes)
    requires |magic| == |format| == 4 && |target| == 3 && |version| == |created| == 8
    ensures var b := magic + format + target + version + created;
            && |b| == 27 && b[..4] == magic && b[4..8] == format && b[8..11] == target
            && b[11..19] == version && b[19..27] == created
  {
  }

  lemma SmallLe()
    ensures Le(2, 4) == [2, 0, 0, 0]
  {
    assert Le(0, 1) == [0] + Le(0, 0);
    assert Le(0, 2) == [0] + Le(0, 1);
    assert Le(0, 3) == [0] + Le(0, 2);
    assert Le(2, 4) == [2] + Le(0, 3);
  }

  // The bounds that a client sets
  lemma WithinIff(e: Envelope)
    ensures FitsIn(e, CLIENT_LIMITS) <==>
            && e.channel <= 3 && e.os <= 2 && e.arch <= 2
            && 1 <= |e.manifest| <= 0x4_0000 && 1 <= |e.manifestSignature| <= 0x100
            && |e.signatures| <= 16 && 1 <= |e.payload| <= 0x1000_0000
            && forall s :: s in e.signatures ==> 1 <= |s.keyId| <= 64 && 1 <= |s.bytes| <= 512
  {
  }

  // Behind the head come the manifest with its size, up to where the signed part ends, then its signature, the number
  // of signatures, these, and the payload, which is what is left.
  lemma LayoutIs(e: Envelope)
    requires FitsIn(e, CLIENT_LIMITS)
    ensures var (b, n, m) := (Build(e), |e.manifest|, |e.manifestSignature|);
            var (listed, size) := (SignatureBlobs(e.signatures), |e.payload|);
            && |b| == 43 + n + m + |listed| + size && b[..27] == Head(e)
            && NumberAt(b, 27, 4) == n && b[31..31 + n] == e.manifest && b[..31 + n] == Region(e)
            && NumberAt(b, 31 + n, 4) == m && b[35 + n..35 + n + m] == e.manifestSignature
            && NumberAt(b, 35 + n + m, 4) == |e.signatures|
            && b[39 + n + m..39 + n + m + |listed|] == listed
            && NumberAt(b, |b| - size - 4, 4) == size && b[|b| - size..] == e.payload
  {
    hide Le, FromLe, Head, SignatureBlobs, Pow256, Build, Region, FitsIn, Tail, Blob, Small;
    assert |Head(e)| == 27 by { HeadIs(e); }
    Pow4();
    WithinIff(e);
    var (n, m, size) := (|e.manifest|, |e.manifestSignature|, |e.payload|);
    NumberOfBytes(n, 4);
    NumberOfBytes(m, 4);
    NumberOfBytes(|e.signatures|, 4);
    NumberOfBytes(size, 4);
    assert n % TWO32 == n && m % TWO32 == m && |e.signatures| % TWO32 == |e.signatures| && size % TWO32 == size;
    assert ArePieces(Build(e), Head(e), Le(n, 4), e.manifest, Le(m, 4), e.manifestSignature, Le(|e.signatures|, 4),
                     SignatureBlobs(e.signatures), Le(size, 4), e.payload)
           && Region(e) == Head(e) + Le(n, 4) + e.manifest by {
      BuildIsPieces(e);
      BuildPieces(Head(e), Le(n, 4), e.manifest, Le(m, 4), e.manifestSignature, Le(|e.signatures|, 4),
                  SignatureBlobs(e.signatures), Le(size, 4), e.payload);
    }
  }

  lemma BuildIsPieces(e: Envelope)
    requires FitsIn(e, CLIENT_LIMITS)
    ensures Region(e) == Head(e) + Le(|e.manifest|, 4) + e.manifest
    ensures Build(e) == Head(e) + Le(|e.manifest|, 4) + e.manifest + Le(|e.manifestSignature|, 4) + e.manifestSignature
                        + Le(|e.signatures|, 4) + SignatureBlobs(e.signatures) + Le(|e.payload|, 4) + e.payload
  {
    hide Le, FromLe, Head, SignatureBlobs, Pow256;
  }

  predicate ArePieces(t: Bytes, head: Bytes, a: Bytes, manifest: Bytes, b: Bytes, signature: Bytes, c: Bytes,
                      listed: Bytes, d: Bytes, payload: Bytes)
    requires |head| == 27 && |a| == |b| == |c| == |d| == 4
  {
    var (n, m, l, size) := (|manifest|, |signature|, |listed|, |payload|);
    && |t| == 43 + n + m + l + size && t[..27] == head
    && t[27..31] == a && t[31..31 + n] == manifest && t[..31 + n] == head + a + manifest
    && t[31 + n..35 + n] == b && t[35 + n..35 + n + m] == signature && t[35 + n + m..39 + n + m] == c
    && t[39 + n + m..39 + n + m + l] == listed
    && t[|t| - size - 4..|t| - size] == d && t[|t| - size..] == payload
  }

  lemma BuildPieces(head: Bytes, a: Bytes, manifest: Bytes, b: Bytes, signature: Bytes, c: Bytes, listed: Bytes,
                    d: Bytes, payload: Bytes)
    requires |head| == 27 && |a| == |b| == |c| == |d| == 4
    ensures ArePieces(head + a + manifest + b + signature + c + listed + d + payload,
                      head, a, manifest, b, signature, c, listed, d, payload)
  {
    var front := head + a + manifest;
    var middle := front + b + signature + c;
    assert head + a + manifest + b + signature + c + listed + d + payload == middle + (listed + d + payload);
    assert middle == front + (b + signature + c);
  }

  // The newer one of the manifest that is carried and the one that is held
  function Used(carried: Manifest, held: Manifest): Manifest {
    if held.version < carried.version then carried else held
  }

  lemma FirstClientTakes(e: Envelope, f: Envelope, held: Manifest, crypto: Crypto, now: int)
    requires e == f.(signatures := e.signatures)
    ensures var carried := crypto.manifest(e.manifest, e.manifestSignature);
            Verified(Build(e), FirstClient(f, held), crypto, now).Some?
            <==> && carried.Some? && FitsIn(e, CLIENT_LIMITS) && e.version > 0
                 && IsEndorsed(Used(carried.value, held), e, crypto.hash, now)
  {
    hide Build, Verified, FitsIn, IsEndorsed;
    TakenIff(e, FirstClient(f, held), crypto, now);
  }

  // Nothing is endorsed without a hash of the payload, or without a signature.
  lemma EndorsedHasInput(m: Manifest, e: Envelope, hash: Bytes -> Bytes, now: int)
    requires IsEndorsed(m, e, hash, now)
    ensures hash(e.payload) != [] && e.signatures != []
  {
    hide Region;
    var group := m.channels[e.channel][0];
    var k :| 0 <= k < |m.keys| && KeyHasSigned(m, k, e, hash, now) && m.keys[k].id in group;
  }

  lemma SmallerFits(e: Envelope, signatures: seq<Signature>)
    requires FitsIn(e.(signatures := signatures), CLIENT_LIMITS)
    ensures FitsIn(e.(signatures := []), CLIENT_LIMITS)
    ensures forall s :: s in signatures ==> s.keyId != [] && s.bytes != []
  {
  }

  // The signature that a key makes of an envelope
  function MadeBy(e: Envelope, key: Key, hash: Bytes -> Bytes): Signature {
    Signature(key.id, key.sign(Region(e) + hash(e.payload)))
  }

  lemma LocalIs(e: Envelope, key: Key, hash: Bytes -> Bytes)
    ensures SignLocally(Parsed(e, Region(e)), key, hash) ==
            if hash(e.payload) == [] || MadeBy(e, key, hash).bytes == [] then None else Some(MadeBy(e, key, hash))
  {
    hide Region;
    InputIs(e, hash);
  }

  // An update is written in one pass exactly if it is within the bounds, has a version, and is endorsed with the one
  // signature by the manifest that it carries itself.
  lemma OnePassIff(e: Envelope, key: Key, crypto: Crypto, now: int)
    requires e.signatures == []
    ensures var (carried, signature) := (crypto.manifest(e.manifest, e.manifestSignature), MadeBy(e, key, crypto.hash));
            var signed := e.(signatures := [signature]);
            OnePass(e, key, crypto, now) ==
            if && carried.Some? && FitsIn(signed, CLIENT_LIMITS) && e.version > 0
               && IsEndorsed(carried.value, signed, crypto.hash, now)
            then Some(Build(signed))
            else None
  {
    hide Build, Verified, FitsIn, IsEndorsed, Region, SignLocally, SigningInput;
    var (carried, signature) := (crypto.manifest(e.manifest, e.manifestSignature), MadeBy(e, key, crypto.hash));
    var signed := e.(signatures := [signature]);
    LocalIs(e, key, crypto.hash);
    assert [] + [signature] == [signature];
    assert e == e.(signatures := []);
    if carried.Some? {
      FirstClientTakes(signed, e, carried.value, crypto, now);
      if FitsIn(signed, CLIENT_LIMITS) {
        SmallerFits(e, [signature]);
        assert signature in [signature];
      }
      if IsEndorsed(carried.value, signed, crypto.hash, now) {
        EndorsedHasInput(carried.value, signed, crypto.hash, now);
      }
    }
  }

  // Signatures are embedded in an unsigned update of the channel asked for exactly if it is within the bounds with all
  // of them, has a version, and is endorsed with them by the newer one of the two manifests.
  lemma EmbeddedIff(e: Envelope, channel: Option<Byte>, files: seq<Signature>, key: Option<Key>,
                    held: Option<Manifest>, crypto: Crypto, now: int)
    ensures var carried := crypto.manifest(e.manifest, e.manifestSignature);
            var signed := e.(signatures := files + if key.Some? then [MadeBy(e, key.value, crypto.hash)] else []);
            Embedded(Build(e), channel, files, key, held, crypto, now) ==
            if && e.signatures == [] && (channel == None || channel == Some(e.channel))
               && held.Some? && carried.Some? && FitsIn(signed, CLIENT_LIMITS) && e.version > 0
               && IsEndorsed(Used(carried.value, held.value), signed, crypto.hash, now)
            then Some(Build(signed))
            else None
  {
    hide Build, Verified, FitsIn, IsEndorsed, Region, SignLocally, SigningInput, Parse, Used;
    var all := files + if key.Some? then [MadeBy(e, key.value, crypto.hash)] else [];
    var signed := e.(signatures := all);
    ClientsParseIffFits(e);
    ListedIs(e, files, key, crypto.hash);
    if e.signatures == [] {
      assert e == e.(signatures := []);
      if FitsIn(signed, CLIENT_LIMITS) {
        SmallerFits(e, all);
      }
      if held.Some? {
        FirstClientTakes(signed, e, held.value, crypto, now);
        NeedsAll(e, files, key, held.value, crypto, now);
      }
    }
  }

  // The signatures to embed are those of the files and of the key, unless one of them is missing.
  lemma ListedIs(e: Envelope, files: seq<Signature>, key: Option<Key>, hash: Bytes -> Bytes)
    ensures var all := files + if key.Some? then [MadeBy(e, key.value, hash)] else [];
            AllSignatures(Parsed(e, Region(e)), files, key, hash) ==
            if && all != [] && (forall s :: s in all ==> s.bytes != [])
               && (key.Some? ==> key.value.id != [] && hash(e.payload) != [])
            then Some(all)
            else None
  {
    hide SignLocally, Region, MadeBy;
    var all := files + if key.Some? then [MadeBy(e, key.value, hash)] else [];
    if key.Some? {
      LocalIs(e, key.value, hash);
      assert all[|files|] == MadeBy(e, key.value, hash);
      assert forall s :: s in all <==> s in files || s == MadeBy(e, key.value, hash);
    } else {
      assert all == files;
    }
  }

  lemma NeedsAll(e: Envelope, files: seq<Signature>, key: Option<Key>, held: Manifest, crypto: Crypto, now: int)
    ensures var all := files + if key.Some? then [MadeBy(e, key.value, crypto.hash)] else [];
            var signed := e.(signatures := all);
            var carried := crypto.manifest(e.manifest, e.manifestSignature);
            && carried.Some? && FitsIn(signed, CLIENT_LIMITS)
            && IsEndorsed(Used(carried.value, held), signed, crypto.hash, now)
            ==>
            && all != [] && (forall s :: s in all ==> s.bytes != [])
            && (key.Some? ==> key.value.id != [] && crypto.hash(e.payload) != [])
  {
    hide FitsIn, IsEndorsed, Region;
    var all := files + if key.Some? then [MadeBy(e, key.value, crypto.hash)] else [];
    var signed := e.(signatures := all);
    var carried := crypto.manifest(e.manifest, e.manifestSignature);
    if FitsIn(signed, CLIENT_LIMITS) {
      SmallerFits(e, all);
      assert key.Some? ==> all[|files|] in all;
    }
    if carried.Some? && IsEndorsed(Used(carried.value, held), signed, crypto.hash, now) {
      EndorsedHasInput(Used(carried.value, held), signed, crypto.hash, now);
    }
  }

  // Whatever bytes signatures are embedded in are those of an envelope.
  lemma EmbeddedIsBuilt(bytes: Bytes, channel: Option<Byte>, files: seq<Signature>, key: Option<Key>,
                        held: Option<Manifest>, crypto: Crypto, now: int)
    requires Embedded(bytes, channel, files, key, held, crypto, now).Some?
    ensures Parse(bytes, CLIENT_LIMITS).Some? && bytes == Build(Parse(bytes, CLIENT_LIMITS).value.envelope)
  {
    hide Build, Parse, Region, Verified, FitsIn, SignLocally;
    ParseThenBuild(bytes, CLIENT_LIMITS);
  }
}
