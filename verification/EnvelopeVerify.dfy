/** What a client asks of an update before it takes it, which the packer asks too of what it has packed. */
module EnvelopeVerify {
  import opened Wrappers
  import opened Words
  import opened Parsing
  import opened EnvelopeFormat
  import opened EnvelopeSpec
  import opened EnvelopeReader

  type Version = v: nat | 1 <= v < 0x1_0000_0000 witness 1

  // A key knows which signatures of which inputs are its own; zero means that it never expires.
  datatype ManifestKey = ManifestKey(id: Bytes, expires: int, signed: (Bytes, Bytes) -> bool)

  // A channel has groups of key ids, each of which needs a signature by one of its keys.
  datatype Manifest = Manifest(
    version: Version, keys: seq<ManifestKey>, channels: map<Byte, seq<seq<Bytes>>>, revoked: seq<Bytes>)

  // Reading a manifest that is signed by the root key, and hashing a payload; an empty hash is a failure.
  datatype Crypto = Crypto(manifest: (Bytes, Bytes) -> Option<Manifest>, hash: Bytes -> Bytes)

  function SigningInput(p: Parsed, hash: Bytes -> Bytes): Bytes {
    var payload := hash(p.envelope.payload);
    if payload == [] || p.signedRegion == [] then [] else p.signedRegion + payload
  }

  // Which channels may update which
  const STABLE: Byte := 0
  const BETA: Byte := 1
  const CANARY_PUBLIC: Byte := 2
  const CANARY_PRIVATE: Byte := 3

  function VersionBase(version: U64): nat {
    version / 0x1_0000_0000
  }

  predicate PolicyAllows(build: Byte, betaSet: bool, package: Byte, version: U64, running: U64) {
    || (package == build && build <= CANARY_PRIVATE)
    || (build == STABLE && betaSet && package == BETA)
    || (build == BETA && package == STABLE)
    || (build == CANARY_PUBLIC && package <= BETA && VersionBase(version) > VersionBase(running))
  }

  method ChannelPolicyAllows(build: Byte, betaSet: bool, package: Byte, version: U64, running: U64)
      returns (allows: bool)
    ensures allows <==> PolicyAllows(build, betaSet, package, version, running)
  {
    if build == STABLE {
      return package == STABLE || (betaSet && package == BETA);
    } else if build == BETA {
      return package == STABLE || package == BETA;
    } else if build == CANARY_PUBLIC {
      return package == CANARY_PUBLIC
          || ((package == STABLE || package == BETA) && VersionBase(version) > VersionBase(running));
    } else if build == CANARY_PRIVATE {
      return package == CANARY_PRIVATE;
    }
    allows := false;
  }

  // A key counts if it is the first of its id, and neither revoked nor expired.
  function FirstKey(keys: seq<ManifestKey>, id: Bytes): Option<ManifestKey> {
    if keys == [] then None else if keys[0].id == id then Some(keys[0]) else FirstKey(keys[1..], id)
  }

  predicate Counts(m: Manifest, id: Bytes, now: int) {
    && id !in m.revoked && FirstKey(m.keys, id).Some?
    && !(0 < FirstKey(m.keys, id).value.expires <= now)
  }

  predicate HasSigned(key: ManifestKey, id: Bytes, input: Bytes, signatures: seq<Signature>) {
    exists s :: s in signatures && s.keyId == id && input != [] && key.signed(input, s.bytes)
  }

  predicate SignedBy(m: Manifest, id: Bytes, input: Bytes, signatures: seq<Signature>, now: int) {
    Counts(m, id, now) && HasSigned(FirstKey(m.keys, id).value, id, input, signatures)
  }

  predicate Satisfied(m: Manifest, group: seq<Bytes>, input: Bytes, signatures: seq<Signature>, now: int) {
    exists id :: id in group && SignedBy(m, id, input, signatures, now)
  }

  predicate Authorizes(m: Manifest, channel: Byte, input: Bytes, signatures: seq<Signature>, now: int) {
    && channel in m.channels && m.channels[channel] != []
    && forall group :: group in m.channels[channel] ==> Satisfied(m, group, input, signatures, now)
  }

  method IsRevoked(m: Manifest, id: Bytes) returns (revoked: bool)
    ensures revoked <==> id in m.revoked
  {
    for i := 0 to |m.revoked|
      invariant id !in m.revoked[..i]
    {
      if m.revoked[i] == id {
        return true;
      }
    }
    revoked := false;
  }

  method FindKey(m: Manifest, id: Bytes) returns (key: Option<ManifestKey>)
    ensures key == FirstKey(m.keys, id)
  {
    for i := 0 to |m.keys|
      invariant FirstKey(m.keys, id) == FirstKey(m.keys[i..], id)
    {
      if m.keys[i].id == id {
        return Some(m.keys[i]);
      }
      assert m.keys[i..][1..] == m.keys[i + 1..];
    }
    key := None;
  }

  method VerifySignatures(key: ManifestKey, id: Bytes, input: Bytes, signatures: seq<Signature>) returns (ok: bool)
    ensures ok <==> HasSigned(key, id, input, signatures)
  {
    for i := 0 to |signatures|
      invariant !HasSigned(key, id, input, signatures[..i])
    {
      var s := signatures[i];
      if s.keyId == id && input != [] && key.signed(input, s.bytes) {
        return true;
      }
    }
    assert signatures[..|signatures|] == signatures;
    ok := false;
  }

  method IsSatisfied(m: Manifest, group: seq<Bytes>, input: Bytes, signatures: seq<Signature>, now: int)
      returns (satisfied: bool)
    ensures satisfied <==> Satisfied(m, group, input, signatures, now)
  {
    hide FirstKey, HasSigned;
    for i := 0 to |group|
      invariant !Satisfied(m, group[..i], input, signatures, now)
    {
      var revoked := IsRevoked(m, group[i]);
      if revoked {
        continue;
      }
      var key := FindKey(m, group[i]);
      if key.None? || (key.value.expires > 0 && key.value.expires <= now) {
        continue;
      }
      var ok := VerifySignatures(key.value, group[i], input, signatures);
      if ok {
        assert group[i] in group && SignedBy(m, group[i], input, signatures, now);
        return true;
      }
    }
    assert group[..|group|] == group;
    satisfied := false;
  }

  method VerifyChannelAuthorization(m: Manifest, channel: Byte, input: Bytes, signatures: seq<Signature>, now: int)
      returns (ok: bool)
    ensures ok <==> Authorizes(m, channel, input, signatures, now)
  {
    hide Satisfied;
    if channel !in m.channels || m.channels[channel] == [] {
      return false;
    }
    var groups := m.channels[channel];
    for i := 0 to |groups|
      invariant forall group :: group in groups[..i] ==> Satisfied(m, group, input, signatures, now)
    {
      var satisfied := IsSatisfied(m, groups[i], input, signatures, now);
      if !satisfied {
        return false;
      }
    }
    assert groups[..|groups|] == groups;
    ok := true;
  }

  // A client: what it runs, for which target, and the manifest it holds
  datatype Client = Client(channel: Byte, betaSet: bool, os: Byte, arch: Byte, running: U64, held: Option<Manifest>)

  datatype VerifiedUpdate = VerifiedUpdate(envelope: Envelope, manifest: Manifest, adopt: bool)

  // The newer of the manifest carried and the one held is what counts.
  function Trusted(carried: Manifest, held: Option<Manifest>): Manifest {
    if held.None? || carried.version > held.value.version then carried else held.value
  }

  function Verified(data: Bytes, c: Client, crypto: Crypto, now: int): Option<VerifiedUpdate> {
    var p :- Parse(data, CLIENT_LIMITS);
    var e := p.envelope;
    var carried :- crypto.manifest(e.manifest, e.manifestSignature);
    var trusted := Trusted(carried, c.held);
    if && (e.os, e.arch) == (c.os, c.arch) && PolicyAllows(c.channel, c.betaSet, e.channel, e.version, c.running)
       && Authorizes(trusted, e.channel, SigningInput(p, crypto.hash), e.signatures, now) && e.version > c.running
    then Some(VerifiedUpdate(e, trusted, c.held.None? || carried.version > c.held.value.version))
    else None
  }

  // The manifest held is used only if the one carried is not newer than it: then there is one, as versions are
  // positive.
  method VerifyUpdate(data: Bytes, c: Client, crypto: Crypto, now: int) returns (result: Option<VerifiedUpdate>)
    ensures result == Verified(data, c, crypto, now)
  {
    hide Parse, Authorizes, PolicyAllows, SigningInput;
    var parsed := ParseEnvelope(data);
    if parsed.None? {
      return None;
    }
    var e := parsed.value.envelope;
    if e.os != c.os || e.arch != c.arch {
      return None;
    }
    var carried := crypto.manifest(e.manifest, e.manifestSignature);
    if carried.None? {
      return None;
    }
    var heldVersion := if c.held.Some? then c.held.value.version else 0;
    var adopt := carried.value.version > heldVersion;
    var manifest := if adopt then carried.value else c.held.value;
    var allows := ChannelPolicyAllows(c.channel, c.betaSet, e.channel, e.version, c.running);
    if !allows {
      return None;
    }
    var input := SigningInput(parsed.value, crypto.hash);
    var authorized := VerifyChannelAuthorization(manifest, e.channel, input, e.signatures, now);
    if !authorized || e.version <= c.running {
      return None;
    }
    result := Some(VerifiedUpdate(e, manifest, adopt));
  }
}
