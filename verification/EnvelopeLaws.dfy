/** What it means that a client takes an update, told from the envelope and the two manifests alone. */
module EnvelopeLaws {
  import opened Wrappers
  import opened Words
  import opened Parsing
  import opened EnvelopeFormat
  import opened EnvelopeSpec
  import opened EnvelopeTheorems
  import opened EnvelopeReader
  import opened EnvelopeVerify

  // Key k of the manifest is the first one with its id, is not revoked, is valid now, and has made one of these
  // signatures of the signed region and the hash of the payload.
  ghost predicate KeyHasSigned(m: Manifest, k: nat, e: Envelope, hash: Bytes -> Bytes, now: int)
    requires k < |m.keys|
  {
    && (forall j :: 0 <= j < k ==> m.keys[j].id != m.keys[k].id)
    && m.keys[k].id !in m.revoked && (m.keys[k].expires <= 0 || now < m.keys[k].expires)
    && hash(e.payload) != []
    && exists s :: s in e.signatures && s.keyId == m.keys[k].id
                   && m.keys[k].signed(Region(e) + hash(e.payload), s.bytes)
  }

  // Every group of the channel, of which there is one at least, has a key that has signed.
  ghost predicate IsEndorsed(m: Manifest, e: Envelope, hash: Bytes -> Bytes, now: int) {
    && e.channel in m.channels && |m.channels[e.channel]| > 0
    && forall g :: 0 <= g < |m.channels[e.channel]| ==>
         exists k :: 0 <= k < |m.keys| && KeyHasSigned(m, k, e, hash, now) && m.keys[k].id in m.channels[e.channel][g]
  }

  // Key k is what looking for its id finds.
  lemma {:induction false} FirstKeyIs(keys: seq<ManifestKey>, id: Bytes, k: nat)
    requires k < |keys| && keys[k].id == id && forall j :: 0 <= j < k ==> keys[j].id != id
    ensures FirstKey(keys, id) == Some(keys[k])
  {
    if k > 0 {
      FirstKeyIs(keys[1..], id, k - 1);
    }
  }

  lemma {:induction false} FirstKeyAt(keys: seq<ManifestKey>, id: Bytes) returns (k: nat)
    requires FirstKey(keys, id).Some?
    ensures k < |keys| && keys[k].id == id && FirstKey(keys, id) == Some(keys[k])
    ensures forall j :: 0 <= j < k ==> keys[j].id != id
  {
    if keys[0].id == id {
      k := 0;
    } else {
      k := FirstKeyAt(keys[1..], id);
      forall j | 0 <= j < k + 1
        ensures keys[j].id != id
      {
        assert j > 0 ==> keys[1..][j - 1] == keys[j];
      }
      k := k + 1;
    }
  }

  lemma RegionIsThere(e: Envelope)
    ensures Region(e) != []
  {
  }

  lemma InputIs(e: Envelope, hash: Bytes -> Bytes)
    ensures SigningInput(Parsed(e, Region(e)), hash)
            == (if hash(e.payload) == [] then [] else Region(e) + hash(e.payload))
    ensures hash(e.payload) != [] ==> Region(e) + hash(e.payload) != []
  {
    hide Region;
    RegionIsThere(e);
  }

  lemma SignedByIff(m: Manifest, id: Bytes, e: Envelope, hash: Bytes -> Bytes, now: int)
    ensures SignedBy(m, id, SigningInput(Parsed(e, Region(e)), hash), e.signatures, now)
            <==> exists k :: 0 <= k < |m.keys| && KeyHasSigned(m, k, e, hash, now) && m.keys[k].id == id
  {
    hide FirstKey, Region;
    InputIs(e, hash);
    if SignedBy(m, id, SigningInput(Parsed(e, Region(e)), hash), e.signatures, now) {
      var k := FirstKeyAt(m.keys, id);
      assert KeyHasSigned(m, k, e, hash, now);
    }
    forall k | 0 <= k < |m.keys| && KeyHasSigned(m, k, e, hash, now) && m.keys[k].id == id
      ensures SignedBy(m, id, SigningInput(Parsed(e, Region(e)), hash), e.signatures, now)
    {
      FirstKeyIs(m.keys, id, k);
    }
  }

  lemma EndorsedIff(m: Manifest, e: Envelope, hash: Bytes -> Bytes, now: int)
    ensures Authorizes(m, e.channel, SigningInput(Parsed(e, Region(e)), hash), e.signatures, now)
            <==> IsEndorsed(m, e, hash, now)
  {
    hide SignedBy, KeyHasSigned, SigningInput, Region;
    var input := SigningInput(Parsed(e, Region(e)), hash);
    forall id
      ensures SignedBy(m, id, input, e.signatures, now)
              <==> exists k :: 0 <= k < |m.keys| && KeyHasSigned(m, k, e, hash, now) && m.keys[k].id == id
    {
      SignedByIff(m, id, e, hash, now);
    }
    if e.channel in m.channels {
      var groups := m.channels[e.channel];
      forall g | 0 <= g < |groups|
        ensures Satisfied(m, groups[g], input, e.signatures, now)
                <==> exists k :: 0 <= k < |m.keys| && KeyHasSigned(m, k, e, hash, now) && m.keys[k].id in groups[g]
      {
        GroupIff(m, groups[g], e, hash, now);
      }
      assert forall g :: 0 <= g < |groups| ==> groups[g] in groups;
    }
  }

  lemma GroupIff(m: Manifest, group: seq<Bytes>, e: Envelope, hash: Bytes -> Bytes, now: int)
    ensures Satisfied(m, group, SigningInput(Parsed(e, Region(e)), hash), e.signatures, now)
            <==> exists k :: 0 <= k < |m.keys| && KeyHasSigned(m, k, e, hash, now) && m.keys[k].id in group
  {
    hide SignedBy, KeyHasSigned, SigningInput, Region;
    var input := SigningInput(Parsed(e, Region(e)), hash);
    if Satisfied(m, group, input, e.signatures, now) {
      var id :| id in group && SignedBy(m, id, input, e.signatures, now);
      SignedByIff(m, id, e, hash, now);
    }
    forall k | 0 <= k < |m.keys| && KeyHasSigned(m, k, e, hash, now) && m.keys[k].id in group
      ensures Satisfied(m, group, input, e.signatures, now)
    {
      SignedByIff(m, m.keys[k].id, e, hash, now);
      assert SignedBy(m, m.keys[k].id, input, e.signatures, now);
    }
  }

  // The channel of the update is the client's own, or one that it may come from.
  ghost predicate IsOffered(e: Envelope, c: Client) {
    || e.channel == c.channel
    || (c.channel == 0 && c.betaSet && e.channel == 1)
    || (c.channel == 1 && e.channel == 0)
    || (c.channel == 2 && e.channel in {0, 1} && e.version / 0x1_0000_0000 > c.running / 0x1_0000_0000)
  }

  // A client takes the bytes of an envelope exactly when they are for its system, are offered to it, are newer than
  // what runs, carry a root-signed manifest, and are endorsed by the manifest that counts.
  lemma TakenIff(e: Envelope, c: Client, crypto: Crypto, now: int)
    ensures var carried := crypto.manifest(e.manifest, e.manifestSignature);
            var taken := Verified(Build(e), c, crypto, now);
            && (taken.Some? ==> carried.Some?)
            && (carried.Some? ==>
                  var adopt := c.held.None? || c.held.value.version < carried.value.version;
                  var used := if adopt then carried.value else c.held.value;
                  if && FitsIn(e, CLIENT_LIMITS) && e.os == c.os && e.arch == c.arch && IsOffered(e, c)
                     && e.version > c.running && IsEndorsed(used, e, crypto.hash, now)
                  then taken == Some(VerifiedUpdate(e, used, adopt))
                  else taken == None)
  {
    hide Build, Parse, Region, Authorizes, IsEndorsed, SigningInput;
    ClientsParseIffFits(e);
    var carried := crypto.manifest(e.manifest, e.manifestSignature);
    if carried.Some? {
      EndorsedIff(Trusted(carried.value, c.held), e, crypto.hash, now);
    }
  }

  // Whatever bytes are taken are those of the envelope that was taken.
  lemma TakenIsBuilt(data: Bytes, c: Client, crypto: Crypto, now: int)
    requires Verified(data, c, crypto, now).Some?
    ensures data == Build(Verified(data, c, crypto, now).value.envelope)
  {
    hide Build, Parse, Region, Authorizes, SigningInput, FitsIn;
    ParseThenBuild(data, CLIENT_LIMITS);
  }

  lemma EndorsedIsSigned(m: Manifest, e: Envelope, hash: Bytes -> Bytes, now: int)
    requires IsEndorsed(m, e, hash, now)
    ensures exists s :: s in e.signatures && s.keyId !in m.revoked
  {
    hide Region;
    var group := m.channels[e.channel][0];
    var k :| 0 <= k < |m.keys| && KeyHasSigned(m, k, e, hash, now) && m.keys[k].id in group;
  }

  // So an update is refused that nobody has signed, or that is not newer than what runs, or whose signatures are all
  // by keys that the manifest that counts has revoked.
  lemma UnsignedIsRefused(e: Envelope, c: Client, crypto: Crypto, now: int)
    requires e.signatures == [] || e.version <= c.running
    ensures Verified(Build(e), c, crypto, now) == None
  {
    hide Build, Verified, FitsIn, IsEndorsed;
    TakenIff(e, c, crypto, now);
    if Verified(Build(e), c, crypto, now).Some? {
      EndorsedIsSigned(Verified(Build(e), c, crypto, now).value.manifest, e, crypto.hash, now);
    }
  }

  lemma RevokedIsRefused(e: Envelope, c: Client, crypto: Crypto, now: int)
    requires c.held.Some? && forall s :: s in e.signatures ==> s.keyId in c.held.value.revoked
    requires var carried := crypto.manifest(e.manifest, e.manifestSignature);
             carried.Some? ==> carried.value.version <= c.held.value.version
    ensures Verified(Build(e), c, crypto, now) == None
  {
    hide Build, Verified, FitsIn, IsEndorsed;
    TakenIff(e, c, crypto, now);
    if Verified(Build(e), c, crypto, now).Some? {
      EndorsedIsSigned(Verified(Build(e), c, crypto, now).value.manifest, e, crypto.hash, now);
    }
  }
}
