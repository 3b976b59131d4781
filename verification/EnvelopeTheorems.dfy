/** The envelope layout is uniquely decodable, and signing changes the signature list only. */
module EnvelopeTheorems {
  import opened Wrappers
  import opened Words
  import opened Parsing
  import opened EnvelopeFormat
  import opened EnvelopeSpec

  lemma TimesRoundTrip(e: Envelope, rest: Bytes)
    ensures TakeTimes(e.channel, e.os, e.arch, Le(e.version, 8) + (Le(AsUnsigned(e.created), 8) + rest))
            == Some(Step(Start(e.channel, e.os, e.arch, e.version, e.created), rest))
  {
    hide Le, FromLe;
    assert Pow256(8) == 0x1_0000_0000_0000_0000;
    NumberRoundTrip(e.version, 8, Le(AsUnsigned(e.created), 8) + rest);
    NumberRoundTrip(AsUnsigned(e.created), 8, rest);
  }

  lemma StartRoundTrip(e: Envelope, rest: Bytes, l: Limits)
    requires e.channel <= l.channel && e.os <= l.os && e.arch <= l.arch
    ensures TakeStart(Head(e) + rest, l) == Some(Step(Start(e.channel, e.os, e.arch, e.version, e.created), rest))
  {
    hide Le, FromLe, TakeTimes;
    var times := Le(e.version, 8) + (Le(AsUnsigned(e.created), 8) + rest);
    var after := [e.channel, e.os, e.arch] + times;
    assert Head(e) + rest == MAGIC + (Le(FORMAT, 4) + after);
    assert Pow256(4) == TWO32;
    NumberRoundTrip(FORMAT, 4, after);
    assert after[1..] == [e.os, e.arch] + times;
    assert ([e.os, e.arch] + times)[1..] == [e.arch] + times;
    assert ([e.arch] + times)[1..] == times;
    TimesRoundTrip(e, rest);
  }

  lemma TargetUnique(s: Bytes, l: Limits)
    requires TakeTarget(s, l).Some?
    ensures var t := TakeTarget(s, l).value;
            && s == [t.value.0, t.value.1, t.value.2] + t.rest
            && t.value.0 <= l.channel && t.value.1 <= l.os && t.value.2 <= l.arch
  {
    assert s[1..][1..] == s[2..] && s[2..][1..] == s[3..];
  }

  lemma TimesUnique(s: Bytes, channel: Byte, os: Byte, arch: Byte)
    requires TakeTimes(channel, os, arch, s).Some?
    ensures var t := TakeTimes(channel, os, arch, s).value;
            && s == Le(t.value.version, 8) + (Le(AsUnsigned(t.value.created), 8) + t.rest)
            && t.value == Start(channel, os, arch, t.value.version, t.value.created)
  {
    hide Le, FromLe;
    NumberUnique(s, 8);
    NumberUnique(TakeNumber(s, 8).value.rest, 8);
    assert Pow256(8) == 0x1_0000_0000_0000_0000;
  }

  lemma StartUnique(s: Bytes, l: Limits, e: Envelope)
    requires TakeStart(s, l).Some?
    requires TakeStart(s, l).value.value == Start(e.channel, e.os, e.arch, e.version, e.created)
    ensures s == Head(e) + TakeStart(s, l).value.rest
    ensures e.channel <= l.channel && e.os <= l.os && e.arch <= l.arch
  {
    hide Le, FromLe, TakeNumber, TakeTarget, TakeTimes, Pow256;
    NumberUnique(s[4..], 4);
    var format := TakeNumber(s[4..], 4).value;
    TargetUnique(format.rest, l);
    var target := TakeTarget(format.rest, l).value;
    var t := target.value;
    TimesUnique(target.rest, t.0, t.1, t.2);
    var times := Le(e.version, 8) + (Le(AsUnsigned(e.created), 8) + TakeStart(s, l).value.rest);
    assert target.rest == times;
    assert s == MAGIC + (Le(FORMAT, 4) + ([t.0, t.1, t.2] + times)) by { assert s == s[..4] + s[4..]; }
  }

  lemma SignatureRoundTrip(s: Signature, rest: Bytes, l: Limits)
    requires Small(s.keyId, l.keyId) && Small(s.bytes, l.signature)
    ensures TakeSignature(Blob(s.keyId) + (Blob(s.bytes) + rest), l) == Some(Step(s, rest))
  {
    hide Blob, TakeBlob;
    BlobRoundTrip(s.keyId, Blob(s.bytes) + rest, l.keyId);
    BlobRoundTrip(s.bytes, rest, l.signature);
  }

  lemma NoSignatureBlobs()
    ensures SignatureBlobs([]) == []
  {
  }

  lemma SignatureBlobsBehind(s: Signature, more: seq<Signature>)
    ensures SignatureBlobs([s] + more) == Blob(s.keyId) + Blob(s.bytes) + SignatureBlobs(more)
  {
    hide Blob;
    assert ([s] + more)[1..] == more;
  }

  lemma {:induction false} SignaturesRoundTrip(signatures: seq<Signature>, rest: Bytes, l: Limits)
    requires forall s :: s in signatures ==> Small(s.keyId, l.keyId) && Small(s.bytes, l.signature)
    ensures TakeSignatures(SignatureBlobs(signatures) + rest, |signatures|, l) == Some(Step(signatures, rest))
  {
    hide SignatureBlobs, Blob, TakeSignature, Small;
    if signatures == [] {
      NoSignatureBlobs();
      assert [] + rest == rest;
    } else {
      var s, others := signatures[0], signatures[1..];
      var more := SignatureBlobs(others) + rest;
      SignaturesRoundTrip(others, rest, l);
      assert s in signatures;
      SignatureRoundTrip(s, more, l);
      assert signatures == [s] + others;
      SignatureBlobsBehind(s, others);
      Regrouped(Blob(s.keyId) + Blob(s.bytes), SignatureBlobs(others), rest);
      Regrouped(Blob(s.keyId), Blob(s.bytes), more);
    }
  }

  lemma SignatureUnique(s: Bytes, l: Limits)
    requires TakeSignature(s, l).Some?
    ensures var t := TakeSignature(s, l).value;
            && s == Blob(t.value.keyId) + Blob(t.value.bytes) + t.rest
            && Small(t.value.keyId, l.keyId) && Small(t.value.bytes, l.signature)
  {
    hide Blob, TakeBlob;
    BlobUnique(s, l.keyId);
    BlobUnique(TakeBlob(s, l.keyId).value.rest, l.signature);
  }

  lemma {:induction false} SignaturesUnique(s: Bytes, count: nat, l: Limits)
    requires TakeSignatures(s, count, l).Some?
    ensures var t := TakeSignatures(s, count, l).value;
            && s == SignatureBlobs(t.value) + t.rest && |t.value| == count
            && forall g :: g in t.value ==> Small(g.keyId, l.keyId) && Small(g.bytes, l.signature)
    decreases count
  {
    hide SignatureBlobs, TakeSignature, Small;
    if count == 0 {
      NoSignatureBlobs();
      assert s == [] + s;
    } else {
      SignatureUnique(s, l);
      var first := TakeSignature(s, l).value;
      SignaturesUnique(first.rest, count - 1, l);
      var more := TakeSignatures(first.rest, count - 1, l).value;
      SignatureBlobsBehind(first.value, more.value);
      Regrouped(Blob(first.value.keyId) + Blob(first.value.bytes), SignatureBlobs(more.value), more.rest);
    }
  }

  lemma ListRoundTrip(signatures: seq<Signature>, rest: Bytes, l: Limits)
    requires |signatures| <= l.count && |signatures| < TWO32
    requires forall s :: s in signatures ==> Small(s.keyId, l.keyId) && Small(s.bytes, l.signature)
    ensures TakeSignatureList(Le(|signatures| % TWO32, 4) + SignatureBlobs(signatures) + rest, l)
            == Some(Step(signatures, rest))
  {
    hide SignatureBlobs, TakeSignatures, TakeNumber, Small, FromLe, Le;
    var n, blobs := |signatures|, SignatureBlobs(signatures);
    assert Pow256(4) == TWO32;
    assert Le(n % TWO32, 4) + blobs + rest == Le(n, 4) + (blobs + rest) by { assert n % TWO32 == n; }
    NumberRoundTrip(n, 4, blobs + rest);
    SignaturesRoundTrip(signatures, rest, l);
  }

  lemma ListUnique(s: Bytes, l: Limits)
    requires TakeSignatureList(s, l).Some?
    ensures var t := TakeSignatureList(s, l).value;
            && s == Le(|t.value| % TWO32, 4) + SignatureBlobs(t.value) + t.rest
            && |t.value| <= l.count && |t.value| < TWO32
            && forall g :: g in t.value ==> Small(g.keyId, l.keyId) && Small(g.bytes, l.signature)
  {
    hide SignatureBlobs, TakeSignatures, FromLe, Le;
    assert Pow256(4) == TWO32;
    NumberUnique(s, 4);
    var count := TakeNumber(s, 4).value;
    SignaturesUnique(count.rest, count.value, l);
    var t := TakeSignatures(count.rest, count.value, l).value;
    assert s == Le(count.value, 4) + (SignatureBlobs(t.value) + t.rest);
  }

  // The reader recovers every field of what the writer wrote.
  lemma BuildThenParse(e: Envelope, l: Limits)
    requires FitsIn(e, l)
    ensures Parse(Build(e), l) == Some(Parsed(e, Region(e)))
  {
    var payload := Blob(e.payload) + [];
    var list := Le(|e.signatures| % TWO32, 4) + SignatureBlobs(e.signatures) + payload;
    var rest := Blob(e.manifestSignature) + list;
    assert Blob(e.payload) == payload;
    assert Tail(e) == rest;
    assert Build(e) == Head(e) + (Blob(e.manifest) + rest);
    StartRoundTrip(e, Blob(e.manifest) + rest, l);
    BlobRoundTrip(e.manifest, rest, l.manifest);
    BlobRoundTrip(e.manifestSignature, list, l.manifestSignature);
    ListRoundTrip(e.signatures, payload, l);
    BlobRoundTrip(e.payload, [], l.payload);
    assert Build(e)[..|Build(e)| - |rest|] == Region(e);
  }

  lemma BodyUnique(data: Bytes, start: Start, s: Bytes, l: Limits)
    requires ParseBody(data, start, s, l).Some?
    ensures var p := ParseBody(data, start, s, l).value;
            && s == Blob(p.envelope.manifest) + Tail(p.envelope) && p.signedRegion == Before(data, Tail(p.envelope))
            && start ==
               Start(p.envelope.channel, p.envelope.os, p.envelope.arch, p.envelope.version, p.envelope.created)
            && (p.envelope.channel <= l.channel && p.envelope.os <= l.os && p.envelope.arch <= l.arch
                ==> FitsIn(p.envelope, l))
  {
    hide Blob, TakeBlob, TakeSignatureList, Before, SignatureBlobs, Le;
    BlobUnique(s, l.manifest);
    var manifest := TakeBlob(s, l.manifest).value;
    BlobUnique(manifest.rest, l.manifestSignature);
    var manifestSignature := TakeBlob(manifest.rest, l.manifestSignature).value;
    ListUnique(manifestSignature.rest, l);
    var signatures := TakeSignatureList(manifestSignature.rest, l).value;
    BlobUnique(signatures.rest, l.payload);
    var e := ParseBody(data, start, s, l).value.envelope;
    assert signatures.rest == Blob(e.payload);
    assert manifest.rest == Tail(e);
  }

  // The reader accepts nothing but what the writer writes.
  lemma ParseThenBuild(data: Bytes, l: Limits)
    requires Parse(data, l).Some?
    ensures var p := Parse(data, l).value;
            Build(p.envelope) == data && p.signedRegion == Region(p.envelope) && FitsIn(p.envelope, l)
  {
    hide TakeStart, ParseBody, FitsIn, Head, Blob, Tail;
    var e := Parse(data, l).value.envelope;
    var start := TakeStart(data, l).value;
    BodyUnique(data, start.value, start.rest, l);
    StartUnique(data, l, e);
    assert data == Region(e) + Tail(e);
    assert data[..|data| - |Tail(e)|] == Region(e);
  }

  // A client recovers an envelope from its bytes exactly when the envelope is within the client's limits.
  lemma RecoveredIffFits(e: Envelope, l: Limits)
    ensures Parse(Build(e), l) == Some(Parsed(e, Region(e))) <==> FitsIn(e, l)
  {
    if FitsIn(e, l) {
      BuildThenParse(e, l);
    } else if Parse(Build(e), l).Some? {
      ParseThenBuild(Build(e), l);
    }
  }

  // Different envelopes have different bytes whenever their sizes fit in 32 bits.
  lemma BuildIsInjective(e: Envelope, f: Envelope)
    requires FitsIn(e, NO_LIMITS) && FitsIn(f, NO_LIMITS)
    ensures Build(e) == Build(f) <==> e == f
  {
    BuildThenParse(e, NO_LIMITS);
    BuildThenParse(f, NO_LIMITS);
  }

  // How large an envelope gets: at least as large as each of its parts, and not too large for 32 bits if it is within
  // the client's limits.
  lemma BlobLength(b: Bytes)
    ensures |Blob(b)| == 4 + |b|
  {
  }

  lemma {:induction false} SignaturesAreIn(signatures: seq<Signature>)
    ensures 8 * |signatures| <= |SignatureBlobs(signatures)|
    ensures forall s :: s in signatures ==> |s.keyId| + |s.bytes| <= |SignatureBlobs(signatures)|
  {
    hide Blob;
    if signatures != [] {
      SignaturesAreIn(signatures[1..]);
      BlobLength(signatures[0].keyId);
      BlobLength(signatures[0].bytes);
      assert forall s :: s in signatures ==> s == signatures[0] || s in signatures[1..];
    }
  }

  lemma OneMoreTimes(n: nat, most: nat)
    ensures (n + 1) * most == n * most + most
  {
  }

  lemma {:induction false} SignaturesAreSmall(signatures: seq<Signature>, most: nat)
    requires forall s :: s in signatures ==> |s.keyId| + |s.bytes| <= most
    ensures |SignatureBlobs(signatures)| <= |signatures| * (8 + most)
  {
    hide SignatureBlobs, Blob;
    if signatures == [] {
      NoSignatureBlobs();
    } else {
      var s, others := signatures[0], signatures[1..];
      SignaturesAreSmall(others, most);
      BlobLength(s.keyId);
      BlobLength(s.bytes);
      assert s in signatures;
      assert signatures == [s] + others;
      SignatureBlobsBehind(s, others);
      OneMoreTimes(|others|, 8 + most);
    }
  }

  lemma BuildLength(e: Envelope)
    ensures |Build(e)| == 27 + (4 + |e.manifest|) + (4 + |e.manifestSignature|) + (4 + |SignatureBlobs(e.signatures)|)
                          + (4 + |e.payload|)
  {
    hide Blob, SignatureBlobs, Le;
    BlobLength(e.manifest);
    BlobLength(e.manifestSignature);
    BlobLength(e.payload);
  }

  lemma ClientFilesAreSmall(e: Envelope)
    requires FitsIn(e, CLIENT_LIMITS)
    ensures |Build(e)| < TWO32
  {
    hide Build, SignatureBlobs;
    BuildLength(e);
    SignaturesAreSmall(e.signatures, 64 + 512);
    assert |e.signatures| * (8 + 64 + 512) <= 16 * (8 + 64 + 512);
  }

  lemma SmallFilesFit(e: Envelope)
    requires |Build(e)| < TWO32
    ensures FitsIn(e, NO_LIMITS)
  {
    hide Build, SignatureBlobs;
    BuildLength(e);
    SignaturesAreIn(e.signatures);
  }

  // Clients parse the bytes of an envelope, of whatever sizes, exactly when it is within their limits.
  lemma ClientsParseIffFits(e: Envelope)
    ensures Parse(Build(e), CLIENT_LIMITS) == if FitsIn(e, CLIENT_LIMITS) then Some(Parsed(e, Region(e))) else None
  {
    hide Build, Parse, Region, FitsIn;
    if FitsIn(e, CLIENT_LIMITS) {
      BuildThenParse(e, CLIENT_LIMITS);
    } else if Parse(Build(e), CLIENT_LIMITS).Some? {
      var f := Parse(Build(e), CLIENT_LIMITS).value.envelope;
      ParseThenBuild(Build(e), CLIENT_LIMITS);
      ClientFilesAreSmall(f);
      SmallFilesFit(e);
      SmallFilesFit(f);
      BuildIsInjective(e, f);
    }
  }

  // What is signed does not depend on the signatures, nor on the payload, whose hash is signed beside it.
  lemma SigningInputIsStable(e: Envelope, signatures: seq<Signature>)
    requires FitsIn(e, CLIENT_LIMITS) && FitsIn(e.(signatures := signatures), CLIENT_LIMITS)
    ensures Parse(Build(e), CLIENT_LIMITS).Some? && Parse(Build(e.(signatures := signatures)), CLIENT_LIMITS).Some?
    ensures Parse(Build(e), CLIENT_LIMITS).value.signedRegion
            == Parse(Build(e.(signatures := signatures)), CLIENT_LIMITS).value.signedRegion
  {
    BuildThenParse(e, CLIENT_LIMITS);
    BuildThenParse(e.(signatures := signatures), CLIENT_LIMITS);
  }
}
