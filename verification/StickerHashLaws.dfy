/** Which sets of an order its hash depends on, and when a change of one of them can be seen. */
module StickerHashLaws {
  import opened ListHash
  import opened StickerHash

  // A set counts if it is known, an ordinary one, and not archived.
  predicate Counts(sets: Sets, id: Word64) {
    id in sets && sets[id].id != 0 && !sets[id].special && !sets[id].archived
  }

  // One place of an order adds the hash of its set, or nothing.
  lemma PlaceIs(sets: Sets, before: seq<Word64>, id: Word64, after: seq<Word64>)
    ensures VisibleHashes(sets, before + [id] + after) ==
            VisibleHashes(sets, before) + (if Counts(sets, id) then [sets[id].hash] else [])
            + VisibleHashes(sets, after)
  {
    VisibleConcat(sets, before + [id], after);
    VisibleConcat(sets, before, [id]);
    assert VisibleHashes(sets, [id][..0]) == [];
  }

  // A set that does not count may come and go, and an order without such sets has the hashes of all of its sets.
  lemma HiddenIsNothing(sets: Sets, before: seq<Word64>, id: Word64, after: seq<Word64>)
    requires !Counts(sets, id)
    ensures VisibleHashes(sets, before + [id] + after) == VisibleHashes(sets, before + after)
  {
    PlaceIs(sets, before, id, after);
    VisibleConcat(sets, before, after);
  }

  lemma {:induction false} AllCount(sets: Sets, order: seq<Word64>, i: nat)
    requires i < |order| && forall k :: 0 <= k < |order| ==> Counts(sets, order[k])
    ensures |VisibleHashes(sets, order)| == |order|
    ensures order[i] in sets && VisibleHashes(sets, order)[i] == sets[order[i]].hash
  {
    assert Counts(sets, order[i]);
    var n := |order| - 1;
    if n > 0 {
      AllCount(sets, order[..n], if i < n then i else 0);
    }
  }

  // Archiving a set that counts, or making it special, changes the hash of an order that lists it once, unless its own
  // hash leaves the state it comes to as it is.
  lemma HidingIsSeen(sets: Sets, other: Sets, before: seq<Word64>, id: Word64, after: seq<Word64>)
    requires id !in before && id !in after && Counts(sets, id) && !Counts(other, id)
    requires forall k :: k in before + after ==> (k in sets <==> k in other) && (k in sets ==> sets[k] == other[k])
    ensures var state := Hash(VisibleHashes(sets, before));
            Hash(VisibleHashes(sets, before + [id] + after)) == Hash(VisibleHashes(other, before + [id] + after))
            <==> Update(state, sets[id].hash) == state
  {
    hide Update;
    PlaceIs(sets, before, id, after);
    PlaceIs(other, before, id, after);
    VisibleUnchanged(sets, other, before);
    VisibleUnchanged(sets, other, after);
    var (p, s) := (VisibleHashes(sets, before), VisibleHashes(sets, after));
    assert p + [] == p;
    CommonSuffix(p + [sets[id].hash], p, s);
    assert (p + [sets[id].hash])[..|p|] == p;
  }

  // One place of the featured order adds its id, and a one after it exactly while its set is known and unread.
  lemma {:induction false} FeaturedJoins(sets: Sets, a: seq<Word64>, b: seq<Word64>)
    ensures Featured(sets, a + b) == Featured(sets, a) + Featured(sets, b)
  {
    if b == [] {
      assert a + b == a;
    } else {
      var n := |b| - 1;
      assert (a + b)[..|a| + n] == a + b[..n];
      FeaturedJoins(sets, a, b[..n]);
    }
  }

  lemma FeaturedPlaceIs(sets: Sets, before: seq<Word64>, id: Word64, after: seq<Word64>)
    ensures Featured(sets, before + [id] + after) ==
            Featured(sets, before) + [id] + (if id in sets && sets[id].unread then [1] else [])
            + Featured(sets, after)
  {
    FeaturedJoins(sets, before + [id], after);
    FeaturedJoins(sets, before, [id]);
    var entry := [id] + if id in sets && sets[id].unread then [1] else [];
    assert Featured(sets, [id]) == entry by { FeaturedStep(sets, [id], 0); }
    hide Featured;
    assert Featured(sets, before) + entry
      == Featured(sets, before) + [id] + if id in sets && sets[id].unread then [1] else [];
  }
}
