/** The hashes of the sticker set orders, counted over the sets that are known. */
module StickerHash {
  import opened ListHash

  const DEFAULT_SET_ID: Word64 := 0

  datatype StickerSet = StickerSet(id: Word64, hash: Word64, special: bool, archived: bool, unread: bool)

  type Sets = map<Word64, StickerSet>

  // What one id of an order contributes to the hash.
  predicate Visible(sets: Sets, id: Word64) {
    id in sets && sets[id].id != DEFAULT_SET_ID && !sets[id].special && !sets[id].archived
  }

  predicate Outdated(sets: Sets, order: seq<Word64>) {
    exists id :: id in order && id in sets && sets[id].id == DEFAULT_SET_ID
  }

  function VisibleHashes(sets: Sets, order: seq<Word64>): seq<Word64> {
    if order == [] then []
    else
      var (front, last) := (order[..|order| - 1], order[|order| - 1]);
      VisibleHashes(sets, front) + if Visible(sets, last) then [sets[last].hash] else []
  }

  lemma {:induction false} VisibleConcat(sets: Sets, a: seq<Word64>, b: seq<Word64>)
    ensures VisibleHashes(sets, a + b) == VisibleHashes(sets, a) + VisibleHashes(sets, b)
  {
    if b == [] {
      assert a + b == a;
    } else {
      VisibleConcat(sets, a, b[..|b| - 1]);
      assert (a + b)[..|a + b| - 1] == a + b[..|b| - 1];
    }
  }

  lemma VisibleStep(sets: Sets, order: seq<Word64>, i: nat)
    requires i < |order|
    ensures VisibleHashes(sets, order[..i + 1]) ==
            if Visible(sets, order[i]) then VisibleHashes(sets, order[..i]) + [sets[order[i]].hash]
            else VisibleHashes(sets, order[..i])
    ensures Outdated(sets, order[..i + 1]) <==>
            Outdated(sets, order[..i]) || (order[i] in sets && sets[order[i]].id == DEFAULT_SET_ID)
  {
    assert order[..i + 1] == order[..i] + [order[i]];
    VisibleConcat(sets, order[..i], [order[i]]);
    assert [order[i]][..0] == [];
    assert forall id :: id in order[..i + 1] <==> id in order[..i] || id == order[i];
  }

  lemma {:induction false} VisibleUnchanged(sets: Sets, other: Sets, order: seq<Word64>)
    requires forall id :: id in order ==> (id in sets <==> id in other) && (id in sets ==> sets[id] == other[id])
    ensures VisibleHashes(sets, order) == VisibleHashes(other, order)
  {
    if order != [] {
      assert order[|order| - 1] in order;
      VisibleUnchanged(sets, other, order[..|order| - 1]);
    }
  }

  // A change of one visible set's hash always changes the hash of an order that lists it once.
  lemma ChangeIsSeen(sets: Sets, other: Sets, before: seq<Word64>, id: Word64, after: seq<Word64>)
    requires id !in before && id !in after && Visible(sets, id) && Visible(other, id)
    requires forall k :: k in before + after ==> (k in sets <==> k in other) && (k in sets ==> sets[k] == other[k])
    ensures Hash(VisibleHashes(sets, before + [id] + after)) == Hash(VisibleHashes(other, before + [id] + after))
            <==> sets[id].hash == other[id].hash
  {
    VisibleConcat(sets, before + [id], after);
    VisibleConcat(sets, before, [id]);
    VisibleConcat(other, before + [id], after);
    VisibleConcat(other, before, [id]);
    VisibleUnchanged(sets, other, before);
    VisibleUnchanged(sets, other, after);
    assert VisibleHashes(sets, [id]) == [sets[id].hash] && VisibleHashes(other, [id]) == [other[id].hash];
    var (p, s) := (VisibleHashes(sets, before), VisibleHashes(sets, after));
    OneValueFits(p, sets[id].hash, s, Hash(p + [other[id].hash] + s));
    OneValueFits(p, other[id].hash, s, Hash(p + [other[id].hash] + s));
  }

  lemma NothingVisible(sets: Sets, order: seq<Word64>)
    ensures Hash(VisibleHashes(sets, order[..0])) == 0 && !Outdated(sets, order[..0])
  {
  }

  method CountStickersOrderHash(sets: Sets, order: seq<Word64>, checkOutdatedInfo: bool) returns (h: Word64)
    ensures h == if checkOutdatedInfo && Outdated(sets, order) then 0 else Hash(VisibleHashes(sets, order))
  {
    hide VisibleHashes, Outdated, Hash;
    NothingVisible(sets, order);
    var result: Word64 := 0;
    var foundOutdated := false;
    for i := 0 to |order|
      invariant result == Hash(VisibleHashes(sets, order[..i]))
      invariant foundOutdated <==> Outdated(sets, order[..i])
    {
      VisibleStep(sets, order, i);
      if order[i] in sets {
        var set_ := sets[order[i]];
        if set_.id == DEFAULT_SET_ID {
          foundOutdated := true;
        } else if !set_.special && !set_.archived {
          result := HashAppend(result, set_.hash, VisibleHashes(sets, order[..i]));
        }
      }
    }
    assert order[..|order|] == order;
    h := if !checkOutdatedInfo || !foundOutdated then result else 0;
  }

  // A featured set contributes its id, and a one while it is unread.
  function Entry(sets: Sets, id: Word64): seq<Word64> {
    if id in sets && sets[id].unread then [id, 1] else [id]
  }

  function Featured(sets: Sets, order: seq<Word64>): seq<Word64> {
    if order == [] then [] else Featured(sets, order[..|order| - 1]) + Entry(sets, order[|order| - 1])
  }

  // Reading one featured set changes the hash unless the state after its id is a fixed point of hashing a one.
  lemma ReadingIsSeen(before: seq<Word64>, id: Word64, after: seq<Word64>)
    ensures Hash(before + [id, 1] + after) == Hash(before + [id] + after)
            <==> Update(Hash(before + [id]), 1) == Hash(before + [id])
  {
    CommonSuffix(before + [id, 1], before + [id], after);
    assert (before + [id, 1])[..|before| + 1] == before + [id];
  }

  lemma FeaturedStep(sets: Sets, order: seq<Word64>, i: nat)
    requires i < |order|
    ensures var (flat, id) := (Featured(sets, order[..i]), order[i]);
            Featured(sets, order[..i + 1]) == if id in sets && sets[id].unread then flat + [id] + [1] else flat + [id]
  {
    assert order[..i + 1][..i] == order[..i];
    var (flat, id) := (Featured(sets, order[..i]), order[i]);
    assert flat + [id, 1] == flat + [id] + [1];
  }

  lemma NothingFeatured(sets: Sets, order: seq<Word64>)
    ensures Hash(Featured(sets, order[..0])) == 0
  {
  }

  method CountFeaturedHash(sets: Sets, order: seq<Word64>) returns (result: Word64)
    ensures result == Hash(Featured(sets, order))
  {
    hide Featured, Hash;
    NothingFeatured(sets, order);
    result := 0;
    for i := 0 to |order|
      invariant result == Hash(Featured(sets, order[..i]))
    {
      FeaturedStep(sets, order, i);
      var id := order[i];
      ghost var flat := Featured(sets, order[..i]);
      result := HashAppend(result, id, flat);
      if id in sets && sets[id].unread {
        result := HashAppend(result, 1, flat + [id]);
      }
    }
    assert order[..|order|] == order;
  }
}
