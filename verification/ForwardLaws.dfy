/** Which items go out and which are left, and under which id and random number each of them goes. */
module ForwardLaws {
  import opened Wrappers
  import opened FlatMap
  import opened ForwardSpec
  import opened ForwardTheorems

  // The music saved to a profile is sent apart from everything else.
  lemma {:induction false} MusicIsApart(items: seq<Item>, item: Item)
    ensures item in Music(items) <==> item in items && item.savedMusic
    ensures item in NotMusic(items) <==> item in items && !item.savedMusic
  {
    if items != [] {
      var n := |items| - 1;
      MusicIsApart(items[..n], item);
      assert items == items[..n] + [items[n]];
    }
  }

  lemma {:induction false} MusicJoins(a: seq<Item>, b: seq<Item>)
    ensures Music(a + b) == Music(a) + Music(b) && NotMusic(a + b) == NotMusic(a) + NotMusic(b)
  {
    if b == [] {
      assert a + b == a;
    } else {
      var n := |b| - 1;
      assert (a + b)[..|a| + n] == a + b[..n];
      MusicJoins(a, b[..n]);
    }
  }

  // Just the ephemeral items without an id to forward are left out, and the others keep their order.
  lemma {:induction false} FoundAre(items: seq<Item>, item: Item)
    ensures multiset(Found(items))[item] == if item.ephemeral && item.lookupId == 0 then 0 else multiset(items)[item]
  {
    if items != [] {
      var n := |items| - 1;
      FoundAre(items[..n], item);
      assert items == items[..n] + [items[n]];
    }
  }

  lemma {:induction false} FoundJoins(a: seq<Item>, b: seq<Item>)
    ensures Found(a + b) == Found(a) + Found(b)
  {
    if b == [] {
      assert a + b == a;
    } else {
      var n := |b| - 1;
      assert (a + b)[..|a| + n] == a + b[..n];
      FoundJoins(a, b[..n]);
    }
  }

  // An item and the id, the random number, the peer and the kind it is forwarded with
  datatype Forward = Forward(from: Id, ephemeral: bool, id: Id, randomId: Id)

  function ForwardOf(item: Item, randomId: Id): Forward {
    Forward(item.peer, item.ephemeral, if item.ephemeral then item.lookupId else item.id, randomId)
  }

  function OfItems(items: seq<Item>, random: nat -> Id, k: nat): (all: seq<Forward>)
    ensures |all| == |items|
  {
    seq(|items|, i requires 0 <= i < |items| => ForwardOf(items[i], random(k + i)))
  }

  predicate IsWhole(batch: Batch) {
    |batch.ids| == |batch.randomIds|
  }

  function OfBatch(batch: Batch): seq<Forward>
    requires IsWhole(batch)
  {
    seq(|batch.ids|, i requires 0 <= i < |batch.ids| =>
      Forward(batch.from, batch.ephemeral, batch.ids[i], batch.randomIds[i]))
  }

  function OfBatches(batches: seq<Batch>): seq<Forward>
    requires forall k :: 0 <= k < |batches| ==> IsWhole(batches[k])
  {
    if batches == [] then [] else OfBatches(batches[..|batches| - 1]) + OfBatch(batches[|batches| - 1])
  }

  lemma BatchIs(group: Group, before: Sending, price: nat, random: nat -> Id)
    requires GroupInv(group)
    ensures var batches := Sent(before, group, price, random).batches;
            && IsWhole(batches[|before.batches|])
            && OfBatch(batches[|before.batches|]) == OfItems(group.items, random, before.drawn)
  {
    var batch := Sent(before, group, price, random).batches[|before.batches|];
    forall i | 0 <= i < |batch.ids|
      ensures OfBatch(batch)[i] == OfItems(group.items, random, before.drawn)[i]
    {
      assert group.items[i] in group.items;
    }
  }

  lemma {:induction false} BatchesAre(groups: seq<Group>, approved: nat, price: nat, random: nat -> Id)
    requires GroupsInv(groups)
    ensures var s := SentAll(groups, approved, price, random);
            && (forall k :: 0 <= k < |s.batches| ==> IsWhole(s.batches[k]))
            && s.drawn == |FlattenGroups(groups)|
            && OfBatches(s.batches) == OfItems(FlattenGroups(groups), random, 0)
  {
    hide GroupInv, Sent, IsWhole;
    if groups != [] {
      var n := |groups| - 1;
      BatchesAre(groups[..n], approved, price, random);
      var before := SentAll(groups[..n], approved, price, random);
      SentIsOneMore(before, groups[n], price, random);
      BatchIs(groups[n], before, price, random);
      var all := SentAll(groups, approved, price, random).batches;
      assert all[..n] == before.batches by { BatchCount(groups[..n], approved, price, random); }
      ItemsJoin(FlattenGroups(groups[..n]), groups[n].items, random, 0);
    }
  }

  lemma SentIsOneMore(before: Sending, group: Group, price: nat, random: nat -> Id)
    ensures var after := Sent(before, group, price, random);
            && |after.batches| == |before.batches| + 1 && after.batches[..|before.batches|] == before.batches
            && after.drawn == before.drawn + |group.items|
  {
  }

  lemma ItemsJoin(a: seq<Item>, b: seq<Item>, random: nat -> Id, k: nat)
    ensures OfItems(a + b, random, k) == OfItems(a, random, k) + OfItems(b, random, k + |a|)
  {
  }

  // The batches forward the found items one by one: each from its own peer, under the id that it is to be forwarded
  // under, and with the next random number.
  lemma EachItemIsForwarded(items: seq<Item>, approved: nat, price: nat, random: nat -> Id)
    ensures var s := Forwarded(Ranges(items), approved, price, random);
            && (forall k :: 0 <= k < |s.batches| ==> IsWhole(s.batches[k]))
            && OfBatches(s.batches) == OfItems(Found(items), random, 0)
  {
    hide Ranges, Groups, SentAll, Found, FlattenGroups, Flatten, RangesInv, GroupsInv;
    RangesAreFound(items);
    GroupsHoldRanges(Ranges(items));
    BatchesAre(Groups(Ranges(items)), approved, price, random);
  }
}
