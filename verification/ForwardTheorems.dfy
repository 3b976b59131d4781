/** The batches hold the items in order, each from one peer, and cost what the items cost however they are split. */
module ForwardTheorems {
  import opened Wrappers
  import opened FlatMap
  import opened ForwardSpec

  function Flatten(ranges: seq<Range>): seq<Item> {
    if ranges == [] then [] else Flatten(ranges[..|ranges| - 1]) + ranges[|ranges| - 1].items
  }

  function FlattenGroups(groups: seq<Group>): seq<Item> {
    if groups == [] then [] else FlattenGroups(groups[..|groups| - 1]) + groups[|groups| - 1].items
  }

  lemma {:induction false} FlattenGroupsConcat(a: seq<Group>, b: seq<Group>)
    ensures FlattenGroups(a + b) == FlattenGroups(a) + FlattenGroups(b)
  {
    if b == [] {
      assert a + b == a;
    } else {
      hide FlattenGroups;
      var front, last := b[..|b| - 1], b[|b| - 1];
      FlattenGroupsConcat(a, front);
      assert b == front + [last] && a + b == (a + front) + [last];
      LastFlattened(front, last);
      LastFlattened(a + front, last);
      Regrouped(FlattenGroups(a), FlattenGroups(front), last.items);
    }
  }

  lemma LastFlattened(groups: seq<Group>, last: Group)
    ensures FlattenGroups(groups + [last]) == FlattenGroups(groups) + last.items
  {
    assert (groups + [last])[..|groups|] == groups;
  }

  // Filtering keeps the items.
  lemma {:induction false} MusicIsSplit(items: seq<Item>)
    ensures multiset(Music(items)) + multiset(NotMusic(items)) == multiset(items)
  {
    if items != [] {
      var n := |items| - 1;
      MusicIsSplit(items[..n]);
      assert items == items[..n] + [items[n]];
    }
  }

  // The ranges hold the items that can be forwarded, in order; each has items, of one kind; neighbours differ.
  ghost predicate RangesInv(ranges: seq<Range>) {
    && (forall k :: 0 <= k < |ranges| ==> RangeInv(ranges[k]))
    && (forall k :: 0 <= k < |ranges| - 1 ==> ranges[k].ephemeral != ranges[k + 1].ephemeral)
  }

  predicate RangeInv(r: Range) {
    r.items != [] && forall item :: item in r.items ==> item.ephemeral == r.ephemeral && !IsLost(item)
  }

  lemma AddKeepsRanges(ranges: seq<Range>, item: Item)
    requires RangesInv(ranges) && !IsLost(item)
    ensures RangesInv(AddToRanges(ranges, item))
  {
    hide IsLost;
    var (n, t) := (|ranges|, AddToRanges(ranges, item));
    assert RangeInv(Range(item.ephemeral, [item]));
    if |t| == n {
      assert RangeInv(ranges[n - 1]);
      OneMoreInRange(ranges[n - 1], item);
    }
    hide RangeInv;
    forall k | 0 <= k < |t|
      ensures RangeInv(t[k])
    {
      assert k < n ==> RangeInv(ranges[k]);
    }
  }

  lemma OneMoreInRange(r: Range, item: Item)
    requires RangeInv(r) && !IsLost(item) && item.ephemeral == r.ephemeral
    ensures RangeInv(Range(item.ephemeral, r.items + [item]))
  {
    hide IsLost;
    forall x | x in r.items + [item]
      ensures x.ephemeral == item.ephemeral && !IsLost(x)
    {
      assert x in r.items || x == item;
    }
  }

  lemma AddedIsLast(ranges: seq<Range>, item: Item)
    ensures Flatten(AddToRanges(ranges, item)) == Flatten(ranges) + [item]
  {
    var (n, t) := (|ranges|, AddToRanges(ranges, item));
    if |t| == n + 1 {
      assert t[..n] == ranges;
    } else {
      assert t[..n - 1] == ranges[..n - 1];
    }
  }

  lemma {:induction false} RangesAreFound(items: seq<Item>)
    ensures RangesInv(Ranges(items)) && Flatten(Ranges(items)) == Found(items)
  {
    hide RangesInv, AddToRanges, Flatten;
    if items == [] {
      NoRanges();
    } else {
      RangesAreFound(items[..|items| - 1]);
      var last := items[|items| - 1];
      if !IsLost(last) {
        AddKeepsRanges(Ranges(items[..|items| - 1]), last);
        AddedIsLast(Ranges(items[..|items| - 1]), last);
      }
    }
  }

  lemma NoRanges()
    ensures RangesInv([]) && Flatten([]) == []
  {
  }

  // The groups hold the items of the ranges in order; each has items, from one peer and of one kind.
  predicate GroupInv(g: Group) {
    g.items != [] && forall item :: item in g.items ==> item.peer == g.from && item.ephemeral == g.ephemeral
  }

  ghost predicate GroupsInv(groups: seq<Group>) {
    forall k :: 0 <= k < |groups| ==> GroupInv(groups[k])
  }

  lemma AddKeepsGroups(groups: seq<Group>, ephemeral: bool, item: Item)
    requires GroupsInv(groups) && item.ephemeral == ephemeral
             && forall k :: 0 <= k < |groups| ==> groups[k].ephemeral == ephemeral
    ensures var t := AddToGroups(groups, ephemeral, item);
            && GroupsInv(t) && FlattenGroups(t) == FlattenGroups(groups) + [item]
            && forall k :: 0 <= k < |t| ==> t[k].ephemeral == ephemeral
  {
    hide FlattenGroups;
    var (n, t) := (|groups|, AddToGroups(groups, ephemeral, item));
    if |t| == n + 1 {
      LastFlattened(groups, t[n]);
    } else {
      var front, g := groups[..n - 1], groups[n - 1];
      assert groups == front + [g] && t == front + [t[n - 1]];
      LastFlattened(front, g);
      LastFlattened(front, t[n - 1]);
      Regrouped(FlattenGroups(front), g.items, [item]);
      assert GroupInv(t[n - 1]);
    }
  }

  lemma {:induction false} RangeGroups(ephemeral: bool, items: seq<Item>)
    requires forall item :: item in items ==> item.ephemeral == ephemeral
    ensures var t := GroupsOfRange(ephemeral, items);
            && GroupsInv(t) && FlattenGroups(t) == items && forall k :: 0 <= k < |t| ==> t[k].ephemeral == ephemeral
  {
    hide GroupsInv, AddToGroups, FlattenGroups;
    if items == [] {
      NoGroups();
    } else {
      var n := |items| - 1;
      assert items[n] in items;
      RangeGroups(ephemeral, items[..n]);
      AddKeepsGroups(GroupsOfRange(ephemeral, items[..n]), ephemeral, items[n]);
      assert items == items[..n] + [items[n]];
    }
  }

  lemma NoGroups()
    ensures GroupsInv([]) && FlattenGroups([]) == []
  {
  }

  // Within a range, neighbouring groups come from different peers: no request is split without need.
  lemma {:induction false} GroupsAreMaximal(ephemeral: bool, items: seq<Item>, k: nat)
    requires k + 1 < |GroupsOfRange(ephemeral, items)|
    ensures GroupsOfRange(ephemeral, items)[k].from != GroupsOfRange(ephemeral, items)[k + 1].from
  {
    var before := GroupsOfRange(ephemeral, items[..|items| - 1]);
    if k + 1 < |before| {
      GroupsAreMaximal(ephemeral, items[..|items| - 1], k);
    }
  }

  lemma {:induction false} GroupsHoldRanges(ranges: seq<Range>)
    requires RangesInv(ranges)
    ensures GroupsInv(Groups(ranges)) && FlattenGroups(Groups(ranges)) == Flatten(ranges)
  {
    hide GroupsOfRange, GroupInv, FlattenGroups;
    if ranges == [] {
      NoGroups();
    } else {
      var n := |ranges| - 1;
      GroupsHoldRanges(ranges[..n]);
      assert RangeInv(ranges[n]);
      var groups := GroupsOfRange(ranges[n].ephemeral, ranges[n].items);
      RangeGroups(ranges[n].ephemeral, ranges[n].items);
      FlattenGroupsConcat(Groups(ranges[..n]), groups);
    }
  }

  // The request of a group: its peer, its kind, the ids of its items, and a random number for each.
  predicate IsBatchOf(b: Batch, g: Group) {
    && b.from == g.from && b.ephemeral == g.ephemeral && |b.randomIds| == |b.ids| == |g.items|
    && forall i :: 0 <= i < |b.ids| ==> b.ids[i] == if g.ephemeral then g.items[i].lookupId else g.items[i].id
  }

  // The requests follow the groups one by one.
  lemma {:induction false} SentFollowsGroups(groups: seq<Group>, approved: nat, price: nat, random: nat -> Id, k: nat)
    requires k < |groups|
    ensures |SentAll(groups, approved, price, random).batches| == |groups|
    ensures IsBatchOf(SentAll(groups, approved, price, random).batches[k], groups[k])
  {
    var n := |groups| - 1;
    if k < n {
      SentFollowsGroups(groups[..n], approved, price, random, k);
    } else if n > 0 {
      SentFollowsGroups(groups[..n], approved, price, random, 0);
    }
  }

  function Stars(batches: seq<Batch>): nat {
    if batches == [] then 0 else Stars(batches[..|batches| - 1]) + batches[|batches| - 1].stars
  }

  lemma StarsSplit(approved: nat, paid: nat, a: nat, b: nat)
    requires paid == Min(approved, a)
    ensures paid + Min(approved - paid, b) == Min(approved, a + b)
  {
  }

  function Cost(items: seq<Item>, price: nat): nat {
    |items| * price
  }

  // The stars paid are what the items cost, or what was approved if that is less, however the items are split.
  lemma {:induction false} StarsAreShared(groups: seq<Group>, approved: nat, price: nat, random: nat -> Id)
    ensures var s := SentAll(groups, approved, price, random);
            && Stars(s.batches) == Min(approved, Cost(FlattenGroups(groups), price))
            && s.approved == approved - Stars(s.batches) && s.drawn == |FlattenGroups(groups)|
  {
    hide Min;
    if groups == [] {
      assert Min(approved, 0) == 0 by { NothingIsFree(approved); }
    } else {
      hide FlattenGroups, Stars, Ids, Draws;
      var n := |groups| - 1;
      var front, last := groups[..n], groups[n];
      assert groups == front + [last];
      StarsAreShared(front, approved, price, random);
      var before := SentAll(front, approved, price, random);
      var (a, b) := (|FlattenGroups(front)|, |last.items|);
      LastFlattened(front, last);
      OneMoreBatch(before, last, price, random);
      CostOfBoth(a, b, price);
      StarsSplit(approved, Stars(before.batches), a * price, b * price);
    }
  }

  lemma NothingIsFree(approved: nat)
    ensures Min(approved, 0) == 0
  {
  }

  lemma CostOfBoth(a: nat, b: nat, price: nat)
    ensures (a + b) * price == a * price + b * price
  {
  }

  lemma OneMoreBatch(before: Sending, group: Group, price: nat, random: nat -> Id)
    ensures var after := Sent(before, group, price, random);
            Stars(after.batches) == Stars(before.batches) + Min(before.approved, |group.items| * price)
  {
    hide Min;
    var all := Sent(before, group, price, random).batches;
    assert all[..|before.batches|] == before.batches;
  }

  lemma {:induction false} BatchCount(groups: seq<Group>, approved: nat, price: nat, random: nat -> Id)
    ensures |SentAll(groups, approved, price, random).batches| == |groups|
  {
    if groups != [] {
      BatchCount(groups[..|groups| - 1], approved, price, random);
    }
  }

  // The random numbers drawn before batch k
  function DrawnBefore(batches: seq<Batch>): seq<Id> {
    if batches == [] then [] else DrawnBefore(batches[..|batches| - 1]) + batches[|batches| - 1].randomIds
  }

  lemma {:induction false} EachItemDrawsOnce(groups: seq<Group>, approved: nat, price: nat, random: nat -> Id)
    ensures var s := SentAll(groups, approved, price, random);
            DrawnBefore(s.batches) == Draws(random, 0, s.drawn)
  {
    if groups != [] {
      var n := |groups| - 1;
      EachItemDrawsOnce(groups[..n], approved, price, random);
      var before := SentAll(groups[..n], approved, price, random);
      var all := SentAll(groups, approved, price, random);
      assert all.batches[..|before.batches|] == before.batches;
      assert Draws(random, 0, before.drawn) + Draws(random, before.drawn, |groups[n].items|)
        == Draws(random, 0, all.drawn);
    }
  }

  predicate AreBatchesOf(batches: seq<Batch>, groups: seq<Group>) {
    |batches| == |groups| && forall k :: 0 <= k < |groups| ==> IsBatchOf(batches[k], groups[k])
  }

  // All of it for the items that a user picked, in whatever order of positions: what is forwarded is what is not music
  // and can be found, in batches from one peer and of one kind, for the price of all of it or what was approved.
  lemma ForwardingIsFaithful(picked: seq<Item>, ordered: seq<Item>, approved: nat, price: nat, random: nat -> Id)
    requires IsOrderOf(ordered, NotMusic(picked))
    ensures var groups := Groups(Ranges(ordered));
            var s := Forwarded(Ranges(ordered), approved, price, random);
            && multiset(ordered) + multiset(Music(picked)) == multiset(picked)
            && FlattenGroups(groups) == Found(ordered) && GroupsInv(groups) && AreBatchesOf(s.batches, groups)
            && Stars(s.batches) == Min(approved, Cost(Found(ordered), price))
  {
    hide IsSorted, Ranges, Groups, SentAll, Found, FlattenGroups, Stars, Flatten, RangesInv;
    MusicIsSplit(picked);
    RangesAreFound(ordered);
    GroupsHoldRanges(Ranges(ordered));
    var groups := Groups(Ranges(ordered));
    BatchCount(groups, approved, price, random);
    StarsAreShared(groups, approved, price, random);
    forall k | 0 <= k < |groups|
      ensures IsBatchOf(SentAll(groups, approved, price, random).batches[k], groups[k])
    {
      SentFollowsGroups(groups, approved, price, random, k);
      assert GroupInv(groups[k]);
    }
  }
}
