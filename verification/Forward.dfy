/** Collecting the ranges of items and sending them in batches, and the callback shared by the batches. */
module ForwardCode {
  import opened Wrappers
  import opened FlatMap
  import opened ForwardSpec
  import opened ForwardTheorems

  method FindPlace(sorted: seq<Item>, item: Item) returns (k: nat)
    requires IsSorted(sorted)
    ensures k <= |sorted| && (k > 0 ==> sorted[k - 1].position <= item.position)
    ensures k < |sorted| ==> item.position <= sorted[k].position
  {
    k := |sorted|;
    while k > 0 && sorted[k - 1].position > item.position
      invariant k <= |sorted| && (k < |sorted| ==> item.position <= sorted[k].position)
    {
      k := k - 1;
    }
  }

  lemma InsertedAt(sorted: seq<Item>, k: nat, item: Item)
    requires IsSorted(sorted) && k <= |sorted|
    requires (k > 0 ==> sorted[k - 1].position <= item.position)
             && (k < |sorted| ==> item.position <= sorted[k].position)
    ensures var more := sorted[..k] + [item] + sorted[k..];
            IsSorted(more) && multiset(more) == multiset(sorted) + multiset{item}
  {
    hide IsSorted;
    var front, back := sorted[..k], sorted[k..];
    assert sorted == front + back;
    InsertedIsSorted(front, item, back);
    InsertedIsThere(front, item, back);
  }

  // The library's sort, of which only this is promised
  method SortByPosition(items: seq<Item>) returns (ordered: seq<Item>)
    ensures IsOrderOf(ordered, items)
  {
    ordered := [];
    assert IsSorted(ordered);
    hide IsSorted;
    for i := 0 to |items|
      invariant IsOrderOf(ordered, items[..i])
    {
      assert items[..i + 1] == items[..i] + [items[i]];
      var k := FindPlace(ordered, items[i]);
      InsertedAt(ordered, k, items[i]);
      ordered := ordered[..k] + [items[i]] + ordered[k..];
    }
    assert items[..|items|] == items;
  }

  lemma InsertedIsThere(a: seq<Item>, item: Item, b: seq<Item>)
    ensures multiset(a + [item] + b) == multiset(a + b) + multiset{item}
  {
  }

  lemma InsertedIsSorted(a: seq<Item>, item: Item, b: seq<Item>)
    requires IsSorted(a + b)
    requires (a != [] ==> a[|a| - 1].position <= item.position) && (b != [] ==> item.position <= b[0].position)
    ensures IsSorted(a + [item] + b)
  {
    forall i, j | 0 <= i <= j < |a + b|
      ensures (a + b)[i].position <= (a + b)[j].position
    {
    }
    forall i | 0 <= i < |a|
      ensures a[i].position <= item.position
    {
      assert (a + b)[i] == a[i] && (a + b)[|a| - 1] == a[|a| - 1];
    }
    forall j | 0 <= j < |b|
      ensures item.position <= b[j].position
    {
      assert (a + b)[|a| + j] == b[j] && (a + b)[|a|] == b[0];
    }
    var t := a + [item] + b;
    forall i, j | 0 <= i < j < |t|
      ensures t[i].position <= t[j].position
    {
      if i != |a| && j != |a| {
        assert t[i] == (a + b)[if i < |a| then i else i - 1] && t[j] == (a + b)[if j < |a| then j else j - 1];
      }
    }
  }

  method CollectForwardRanges(items: seq<Item>) returns (result: seq<Range>, ghost ordered: seq<Item>)
    ensures IsOrderOf(ordered, items) && result == Ranges(ordered)
  {
    hide AddToRanges, IsLost, IsOrderOf;
    var sorted := SortByPosition(items);
    result := CollectSorted(sorted);
    ordered := sorted;
  }

  method CollectSorted(ordered: seq<Item>) returns (result: seq<Range>)
    ensures result == Ranges(ordered)
  {
    hide AddToRanges, IsLost;
    result := [];
    for i := 0 to |ordered|
      invariant result == Ranges(ordered[..i])
    {
      assert ordered[..i + 1][..i] == ordered[..i];
      if !IsLost(ordered[i]) {
        result := AppendItem(result, ordered[i]);
      }
    }
    assert ordered[..|ordered|] == ordered;
  }

  method AppendItem(ranges: seq<Range>, item: Item) returns (result: seq<Range>)
    ensures result == AddToRanges(ranges, item)
  {
    result := ranges;
    if result == [] || result[|result| - 1].ephemeral != item.ephemeral {
      result := result + [Range(item.ephemeral, [])];
      assert [] + [item] == [item];
      assert result[|result| - 1 := Range(item.ephemeral, [item])] == ranges + [Range(item.ephemeral, [item])];
    }
    var back := result[|result| - 1];
    result := result[|result| - 1 := back.(items := back.items + [item])];
  }

  class Forwarder {
    const price: nat
    const random: nat -> Id
    var approved: nat
    var drawn: nat
    var forwardFrom: Id
    var fromEphemeral: bool
    var ids: seq<Id>
    var randomIds: seq<Id>
    var batches: seq<Batch>
    var requestsLeft: nat

    constructor (price: nat, approved: nat, random: nat -> Id, forwardFrom: Id)
      ensures this.price == price && this.random == random && this.forwardFrom == forwardFrom
      ensures Value() == Sending([], approved, 0) && ids == randomIds == [] && requestsLeft == 0
    {
      this.price, this.random, this.approved, this.forwardFrom := price, random, approved, forwardFrom;
      drawn, fromEphemeral, ids, randomIds, batches, requestsLeft := 0, false, [], [], [], 0;
    }

    function Value(): Sending
      reads this
    {
      Sending(batches, approved, drawn)
    }

    // The items of a group are collected, but not sent yet.
    ghost predicate Holds(before: Sending, pending: Option<Group>)
      reads this
    {
      && batches == before.batches && approved == before.approved && requestsLeft == |batches|
      && match pending
         case None => ids == [] && randomIds == [] && drawn == before.drawn
         case Some(g) =>
           && g.items != [] && forwardFrom == g.from && fromEphemeral == g.ephemeral
           && ids == Ids(g.items, g.ephemeral) && randomIds == Draws(random, before.drawn, |g.items|)
           && drawn == before.drawn + |g.items|
    }

    method SendAccumulated(ghost before: Sending, ghost pending: Option<Group>)
      requires Holds(before, pending)
      modifies this
      ensures Holds(if pending.None? then before else Sent(before, pending.value, price, random), None)
      ensures forwardFrom == old(forwardFrom) && fromEphemeral == old(fromEphemeral)
    {
      if ids == [] {
        return;
      }
      requestsLeft := requestsLeft + 1;
      var starsPaid := Min(approved, |ids| * price);
      approved := approved - starsPaid;
      batches := batches + [Batch(forwardFrom, fromEphemeral, ids, randomIds, starsPaid)];
      ids, randomIds := [], [];
    }

    // What is held after a range's items so far: all its groups but the last are sent, and the last one is held.
    ghost predicate Collected(s: Sending, groups: seq<Group>)
      reads this
    {
      if groups == [] then Holds(s, None)
      else Holds(SentFrom(s, groups[..|groups| - 1], price, random), Some(groups[|groups| - 1]))
    }

    method SwitchPeer(peer: Id, ghost before: Sending)
      requires Holds(before, None)
      modifies `forwardFrom
      ensures Holds(before, None) && forwardFrom == peer
    {
      forwardFrom := peer;
    }

    method Push(item: Item, randomId: Id, ghost before: Sending, ghost pending: Option<Group>)
      requires Holds(before, pending) && forwardFrom == item.peer && randomId == random(drawn)
      modifies `ids, `randomIds, `drawn
      ensures var items := if pending.Some? then pending.value.items else [];
              Holds(before, Some(Group(item.peer, fromEphemeral, items + [item])))
    {
      drawn := drawn + 1;
      ids := ids + [IdOf(item, fromEphemeral)];
      randomIds := randomIds + [randomId];
    }

    lemma CollectedIs(s: Sending, front: seq<Group>, last: Group)
      requires Holds(SentFrom(s, front, price, random), Some(last))
      ensures Collected(s, front + [last])
    {
      hide Holds;
      assert (front + [last])[..|front|] == front;
    }

    lemma CollectedHolds(s: Sending, groups: seq<Group>)
      requires Collected(s, groups)
      ensures groups == [] ==> Holds(s, None)
      ensures groups != [] ==>
                && Holds(SentFrom(s, groups[..|groups| - 1], price, random), Some(groups[|groups| - 1]))
                && forwardFrom == groups[|groups| - 1].from && fromEphemeral == groups[|groups| - 1].ephemeral
    {
    }

    method AddItem(item: Item, ghost s: Sending, ghost groups: seq<Group>)
      requires Collected(s, groups) && (groups == [] || groups[|groups| - 1].ephemeral == fromEphemeral)
      modifies this
      ensures Collected(s, AddToGroups(groups, fromEphemeral, item))
      ensures fromEphemeral == old(fromEphemeral)
    {
      hide Holds, Collected, SentFrom, AddToGroups;
      var randomId := random(drawn);
      CollectedHolds(s, groups);
      AddedGroup(groups, fromEphemeral, item);
      NothingSent(s, price, random);
      ghost var n := |groups|;
      ghost var front := if n == 0 then [] else groups[..n - 1];
      ghost var pending := if n == 0 then None else Some(groups[n - 1]);
      if forwardFrom != item.peer {
        OneMoreSent(s, groups, price, random);
        SendAccumulated(SentFrom(s, front, price, random), pending);
        front, pending := groups, None;
        SwitchPeer(item.peer, SentFrom(s, front, price, random));
      }
      Push(item, randomId, SentFrom(s, front, price, random), pending);
      ghost var held := if pending.Some? then pending.value.items else [];
      CollectedIs(s, front, Group(item.peer, fromEphemeral, held + [item]));
    }

    method SendRange(range: Range, ghost s: Sending)
      requires Holds(s, None)
      modifies this
      ensures Holds(SentFrom(s, GroupsOfRange(range.ephemeral, range.items), price, random), None)
    {
      StartRange(range, s);
      hide AddToGroups, Holds, Collected, GroupsOfRange, SentFrom;
      var items := range.items;
      for i := 0 to |items|
        invariant Collected(s, GroupsOfRange(range.ephemeral, items[..i])) && fromEphemeral == range.ephemeral
      {
        NextGroups(range.ephemeral, items, i);
        GroupsHaveKind(range.ephemeral, items[..i]);
        AddItem(items[i], s, GroupsOfRange(range.ephemeral, items[..i]));
      }
      assert items[..|items|] == items;
      SendLast(s, GroupsOfRange(range.ephemeral, items));
    }

    method StartRange(range: Range, ghost s: Sending)
      requires Holds(s, None)
      modifies this
      ensures fromEphemeral == range.ephemeral && Collected(s, GroupsOfRange(range.ephemeral, range.items[..0]))
    {
      fromEphemeral := range.ephemeral;
    }

    method SendLast(ghost s: Sending, ghost groups: seq<Group>)
      requires Collected(s, groups)
      modifies this
      ensures Holds(SentFrom(s, groups, price, random), None)
    {
      hide Holds;
      ghost var n := |groups|;
      SendAccumulated(if n == 0 then s else SentFrom(s, groups[..n - 1], price, random),
                      if n == 0 then None else Some(groups[n - 1]));
    }

    method SendRanges(ranges: seq<Range>, ghost s: Sending)
      requires Holds(s, None)
      modifies this
      ensures Holds(SentFrom(s, Groups(ranges), price, random), None)
    {
      hide Holds, SentFrom, GroupsOfRange;
      NothingSent(s, price, random);
      for i := 0 to |ranges|
        invariant Holds(SentFrom(s, Groups(ranges[..i]), price, random), None)
      {
        assert ranges[..i + 1][..i] == ranges[..i];
        var range := ranges[i];
        ghost var before := SentFrom(s, Groups(ranges[..i]), price, random);
        SentInTwoParts(s, Groups(ranges[..i]), GroupsOfRange(range.ephemeral, range.items), price, random);
        SendRange(range, before);
      }
      assert ranges[..|ranges|] == ranges;
    }
  }

  lemma NextGroups(ephemeral: bool, items: seq<Item>, i: nat)
    requires i < |items|
    ensures GroupsOfRange(ephemeral, items[..i + 1])
            == AddToGroups(GroupsOfRange(ephemeral, items[..i]), ephemeral, items[i])
  {
    hide AddToGroups;
    assert items[..i + 1][..i] == items[..i];
  }

  lemma {:induction false} GroupsHaveKind(ephemeral: bool, items: seq<Item>)
    ensures forall k :: 0 <= k < |GroupsOfRange(ephemeral, items)| ==>
              GroupsOfRange(ephemeral, items)[k].ephemeral == ephemeral
  {
    if items != [] {
      GroupsHaveKind(ephemeral, items[..|items| - 1]);
    }
  }

  lemma NothingSent(s: Sending, price: nat, random: nat -> Id)
    ensures SentFrom(s, [], price, random) == s && SentFrom(s, Groups([]), price, random) == s
  {
  }

  lemma OneMoreSent(s: Sending, groups: seq<Group>, price: nat, random: nat -> Id)
    ensures groups != [] ==>
              SentFrom(s, groups, price, random)
              == Sent(SentFrom(s, groups[..|groups| - 1], price, random), groups[|groups| - 1], price, random)
  {
  }

  lemma AddedGroup(groups: seq<Group>, ephemeral: bool, item: Item)
    ensures var n := |groups|;
            AddToGroups(groups, ephemeral, item) ==
            if n == 0 || groups[n - 1].from != item.peer then groups + [Group(item.peer, ephemeral, [] + [item])]
            else groups[..n - 1] + [Group(item.peer, ephemeral, groups[n - 1].items + [item])]
    ensures groups == [] ==> [] + AddToGroups(groups, ephemeral, item) == AddToGroups(groups, ephemeral, item)
  {
    assert [] + [item] == [item];
  }

  lemma {:induction false} SentInTwoParts(s: Sending, a: seq<Group>, b: seq<Group>, price: nat, random: nat -> Id)
    ensures SentFrom(s, a + b, price, random) == SentFrom(SentFrom(s, a, price, random), b, price, random)
  {
    hide Sent;
    if b == [] {
      assert a + b == a;
    } else {
      SentInTwoParts(s, a, b[..|b| - 1], price, random);
      assert (a + b)[..|a + b| - 1] == a + b[..|b| - 1];
    }
  }

  lemma {:induction false} SentFromStart(groups: seq<Group>, approved: nat, price: nat, random: nat -> Id)
    ensures SentFrom(Sending([], approved, 0), groups, price, random) == SentAll(groups, approved, price, random)
  {
    hide Sent;
    if groups != [] {
      SentFromStart(groups[..|groups| - 1], approved, price, random);
    }
  }

  method TakeMusic(items: seq<Item>) returns (music: seq<Item>, rest: seq<Item>)
    ensures music == Music(items) && rest == NotMusic(items)
  {
    music, rest := [], [];
    for i := 0 to |items|
      invariant music == Music(items[..i]) && rest == NotMusic(items[..i])
    {
      assert items[..i + 1][..i] == items[..i];
      if items[i].savedMusic {
        music := music + [items[i]];
      } else {
        rest := rest + [items[i]];
      }
    }
    assert items[..|items|] == items;
  }

  // What a call sends at once: the music, the batches, and whether the callback was called because there was nothing
  // to wait for. The shared counter is the number of the batches.
  method ForwardMessages(items: seq<Item>, approved: nat, price: nat, random: nat -> Id)
      returns (music: seq<Item>, batches: seq<Batch>, calledAtOnce: bool, requestsLeft: nat, ghost ordered: seq<Item>)
    ensures music == Music(items) && IsOrderOf(ordered, NotMusic(items))
    ensures batches == Forwarded(Ranges(ordered), approved, price, random).batches
    ensures requestsLeft == |batches| && (calledAtOnce <==> batches == [])
  {
    hide Music, NotMusic, Ranges, Groups, IsSorted, SentAll, Flatten;
    var rest;
    music, rest := TakeMusic(items);
    NothingToForward(approved, price, random);
    if rest == [] {
      return music, [], true, 0, [];
    }
    var collected;
    collected, ordered := CollectForwardRanges(rest);
    if collected == [] {
      return music, [], true, 0, ordered;
    }
    RangesAreFound(ordered);
    assert RangeInv(collected[0]);
    var forwarder := new Forwarder(price, approved, random, collected[0].items[0].peer);
    SentFromStart(Groups(collected), approved, price, random);
    forwarder.SendRanges(collected, forwarder.Value());
    SomethingIsSent(collected, approved, price, random);
    batches, calledAtOnce, requestsLeft := forwarder.batches, false, forwarder.requestsLeft;
  }

  lemma NothingToForward(approved: nat, price: nat, random: nat -> Id)
    ensures IsSorted([]) && Ranges([]) == [] && SentAll(Groups([]), approved, price, random).batches == []
  {
  }

  lemma SomethingIsSent(ranges: seq<Range>, approved: nat, price: nat, random: nat -> Id)
    requires RangesInv(ranges) && ranges != []
    ensures SentAll(Groups(ranges), approved, price, random).batches != []
  {
    hide GroupsOfRange, SentAll;
    GroupsHoldRanges(ranges);
    BatchCount(Groups(ranges), approved, price, random);
    var n := |ranges| - 1;
    assert RangeInv(ranges[n]);
    assert Flatten(ranges) != [];
    assert FlattenGroups(Groups(ranges)) != [];
  }

  // The requests for some groups after some others
  function SentFrom(s: Sending, groups: seq<Group>, price: nat, random: nat -> Id): Sending {
    if groups == [] then s
    else Sent(SentFrom(s, groups[..|groups| - 1], price, random), groups[|groups| - 1], price, random)
  }
}
