/** Forwarding messages in batches: which batches a list of items makes, and what they cost. */
module ForwardSpec {
  import opened FlatMap

  // An item of a chat. An ephemeral one is forwarded under the id that is looked up for it, zero if there is none.
  datatype Item = Item(peer: Id, id: Id, position: int, ephemeral: bool, lookupId: Id, savedMusic: bool)

  datatype Range = Range(ephemeral: bool, items: seq<Item>)

  // The items left after the music saved to a profile, which is sent on its own
  function NotMusic(items: seq<Item>): seq<Item> {
    if items == [] then [] else
      var (front, last) := (items[..|items| - 1], items[|items| - 1]);
      if last.savedMusic then NotMusic(front) else NotMusic(front) + [last]
  }

  function Music(items: seq<Item>): seq<Item> {
    if items == [] then [] else
      var (front, last) := (items[..|items| - 1], items[|items| - 1]);
      if last.savedMusic then Music(front) + [last] else Music(front)
  }

  predicate IsSorted(items: seq<Item>) {
    forall i, j :: 0 <= i < j < |items| ==> items[i].position <= items[j].position
  }

  // The order of forwarding is the order of positions; in which order those at one position come is left open.
  predicate IsOrderOf(ordered: seq<Item>, items: seq<Item>) {
    IsSorted(ordered) && multiset(ordered) == multiset(items)
  }

  // CollectForwardRanges: an ephemeral item without an id to forward is left out.
  predicate IsLost(item: Item) {
    item.ephemeral && item.lookupId == 0
  }

  function Found(items: seq<Item>): seq<Item> {
    if items == [] then [] else
      var (front, last) := (items[..|items| - 1], items[|items| - 1]);
      if IsLost(last) then Found(front) else Found(front) + [last]
  }

  function AddToRanges(ranges: seq<Range>, item: Item): seq<Range> {
    var n := |ranges|;
    if n == 0 || ranges[n - 1].ephemeral != item.ephemeral then ranges + [Range(item.ephemeral, [item])]
    else ranges[n - 1 := Range(item.ephemeral, ranges[n - 1].items + [item])]
  }

  function Ranges(items: seq<Item>): seq<Range> {
    if items == [] then [] else
      var (front, last) := (items[..|items| - 1], items[|items| - 1]);
      if IsLost(last) then Ranges(front) else AddToRanges(Ranges(front), last)
  }

  // Items of one peer in a row
  datatype Group = Group(from: Id, ephemeral: bool, items: seq<Item>)

  function AddToGroups(groups: seq<Group>, ephemeral: bool, item: Item): seq<Group> {
    var n := |groups|;
    if n == 0 || groups[n - 1].from != item.peer then groups + [Group(item.peer, ephemeral, [item])]
    else groups[n - 1 := Group(item.peer, ephemeral, groups[n - 1].items + [item])]
  }

  function GroupsOfRange(ephemeral: bool, items: seq<Item>): seq<Group> {
    if items == [] then []
    else AddToGroups(GroupsOfRange(ephemeral, items[..|items| - 1]), ephemeral, items[|items| - 1])
  }

  function Groups(ranges: seq<Range>): seq<Group> {
    if ranges == [] then [] else
      var last := ranges[|ranges| - 1];
      Groups(ranges[..|ranges| - 1]) + GroupsOfRange(last.ephemeral, last.items)
  }

  // What one request sends
  datatype Batch = Batch(from: Id, ephemeral: bool, ids: seq<Id>, randomIds: seq<Id>, stars: nat)

  function IdOf(item: Item, ephemeral: bool): Id {
    if ephemeral then item.lookupId else item.id
  }

  function Ids(items: seq<Item>, ephemeral: bool): (ids: seq<Id>)
    ensures |ids| == |items|
  {
    seq(|items|, i requires 0 <= i < |items| => IdOf(items[i], ephemeral))
  }

  // The random numbers drawn from the k-th on
  function Draws(random: nat -> Id, k: nat, n: nat): (ids: seq<Id>)
    ensures |ids| == n
  {
    seq(n, i requires 0 <= i < n => random(k + i))
  }

  function Min(a: nat, b: nat): nat {
    if a < b then a else b
  }

  // The requests for some groups, the stars still approved after them, and how many random numbers they drew
  datatype Sending = Sending(batches: seq<Batch>, approved: nat, drawn: nat)

  function Sent(before: Sending, group: Group, price: nat, random: nat -> Id): Sending {
    var n := |group.items|;
    var stars := Min(before.approved, n * price);
    Sending(before.batches + [Batch(group.from, group.ephemeral, Ids(group.items, group.ephemeral),
                                    Draws(random, before.drawn, n), stars)],
            before.approved - stars, before.drawn + n)
  }

  function SentAll(groups: seq<Group>, approved: nat, price: nat, random: nat -> Id): Sending {
    if groups == [] then Sending([], approved, 0)
    else Sent(SentAll(groups[..|groups| - 1], approved, price, random), groups[|groups| - 1], price, random)
  }

  function Forwarded(ranges: seq<Range>, approved: nat, price: nat, random: nat -> Id): Sending {
    SentAll(Groups(ranges), approved, price, random)
  }
}
