/** The cache of invite links of one chat, as its handlers change it in place. */
module InviteLinksCode {
  import opened Wrappers
  import opened InviteLinksSpec

  method BringPermanentToFront(links: array<Link>)
    modifies links
    ensures links[..] == Fronted(old(links[..]))
  {
    ghost var was := links[..];
    var i := FindLive(links);
    if i != links.Length && i != 0 {
      Rotate(links, i);
    }
    if i == 0 && i < links.Length {
      assert was[..0] == [] && [was[0]] + was[..0] + was[1..] == was;
    }
  }

  method FindLive(links: array<Link>) returns (i: nat)
    ensures i == FirstLive(links[..]) <= links.Length
  {
    i := 0;
    while i < links.Length && !IsLive(links[i])
      invariant i <= links.Length && FirstLive(links[..]) == i + FirstLive(links[i..])
    {
      assert links[i..][1..] == links[i + 1..] && links[i..][0] == links[i];
      i := i + 1;
    }
  }

  // The link at i moves to the front, past the links before it.
  method Rotate(links: array<Link>, i: nat)
    requires i < links.Length
    modifies links
    ensures var was := old(links[..]); links[..] == [was[i]] + was[..i] + was[i + 1..]
  {
    ghost var was := links[..];
    var moved := links[i];
    var k := i;
    while k > 0
      invariant k <= i
      invariant forall j :: 0 <= j < k ==> links[j] == was[j]
      invariant forall j :: k < j <= i ==> links[j] == was[j - 1]
      invariant forall j :: i < j < links.Length ==> links[j] == was[j]
    {
      links[k] := links[k - 1];
      k := k - 1;
    }
    links[0] := moved;
    assert links[..] == [was[i]] + was[..i] + was[i + 1..];
  }

  method RemovePermanent(links: Links) returns (left: Links)
    ensures left == WithoutLive(links)
  {
    left := [];
    for i := 0 to |links|
      invariant left == WithoutLive(links[..i])
    {
      assert links[..i + 1][..i] == links[..i];
      if !IsLive(links[i]) {
        left := left + [links[i]];
      }
    }
    assert links[..|links|] == links;
  }

  method ParseSlice(slice: Links, permanent: Option<Link>) returns (links: Links)
    ensures links == if permanent.Some? then WithoutLink(slice, permanent.value.link) else slice
  {
    links := [];
    for i := 0 to |slice|
      invariant links == if permanent.Some? then WithoutLink(slice[..i], permanent.value.link) else slice[..i]
    {
      var before := slice[..i];
      assert slice[..i + 1] == before + [slice[i]] && slice[..i + 1][..i] == before;
      if permanent.None? || slice[i].link != permanent.value.link {
        links := links + [slice[i]];
      }
    }
    assert slice[..|slice|] == slice;
  }

  class InviteLinks {
    var cache: Cache

    constructor ()
      ensures cache == None
    {
      cache := None;
    }

    method PrependMyToFirstSlice(link: Link)
      modifies this
      ensures cache == Prepended(old(cache), link)
    {
      if cache.None? {
        cache := Some([]);
      }
      var links := cache.value;
      var hadPermanent := MyPermanent(cache).Some?;
      if link.permanent && hadPermanent {
        links := links[1..];
      }
      if hadPermanent && !link.permanent {
        assert links[..1] + [link] + links[1..] == [links[0], link] + links[1..];
        links := links[..1] + [link] + links[1..];
      } else {
        links := [link] + links;
      }
      cache := Some(links);
    }

    method EditDone(key: string, link: Link, replacement: Option<Link>)
      modifies this
      ensures cache == Edited(old(cache), key, link, replacement)
    {
      if cache.Some? {
        var links := cache.value;
        var j := IndexOf(links, key);
        if j != |links| {
          if link.revoked && !links[j].revoked {
            links := links[..j] + links[j + 1..];
          } else {
            links := links[j := link];
          }
          cache := Some(links);
        }
      }
      if replacement.Some? {
        PrependMyToFirstSlice(replacement.value);
      }
    }

    method MyLinksReceived(slice: Links)
      modifies this
      ensures cache == Reloaded(old(cache), slice)
    {
      hide Fronted, WithoutLive, WithoutLink;
      var permanent := MyPermanent(cache);
      var links := ParseSlice(slice, permanent);
      if permanent.None? {
        var list := new Link[|links|](i requires 0 <= i < |links| => links[i]);
        assert list[..] == links;
        BringPermanentToFront(list);
        cache := Some(list[..]);
      } else {
        links := RemovePermanent(links);
        var existing := cache.value[..1];
        assert existing == [permanent.value];
        cache := Some(existing + links);
      }
    }

    method SetMyPermanent(link: Link)
      requires link.permanent
      modifies this
      ensures cache == PermanentSet(old(cache), link)
    {
      if cache.None? {
        cache := Some([]);
      }
      var links := cache.value;
      var permanent := MyPermanent(cache);
      if permanent.Some? {
        if permanent.value.link == link.link {
          assert links[0 := links[0]] == links;
          if permanent.value.usage != link.usage {
            cache := Some(links[0 := permanent.value.(usage := link.usage)]);
          }
          return;
        }
        links := links[1..];
      }
      cache := Some([link] + links);
    }

    method ClearMyPermanent()
      modifies this
      ensures cache == PermanentCleared(old(cache))
    {
      if MyPermanent(cache).None? {
        return;
      }
      cache := Some(cache.value[1..]);
    }

    method ApplyExternalUpdate(updated: Link)
      modifies this
      ensures cache == Updated(old(cache), updated)
    {
      if cache.Some? {
        var links := cache.value;
        for i := 0 to |links|
          invariant |links| == |old(cache).value|
          invariant forall k :: 0 <= k < i ==> links[k] == UpdatedList(old(cache).value, updated)[k]
          invariant forall k :: i <= k < |links| ==> links[k] == old(cache).value[k]
        {
          if links[i].link == updated.link {
            links := links[i := updated];
          }
        }
        assert links == UpdatedList(old(cache).value, updated);
        cache := Some(links);
      }
    }
  }
}
