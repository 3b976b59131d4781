/** A cache as a permanent link, if one stands first, and the other links: what each step does to either of them. */
module InviteLinksLaws {
  import opened Wrappers
  import opened InviteLinksSpec

  function AllOf(c: Cache): Links {
    if c.Some? then c.value else []
  }

  // The links behind the permanent one, or all of them, if none stands first
  function OthersOf(c: Cache): (others: Links)
    ensures AllOf(c) == (if MyPermanent(c).Some? then [MyPermanent(c).value] else []) + others
  {
    if MyPermanent(c).Some? then AllOf(c)[1..] else AllOf(c)
  }

  // A new link comes in front of the others, or in place of the permanent one, if it is permanent too. No other link
  // is lost or moved.
  lemma CreateKeepsOthers(c: Cache, link: Link)
    ensures var t := After(c, Create(link));
            && t.Some?
            && t.value == (if MyPermanent(c).Some? && !link.permanent then [MyPermanent(c).value] else []) + [link]
                          + OthersOf(c)
            && (!link.permanent ==> MyPermanent(t) == MyPermanent(c) && OthersOf(t) == [link] + OthersOf(c))
            && (IsLive(link) ==> MyPermanent(t) == Some(link) && OthersOf(t) == OthersOf(c))
  {
    CreatedIs(c, link);
    var t := After(c, Create(link));
    var (links, others) := (AllOf(c), OthersOf(c));
    assert MyPermanent(c).Some? ==> links != [] && MyPermanent(c) == Some(links[0]) && IsLive(links[0]);
    hide MyPermanent, OthersOf, Prepended;
    if MyPermanent(c).Some? && !link.permanent {
      BehindFirst(links[0], [link] + others);
      assert t.value == [links[0]] + [link] + others;
    } else {
      BehindFirst(link, others);
      assert t.value == [] + [link] + others;
    }
  }

  lemma CreatedIs(c: Cache, link: Link)
    ensures After(c, Create(link)) ==
            Some(if MyPermanent(c).Some? && !link.permanent then [AllOf(c)[0]] + ([link] + OthersOf(c))
                 else [link] + OthersOf(c))
  {
    var links := AllOf(c);
    if MyPermanent(c).Some? && !link.permanent {
      assert [links[0], link] + links[1..] == [links[0]] + ([link] + links[1..]);
    }
  }

  lemma BehindFirst(first: Link, others: Links)
    ensures var c := Some([first] + others);
            && (IsLive(first) ==> MyPermanent(c) == Some(first) && OthersOf(c) == others)
            && (!IsLive(first) ==> MyPermanent(c) == None && OthersOf(c) == [first] + others)
  {
    assert ([first] + others)[1..] == others;
  }

  // The permanent link that is set takes the place of another one; if it is the same one, only its use count is taken
  // over. The others stay.
  lemma SetKeepsOthers(c: Cache, link: Link)
    requires link.permanent
    ensures var (t, permanent) := (After(c, SetPermanent(link)), MyPermanent(c));
            && t.Some? && (IsLive(link) ==> OthersOf(t) == OthersOf(c))
            && t.value == [if permanent.Some? && permanent.value.link == link.link
                           then Link(link.link, true, false, link.usage, permanent.value.rest)
                           else link] + OthersOf(c)
  {
    var t := After(c, SetPermanent(link));
    assert t.value[1..] == OthersOf(c);
  }

  lemma ClearKeepsOthers(c: Cache)
    ensures After(c, ClearPermanent).Some? <==> c.Some?
    ensures AllOf(After(c, ClearPermanent)) == OthersOf(c)
  {
  }

  // The place of a link in the list
  predicate StandsAt(links: Links, key: string, j: nat) {
    j < |links| && links[j].link == key && forall k :: 0 <= k < j ==> links[k].link != key
  }

  // An edit takes a link out that it revokes, replaces any other, a revoked one too, and keeps the rest of the list.
  lemma EditIs(c: Cache, key: string, link: Link, j: nat)
    requires c.Some? && StandsAt(c.value, key, j)
    ensures var t := After(c, Edit(key, link, None));
            var revokes := link.revoked && !c.value[j].revoked;
            && t.Some?
            && t.value == c.value[..j] + (if revokes then [] else [link]) + c.value[j + 1..]
  {
    assert IndexOf(c.value, key) == j;
    hide IndexOf;
    var t := After(c, Edit(key, link, None));
    assert c.value[j := link] == c.value[..j] + [link] + c.value[j + 1..];
    assert c.value[..j] + [] == c.value[..j];
  }

  lemma EditFindsNothing(c: Cache, key: string, link: Link)
    requires c.Some? ==> forall l :: l in c.value ==> l.link != key
    ensures After(c, Edit(key, link, None)) == c
  {
  }

  // A replacement that comes with an edit is a new link, after it.
  lemma ReplacementIsCreated(c: Cache, key: string, link: Link, replacement: Link)
    ensures After(c, Edit(key, link, Some(replacement))) == After(After(c, Edit(key, link, None)), Create(replacement))
  {
  }

  // An update from elsewhere reaches every entry of its link and no other.
  lemma UpdateIs(c: Cache, updated: Link, k: nat)
    requires k < |AllOf(c)|
    ensures var t := After(c, Update(updated));
            && t.Some? && |t.value| == |c.value|
            && (c.value[k].link == updated.link ==> t.value[k] == updated)
            && (c.value[k].link != updated.link ==> t.value[k] == c.value[k])
  {
  }

  // A reload that knows of no permanent link has the server's links, the first live permanent one in front.
  lemma ReloadIs(slice: Links, c: Cache, j: nat)
    requires MyPermanent(c).None?
    ensures var t := After(c, Reload(slice));
            && t.Some?
            && (j < |slice| && IsLive(slice[j]) && (forall k :: 0 <= k < j ==> !IsLive(slice[k])) ==>
                  t.value == [slice[j]] + slice[..j] + slice[j + 1..])
            && ((forall l :: l in slice ==> !IsLive(l)) ==> t.value == slice)
  {
    var i := FirstLive(slice);
  }
}
