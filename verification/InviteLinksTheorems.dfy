/** Exactly which steps keep a live permanent link from standing anywhere but first, and what a reload gives. */
module InviteLinksTheorems {
  import opened Wrappers
  import opened InviteLinksSpec

  lemma MovedToFront(a: Links, x: Link, b: Links)
    ensures multiset([x] + a + b) == multiset(a + [x] + b) && ([x] + a + b)[0] == x && ([x] + a + b)[1..] == a + b
  {
    assert ([x] + a + b)[1..] == a + b;
  }

  // Bringing the permanent link to the front moves one link and keeps the order of the others.
  lemma FrontedIsRotation(links: Links)
    ensures multiset(Fronted(links)) == multiset(links) && |Fronted(links)| == |links|
    ensures FirstLive(links) < |links| ==>
              && Fronted(links)[0] == links[FirstLive(links)]
              && Fronted(links)[1..] == links[..FirstLive(links)] + links[FirstLive(links) + 1..]
  {
    hide FirstLive;
    var i := FirstLive(links);
    if i < |links| {
      MovedToFront(links[..i], links[i], links[i + 1..]);
      assert links == links[..i] + [links[i]] + links[i + 1..];
    }
  }

  lemma LiveBehind(x: Link, a: Links, rest: Links)
    requires forall k :: 0 <= k < |a| ==> !IsLive(a[k])
    ensures LiveFirst([x] + a + rest) <==> forall k :: 0 <= k < |rest| ==> !IsLive(rest[k])
  {
    hide IsLive;
    var t := [x] + a + rest;
    forall k | 1 <= k < |t|
      ensures t[k] == if k <= |a| then a[k - 1] else rest[k - |a| - 1]
    {
    }
    forall k | 0 <= k < |rest|
      ensures rest[k] == t[k + |a| + 1]
    {
    }
  }

  lemma FrontedIffOneLive(links: Links)
    ensures LiveFirst(Fronted(links)) <==> AtMostOneLive(links)
  {
    hide IsLive, FirstLive, LiveFirst;
    var i := FirstLive(links);
    if i < |links| {
      LiveBehind(links[i], links[..i], links[i + 1..]);
    } else {
      NoneLive(links);
    }
  }

  lemma NoneLive(links: Links)
    requires FirstLive(links) == |links|
    ensures LiveFirst(links)
  {
    hide FirstLive;
  }

  lemma {:induction false} WithoutLiveIs(links: Links)
    ensures forall l :: l in WithoutLive(links) <==> l in links && !IsLive(l)
  {
    if links != [] {
      WithoutLiveIs(links[..|links| - 1]);
      assert links == links[..|links| - 1] + [links[|links| - 1]];
    }
  }

  lemma {:induction false} WithoutLinkIs(links: Links, link: string)
    ensures forall l :: l in WithoutLink(links, link) <==> l in links && l.link != link
  {
    if links != [] {
      WithoutLinkIs(links[..|links| - 1], link);
      assert links == links[..|links| - 1] + [links[|links| - 1]];
    }
  }

  // A reload beside a known permanent link keeps it first, once, before the server's other links that are not
  // live permanent ones, in their order.
  function Others(links: Links, permanent: Link): Links {
    if links == [] then [] else
      var (front, last) := (links[..|links| - 1], links[|links| - 1]);
      if last.link == permanent.link || IsLive(last) then Others(front, permanent)
      else Others(front, permanent) + [last]
  }

  lemma {:induction false} OthersAreFiltered(links: Links, permanent: Link)
    ensures WithoutLive(WithoutLink(links, permanent.link)) == Others(links, permanent)
  {
    if links != [] {
      OthersAreFiltered(links[..|links| - 1], permanent);
    }
  }

  lemma ReloadKeepsPermanent(c: Cache, slice: Links)
    requires MyPermanent(c).Some?
    ensures var permanent := MyPermanent(c).value;
            && Reloaded(c, slice) == Some([permanent] + Others(slice, permanent))
            && (forall l :: l in Others(slice, permanent) <==> l in slice && l.link != permanent.link && !IsLive(l))
  {
    var permanent := MyPermanent(c).value;
    OthersAreFiltered(slice, permanent);
    WithoutLinkIs(slice, permanent.link);
    WithoutLiveIs(WithoutLink(slice, permanent.link));
  }

  lemma EditedIffNotAnother(links: Links, key: string, link: Link)
    requires LiveFirst(links)
    ensures LiveFirst(EditedList(links, key, link)) <==> !EditsAnother(Some(links), key, link)
  {
    var j := IndexOf(links, key);
    var t := EditedList(links, key, link);
    if 0 < j < |links| && IsLive(link) {
      assert t[j] == link;
    } else if j < |links| && link.revoked && !links[j].revoked {
      forall k | 1 <= k < |t|
        ensures !IsLive(t[k])
      {
        assert t[k] == links[if k < j then k else k + 1];
      }
    }
  }

  lemma UpdatedIffNotAnother(links: Links, updated: Link)
    requires LiveFirst(links)
    ensures LiveFirst(UpdatedList(links, updated)) <==> !UpdatesAnother(Some(links), updated)
  {
    var t := UpdatedList(links, updated);
    if links != [] {
      var i := IndexOf(links[1..], updated.link);
      if i < |links| - 1 {
        assert links[i + 1].link == updated.link && t[i + 1] == updated;
      } else {
        forall k | 1 <= k < |t|
          ensures t[k] == links[k]
        {
          assert links[1..][k - 1] == links[k];
        }
      }
    }
  }

  // A new permanent link takes the place of the old one; any other link comes right after it.
  lemma PrependedLinks(c: Cache, link: Link)
    ensures var (links, t) := (if c.Some? then c.value else [], Prepended(c, link).value);
            && (link.permanent || MyPermanent(c).None? ==> t[0] == link)
            && (MyPermanent(c).Some? && !link.permanent ==> t[0] == links[0] && t[1] == link && t[2..] == links[1..])
            && (MyPermanent(c).Some? && link.permanent ==> t[1..] == links[1..])
            && (MyPermanent(c).None? ==> t[1..] == links)
  {
  }

  lemma PrependKeepsRule(c: Cache, link: Link)
    requires Valid(c)
    ensures Valid(Prepended(c, link))
  {
    var links := if c.Some? then c.value else [];
    var t := Prepended(c, link).value;
    PrependedLinks(c, link);
    forall k | 1 <= k < |t|
      ensures !IsLive(t[k])
    {
      if MyPermanent(c).Some? && !link.permanent {
        assert k >= 2 ==> t[k] == t[2..][k - 2] == links[1..][k - 2];
      } else {
        assert t[k] == t[1..][k - 1];
      }
    }
  }

  lemma SetKeepsRule(c: Cache, link: Link)
    requires Valid(c)
    ensures Valid(PermanentSet(c, link))
  {
    var links := if c.Some? then c.value else [];
    var t := PermanentSet(c, link).value;
    forall k | 1 <= k < |t|
      ensures !IsLive(t[k])
    {
      if MyPermanent(c).None? {
        assert t[k] == links[k - 1];
      } else {
        assert t[k] == links[k];
      }
    }
  }

  lemma ClearKeepsRule(c: Cache)
    requires Valid(c)
    ensures Valid(PermanentCleared(c)) && MyPermanent(PermanentCleared(c)) == None
  {
    var t := PermanentCleared(c);
    if MyPermanent(c).Some? {
      forall k | 0 <= k < |t.value|
        ensures !IsLive(t.value[k])
      {
        assert t.value[k] == c.value[k + 1];
      }
    }
  }

  lemma ReloadKeepsRule(c: Cache, slice: Links)
    ensures Valid(Reloaded(c, slice)) <==> MyPermanent(c).Some? || AtMostOneLive(slice)
  {
    FrontedIffOneLive(slice);
    if MyPermanent(c).Some? {
      ReloadKeepsPermanent(c, slice);
      var t := Reloaded(c, slice).value;
      var others := Others(slice, MyPermanent(c).value);
      forall k | 1 <= k < |t|
        ensures !IsLive(t[k])
      {
        assert t[k] == others[k - 1] && others[k - 1] in others;
      }
    }
  }

  lemma PrependIffRule(c: Cache, link: Link)
    requires c.Some? && !Valid(c)
    ensures !Valid(Prepended(c, link))
  {
    var k :| 1 <= k < |c.value| && IsLive(c.value[k]);
    var t := Prepended(c, link).value;
    if MyPermanent(c).Some? && link.permanent {
      assert t[k] == c.value[k];
    } else {
      assert t[k + 1] == c.value[k];
    }
  }

  // From a valid cache a step leads to a valid one exactly when it keeps the rule.
  lemma StepIffKeepsRule(c: Cache, e: Event)
    requires Valid(c) && CanHappen(e)
    ensures Valid(After(c, e)) <==> KeepsRule(c, e)
  {
    hide LiveFirst, Reloaded, PermanentSet, PermanentCleared, UpdatedList, EditedList, Prepended, EditsAnother,
         UpdatesAnother, AtMostOneLive, MyPermanent;
    match e {
      case Create(link) => PrependKeepsRule(c, link);
      case Edit(key, link, replacement) => EditIffRule(c, key, link, replacement);
      case Reload(slice) => ReloadKeepsRule(c, slice);
      case SetPermanent(link) => SetKeepsRule(c, link);
      case ClearPermanent => ClearKeepsRule(c);
      case Update(updated) => UpdateIffRule(c, updated);
      case Prune =>
    }
  }

  // Each of the three does break the rule: beside the permanent link a, the link b becomes a live permanent one.
  lemma RuleBreaks()
    ensures var (a, b) := (Link("a", true, false, 0, 0), Link("b", false, false, 0, 0));
            var (c, live) := (Some([a, b]), b.(permanent := true));
            && Valid(c) && CanHappen(Edit("b", live, None)) && CanHappen(Update(live)) && CanHappen(Reload([a, live]))
            && !Valid(After(c, Edit("b", live, None))) && !Valid(After(c, Update(live)))
               && !Valid(After(None, Reload([a, live])))
  {
    var (a, b) := (Link("a", true, false, 0, 0), Link("b", false, false, 0, 0));
    var (c, live) := (Some([a, b]), b.(permanent := true));
    assert "a" != "b" && [a, b][1..] == [b] && IndexOf([b], "b") == 0 && IndexOf([a, b], "b") == 1;
    assert IsLive(a) && FirstLive([a, live]) == 0 && [a, live][1..] == [live] && FirstLive([live]) == 0;
    assert EditsAnother(c, "b", live) && UpdatesAnother(c, live) && !AtMostOneLive([a, live]);
    StepIffKeepsRule(c, Edit("b", live, None));
    StepIffKeepsRule(c, Update(live));
    StepIffKeepsRule(None, Reload([a, live]));
  }

  lemma EditIffRule(c: Cache, key: string, link: Link, replacement: Option<Link>)
    requires Valid(c)
    ensures Valid(Edited(c, key, link, replacement)) <==> !EditsAnother(c, key, link)
  {
    hide LiveFirst, EditedList, Prepended;
    if c.Some? {
      EditedIffNotAnother(c.value, key, link);
    }
    var edited := if c.Some? then Some(EditedList(c.value, key, link)) else c;
    if replacement.Some? {
      if Valid(edited) {
        PrependKeepsRule(edited, replacement.value);
      } else {
        PrependIffRule(edited, replacement.value);
      }
    }
  }

  lemma UpdateIffRule(c: Cache, updated: Link)
    requires Valid(c)
    ensures Valid(Updated(c, updated)) <==> !UpdatesAnother(c, updated)
  {
    hide LiveFirst, UpdatedList;
    if c.Some? {
      UpdatedIffNotAnother(c.value, updated);
    }
  }

  // A run whose answers keep the rule, from nothing cached
  function Run(events: seq<Event>): Option<Cache> {
    if events == [] then Some(None) else
      var c :- Run(events[..|events| - 1]);
      var e := events[|events| - 1];
      if CanHappen(e) && KeepsRule(c, e) then Some(After(c, e)) else None
  }

  lemma {:induction false} RunKeepsRule(events: seq<Event>)
    requires Run(events).Some?
    ensures Valid(Run(events).value)
  {
    hide After, KeepsRule, LiveFirst;
    if events != [] {
      RunKeepsRule(events[..|events| - 1]);
      StepIffKeepsRule(Run(events[..|events| - 1]).value, events[|events| - 1]);
    }
  }

  // Then looking at the first link is enough to find a live permanent one.
  lemma LookupIsComplete(events: seq<Event>, k: nat)
    requires Run(events).Some? && Run(events).value.Some? && k < |Run(events).value.value|
    requires IsLive(Run(events).value.value[k])
    ensures k == 0 && MyPermanent(Run(events).value) == Some(Run(events).value.value[k])
  {
    hide Run;
    RunKeepsRule(events);
  }
}
