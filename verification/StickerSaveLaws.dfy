/** What a save leaves of every set, of every recent sticker, and what it asks for, told from the sets before it. */
module StickerSaveLaws {
  import opened StickerSaveSpec
  import T = StickerSaveTheorems

  // Removing one of the cloud recents takes three sets out and clears the recent stickers.
  predicate ClearsRecents(removed: seq<SetId>) {
    CLOUD_RECENT_SET_ID in removed || CLOUD_RECENT_ATTACHED_SET_ID in removed
  }

  predicate GoesWithRecents(id: SetId) {
    id == CLOUD_RECENT_SET_ID || id == CLOUD_RECENT_ATTACHED_SET_ID || id == CUSTOM_SET_ID
  }

  // A set that is not archived loses its place when it is removed; some are kept for another reason.
  predicate IsDropped(set_: StickersSet, id: SetId, removed: seq<SetId>) {
    id in removed && !set_.archived
  }

  predicate IsKeeper(set_: StickersSet) {
    set_.featured || set_.special || set_.emoji || set_.locked
  }

  predicate IsGone(set_: StickersSet, id: SetId, removed: seq<SetId>) {
    (GoesWithRecents(id) && ClearsRecents(removed)) || (IsDropped(set_, id, removed) && !IsKeeper(set_))
  }

  lemma {:induction false} RemovalIs(s: State, removed: seq<SetId>, id: SetId)
    ensures var t := AllRemoved(s, removed);
            && (id in t.sets <==> id in s.sets && !IsGone(s.sets[id], id, removed))
            && (id in t.sets ==>
                  t.sets[id] == if IsDropped(s.sets[id], id, removed) then s.sets[id].(installed := false, date := 0)
                                else s.sets[id])
  {
    if removed != [] {
      var (front, last) := (removed[..|removed| - 1], removed[|removed| - 1]);
      assert removed == front + [last];
      RemovalIs(s, front, id);
      hide Without;
    }
  }

  // What the order then makes of a set that is in it
  lemma {:induction false} OrderIs(s: State, order: seq<SetId>, removed: seq<SetId>, now: int, id: SetId)
    requires id in s.sets && id in order
    ensures var t := AllInstalled(s, order, removed, now);
            var set_ := s.sets[id];
            && id in t.sets
            && t.sets[id] == set_.(installed := true, archived := set_.archived && id in removed,
                                   date := if set_.date == 0 then now else set_.date)
  {
    var (front, last) := (order[..|order| - 1], order[|order| - 1]);
    assert order == front + [last];
    if id in front {
      OrderIs(s, front, removed, now, id);
    } else {
      T.InstalledSets(s, front, removed, now, id);
    }
  }

  predicate IsOf(set_: StickersSet, type_: StickersType) {
    if set_.emoji then type_ == Emoji else if set_.masks then type_ == Masks else type_ == Stickers
  }

  // The fate of a set. It ends up installed if the order has it, or if it was, and the save neither drops it nor clears
  // its kind; it stays archived unless the order takes it out; its date is that of its installation; and it goes if it
  // is taken out, or if nothing keeps it.
  lemma FateIs(s: State, order: seq<SetId>, removed: seq<SetId>, type_: StickersType, now: int, id: SetId)
    requires id in s.sets
    ensures var (t, set_) := (Saved(s, order, removed, type_, now), s.sets[id]);
            var drops := IsDropped(set_, id, removed);
            var installed := id in order || (set_.installed && !drops && (set_.archived || !IsOf(set_, type_)));
            var archived := set_.archived && (id !in order || id in removed);
            var date := if drops then 0 else set_.date;
            && (id in t.sets <==> !IsGone(set_, id, removed) && (IsKeeper(set_) || installed || archived))
            && (id in t.sets ==>
                  t.sets[id] == set_.(installed := installed, archived := archived,
                                      date := if id in order && date == 0 then now else date))
  {
    hide AllRemoved, AllInstalled;
    RemovalIs(s, removed, id);
    var b := T.BeforeInstall(s, removed, type_);
    T.InstalledSets(b, order, removed, now, id);
    if id in b.sets && id in order {
      OrderIs(b, order, removed, now, id);
    }
  }

  // No set comes from elsewhere.
  lemma NoNewSets(s: State, order: seq<SetId>, removed: seq<SetId>, type_: StickersType, now: int, id: SetId)
    requires id !in s.sets
    ensures id !in Saved(s, order, removed, type_, now).sets
  {
    hide AllRemoved, AllInstalled;
    RemovalIs(s, removed, id);
    T.InstalledSets(T.BeforeInstall(s, removed, type_), order, removed, now, id);
  }

  // A sticker of one of the removed sets
  predicate IsLost(sets: Sets, removed: seq<SetId>, x: Sticker) {
    exists id :: id in removed && id in sets && x in sets[id].stickers
  }

  function Staying(sets: Sets, removed: seq<SetId>, recent: seq<Sticker>): seq<Sticker> {
    if recent == [] then [] else
      var (front, last) := (recent[..|recent| - 1], recent[|recent| - 1]);
      Staying(sets, removed, front) + if IsLost(sets, removed, last) then [] else [last]
  }

  lemma {:induction false} NothingStays(sets: Sets, recent: seq<Sticker>)
    ensures Staying(sets, [], recent) == recent
  {
    if recent != [] {
      NothingStays(sets, recent[..|recent| - 1]);
      assert recent == recent[..|recent| - 1] + [recent[|recent| - 1]];
    }
  }

  lemma {:induction false} OneMoreLost(sets: Sets, front: seq<SetId>, id: SetId, recent: seq<Sticker>)
    ensures Staying(sets, front + [id], recent) ==
            if id in sets then Without(Staying(sets, front, recent), sets[id].stickers)
            else Staying(sets, front, recent)
  {
    if recent != [] {
      var (before, last) := (recent[..|recent| - 1], recent[|recent| - 1]);
      OneMoreLost(sets, front, id, before);
      LostIff(sets, front, id, last);
      var stay := Staying(sets, front, before);
      assert (stay + [last])[..|stay|] == stay && stay + [] == stay;
    }
  }

  lemma LostIff(sets: Sets, front: seq<SetId>, id: SetId, x: Sticker)
    ensures IsLost(sets, front + [id], x) <==> IsLost(sets, front, x) || (id in sets && x in sets[id].stickers)
  {
    if IsLost(sets, front, x) {
      var lost :| lost in front && lost in sets && x in sets[lost].stickers;
      assert lost in front + [id];
    } else if id in sets && x in sets[id].stickers {
      assert id in front + [id];
    }
  }

  lemma {:induction false} StayingOnce(sets: Sets, front: seq<SetId>, id: SetId, recent: seq<Sticker>)
    requires id in front
    ensures Staying(sets, front + [id], recent) == Staying(sets, front, recent)
  {
    if recent != [] {
      var (before, last) := (recent[..|recent| - 1], recent[|recent| - 1]);
      StayingOnce(sets, front, id, before);
      LostIff(sets, front, id, last);
    }
  }

  lemma ClearedIs(s: State, removed: seq<SetId>)
    requires removed != []
    ensures var (front, last) := (removed[..|removed| - 1], removed[|removed| - 1]);
            ClearsRecents(removed) <==> ClearsRecents(front) || IsRecents(last)
  {
    assert removed == removed[..|removed| - 1] + [removed[|removed| - 1]];
  }

  lemma {:induction false} RemovalLeaves(s: State, removed: seq<SetId>)
    ensures AllRemoved(s, removed).recent ==
            if ClearsRecents(removed) then [] else Staying(s.sets, removed, s.recent)
  {
    hide Staying, Without;
    if removed == [] {
      NothingStays(s.sets, s.recent);
    } else {
      var (front, last) := (removed[..|removed| - 1], removed[|removed| - 1]);
      var t := AllRemoved(s, front);
      assert removed == front + [last];
      ClearedIs(s, removed);
      RemovalLeaves(s, front);
      RemovalIs(s, front, last);
      OneMoreLost(s.sets, front, last, s.recent);
      if last in front {
        StayingOnce(s.sets, front, last, s.recent);
      }
      assert t.recent == [] ==> last in t.sets ==> Without(t.recent, t.sets[last].stickers) == [] by {
        NothingWithout();
      }
    }
  }

  lemma NothingWithout()
    ensures forall stickers :: Without([], stickers) == []
  {
  }

  // Of the recent stickers just those stay that are in no removed set, in their order; and none, if the removed ids
  // hold one of the cloud recents.
  lemma RecentsLeft(s: State, order: seq<SetId>, removed: seq<SetId>, type_: StickersType, now: int)
    ensures Saved(s, order, removed, type_, now).recent ==
            if ClearsRecents(removed) then [] else Staying(s.sets, removed, s.recent)
  {
    hide AllRemoved, AllInstalled, AllCleared, Swept;
    RemovalLeaves(s, removed);
    T.InstalledOrder(T.BeforeInstall(s, removed, type_), order, removed, now);
  }

  lemma {:induction false} StayingAre(sets: Sets, removed: seq<SetId>, recent: seq<Sticker>, x: Sticker)
    ensures x in Staying(sets, removed, recent) <==>
            x in recent && forall id :: id in removed && id in sets ==> x !in sets[id].stickers
  {
    if recent != [] {
      StayingAre(sets, removed, recent[..|recent| - 1], x);
      assert recent == recent[..|recent| - 1] + [recent[|recent| - 1]];
    }
  }

  lemma RecentsLeftAre(s: State, order: seq<SetId>, removed: seq<SetId>, type_: StickersType, now: int, x: Sticker)
    requires !ClearsRecents(removed)
    ensures x in Saved(s, order, removed, type_, now).recent <==>
            x in s.recent && forall id :: id in removed && id in s.sets ==> x !in s.sets[id].stickers
  {
    hide Saved, Staying;
    RecentsLeft(s, order, removed, type_, now);
    StayingAre(s.sets, removed, s.recent, x);
  }

  // Each removal of one of the cloud recents asks for a clearing of its own kind, and nothing else does.
  lemma {:induction false} RemovalClears(s: State, removed: seq<SetId>, attached: bool)
    ensures multiset(AllRemoved(s, removed).requests)[ClearRecent(attached)] ==
            multiset(s.requests)[ClearRecent(attached)] +
            multiset(removed)[if attached then CLOUD_RECENT_ATTACHED_SET_ID else CLOUD_RECENT_SET_ID]
  {
    if removed != [] {
      var (front, last) := (removed[..|removed| - 1], removed[|removed| - 1]);
      assert removed == front + [last];
      RemovalClears(s, front, attached);
      hide Without, RemovedFrom;
    }
  }

  lemma {:induction false} InstallsAsk(s: State, order: seq<SetId>, removed: seq<SetId>, now: int, r: Request)
    requires !r.Install?
    ensures multiset(AllInstalled(s, order, removed, now).requests)[r] == multiset(s.requests)[r]
  {
    if order != [] {
      InstallsAsk(s, order[..|order| - 1], removed, now, r);
    }
  }

  lemma ClearsAreAsked(s: State, order: seq<SetId>, removed: seq<SetId>, type_: StickersType, now: int, attached: bool)
    ensures multiset(Saved(s, order, removed, type_, now).requests)[ClearRecent(attached)] ==
            multiset(s.requests)[ClearRecent(attached)] +
            multiset(removed)[if attached then CLOUD_RECENT_ATTACHED_SET_ID else CLOUD_RECENT_SET_ID]
  {
    hide AllRemoved, AllInstalled, AllCleared, Swept;
    RemovalClears(s, removed, attached);
    InstallsAsk(T.BeforeInstall(s, removed, type_), order, removed, now, ClearRecent(attached));
  }

  // A set is asked to be uninstalled for each time that it is removed while it is kept, and once if it goes; and to be
  // installed at most once, exactly if the order takes it out of the archive.
  lemma {:induction false} RemovalUninstalls(s: State, removed: seq<SetId>, id: SetId)
    requires !GoesWithRecents(id)
    ensures multiset(AllRemoved(s, removed).requests)[Uninstall(id)] ==
            multiset(s.requests)[Uninstall(id)] +
            (if id !in s.sets || !IsDropped(s.sets[id], id, removed) then 0
             else if IsKeeper(s.sets[id]) then multiset(removed)[id]
             else 1)
  {
    hide Without;
    if removed != [] {
      var (front, last) := (removed[..|removed| - 1], removed[|removed| - 1]);
      assert removed == front + [last];
      RemovalUninstalls(s, front, id);
      RemovalIs(s, front, id);
    }
  }

  lemma UninstallsAsked(s: State, order: seq<SetId>, removed: seq<SetId>, type_: StickersType, now: int, id: SetId)
    requires !GoesWithRecents(id)
    ensures multiset(Saved(s, order, removed, type_, now).requests)[Uninstall(id)] ==
            multiset(s.requests)[Uninstall(id)] +
            (if id !in s.sets || !IsDropped(s.sets[id], id, removed) then 0
             else if IsKeeper(s.sets[id]) then multiset(removed)[id]
             else 1)
  {
    hide AllRemoved, AllInstalled, AllCleared, Swept;
    RemovalUninstalls(s, removed, id);
    InstallsAsk(T.BeforeInstall(s, removed, type_), order, removed, now, Uninstall(id));
  }

  lemma {:induction false} InstallsOnce(s: State, order: seq<SetId>, removed: seq<SetId>, now: int, id: SetId)
    ensures multiset(AllInstalled(s, order, removed, now).requests)[Install(id)] ==
            multiset(s.requests)[Install(id)] +
            if id in order && id in s.sets && s.sets[id].archived && id !in removed then 1 else 0
  {
    if order != [] {
      var (front, last) := (order[..|order| - 1], order[|order| - 1]);
      assert order == front + [last];
      InstallsOnce(s, front, removed, now, id);
      T.InstalledSets(s, front, removed, now, last);
      if last in front && last in s.sets {
        OrderIs(s, front, removed, now, last);
      }
    }
  }

  lemma {:induction false} RemovalAsksNoInstall(s: State, removed: seq<SetId>, id: SetId)
    ensures multiset(AllRemoved(s, removed).requests)[Install(id)] == multiset(s.requests)[Install(id)]
  {
    if removed != [] {
      RemovalAsksNoInstall(s, removed[..|removed| - 1], id);
      hide Without, RemovedFrom;
    }
  }

  lemma InstallsAsked(s: State, order: seq<SetId>, removed: seq<SetId>, type_: StickersType, now: int, id: SetId)
    ensures multiset(Saved(s, order, removed, type_, now).requests)[Install(id)] ==
            multiset(s.requests)[Install(id)] +
            (if && id in order && id !in removed && id in s.sets && s.sets[id].archived
                && !(GoesWithRecents(id) && ClearsRecents(removed))
             then 1 else 0)
  {
    hide AllRemoved, AllInstalled;
    RemovalAsksNoInstall(s, removed, id);
    RemovalIs(s, removed, id);
    InstallsOnce(T.BeforeInstall(s, removed, type_), order, removed, now, id);
  }
}
