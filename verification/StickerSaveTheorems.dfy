/** What holds of the sticker sets after a save. */
module StickerSaveTheorems {
  import opened StickerSaveSpec

  // The ids of an order that are known
  function Known(sets: Sets, order: seq<SetId>): seq<SetId> {
    if order == [] then [] else
      var (front, last) := (order[..|order| - 1], order[|order| - 1]);
      if last in sets then Known(sets, front) + [last] else Known(sets, front)
  }

  lemma {:induction false} KnownAre(sets: Sets, order: seq<SetId>, id: SetId)
    ensures id in Known(sets, order) <==> id in order && id in sets
  {
    if order != [] {
      KnownAre(sets, order[..|order| - 1], id);
      assert order == order[..|order| - 1] + [order[|order| - 1]];
    }
  }

  lemma {:induction false} KnownDepends(a: Sets, b: Sets, order: seq<SetId>)
    requires forall id :: id in order ==> (id in a <==> id in b)
    ensures Known(a, order) == Known(b, order)
  {
    if order != [] {
      assert order[|order| - 1] in order;
      KnownDepends(a, b, order[..|order| - 1]);
    }
  }

  // Installing: which sets, with what flags, in what order
  lemma {:induction false} InstalledSets(s: State, order: seq<SetId>, removed: seq<SetId>, now: int, id: SetId)
    ensures var t := AllInstalled(s, order, removed, now);
            && (id in t.sets <==> id in s.sets)
            && (id in s.sets && id !in order ==> t.sets[id] == s.sets[id])
            && (id in s.sets ==> TypeOf(t.sets[id]) == TypeOf(s.sets[id]) && t.sets[id].stickers == s.sets[id].stickers)
  {
    if order != [] {
      var (front, last) := (order[..|order| - 1], order[|order| - 1]);
      InstalledSets(s, front, removed, now, id);
      assert order == front + [last];
    }
  }

  lemma {:induction false} InstalledFlags(s: State, order: seq<SetId>, removed: seq<SetId>, now: int, id: SetId)
    requires id in s.sets && id in order
    ensures id in AllInstalled(s, order, removed, now).sets
    ensures AllInstalled(s, order, removed, now).sets[id].installed
    ensures AllInstalled(s, order, removed, now).sets[id].archived <==> s.sets[id].archived && id in removed
  {
    var (front, last) := (order[..|order| - 1], order[|order| - 1]);
    InstalledSets(s, front, removed, now, id);
    assert order == front + [last];
    if id in front {
      InstalledFlags(s, front, removed, now, id);
    }
  }

  lemma {:induction false} InstalledOrder(s: State, order: seq<SetId>, removed: seq<SetId>, now: int)
    ensures AllInstalled(s, order, removed, now).order == s.order + Known(s.sets, order)
    ensures AllInstalled(s, order, removed, now).recent == s.recent
  {
    if order == [] {
      assert s.order + [] == s.order;
    } else {
      var (front, last) := (order[..|order| - 1], order[|order| - 1]);
      InstalledOrder(s, front, removed, now);
      InstalledSets(s, front, removed, now, last);
    }
  }

  // The three steps of a save
  function BeforeInstall(s: State, removed: seq<SetId>, type_: StickersType): State {
    var r := AllRemoved(s, removed);
    r.(sets := AllCleared(r.sets, type_), order := [])
  }

  // The stored order is the local order, without the sets that are gone; and each set in it is there, and installed.
  lemma StoredOrder(s: State, order: seq<SetId>, removed: seq<SetId>, type_: StickersType, now: int)
    ensures var t := Saved(s, order, removed, type_, now);
            && t.order == Known(t.sets, order)
            && t.order == Known(AllRemoved(s, removed).sets, order)
            && forall id :: id in t.order ==> id in t.sets && t.sets[id].installed
  {
    hide AllRemoved, AllInstalled, Known, HasReason;
    var t := Saved(s, order, removed, type_, now);
    var b := BeforeInstall(s, removed, type_);
    InstalledOrder(b, order, removed, now);
    assert [] + Known(b.sets, order) == Known(b.sets, order);
    forall id | id in order
      ensures id in t.sets <==> id in b.sets
      ensures id in t.sets ==> t.sets[id].installed
    {
      InOrder(s, order, removed, type_, now, id);
    }
    KnownDepends(t.sets, b.sets, order);
    KnownDepends(b.sets, AllRemoved(s, removed).sets, order);
    forall id | id in t.order
      ensures id in t.sets && t.sets[id].installed
    {
      KnownAre(t.sets, order, id);
    }
  }

  lemma InOrder(s: State, order: seq<SetId>, removed: seq<SetId>, type_: StickersType, now: int, id: SetId)
    requires id in order
    ensures var (t, b) := (Saved(s, order, removed, type_, now), BeforeInstall(s, removed, type_));
            && (id in t.sets <==> id in b.sets)
            && (id in t.sets ==>
                  t.sets[id].installed && (t.sets[id].archived <==> b.sets[id].archived && id in removed))
  {
    hide AllRemoved, AllInstalled, AllCleared;
    var b := BeforeInstall(s, removed, type_);
    InstalledSets(b, order, removed, now, id);
    if id in b.sets {
      InstalledFlags(b, order, removed, now, id);
    }
  }

  lemma NotInOrder(s: State, order: seq<SetId>, removed: seq<SetId>, type_: StickersType, now: int, id: SetId)
    requires id !in order
    ensures var (t, b) := (Saved(s, order, removed, type_, now), BeforeInstall(s, removed, type_));
            && (id in t.sets <==> id in b.sets && HasReason(b.sets[id]))
            && (id in t.sets ==> t.sets[id] == b.sets[id])
  {
    hide AllRemoved, AllInstalled, AllCleared, HasReason;
    var b := BeforeInstall(s, removed, type_);
    InstalledSets(b, order, removed, now, id);
  }

  // A set of the saved type that is not archived afterwards is installed exactly when the order has it.
  lemma InstalledIffOrdered(s: State, order: seq<SetId>, removed: seq<SetId>, type_: StickersType, now: int, id: SetId)
    requires id in Saved(s, order, removed, type_, now).sets
    requires var set_ := Saved(s, order, removed, type_, now).sets[id]; TypeOf(set_) == type_ && !set_.archived
    ensures Saved(s, order, removed, type_, now).sets[id].installed <==> id in order
  {
    hide AllRemoved, Saved;
    if id in order {
      InOrder(s, order, removed, type_, now, id);
    } else {
      NotInOrder(s, order, removed, type_, now, id);
    }
  }

  // Every set that is left has a reason to be kept.
  lemma SurvivorsHaveReasons(s: State, order: seq<SetId>, removed: seq<SetId>, type_: StickersType, now: int, id: SetId)
    requires id in Saved(s, order, removed, type_, now).sets
    ensures HasReason(Saved(s, order, removed, type_, now).sets[id])
  {
    hide AllRemoved, AllInstalled, HasReason;
  }

  // Recent stickers
  lemma {:induction false} WithoutAre(recent: seq<Sticker>, stickers: seq<Sticker>, x: Sticker)
    ensures x in Without(recent, stickers) <==> x in recent && x !in stickers
  {
    if recent != [] {
      WithoutAre(recent[..|recent| - 1], stickers, x);
      assert recent == recent[..|recent| - 1] + [recent[|recent| - 1]];
    }
  }

  lemma RemovedRecent(s: State, id: SetId, x: Sticker)
    ensures x in Removed(s, id).recent ==> x in s.recent
    ensures x in Removed(s, id).recent && id in s.sets ==> x !in s.sets[id].stickers
  {
    hide Without, RemovedFrom;
    if id in s.sets {
      WithoutAre(s.recent, s.sets[id].stickers, x);
    }
  }

  // Removing a set keeps every other one, unless it clears the recents.
  lemma RemovedOthers(s: State, id: SetId, other: SetId)
    requires other in s.sets && other != id
    ensures Removed(s, id).recent == []
            || (other in Removed(s, id).sets && Removed(s, id).sets[other].stickers == s.sets[other].stickers)
  {
  }

  lemma {:induction false} FoundOrCleared(s: State, removed: seq<SetId>, id: SetId)
    requires id in s.sets && id !in removed
    ensures var t := AllRemoved(s, removed);
            t.recent == [] || (id in t.sets && t.sets[id].stickers == s.sets[id].stickers)
  {
    hide Removed;
    if removed != [] {
      var (front, last) := (removed[..|removed| - 1], removed[|removed| - 1]);
      assert removed == front + [last];
      FoundOrCleared(s, front, id);
      var t := AllRemoved(s, front);
      if t.recent == [] {
        NothingRecent(t, last);
      } else {
        RemovedOthers(t, last, id);
      }
    }
  }

  lemma NothingRecent(s: State, id: SetId)
    requires s.recent == []
    ensures Removed(s, id).recent == []
  {
  }

  // No recent sticker is left from a removed set that was known before.
  lemma {:induction false} RecentsAreNotRemoved(s: State, removed: seq<SetId>, id: SetId, x: Sticker)
    requires id in removed && id in s.sets && x in AllRemoved(s, removed).recent
    ensures x !in s.sets[id].stickers && x in s.recent
  {
    hide Removed;
    var (front, last) := (removed[..|removed| - 1], removed[|removed| - 1]);
    assert removed == front + [last];
    var t := AllRemoved(s, front);
    RemovedRecent(t, last, x);
    RecentsWereRecent(s, front, x);
    if id in front {
      RecentsAreNotRemoved(s, front, id, x);
    } else {
      FoundOrCleared(s, front, id);
    }
  }

  lemma {:induction false} RecentsWereRecent(s: State, removed: seq<SetId>, x: Sticker)
    requires x in AllRemoved(s, removed).recent
    ensures x in s.recent
  {
    hide Removed;
    if removed != [] {
      RemovedRecent(AllRemoved(s, removed[..|removed| - 1]), removed[|removed| - 1], x);
      RecentsWereRecent(s, removed[..|removed| - 1], x);
    }
  }

  lemma SavedRecentsAreNotRemoved(s: State, order: seq<SetId>, removed: seq<SetId>, type_: StickersType, now: int,
                                  id: SetId, x: Sticker)
    requires id in removed && id in s.sets && x in Saved(s, order, removed, type_, now).recent
    ensures x !in s.sets[id].stickers && x in s.recent
  {
    hide AllRemoved, AllInstalled, AllCleared;
    InstalledOrder(BeforeInstall(s, removed, type_), order, removed, now);
    RecentsAreNotRemoved(s, removed, id, x);
  }

  // What is asked of the server
  lemma {:induction false} InstallRequests(s: State, order: seq<SetId>, removed: seq<SetId>, now: int, id: SetId)
    ensures Install(id) in AllInstalled(s, order, removed, now).requests <==>
            Install(id) in s.requests || (id in order && id in s.sets && s.sets[id].archived && id !in removed)
  {
    if order != [] {
      var (front, last) := (order[..|order| - 1], order[|order| - 1]);
      InstallRequests(s, front, removed, now, id);
      InstalledSets(s, front, removed, now, last);
      assert order == front + [last];
      if last in front && last in s.sets {
        InstalledFlags(s, front, removed, now, last);
      }
    }
  }

  lemma {:induction false} RemovalInstallsNothing(s: State, removed: seq<SetId>, id: SetId)
    ensures Install(id) in AllRemoved(s, removed).requests <==> Install(id) in s.requests
  {
    if removed != [] {
      RemovalInstallsNothing(s, removed[..|removed| - 1], id);
    }
  }

  // A set is asked to be installed exactly when the order takes it out of the archive.
  lemma InstallsFromArchive(s: State, order: seq<SetId>, removed: seq<SetId>, type_: StickersType, now: int, id: SetId)
    requires Install(id) !in s.requests
    ensures Install(id) in Saved(s, order, removed, type_, now).requests <==>
            && id in order && id !in removed && id in AllRemoved(s, removed).sets
            && AllRemoved(s, removed).sets[id].archived
  {
    hide AllRemoved, AllInstalled;
    RemovalInstallsNothing(s, removed, id);
    InstallRequests(BeforeInstall(s, removed, type_), order, removed, now, id);
  }

  // A set is asked to be uninstalled exactly when its turn to be removed comes while it is there and not archived.
  lemma {:induction false} UninstallsRemoved(s: State, removed: seq<SetId>, id: SetId)
    requires Uninstall(id) !in s.requests
    ensures Uninstall(id) in AllRemoved(s, removed).requests <==>
            exists k :: 0 <= k < |removed| && removed[k] == id && IsUninstalled(AllRemoved(s, removed[..k]), id)
  {
    hide IsRecents;
    if removed != [] {
      var n := |removed| - 1;
      UninstallsRemoved(s, removed[..n], id);
      assert forall k :: 0 <= k <= n ==> removed[..n][..k] == removed[..k];
      RemovedAsks(AllRemoved(s, removed[..n]), removed[n], id);
    }
  }

  predicate IsUninstalled(s: State, id: SetId) {
    !IsRecents(id) && id in s.sets && !s.sets[id].archived
  }

  lemma RemovedAsks(s: State, turn: SetId, id: SetId)
    ensures Uninstall(id) in Removed(s, turn).requests <==>
            Uninstall(id) in s.requests || (turn == id && IsUninstalled(s, id))
  {
  }

  lemma {:induction false} NotRemoved(s: State, removed: seq<SetId>, id: SetId)
    requires id !in removed
    requires (exists r :: r in removed && IsRecents(r)) ==> !IsRecents(id) && id != CUSTOM_SET_ID
    ensures var t := AllRemoved(s, removed);
            (id in t.sets <==> id in s.sets) && (id in s.sets ==> t.sets[id] == s.sets[id])
  {
    if removed != [] {
      var (front, last) := (removed[..|removed| - 1], removed[|removed| - 1]);
      assert removed == front + [last];
      assert forall r :: r in front ==> r in removed;
      NotRemoved(s, front, id);
    }
  }

  // A set of another type that neither list mentions stays as it was, if anything keeps it.
  lemma OthersAreUntouched(s: State, order: seq<SetId>, removed: seq<SetId>, type_: StickersType, now: int, id: SetId)
    requires id in s.sets && id !in order && id !in removed && TypeOf(s.sets[id]) != type_
    requires (exists r :: r in removed && IsRecents(r)) ==> !IsRecents(id) && id != CUSTOM_SET_ID
    ensures var t := Saved(s, order, removed, type_, now);
            && (id in t.sets <==> HasReason(s.sets[id])) && (id in t.sets ==> t.sets[id] == s.sets[id])
  {
    hide AllRemoved, Saved, HasReason;
    NotRemoved(s, removed, id);
    NotInOrder(s, order, removed, type_, now, id);
  }
}
