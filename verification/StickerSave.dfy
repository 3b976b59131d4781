/** saveStickerSets, updating the sets, their order and the recent stickers in place. */
module StickerSaveCode {
  import opened StickerSaveSpec

  class StickerSets {
    var sets: Sets
    var order: seq<SetId>
    var recent: seq<Sticker>
    var requests: seq<Request>

    function Value(): State
      reads this
    {
      State(sets, order, recent, requests)
    }

    constructor (sets: Sets, order: seq<SetId>, recent: seq<Sticker>)
      ensures Value() == State(sets, order, recent, [])
    {
      this.sets, this.order, this.recent, requests := sets, order, recent, [];
    }

    method EraseRecent(stickers: seq<Sticker>)
      modifies `recent
      ensures recent == Without(old(recent), stickers)
    {
      var left: seq<Sticker> := [];
      for i := 0 to |recent|
        invariant left == Without(recent[..i], stickers)
      {
        assert recent[..i + 1][..i] == recent[..i];
        if recent[i] !in stickers {
          left := left + [recent[i]];
        }
      }
      assert recent[..|recent|] == recent;
      recent := left;
    }

    method ClearRecents(id: SetId)
      requires IsRecents(id)
      modifies this
      ensures Value() == Removed(old(Value()), id)
    {
      sets := sets - {CLOUD_RECENT_SET_ID};
      sets := sets - {CLOUD_RECENT_ATTACHED_SET_ID};
      sets := sets - {CUSTOM_SET_ID};
      assert sets == old(sets) - {CLOUD_RECENT_SET_ID, CLOUD_RECENT_ATTACHED_SET_ID, CUSTOM_SET_ID};
      if recent != [] {
        recent := [];
      }
      requests := requests + [ClearRecent(id == CLOUD_RECENT_ATTACHED_SET_ID)];
    }

    method RemoveSet(id: SetId)
      modifies this
      ensures Value() == Removed(old(Value()), id)
    {
      hide Without;
      if IsRecents(id) {
        ClearRecents(id);
        return;
      }
      if id !in sets {
        return;
      }
      var set_ := sets[id];
      EraseRecent(set_.stickers);
      if !set_.archived {
        requests := requests + [Uninstall(id)];
        if !set_.featured && !set_.special && !set_.emoji && !set_.locked {
          sets := sets - {id};
        } else {
          sets := sets[id := set_.(installed := false, archived := false, date := 0)];
        }
      }
    }

    method RemoveSets(removed: seq<SetId>)
      modifies this
      ensures Value() == AllRemoved(old(Value()), removed)
    {
      hide Removed;
      for i := 0 to |removed|
        invariant Value() == AllRemoved(old(Value()), removed[..i])
      {
        assert removed[..i + 1][..i] == removed[..i];
        RemoveSet(removed[i]);
      }
      assert removed[..|removed|] == removed;
    }

    method ClearInstalled(type_: StickersType)
      modifies `sets
      ensures sets == AllCleared(old(sets), type_)
    {
      hide Cleared;
      var left := sets.Keys;
      while left != {}
        invariant left <= sets.Keys && sets.Keys == old(sets.Keys)
        invariant forall id :: id in sets ==>
                    sets[id] == if id in left then old(sets)[id] else Cleared(old(sets)[id], type_)
        decreases |left|
      {
        var id :| id in left;
        sets := sets[id := Cleared(sets[id], type_)];
        left := left - {id};
      }
    }

    method InstallSet(id: SetId, removed: seq<SetId>, now: int)
      modifies this
      ensures Value() == InstalledInto(old(Value()), id, removed, now)
    {
      if id !in sets {
        return;
      }
      var set_ := sets[id];
      if set_.archived && id !in removed {
        requests := requests + [Install(id)];
        set_ := set_.(archived := false);
      }
      order := order + [id];
      set_ := set_.(installed := true);
      if set_.date == 0 {
        set_ := set_.(date := now);
      }
      sets := sets[id := set_];
    }

    method InstallSets(localOrder: seq<SetId>, removed: seq<SetId>, now: int)
      modifies this
      ensures Value() == AllInstalled(old(Value()), localOrder, removed, now)
    {
      hide InstalledInto;
      for i := 0 to |localOrder|
        invariant Value() == AllInstalled(old(Value()), localOrder[..i], removed, now)
      {
        assert localOrder[..i + 1][..i] == localOrder[..i];
        InstallSet(localOrder[i], removed, now);
      }
      assert localOrder[..|localOrder|] == localOrder;
    }

    method Sweep()
      modifies `sets
      ensures sets == Swept(old(sets))
    {
      hide HasReason;
      var left := sets.Keys;
      while left != {}
        invariant left <= old(sets.Keys)
        invariant forall id :: id in sets <==> id in old(sets) && (id in left || HasReason(old(sets)[id]))
        invariant forall id :: id in sets ==> sets[id] == old(sets)[id]
        decreases |left|
      {
        var id :| id in left;
        if !HasReason(sets[id]) {
          sets := sets - {id};
        }
        left := left - {id};
      }
    }

    method SaveStickerSets(localOrder: seq<SetId>, localRemoved: seq<SetId>, type_: StickersType, now: int)
      modifies this
      ensures Value() == Saved(old(Value()), localOrder, localRemoved, type_, now)
    {
      hide AllRemoved, AllInstalled, AllCleared, Swept;
      RemoveSets(localRemoved);
      ClearInstalled(type_);
      order := [];
      InstallSets(localOrder, localRemoved, now);
      Sweep();
    }
  }
}
