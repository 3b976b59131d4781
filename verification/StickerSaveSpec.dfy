/** Saving an order of sticker sets: what it makes of the sets, their order and the recent stickers. */
module StickerSaveSpec {
  type SetId = n: nat | n < 0x1_0000_0000_0000_0000

  type Sticker = nat

  const CUSTOM_SET_ID: SetId := 0xFFFF_FFFF_FFFF_FFFF
  const CLOUD_RECENT_SET_ID: SetId := 0xFFFF_FFFF_FFFF_FFFC
  const CLOUD_RECENT_ATTACHED_SET_ID: SetId := 0xFFFF_FFFF_FFFF_FFF9

  datatype StickersType = Stickers | Masks | Emoji

  datatype StickersSet = StickersSet(
    installed: bool, archived: bool, masks: bool, featured: bool, special: bool, emoji: bool, locked: bool,
    date: int, stickers: seq<Sticker>)

  type Sets = map<SetId, StickersSet>

  function TypeOf(set_: StickersSet): StickersType {
    if set_.emoji then Emoji else if set_.masks then Masks else Stickers
  }

  // What is asked of the server at once
  datatype Request = Uninstall(id: SetId) | Install(id: SetId) | ClearRecent(attached: bool)

  datatype State = State(sets: Sets, order: seq<SetId>, recent: seq<Sticker>, requests: seq<Request>)

  // Removing one set
  predicate IsRecents(id: SetId) {
    id == CLOUD_RECENT_SET_ID || id == CLOUD_RECENT_ATTACHED_SET_ID
  }

  function Without(recent: seq<Sticker>, stickers: seq<Sticker>): seq<Sticker> {
    if recent == [] then [] else
      var (front, last) := (recent[..|recent| - 1], recent[|recent| - 1]);
      if last in stickers then Without(front, stickers) else Without(front, stickers) + [last]
  }

  predicate KeptWhenRemoved(set_: StickersSet) {
    set_.featured || set_.special || set_.emoji || set_.locked
  }

  function RemovedFrom(sets: Sets, id: SetId): Sets
    requires id in sets
  {
    if sets[id].archived then sets
    else if KeptWhenRemoved(sets[id]) then sets[id := sets[id].(installed := false, archived := false, date := 0)]
    else sets - {id}
  }

  function Removed(s: State, id: SetId): State {
    if IsRecents(id) then
      State(s.sets - {CLOUD_RECENT_SET_ID, CLOUD_RECENT_ATTACHED_SET_ID, CUSTOM_SET_ID}, s.order, [],
            s.requests + [ClearRecent(id == CLOUD_RECENT_ATTACHED_SET_ID)])
    else if id !in s.sets then s
    else
      State(RemovedFrom(s.sets, id), s.order, Without(s.recent, s.sets[id].stickers),
            if s.sets[id].archived then s.requests else s.requests + [Uninstall(id)])
  }

  function AllRemoved(s: State, removed: seq<SetId>): State {
    if removed == [] then s else Removed(AllRemoved(s, removed[..|removed| - 1]), removed[|removed| - 1])
  }

  // Clearing the installed flags of the type
  function Cleared(set_: StickersSet, type_: StickersType): StickersSet {
    if !set_.archived && TypeOf(set_) == type_ then set_.(installed := false) else set_
  }

  function AllCleared(sets: Sets, type_: StickersType): Sets {
    map id | id in sets :: Cleared(sets[id], type_)
  }

  // Installing the sets of the order
  function Installed(set_: StickersSet, isRemoved: bool, now: int): StickersSet {
    set_.(archived := set_.archived && isRemoved, installed := true, date := if set_.date == 0 then now else set_.date)
  }

  function InstalledInto(s: State, id: SetId, removed: seq<SetId>, now: int): State {
    if id !in s.sets then s
    else
      State(s.sets[id := Installed(s.sets[id], id in removed, now)], s.order + [id], s.recent,
            if s.sets[id].archived && id !in removed then s.requests + [Install(id)] else s.requests)
  }

  function AllInstalled(s: State, order: seq<SetId>, removed: seq<SetId>, now: int): State {
    if order == [] then s
    else InstalledInto(AllInstalled(s, order[..|order| - 1], removed, now), order[|order| - 1], removed, now)
  }

  // Dropping what nothing keeps
  predicate HasReason(set_: StickersSet) {
    set_.featured || set_.installed || set_.archived || set_.special || set_.emoji || set_.locked
  }

  function Swept(sets: Sets): Sets {
    map id | id in sets && HasReason(sets[id]) :: sets[id]
  }

  // saveStickerSets
  function Saved(s: State, order: seq<SetId>, removed: seq<SetId>, type_: StickersType, now: int): State {
    var r := AllRemoved(s, removed);
    var c := r.(sets := AllCleared(r.sets, type_), order := []);
    var i := AllInstalled(c, order, removed, now);
    i.(sets := Swept(i.sets))
  }
}
