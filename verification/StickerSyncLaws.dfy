/** The clearings that the program knows of, from the save that asks for them to their answers. */
module StickerSyncLaws {
  import opened Wrappers
  import S = StickerSaveSpec
  import L = StickerSaveLaws
  import opened StickerSyncSpec
  import opened StickerSyncTheorems

  // The clearing of one kind that the program knows of, or zero
  function KnownClearing(s: State, attached: bool): RequestId {
    if attached then s.clearAttached else s.clearRecent
  }

  // It is in flight, and of that kind.
  predicate ClearingInv(s: State, attached: bool) {
    var id := KnownClearing(s, attached);
    id != 0 ==> id <= s.lastId && id in s.inFlight && s.inFlight[id] == Clearing(attached)
  }

  lemma RequestKeepsClearing(s: State, type_: S.StickersType, save: nat, request: S.Request, attached: bool)
    requires ClearingInv(s, attached)
    ensures var t := RequestSent(s, type_, save, request);
            && ClearingInv(t, attached)
            && (KnownClearing(t, attached) != 0 <==>
                  KnownClearing(s, attached) != 0 || request == S.ClearRecent(attached))
  {
  }

  lemma {:induction false} RequestsKeepClearing(
    s: State, type_: S.StickersType, save: nat, requests: seq<S.Request>, attached: bool)
    requires ClearingInv(s, attached)
    ensures var t := RequestsSent(s, type_, save, requests);
            && ClearingInv(t, attached)
            && (KnownClearing(t, attached) != 0 <==>
                  KnownClearing(s, attached) != 0 || S.ClearRecent(attached) in requests)
  {
    hide ClearingInv, KnownClearing, RequestSent;
    if requests != [] {
      var (front, last) := (requests[..|requests| - 1], requests[|requests| - 1]);
      assert requests == front + [last];
      RequestsKeepClearing(s, type_, save, front, attached);
      RequestKeepsClearing(RequestsSent(s, type_, save, front), type_, save, last, attached);
    }
  }

  lemma OrderKeepsClearing(s: State, type_: S.StickersType, save: nat, attached: bool)
    requires save < |s.barriers.Of(type_).saves| && ClearingInv(s, attached)
    ensures var t := OrderSent(s, type_, save);
            ClearingInv(t, attached) && KnownClearing(t, attached) == KnownClearing(s, attached)
  {
  }

  lemma ClearingIsAsked(
    s: S.State, order: seq<SetId>, removed: seq<SetId>, type_: S.StickersType, now: int, attached: bool)
    requires s.requests == []
    ensures S.ClearRecent(attached) in S.Saved(s, order, removed, type_, now).requests <==>
            (if attached then S.CLOUD_RECENT_ATTACHED_SET_ID else S.CLOUD_RECENT_SET_ID) in removed
  {
    L.ClearsAreAsked(s, order, removed, type_, now, attached);
  }

  // After a save the program knows of a clearing exactly if the save asked for one.
  lemma SaveKnowsItsClearings(
    s: State, type_: S.StickersType, order: seq<SetId>, removed: seq<SetId>, now: int, attached: bool)
    ensures var t := After(s, Save(type_, order, removed, now));
            && ClearingInv(t, attached)
            && (KnownClearing(t, attached) != 0 <==>
                  (if attached then S.CLOUD_RECENT_ATTACHED_SET_ID else S.CLOUD_RECENT_SET_ID) in removed)
  {
    hide S.Saved, RequestsSent, OrderSent;
    var save := |s.barriers.Of(type_).saves|;
    var r := SetsSaved(s, type_, order, removed, now);
    var stored := Stored(Cancelled(s, type_), type_, order, r);
    assert KnownClearing(stored, attached) == 0;
    RequestsKeepClearing(stored, type_, save, r.requests, attached);
    var t := RequestsSent(stored, type_, save, r.requests);
    RequestsKeepSaves(stored, type_, save, r.requests, type_);
    OrderKeepsClearing(t, type_, save, attached);
    ClearingIsAsked(S.State(s.sets, s.orders.Of(type_), s.recent, []), order, removed, type_, now, attached);
  }

  // An answer makes the program forget a clearing exactly if it answers one of that kind.
  lemma AnswerForgets(s: State, id: RequestId, attached: bool)
    requires Inv(s) && CanHappen(s, Answer(id)) && ClearingInv(s, attached)
    ensures var t := After(s, Answer(id));
            && ClearingInv(t, attached)
            && KnownClearing(t, attached) ==
                 if s.inFlight[id] == Clearing(attached) then 0 else KnownClearing(s, attached)
  {
    hide Inv, OrderSent;
    var t := s.(inFlight := s.inFlight - {id});
    match s.inFlight[id] {
      case Disenable(type_, save, _) =>
        var b := t.barriers.Of(type_);
        OrderKeepsClearing(WithBarrier(t, type_, b.(open := b.open - {id})), type_, save, attached);
      case _ =>
    }
  }

  lemma {:induction false} RunKeepsClearing(s: State, events: seq<Event>, attached: bool)
    requires Inv(s) && ClearingInv(s, attached) && RunFrom(s, events).Some?
    ensures ClearingInv(RunFrom(s, events).value, attached)
  {
    hide After, CanHappen, Inv, ClearingInv;
    if events != [] {
      var (front, last) := (events[..|events| - 1], events[|events| - 1]);
      RunKeepsClearing(s, front, attached);
      RunKeepsInv(s, front);
      var t := RunFrom(s, front).value;
      match last {
        case Save(type_, order, removed, now) => SaveKnowsItsClearings(t, type_, order, removed, now, attached);
        case Answer(id) => AnswerForgets(t, id, attached);
        case Change(_, _, _) => ChangeKeepsClearing(t, last, attached);
      }
    }
  }

  lemma ChangeKeepsClearing(s: State, e: Event, attached: bool)
    requires e.Change? && CanHappen(s, e) && ClearingInv(s, attached)
    ensures ClearingInv(After(s, e), attached)
  {
  }

  // In every run the clearings that the program knows of are in flight, and of their kinds.
  lemma ClearingsAreInFlight(s: State, attached: bool)
    requires Reached(s)
    ensures KnownClearing(s, attached) != 0 ==>
              KnownClearing(s, attached) in s.inFlight && s.inFlight[KnownClearing(s, attached)] == Clearing(attached)
  {
    hide RunFrom, Inv;
    var sets: S.Sets, recent: seq<S.Sticker>, orders: PerType<seq<SetId>>, events: seq<Event> :|
      RunFrom(Start(sets, recent, orders), events) == Some(s);
    StartHasInv(sets, recent, orders);
    RunKeepsClearing(Start(sets, recent, orders), events, attached);
  }
}
