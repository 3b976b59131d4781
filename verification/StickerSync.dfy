/** saveStickerSets with its requests: it cancels what is left of the save before, updates the sets, sends the requests,
    and sends the order when all of them are answered. */
module StickerSyncCode {
  import S = StickerSaveSpec
  import StickerSaveCode
  import opened StickerSyncSpec

  class StickerSync {
    var sets: S.Sets
    var recent: seq<S.Sticker>
    var orders: PerType<seq<SetId>>
    var barriers: PerType<Barrier>
    var clearRecent: RequestId
    var clearAttached: RequestId
    var inFlight: map<RequestId, Kind>
    var lastId: RequestId

    function Value(): State
      reads this
    {
      State(sets, recent, orders, barriers, clearRecent, clearAttached, inFlight, lastId)
    }

    constructor (sets: S.Sets, recent: seq<S.Sticker>, orders: PerType<seq<SetId>>)
      ensures Value() == Start(sets, recent, orders)
    {
      var none := Barrier({}, 0, [], []);
      this.sets, this.recent, this.orders, barriers := sets, recent, orders, PerType(none, none, none);
      clearRecent, clearAttached, inFlight, lastId := 0, 0, map[], 0;
    }

    method CancelRequest(id: RequestId)
      modifies `inFlight
      ensures inFlight == old(inFlight) - {id}
    {
      inFlight := inFlight - {id};
    }

    method CancelAll(ids: set<RequestId>)
      modifies `inFlight
      ensures inFlight == old(inFlight) - ids
    {
      var left := ids;
      while left != {}
        invariant left <= ids && inFlight == old(inFlight) - (ids - left)
        decreases |left|
      {
        var id :| id in left;
        CancelRequest(id);
        left := left - {id};
        assert old(inFlight) - (ids - left) == inFlight;
      }
    }

    method CancelRequests(type_: S.StickersType)
      modifies this
      ensures Value() == Cancelled(old(Value()), type_)
    {
      var b := barriers.Of(type_);
      barriers := barriers.With(type_, b.(open := {}, reorder := 0));
      CancelAll(b.open);
      CancelRequest(b.reorder);
      CancelRequest(clearRecent);
      CancelRequest(clearAttached);
      clearRecent, clearAttached := 0, 0;
    }

    method StickersSaveOrder(type_: S.StickersType, save: nat)
      requires save < |barriers.Of(type_).saves|
      modifies this
      ensures Value() == OrderSent(old(Value()), type_, save)
    {
      var b := barriers.Of(type_);
      if |b.saves[save]| < 2 {
        return;
      }
      lastId := lastId + 1;
      inFlight := inFlight[lastId := Reorder(type_, save)];
      barriers := barriers.With(type_, b.(reorder := lastId, sent := b.sent + [save]));
    }

    method SendRequest(type_: S.StickersType, save: nat, request: S.Request)
      modifies this
      ensures Value() == RequestSent(old(Value()), type_, save, request)
    {
      lastId := lastId + 1;
      inFlight := inFlight[lastId := KindOf(type_, save, request)];
      match request {
        case ClearRecent(attached) =>
          if attached {
            clearAttached := lastId;
          } else {
            clearRecent := lastId;
          }
        case _ =>
          var b := barriers.Of(type_);
          barriers := barriers.With(type_, b.(open := b.open + {lastId}));
      }
    }

    method SendRequests(type_: S.StickersType, save: nat, requests: seq<S.Request>)
      modifies this
      ensures Value() == RequestsSent(old(Value()), type_, save, requests)
    {
      hide RequestSent;
      for i := 0 to |requests|
        invariant Value() == RequestsSent(old(Value()), type_, save, requests[..i])
      {
        assert requests[..i + 1][..i] == requests[..i];
        SendRequest(type_, save, requests[i]);
      }
      assert requests[..|requests|] == requests;
    }

    // The sets, the order of the type and the recent stickers
    method UpdateSets(type_: S.StickersType, localOrder: seq<SetId>, localRemoved: seq<SetId>, now: int)
        returns (requests: seq<S.Request>)
      modifies this
      ensures var r := SetsSaved(old(Value()), type_, localOrder, localRemoved, now);
              requests == r.requests && Value() == Stored(old(Value()), type_, localOrder, r)
    {
      hide S.Saved;
      var stickerSets := new StickerSaveCode.StickerSets(sets, orders.Of(type_), recent);
      stickerSets.SaveStickerSets(localOrder, localRemoved, type_, now);
      sets, recent, requests := stickerSets.sets, stickerSets.recent, stickerSets.requests;
      orders := orders.With(type_, stickerSets.order);
      var b := barriers.Of(type_);
      barriers := barriers.With(type_, b.(saves := b.saves + [localOrder]));
    }

    method SaveStickerSets(localOrder: seq<SetId>, localRemoved: seq<SetId>, type_: S.StickersType, now: int)
      modifies this
      ensures Value() == Saved(old(Value()), type_, localOrder, localRemoved, now)
    {
      hide RequestsSent, OrderSent, S.Saved;
      var save := |barriers.Of(type_).saves|;
      CancelRequests(type_);
      CancelledKeepsSets(old(Value()), type_, localOrder, localRemoved, now);
      var requests := UpdateSets(type_, localOrder, localRemoved, now);
      RequestsKeepSaves(Value(), type_, save, requests, type_);
      SendRequests(type_, save, requests);
      if barriers.Of(type_).open == {} {
        StickersSaveOrder(type_, save);
      }
    }

    method StickerSetDisenabled(type_: S.StickersType, save: nat, id: RequestId)
      requires save < |barriers.Of(type_).saves|
      modifies this
      ensures var b := old(barriers.Of(type_));
              var t := WithBarrier(old(Value()), type_, b.(open := b.open - {id}));
              Value() == if b.open - {id} == {} then OrderSent(t, type_, save) else t
    {
      hide OrderSent;
      var b := barriers.Of(type_);
      barriers := barriers.With(type_, b.(open := b.open - {id}));
      if barriers.Of(type_).open == {} {
        StickersSaveOrder(type_, save);
      }
    }

    method RequestAnswered(id: RequestId)
      requires id in inFlight && IsOfSave(Value(), inFlight[id])
      modifies this
      ensures Value() == Answered(old(Value()), id)
    {
      hide OrderSent;
      var kind := inFlight[id];
      inFlight := inFlight - {id};
      match kind {
        case Clearing(attached) =>
          if attached {
            clearAttached := 0;
          } else {
            clearRecent := 0;
          }
        case Reorder(type_, _) => barriers := barriers.With(type_, barriers.Of(type_).(reorder := 0));
        case Disenable(type_, save, _) => StickerSetDisenabled(type_, save, id);
      }
    }
  }

  lemma CancelledKeepsSets(s: State, type_: S.StickersType, order: seq<SetId>, removed: seq<SetId>, now: int)
    ensures SetsSaved(Cancelled(s, type_), type_, order, removed, now) == SetsSaved(s, type_, order, removed, now)
    ensures Cancelled(s, type_).barriers.Of(type_).saves == s.barriers.Of(type_).saves
  {
  }
}
