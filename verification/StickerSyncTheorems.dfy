/** The order of a save goes out once, when all install and uninstall requests of the save are answered, and never after
    a newer save of its type. */
module StickerSyncTheorems {
  import opened Wrappers
  import S = StickerSaveSpec
  import T = StickerSaveTheorems
  import opened StickerSyncSpec

  // A request in flight belongs to the last save of its type, and the program knows of it.
  predicate FlightInv(s: State, id: RequestId)
    requires id in s.inFlight
  {
    && 0 < id <= s.lastId
    && match s.inFlight[id]
       case Clearing(_) => true
       case Disenable(type_, save, _) =>
         save == |s.barriers.Of(type_).saves| - 1 && id in s.barriers.Of(type_).open
       case Reorder(type_, save) =>
         var b := s.barriers.Of(type_); save == |b.saves| - 1 && id == b.reorder && b.open == {}
  }

  ghost predicate BarrierInv(s: State, type_: S.StickersType) {
    var b := s.barriers.Of(type_);
    && (forall id :: id in b.open ==> id in s.inFlight && s.inFlight[id].Disenable? && s.inFlight[id].type_ == type_)
    && (b.reorder != 0 ==>
          b.reorder in s.inFlight && s.inFlight[b.reorder].Reorder? && s.inFlight[b.reorder].type_ == type_)
    && SentInv(b)
  }

  // The orders sent are those of ever later saves; the last one's is among them exactly when nothing of it is open.
  ghost predicate SentInv(b: Barrier) {
    && (forall i, j :: 0 <= i < j < |b.sent| ==> b.sent[i] < b.sent[j])
    && (forall i :: 0 <= i < |b.sent| ==> b.sent[i] < |b.saves|)
    && (b.saves != [] ==> (|b.saves| - 1 in b.sent <==> b.open == {} && |b.saves[|b.saves| - 1]| >= 2))
    && (b.saves == [] ==> b.open == {})
  }

  predicate IsClearing(s: State, id: RequestId) {
    id <= s.lastId && (id in s.inFlight ==> s.inFlight[id].Clearing?)
  }

  ghost predicate Inv(s: State) {
    && (forall id :: id in s.inFlight ==> FlightInv(s, id))
    && (forall type_: S.StickersType :: BarrierInv(s, type_))
    && IsClearing(s, s.clearRecent) && IsClearing(s, s.clearAttached)
  }

  // One request more
  lemma RequestSentIs(s: State, type_: S.StickersType, save: nat, request: S.Request)
    ensures var (t, id) := (RequestSent(s, type_, save, request), s.lastId + 1);
            && t.lastId == id && t.inFlight == s.inFlight[id := KindOf(type_, save, request)]
            && t.barriers.Of(type_).open == (if request.ClearRecent? then s.barriers.Of(type_).open
                                             else s.barriers.Of(type_).open + {id})
            && t.clearRecent in {s.clearRecent, id}
               && (t.clearRecent == id ==> s.clearRecent == id || request.ClearRecent?)
            && t.clearAttached in {s.clearAttached, id}
               && (t.clearAttached == id ==> s.clearAttached == id || request.ClearRecent?)
  {
  }

  // All requests of a save: their ids follow the last one, in their order; the open ones are the install and uninstall
  // requests.
  lemma {:induction false} RequestsAre(s: State, type_: S.StickersType, save: nat, requests: seq<S.Request>,
                                       id: RequestId)
    requires forall k :: k in s.inFlight ==> k <= s.lastId
    ensures var t := RequestsSent(s, type_, save, requests);
            && t.lastId == s.lastId + |requests|
            && (id in t.inFlight <==> id in s.inFlight || s.lastId < id <= t.lastId)
            && (id in s.inFlight ==> t.inFlight[id] == s.inFlight[id])
            && (s.lastId < id <= t.lastId ==> t.inFlight[id] == KindOf(type_, save, requests[id - s.lastId - 1]))
  {
    hide RequestSent, KindOf;
    if requests != [] {
      var n := |requests| - 1;
      RequestsAre(s, type_, save, requests[..n], id);
      RequestSentIs(RequestsSent(s, type_, save, requests[..n]), type_, save, requests[n]);
    }
  }

  lemma {:induction false} OpenAre(s: State, type_: S.StickersType, save: nat, requests: seq<S.Request>, id: RequestId)
    ensures var t := RequestsSent(s, type_, save, requests);
            && t.lastId == s.lastId + |requests|
            && (id in t.barriers.Of(type_).open <==>
                  id in s.barriers.Of(type_).open
                  || (s.lastId < id <= t.lastId && !requests[id - s.lastId - 1].ClearRecent?))
  {
    hide RequestSent, KindOf;
    if requests != [] {
      var n := |requests| - 1;
      OpenAre(s, type_, save, requests[..n], id);
      RequestSentIs(RequestsSent(s, type_, save, requests[..n]), type_, save, requests[n]);
    }
  }

  lemma {:induction false} ClearingsAre(s: State, type_: S.StickersType, save: nat, requests: seq<S.Request>)
    requires IsClearing(s, s.clearRecent) && IsClearing(s, s.clearAttached)
    ensures var t := RequestsSent(s, type_, save, requests);
            IsClearing(t, t.clearRecent) && IsClearing(t, t.clearAttached)
  {
    hide RequestSent;
    if requests != [] {
      var n := |requests| - 1;
      ClearingsAre(s, type_, save, requests[..n]);
      RequestSentIs(RequestsSent(s, type_, save, requests[..n]), type_, save, requests[n]);
    }
  }

  // Cancelling leaves nothing of the type in flight.
  lemma CancelledKeepsInv(s: State, type_: S.StickersType)
    requires Inv(s)
    ensures var t := Cancelled(s, type_);
            && (forall id :: id in t.inFlight ==>
                  id in s.inFlight && t.inFlight[id] == s.inFlight[id] && 0 < id <= t.lastId)
            && (forall id :: id in t.inFlight && !t.inFlight[id].Clearing? ==> t.inFlight[id].type_ != type_)
            && (forall id :: id in s.inFlight && id !in t.inFlight ==>
                  s.inFlight[id].Clearing? || s.inFlight[id].type_ == type_)
            && t.clearRecent == t.clearAttached == 0 && t.lastId == s.lastId
            && t.barriers.Of(type_) == s.barriers.Of(type_).(open := {}, reorder := 0)
            && forall other: S.StickersType :: other != type_ ==> t.barriers.Of(other) == s.barriers.Of(other)
  {
    var b := s.barriers.Of(type_);
    assert BarrierInv(s, type_);
    forall id | id in s.inFlight
      ensures 0 < id <= s.lastId
      ensures !s.inFlight[id].Clearing? && s.inFlight[id].type_ == type_ ==> id in b.open || id == b.reorder
    {
      assert FlightInv(s, id);
    }
  }

  // While a save is not completed: everything but that its order was sent if nothing is open
  ghost predicate UnsentInv(s: State, type_: S.StickersType, save: nat) {
    var b := s.barriers.Of(type_);
    && (forall id :: id in s.inFlight ==> FlightInv(s, id))
    && (forall other: S.StickersType :: other != type_ ==> BarrierInv(s, other))
    && IsClearing(s, s.clearRecent) && IsClearing(s, s.clearAttached)
    && (forall id :: id in b.open ==> id in s.inFlight && s.inFlight[id].Disenable? && s.inFlight[id].type_ == type_)
    && b.reorder == 0 && |b.saves| == save + 1
    && (forall i, j :: 0 <= i < j < |b.sent| ==> b.sent[i] < b.sent[j])
    && (forall i :: 0 <= i < |b.sent| ==> b.sent[i] < save)
  }

  function Completed(s: State, type_: S.StickersType, save: nat): State
    requires save < |s.barriers.Of(type_).saves|
  {
    if s.barriers.Of(type_).open == {} then OrderSent(s, type_, save) else s
  }

  lemma CompletedKeepsInv(s: State, type_: S.StickersType, save: nat)
    requires UnsentInv(s, type_, save)
    ensures Inv(Completed(s, type_, save))
  {
    hide BarrierInv;
    CompletedBarrier(s, type_, save);
    var t := Completed(s, type_, save);
    forall other: S.StickersType
      ensures BarrierInv(t, other)
    {
      if other != type_ {
        OtherStays(s, t, other);
      }
    }
    forall id | id in t.inFlight
      ensures FlightInv(t, id)
    {
      assert id in s.inFlight ==> FlightInv(s, id);
    }
  }

  lemma CompletedBarrier(s: State, type_: S.StickersType, save: nat)
    requires UnsentInv(s, type_, save)
    ensures BarrierInv(Completed(s, type_, save), type_)
  {
    hide FlightInv, IsClearing, SentInv;
    var b := s.barriers.Of(type_);
    if b.open == {} && |b.saves[save]| >= 2 {
      SentGrows(b, save, s.lastId + 1);
    } else {
      UnsentStays(b, save);
    }
  }

  lemma SentGrows(b: Barrier, save: nat, id: RequestId)
    requires |b.saves| == save + 1 && b.open == {} && |b.saves[save]| >= 2
    requires forall i, j :: 0 <= i < j < |b.sent| ==> b.sent[i] < b.sent[j]
    requires forall i :: 0 <= i < |b.sent| ==> b.sent[i] < save
    ensures SentInv(b.(reorder := id, sent := b.sent + [save]))
  {
    var sent := b.sent + [save];
    assert sent[|b.sent|] == save;
  }

  lemma UnsentStays(b: Barrier, save: nat)
    requires |b.saves| == save + 1 && !(b.open == {} && |b.saves[save]| >= 2)
    requires forall i, j :: 0 <= i < j < |b.sent| ==> b.sent[i] < b.sent[j]
    requires forall i :: 0 <= i < |b.sent| ==> b.sent[i] < save
    ensures SentInv(b)
  {
  }

  // A type whose barrier and requests in flight stay keeps its invariant.
  lemma OtherStays(s: State, t: State, type_: S.StickersType)
    requires BarrierInv(s, type_) && t.barriers.Of(type_) == s.barriers.Of(type_)
    requires forall id :: id in s.inFlight && !s.inFlight[id].Clearing? && s.inFlight[id].type_ == type_ ==>
                            id in t.inFlight && t.inFlight[id] == s.inFlight[id]
    ensures BarrierInv(t, type_)
  {
  }

  // What a save has before it is completed
  function Requested(s: State, type_: S.StickersType, order: seq<SetId>, r: S.State): State {
    RequestsSent(Stored(Cancelled(s, type_), type_, order, r), type_, |s.barriers.Of(type_).saves|, r.requests)
  }

  lemma StoredIs(s: State, type_: S.StickersType, order: seq<SetId>, r: S.State)
    ensures var t := Stored(s, type_, order, r);
            && t.inFlight == s.inFlight && t.lastId == s.lastId
            && t.clearRecent == s.clearRecent && t.clearAttached == s.clearAttached
            && t.barriers.Of(type_) == s.barriers.Of(type_).(saves := s.barriers.Of(type_).saves + [order])
            && forall other: S.StickersType :: other != type_ ==> t.barriers.Of(other) == s.barriers.Of(other)
  {
  }

  lemma RequestedIsUnsent(s: State, type_: S.StickersType, order: seq<SetId>, r: S.State)
    requires Inv(s)
    ensures UnsentInv(Requested(s, type_, order, r), type_, |s.barriers.Of(type_).saves|)
  {
    hide Cancelled, Stored, RequestsSent, BarrierInv, SentInv, FlightInv;
    var (b, save) := (s.barriers.Of(type_), |s.barriers.Of(type_).saves|);
    var stored := Stored(Cancelled(s, type_), type_, order, r);
    CancelledKeepsInv(s, type_);
    StoredIs(Cancelled(s, type_), type_, order, r);
    RequestsKeepSaves(stored, type_, save, r.requests, type_);
    var t := RequestsSent(stored, type_, save, r.requests);
    OpenAre(stored, type_, save, r.requests, 0);
    forall id: RequestId
      ensures id in t.inFlight <==> id in stored.inFlight || stored.lastId < id <= t.lastId
      ensures id in stored.inFlight ==> t.inFlight[id] == stored.inFlight[id]
      ensures stored.lastId < id <= t.lastId ==>
                t.inFlight[id] == KindOf(type_, save, r.requests[id - stored.lastId - 1])
      ensures id in t.barriers.Of(type_).open <==>
                stored.lastId < id <= t.lastId && !r.requests[id - stored.lastId - 1].ClearRecent?
    {
      RequestsAre(stored, type_, save, r.requests, id);
      OpenAre(stored, type_, save, r.requests, id);
    }
    ClearingsAre(stored, type_, save, r.requests);
    SentBefore(s, type_);
    forall other: S.StickersType | other != type_
      ensures BarrierInv(t, other) && t.barriers.Of(other) == s.barriers.Of(other)
    {
      RequestsKeepSaves(stored, type_, save, r.requests, other);
      assert BarrierInv(s, other);
      OtherStays(s, t, other);
    }
    forall id | id in t.inFlight
      ensures FlightInv(t, id)
    {
      if id in stored.inFlight {
        assert FlightInv(s, id);
        FlightStays(s, t, id);
      } else {
        FlightOfSave(t, type_, save, id);
      }
    }
  }

  lemma SentBefore(s: State, type_: S.StickersType)
    requires Inv(s)
    ensures var b := s.barriers.Of(type_);
            && (forall i, j :: 0 <= i < j < |b.sent| ==> b.sent[i] < b.sent[j])
            && (forall i :: 0 <= i < |b.sent| ==> b.sent[i] < |b.saves|)
  {
    assert BarrierInv(s, type_);
  }

  lemma FlightStays(s: State, t: State, id: RequestId)
    requires id in s.inFlight && id in t.inFlight && t.inFlight[id] == s.inFlight[id] && FlightInv(s, id)
    requires t.lastId >= s.lastId
    requires !s.inFlight[id].Clearing? ==> t.barriers.Of(s.inFlight[id].type_) == s.barriers.Of(s.inFlight[id].type_)
    ensures FlightInv(t, id)
  {
  }

  lemma FlightOfSave(t: State, type_: S.StickersType, save: nat, id: RequestId)
    requires id in t.inFlight && 0 < id <= t.lastId && |t.barriers.Of(type_).saves| == save + 1
    requires t.inFlight[id].Clearing? || (t.inFlight[id].Disenable? && t.inFlight[id].type_ == type_
                                          && t.inFlight[id].save == save && id in t.barriers.Of(type_).open)
    ensures FlightInv(t, id)
  {
  }

  lemma SavedIs(s: State, type_: S.StickersType, order: seq<SetId>, removed: seq<SetId>, now: int)
    ensures var save := |s.barriers.Of(type_).saves|;
            var t := Requested(s, type_, order, SetsSaved(s, type_, order, removed, now));
            && |t.barriers.Of(type_).saves| == save + 1 && t.barriers.Of(type_).sent == s.barriers.Of(type_).sent
            && Saved(s, type_, order, removed, now) == Completed(t, type_, save)
  {
    hide SetsSaved, RequestsSent, OrderSent;
    var r := SetsSaved(s, type_, order, removed, now);
    var stored := Stored(Cancelled(s, type_), type_, order, r);
    RequestsKeepSaves(stored, type_, |s.barriers.Of(type_).saves|, r.requests, type_);
  }

  lemma SaveKeepsInv(s: State, type_: S.StickersType, order: seq<SetId>, removed: seq<SetId>, now: int)
    requires Inv(s)
    ensures Inv(Saved(s, type_, order, removed, now))
  {
    hide Inv, UnsentInv, Saved, Requested, SetsSaved, Completed;
    SavedIs(s, type_, order, removed, now);
    var r := SetsSaved(s, type_, order, removed, now);
    RequestedIsUnsent(s, type_, order, r);
    CompletedKeepsInv(Requested(s, type_, order, r), type_, |s.barriers.Of(type_).saves|);
  }

  // Answers
  lemma ClearingAnswerKeepsInv(s: State, id: RequestId)
    requires Inv(s) && id in s.inFlight && s.inFlight[id].Clearing?
    ensures Inv(Answered(s, id))
  {
    hide BarrierInv;
    var t := Answered(s, id);
    forall type_: S.StickersType
      ensures BarrierInv(t, type_)
    {
      OtherStays(s, t, type_);
    }
    forall k | k in t.inFlight
      ensures FlightInv(t, k)
    {
      assert FlightInv(s, k);
    }
    assert 0 !in t.inFlight by { NoZero(s); }
  }

  lemma NoZero(s: State)
    requires Inv(s)
    ensures 0 !in s.inFlight
  {
    forall id | id in s.inFlight
      ensures id > 0
    {
      assert FlightInv(s, id);
    }
  }

  lemma ReorderAnswerKeepsInv(s: State, id: RequestId)
    requires Inv(s) && id in s.inFlight && s.inFlight[id].Reorder?
    ensures Inv(Answered(s, id))
  {
    hide SentInv;
    var (t, type_) := (Answered(s, id), s.inFlight[id].type_);
    assert FlightInv(s, id);
    forall other: S.StickersType
      ensures BarrierInv(t, other)
    {
      assert BarrierInv(s, other);
      if other == type_ {
        SentStays(s.barriers.Of(type_), t.barriers.Of(type_));
      } else {
        OtherStays(s, t, other);
      }
    }
    forall k | k in t.inFlight
      ensures FlightInv(t, k)
    {
      assert FlightInv(s, k);
    }
  }

  lemma SentStays(b: Barrier, c: Barrier)
    requires SentInv(b) && c.sent == b.sent && c.saves == b.saves && c.open == b.open
    ensures SentInv(c)
  {
  }

  lemma DisenableAnswerIsUnsent(s: State, id: RequestId)
    requires Inv(s) && id in s.inFlight && s.inFlight[id].Disenable?
    ensures var type_ := s.inFlight[id].type_;
            var b := s.barriers.Of(type_);
            && s.inFlight[id].save == |b.saves| - 1
            && UnsentInv(WithBarrier(s.(inFlight := s.inFlight - {id}), type_, b.(open := b.open - {id})), type_,
                         |b.saves| - 1)
  {
    var type_ := s.inFlight[id].type_;
    var b := s.barriers.Of(type_);
    assert FlightInv(s, id);
    assert BarrierInv(s, type_);
    assert b.reorder == 0 by { NoReorder(s, type_, id); }
    var t := WithBarrier(s.(inFlight := s.inFlight - {id}), type_, b.(open := b.open - {id}));
    hide BarrierInv;
    forall other: S.StickersType | other != type_
      ensures BarrierInv(t, other)
    {
      assert t.barriers.Of(other) == s.barriers.Of(other);
      OtherStays(s, t, other);
    }
    forall k | k in t.inFlight
      ensures FlightInv(t, k)
    {
      assert FlightInv(s, k);
      OpenExcludesReorder(s, k, type_, id);
    }
  }

  lemma NoReorder(s: State, type_: S.StickersType, id: RequestId)
    requires Inv(s) && id in s.barriers.Of(type_).open
    ensures s.barriers.Of(type_).reorder == 0
  {
    var b := s.barriers.Of(type_);
    assert BarrierInv(s, type_);
    assert b.reorder != 0 ==> FlightInv(s, b.reorder);
  }

  lemma OpenExcludesReorder(s: State, k: RequestId, type_: S.StickersType, id: RequestId)
    requires k in s.inFlight && FlightInv(s, k) && id in s.barriers.Of(type_).open
    ensures s.inFlight[k].Reorder? ==> s.inFlight[k].type_ != type_
  {
  }

  lemma AnswerKeepsInv(s: State, id: RequestId)
    requires Inv(s) && id in s.inFlight
    ensures IsOfSave(s, s.inFlight[id]) && Inv(Answered(s, id))
  {
    assert FlightInv(s, id);
    hide Inv, UnsentInv;
    match s.inFlight[id] {
      case Clearing(_) => ClearingAnswerKeepsInv(s, id);
      case Reorder(_, _) => ReorderAnswerKeepsInv(s, id);
      case Disenable(type_, save, _) =>
        DisenableAnswerIsUnsent(s, id);
        var b := s.barriers.Of(type_);
        var t := s.(inFlight := s.inFlight - {id});
        CompletedKeepsInv(WithBarrier(t, type_, b.(open := b.open - {id})), type_, save);
    }
  }

  lemma ChangeKeepsInv(s: State, sets: S.Sets, recent: seq<S.Sticker>, orders: PerType<seq<SetId>>)
    requires Inv(s)
    ensures Inv(s.(sets := sets, recent := recent, orders := orders))
  {
    var t := s.(sets := sets, recent := recent, orders := orders);
    forall type_: S.StickersType
      ensures BarrierInv(t, type_)
    {
      assert BarrierInv(s, type_);
    }
    forall id | id in t.inFlight
      ensures FlightInv(t, id)
    {
      assert FlightInv(s, id);
    }
  }

  lemma StepKeepsInv(s: State, e: Event)
    requires Inv(s) && CanHappen(s, e)
    ensures Inv(After(s, e))
  {
    hide Inv, Saved, Answered;
    match e {
      case Save(type_, order, removed, now) => SaveKeepsInv(s, type_, order, removed, now);
      case Answer(id) => AnswerKeepsInv(s, id);
      case Change(sets, recent, orders) => ChangeKeepsInv(s, sets, recent, orders);
    }
  }

  lemma StartHasInv(sets: S.Sets, recent: seq<S.Sticker>, orders: PerType<seq<SetId>>)
    ensures Inv(Start(sets, recent, orders))
  {
  }

  lemma {:induction false} RunKeepsInv(s: State, events: seq<Event>)
    requires Inv(s) && RunFrom(s, events).Some?
    ensures Inv(RunFrom(s, events).value)
  {
    hide After, CanHappen, Inv;
    if events != [] {
      RunKeepsInv(s, events[..|events| - 1]);
      StepKeepsInv(RunFrom(s, events[..|events| - 1]).value, events[|events| - 1]);
    }
  }

  // A state that a run reaches from the start, with whatever sets
  ghost predicate Reached(s: State) {
    exists sets: S.Sets, recent: seq<S.Sticker>, orders: PerType<seq<SetId>>, events: seq<Event> ::
      RunFrom(Start(sets, recent, orders), events) == Some(s)
  }

  lemma ReachedHasInv(s: State)
    requires Reached(s)
    ensures Inv(s)
  {
    hide RunFrom, Inv;
    var sets: S.Sets, recent: seq<S.Sticker>, orders: PerType<seq<SetId>>, events: seq<Event> :|
      RunFrom(Start(sets, recent, orders), events) == Some(s);
    StartHasInv(sets, recent, orders);
    RunKeepsInv(Start(sets, recent, orders), events);
  }

  // In every run, for each type: orders are sent in the order of the saves and each at most once; the last save's order
  // was sent exactly if all its install and uninstall requests are answered and it has two sets at least; and only the
  // last save's requests are in flight.
  lemma OrderWaitsForAnswers(s: State, type_: S.StickersType)
    requires Reached(s) && s.barriers.Of(type_).saves != []
    ensures var b := s.barriers.Of(type_);
            var last := |b.saves| - 1;
            && (forall i, j :: 0 <= i < j < |b.sent| ==> b.sent[i] < b.sent[j])
            && (last in b.sent <==>
                  |b.saves[last]| >= 2
                  && forall id :: id in s.inFlight && s.inFlight[id].Disenable? ==> s.inFlight[id].type_ != type_)
            && (forall id :: id in s.inFlight && !s.inFlight[id].Clearing? && s.inFlight[id].type_ == type_ ==>
                  s.inFlight[id].save == last)
  {
    ReachedHasInv(s);
    hide Reached;
    var b := s.barriers.Of(type_);
    assert BarrierInv(s, type_);
    forall id | id in s.inFlight
      ensures FlightInv(s, id)
    {
    }
    if b.open != {} {
      var id :| id in b.open;
      assert s.inFlight[id].Disenable? && s.inFlight[id].type_ == type_;
    }
  }

  // A step sends no order but the last save's own, and that only when no install or uninstall request of it is left; so
  // an older order is never sent after a newer save.
  lemma OnlyTheLastOrderIsSent(s: State, e: Event, type_: S.StickersType)
    requires Reached(s) && CanHappen(s, e)
    ensures var (b, c) := (s.barriers.Of(type_), After(s, e).barriers.Of(type_));
            || c.sent == b.sent
            || (c.sent == b.sent + [|c.saves| - 1] && |c.saves| - 1 !in b.sent && c.open == {})
  {
    ReachedHasInv(s);
    hide Reached, Inv, Saved, Answered, OrderSent, SentInv, FlightInv;
    SentBefore(s, type_);
    match e {
      case Save(t, order, removed, now) => SaveSends(s, t, order, removed, now, type_);
      case Answer(id) => AnswerSends(s, id, type_);
      case Change(_, _, _) =>
    }
  }

  lemma CompletedSends(s: State, type_: S.StickersType, save: nat, other: S.StickersType)
    requires save < |s.barriers.Of(type_).saves|
    ensures var (b, c) := (s.barriers.Of(other), Completed(s, type_, save).barriers.Of(other));
            && c.saves == b.saves && c.open == b.open
            && (c.sent == b.sent || (c.sent == b.sent + [save] && other == type_ && b.open == {}))
  {
  }

  lemma SaveSends(s: State, t: S.StickersType, order: seq<SetId>, removed: seq<SetId>, now: int, type_: S.StickersType)
    requires Inv(s)
    ensures var (b, c) := (s.barriers.Of(type_), Saved(s, t, order, removed, now).barriers.Of(type_));
            c.sent == b.sent || (c.sent == b.sent + [|c.saves| - 1] && |c.saves| - 1 !in b.sent && c.open == {})
  {
    hide Inv, Saved, SetsSaved, Completed, Cancelled, RequestsSent;
    SavedIs(s, t, order, removed, now);
    var (save, r) := (|s.barriers.Of(t).saves|, SetsSaved(s, t, order, removed, now));
    CompletedSends(Requested(s, t, order, r), t, save, type_);
    SentBefore(s, type_);
    var stored := Stored(Cancelled(s, t), t, order, r);
    RequestsKeepSaves(stored, t, save, r.requests, type_);
    CancelledKeepsInv(s, t);
    StoredIs(Cancelled(s, t), t, order, r);
  }

  lemma AnswerSends(s: State, id: RequestId, type_: S.StickersType)
    requires Inv(s) && id in s.inFlight && IsOfSave(s, s.inFlight[id])
    ensures var (b, c) := (s.barriers.Of(type_), Answered(s, id).barriers.Of(type_));
            c.sent == b.sent || (c.sent == b.sent + [|c.saves| - 1] && |c.saves| - 1 !in b.sent && c.open == {})
  {
    hide Inv, FlightInv, BarrierInv;
    if s.inFlight[id].Disenable? {
      var own := s.inFlight[id].type_;
      DisenableAnswerIsUnsent(s, id);
      var b := s.barriers.Of(own);
      var u := WithBarrier(s.(inFlight := s.inFlight - {id}), own, b.(open := b.open - {id}));
      CompletedSends(u, own, |b.saves| - 1, type_);
    }
  }

  // What is in flight after a save: what it does not cancel, then its own requests, then maybe the order
  lemma RequestedFlight(s: State, type_: S.StickersType, order: seq<SetId>, r: S.State, id: RequestId)
    requires Inv(s)
    ensures var (t, c) := (Requested(s, type_, order, r), Cancelled(s, type_));
            && t.lastId == s.lastId + |r.requests|
            && (id in t.inFlight <==> id in c.inFlight || s.lastId < id <= t.lastId)
            && (s.lastId < id <= t.lastId ==>
                  && t.inFlight[id] == KindOf(type_, |s.barriers.Of(type_).saves|, r.requests[id - s.lastId - 1])
                  && (id in t.barriers.Of(type_).open <==> !r.requests[id - s.lastId - 1].ClearRecent?))
  {
    hide Inv, Cancelled, Stored, RequestsSent;
    var (save, stored) := (|s.barriers.Of(type_).saves|, Stored(Cancelled(s, type_), type_, order, r));
    CancelledKeepsInv(s, type_);
    StoredIs(Cancelled(s, type_), type_, order, r);
    RequestsAre(stored, type_, save, r.requests, id);
    OpenAre(stored, type_, save, r.requests, id);
  }

  lemma CompletedFlight(s: State, type_: S.StickersType, save: nat, id: RequestId)
    requires save < |s.barriers.Of(type_).saves| && id <= s.lastId
    ensures var t := Completed(s, type_, save);
            && t.lastId <= s.lastId + 1 && t.barriers.Of(type_).open == s.barriers.Of(type_).open
            && (id in t.inFlight <==> id in s.inFlight) && (id in s.inFlight ==> t.inFlight[id] == s.inFlight[id])
  {
  }

  // The requests of a save are those that what it makes of the sets asks for, one by one, and then maybe the order.
  lemma SaveSendsItsRequests(s: State, type_: S.StickersType, order: seq<SetId>, removed: seq<SetId>, now: int, k: nat)
    requires Reached(s) && k < |SetsSaved(s, type_, order, removed, now).requests|
    ensures var (t, r) := (Saved(s, type_, order, removed, now), SetsSaved(s, type_, order, removed, now));
            var id := s.lastId + 1 + k;
            && t.lastId <= s.lastId + |r.requests| + 1
            && id in t.inFlight && t.inFlight[id] == KindOf(type_, |s.barriers.Of(type_).saves|, r.requests[k])
            && (!r.requests[k].ClearRecent? ==> id in t.barriers.Of(type_).open)
  {
    ReachedHasInv(s);
    hide Reached, Inv, Saved, SetsSaved, Requested, Completed, KindOf;
    var (save, r, id) := (|s.barriers.Of(type_).saves|, SetsSaved(s, type_, order, removed, now), s.lastId + 1 + k);
    SavedIs(s, type_, order, removed, now);
    RequestedFlight(s, type_, order, r, id);
    CompletedFlight(Requested(s, type_, order, r), type_, save, id);
  }

  lemma CancelledExactly(s: State, type_: S.StickersType, id: RequestId)
    requires Inv(s) && id in s.inFlight
    ensures id <= s.lastId
    ensures id !in Cancelled(s, type_).inFlight <==>
            id in {s.clearRecent, s.clearAttached} || (!s.inFlight[id].Clearing? && s.inFlight[id].type_ == type_)
  {
    assert FlightInv(s, id) && BarrierInv(s, type_);
  }

  // What a save cancels: whatever is in flight of the saves of its type before, and the clearings kept.
  lemma SaveCancels(s: State, type_: S.StickersType, order: seq<SetId>, removed: seq<SetId>, now: int, id: RequestId)
    requires Reached(s) && id in s.inFlight
    ensures id !in Saved(s, type_, order, removed, now).inFlight <==>
            id in {s.clearRecent, s.clearAttached} || (!s.inFlight[id].Clearing? && s.inFlight[id].type_ == type_)
  {
    ReachedHasInv(s);
    hide Reached, Inv, Saved, SetsSaved, Requested, Completed, Cancelled;
    var (save, r) := (|s.barriers.Of(type_).saves|, SetsSaved(s, type_, order, removed, now));
    SavedIs(s, type_, order, removed, now);
    CancelledExactly(s, type_, id);
    RequestedFlight(s, type_, order, r, id);
    CompletedFlight(Requested(s, type_, order, r), type_, save, id);
  }

  // What a save leaves, with the requests it sends: its order is stored, without the sets that are gone; the sets in it
  // are installed, and no other set of its type that is not archived; and whatever is left has a reason to be kept.
  lemma SaveLeavesSetsSound(s: State, type_: S.StickersType, order: seq<SetId>, removed: seq<SetId>, now: int,
                            id: SetId)
    ensures var t := Saved(s, type_, order, removed, now);
            && t.orders.Of(type_) == T.Known(t.sets, order)
            && (forall other: S.StickersType :: other != type_ ==> t.orders.Of(other) == s.orders.Of(other))
            && (id in t.orders.Of(type_) ==> id in t.sets && t.sets[id].installed)
            && (id in t.sets ==> S.HasReason(t.sets[id]))
            && (id in t.sets && S.TypeOf(t.sets[id]) == type_ && !t.sets[id].archived ==>
                  (t.sets[id].installed <==> id in order))
  {
    hide Saved, S.Saved, S.HasReason, T.Known, S.TypeOf;
    SavedSets(s, type_, order, removed, now);
    var r := S.State(s.sets, s.orders.Of(type_), s.recent, []);
    T.StoredOrder(r, order, removed, type_, now);
    var sets := S.Saved(r, order, removed, type_, now).sets;
    if id in sets {
      T.SurvivorsHaveReasons(r, order, removed, type_, now, id);
      if S.TypeOf(sets[id]) == type_ && !sets[id].archived {
        T.InstalledIffOrdered(r, order, removed, type_, now, id);
      }
    }
  }

  lemma SavedSets(s: State, type_: S.StickersType, order: seq<SetId>, removed: seq<SetId>, now: int)
    ensures var (t, r) := (Saved(s, type_, order, removed, now), SetsSaved(s, type_, order, removed, now));
            t.sets == r.sets && t.recent == r.recent && t.orders == s.orders.With(type_, r.order)
  {
    hide SetsSaved;
    var r := SetsSaved(s, type_, order, removed, now);
    var stored := Stored(Cancelled(s, type_), type_, order, r);
    RequestsKeepSets(stored, type_, |s.barriers.Of(type_).saves|, r.requests);
  }

  lemma {:induction false} RequestsKeepSets(s: State, type_: S.StickersType, save: nat, requests: seq<S.Request>)
    ensures var t := RequestsSent(s, type_, save, requests);
            t.sets == s.sets && t.recent == s.recent && t.orders == s.orders
  {
    if requests != [] {
      RequestsKeepSets(s, type_, save, requests[..|requests| - 1]);
    }
  }
}
