/** Saves of sticker sets with all their requests: what is sent, what a newer save cancels, and when the order goes out.
    What a save makes of the sets is StickerSaveSpec's. */
module StickerSyncSpec {
  import opened Wrappers
  import S = StickerSaveSpec

  type RequestId = nat

  type SetId = S.SetId

  // One value for each type of stickers
  datatype PerType<T> = PerType(stickers: T, masks: T, emoji: T) {
    function Of(type_: S.StickersType): T {
      match type_
      case Emoji => emoji
      case Masks => masks
      case Stickers => stickers
    }

    function With(type_: S.StickersType, value: T): PerType<T> {
      match type_
      case Emoji => this.(emoji := value)
      case Masks => this.(masks := value)
      case Stickers => this.(stickers := value)
    }
  }

  // A request in flight: an install or uninstall request of a save, the reorder request of a save, or a clearing.
  datatype Kind =
    | Disenable(type_: S.StickersType, save: nat, request: S.Request)
    | Reorder(type_: S.StickersType, save: nat)
    | Clearing(attached: bool)

  // Of the saves of one type: the open install and uninstall requests and the reorder request, which the program keeps,
  // and, as its surroundings know, the orders that were saved and which of them were sent, by number.
  datatype Barrier = Barrier(open: set<RequestId>, reorder: RequestId, saves: seq<seq<SetId>>, sent: seq<nat>)

  datatype State = State(
    sets: S.Sets, recent: seq<S.Sticker>, orders: PerType<seq<SetId>>, barriers: PerType<Barrier>,
    clearRecent: RequestId, clearAttached: RequestId, inFlight: map<RequestId, Kind>, lastId: RequestId)

  function Start(sets: S.Sets, recent: seq<S.Sticker>, orders: PerType<seq<SetId>>): State {
    var none := Barrier({}, 0, [], []);
    State(sets, recent, orders, PerType(none, none, none), 0, 0, map[], 0)
  }

  function WithBarrier(s: State, type_: S.StickersType, b: Barrier): State {
    s.(barriers := s.barriers.With(type_, b))
  }

  // The order of a save is sent, if it has two sets at least.
  function OrderSent(s: State, type_: S.StickersType, save: nat): State
    requires save < |s.barriers.Of(type_).saves|
  {
    var b := s.barriers.Of(type_);
    if |b.saves[save]| < 2 then s
    else
      var id := s.lastId + 1;
      WithBarrier(s, type_, b.(reorder := id, sent := b.sent + [save])).(
        lastId := id, inFlight := s.inFlight[id := Reorder(type_, save)])
  }

  function KindOf(type_: S.StickersType, save: nat, request: S.Request): Kind {
    if request.ClearRecent? then Clearing(request.attached) else Disenable(type_, save, request)
  }

  function RequestSent(s: State, type_: S.StickersType, save: nat, request: S.Request): State {
    var id := s.lastId + 1;
    var b := s.barriers.Of(type_);
    var t := s.(lastId := id, inFlight := s.inFlight[id := KindOf(type_, save, request)]);
    if !request.ClearRecent? then WithBarrier(t, type_, b.(open := b.open + {id}))
    else if request.attached then t.(clearAttached := id)
    else t.(clearRecent := id)
  }

  function RequestsSent(s: State, type_: S.StickersType, save: nat, requests: seq<S.Request>): State {
    if requests == [] then s else
      var n := |requests| - 1;
      RequestSent(RequestsSent(s, type_, save, requests[..n]), type_, save, requests[n])
  }

  // A save cancels what the save before of its type left open, and every clearing.
  function Cancelled(s: State, type_: S.StickersType): State {
    var b := s.barriers.Of(type_);
    WithBarrier(s, type_, b.(open := {}, reorder := 0)).(
      clearRecent := 0, clearAttached := 0,
      inFlight := s.inFlight - b.open - {b.reorder} - {s.clearRecent} - {s.clearAttached})
  }

  function SetsSaved(s: State, type_: S.StickersType, order: seq<SetId>, removed: seq<SetId>, now: int): S.State {
    S.Saved(S.State(s.sets, s.orders.Of(type_), s.recent, []), order, removed, type_, now)
  }

  // What is stored, and the number of the save
  function Stored(s: State, type_: S.StickersType, order: seq<SetId>, r: S.State): State {
    var b := s.barriers.Of(type_);
    WithBarrier(s, type_, b.(saves := b.saves + [order])).(
      sets := r.sets, recent := r.recent, orders := s.orders.With(type_, r.order))
  }

  // saveStickerSets: the order goes out at once if the save has no other request.
  function Saved(s: State, type_: S.StickersType, order: seq<SetId>, removed: seq<SetId>, now: int): State {
    var save := |s.barriers.Of(type_).saves|;
    var r := SetsSaved(s, type_, order, removed, now);
    var stored := Stored(Cancelled(s, type_), type_, order, r);
    var t := RequestsSent(stored, type_, save, r.requests);
    RequestsKeepSaves(stored, type_, save, r.requests, type_);
    if t.barriers.Of(type_).open == {} then OrderSent(t, type_, save) else t
  }

  // Requests of one type leave the saves of every type as they are.
  lemma {:induction false} RequestsKeepSaves(
    s: State, type_: S.StickersType, save: nat, requests: seq<S.Request>, other: S.StickersType)
    ensures var (b, c) := (s.barriers.Of(other), RequestsSent(s, type_, save, requests).barriers.Of(other));
            && c.saves == b.saves && c.sent == b.sent && c.reorder == b.reorder && (other != type_ ==> c == b)
  {
    if requests != [] {
      RequestsKeepSaves(s, type_, save, requests[..|requests| - 1], other);
    }
  }

  predicate IsOfSave(s: State, kind: Kind) {
    kind.Clearing? || kind.save < |s.barriers.Of(kind.type_).saves|
  }

  // The last answer to the install and uninstall requests of a save sends its order. Any answer to a clearing makes
  // the program forget the one that it keeps.
  function Answered(s: State, id: RequestId): State
    requires id in s.inFlight && IsOfSave(s, s.inFlight[id])
  {
    var t := s.(inFlight := s.inFlight - {id});
    match s.inFlight[id]
    case Clearing(attached) => if attached then t.(clearAttached := 0) else t.(clearRecent := 0)
    case Reorder(type_, _) => WithBarrier(t, type_, t.barriers.Of(type_).(reorder := 0))
    case Disenable(type_, save, _) =>
      var b := t.barriers.Of(type_);
      var u := WithBarrier(t, type_, b.(open := b.open - {id}));
      if b.open - {id} == {} then OrderSent(u, type_, save) else u
  }

  // What can happen. The sets, their orders and the recent stickers may change in between.
  datatype Event =
    | Save(type_: S.StickersType, order: seq<SetId>, removed: seq<SetId>, now: int)
    | Answer(id: RequestId)
    | Change(sets: S.Sets, recent: seq<S.Sticker>, orders: PerType<seq<SetId>>)

  predicate CanHappen(s: State, e: Event) {
    e.Answer? ==> e.id in s.inFlight && IsOfSave(s, s.inFlight[e.id])
  }

  function After(s: State, e: Event): State
    requires CanHappen(s, e)
  {
    match e
    case Save(type_, order, removed, now) => Saved(s, type_, order, removed, now)
    case Answer(id) => Answered(s, id)
    case Change(sets, recent, orders) => s.(sets := sets, recent := recent, orders := orders)
  }

  function RunFrom(s: State, events: seq<Event>): Option<State> {
    if events == [] then Some(s) else
      var t :- RunFrom(s, events[..|events| - 1]);
      var e := events[|events| - 1];
      if CanHappen(t, e) then Some(After(t, e)) else None
  }
}
