/** Cloud drafts: which saves are tracked, so that they can hold up quitting, and what each step makes of that. */
module DraftsSpec {
  import opened Wrappers
  import opened FlatMap

  // The identity of one thread object, and the place of its draft: a chat, a topic of it or a sublist of it.
  // A thread that is destroyed and created again has a new identity and the same place.
  type Thread = Id

  type Place = Id

  type RequestId = nat

  // What a save closes over
  datatype Save = Save(thread: Thread, place: Place, clearOnFail: bool, rich: bool, refreshed: bool)

  // The program keeps the table of tracked saves, zero for one that is still to be sent, and the request id in each
  // cloud draft. Its surroundings know the requests in flight, those that failed and wait for a fresh file reference,
  // those that were cancelled, the last id, and how often the end of quit prevention was announced.
  datatype State = State(
    table: map<Thread, RequestId>, drafts: map<Place, RequestId>, timer: bool,
    inFlight: map<RequestId, Save>, refreshing: map<RequestId, Save>, cancelled: set<RequestId>, lastId: RequestId,
    finished: nat, placeOf: map<Thread, Place>, alive: set<Thread>)

  const INITIAL := State(map[], map[], false, map[], map[], {}, 0, 0, map[], {})

  // saveDraftToCloudDelayed
  function Delayed(s: State, t: Thread, skip: bool): State {
    if skip then s else s.(table := if t in s.table then s.table else s.table[t := 0], timer := true)
  }

  // The save that the current cloud draft knows of is cancelled before another one is sent.
  function Cancelled(s: State, place: Place): State {
    if place !in s.drafts || s.drafts[place] == 0 then s
    else
      var id := s.drafts[place];
      s.(drafts := s.drafts[place := 0], inFlight := s.inFlight - {id},
         cancelled := if id in s.inFlight then s.cancelled + {id} else s.cancelled)
  }

  function Sent(s: State, save: Save): State {
    s.(lastId := s.lastId + 1, inFlight := s.inFlight[s.lastId + 1 := save])
  }

  function Noted(s: State, place: Place, id: RequestId): State {
    if place in s.drafts then s.(drafts := s.drafts[place := id]) else s
  }

  // savePreparedDraftToCloud, of a draft that can be serialized: the id sent is the last one
  function Prepared(s: State, t: Thread, clearOnFail: bool, rich: bool): State
    requires t in s.placeOf
  {
    var place := s.placeOf[t];
    var sent := Sent(Cancelled(s, place), Save(t, place, clearOnFail, rich, false));
    Noted(sent, place, sent.lastId)
  }

  // saveDraftToCloud: a draft that cannot be serialized changes nothing.
  function Saved(s: State, t: Thread, serializable: bool, rich: bool): State
    requires t in s.placeOf
  {
    if !serializable then s
    else
      var sent := Prepared(s, t, false, rich);
      sent.(table := sent.table[t := sent.lastId])
  }

  // saveDraftsToCloud: one entry of the table, with what its surroundings answer for its thread
  datatype Choices = Choices(skip: set<Thread>, anew: set<Thread>, broken: set<Thread>, rich: set<Thread>)

  function Created(s: State, place: Place, anew: bool): State {
    if anew || place !in s.drafts then s.(drafts := s.drafts[place := 0]) else s
  }

  function EntrySaved(s: State, t: Thread, choices: Choices): State
    requires t in s.table && (t in s.alive ==> t in s.placeOf)
  {
    if t !in s.alive then s.(table := s.table - {t})
    else if s.table[t] != 0 then s
    else if t in choices.skip then s.(table := s.table - {t})
    else
      var created := Created(s, s.placeOf[t], t in choices.anew);
      if t in choices.broken then created.(table := created.table - {t})
      else
        var sent := Prepared(created, t, true, t in choices.rich);
        sent.(table := sent.table[t := sent.lastId])
  }

  function EntriesSaved(s: State, threads: seq<Thread>, choices: Choices): State {
    if threads == [] then s else
      var before := EntriesSaved(s, threads[..|threads| - 1], choices);
      var t := threads[|threads| - 1];
      if t in before.table && (t in before.alive ==> t in before.placeOf) then EntrySaved(before, t, choices)
      else before
  }

  function AllSaved(s: State, choices: Choices): State {
    EntriesSaved(s, Ascending(s.table.Keys), choices)
  }

  // An answer to the save `id`: its entry goes if it is the tracked one, and the last entry to go is announced.
  function Untracked(s: State, t: Thread, id: RequestId): State {
    if t in s.table && s.table[t] == id then
      var table := s.table - {t};
      s.(table := table, finished := if table == map[] then s.finished + 1 else s.finished)
    else s
  }

  // The draft that knows of the save forgets it; if the save failed, the draft may be dropped.
  function Forgotten(s: State, id: RequestId, save: Save): State {
    if save.place in s.drafts && s.drafts[save.place] == id then s.(drafts := s.drafts[save.place := 0]) else s
  }

  function Dropped(s: State, id: RequestId, save: Save): State {
    if save.place in s.drafts && s.drafts[save.place] == id then s.(drafts := s.drafts - {save.place}) else s
  }

  function Done(s: State, id: RequestId, save: Save): State {
    Untracked(Forgotten(s, id, save), save.thread, id)
  }

  function Failed(s: State, id: RequestId, save: Save): State {
    Untracked(if save.clearOnFail then Dropped(s, id, save) else Forgotten(s, id, save), save.thread, id)
  }

  // The save is repeated with a fresh file reference; its new id is tracked in place of whatever was.
  function Repeated(s: State, save: Save): State {
    var sent := Sent(s, save.(refreshed := true));
    var noted := Noted(sent, save.place, sent.lastId);
    if save.thread in noted.table then noted.(table := noted.table[save.thread := sent.lastId]) else noted
  }

  // What can happen. Threads come and go; cloud drafts are replaced and cleared from outside; the quit check runs the
  // same pass as the timer.
  datatype Event =
    | Birth(thread: Thread, place: Place)
    | Death(thread: Thread)
    | Change(place: Place, present: bool)
    | Delay(thread: Thread, skip: bool)
    | SaveNow(thread: Thread, serializable: bool, rich: bool)
    | SaveAll(byTimer: bool, choices: Choices)
    | Success(id: RequestId)
    | Failure(id: RequestId, fileReference: bool)
    | Refreshed(id: RequestId, serializable: bool)

  predicate CanHappen(s: State, e: Event) {
    match e
    case Birth(thread, place) =>
      thread !in s.placeOf && forall t :: t in s.alive && t in s.placeOf ==> s.placeOf[t] != place
    case Death(thread) => thread in s.alive
    case Change(_, _) => true
    case Delay(thread, _) => thread in s.alive && thread in s.placeOf
    case SaveNow(thread, _, _) => thread in s.alive && thread in s.placeOf
    case SaveAll(byTimer, _) => byTimer ==> s.timer
    case Success(id) => id in s.inFlight
    case Failure(id, _) => id in s.inFlight
    case Refreshed(id, _) => id in s.refreshing
  }

  function After(s: State, e: Event): State
    requires CanHappen(s, e)
  {
    match e
    case Birth(thread, place) => s.(placeOf := s.placeOf[thread := place], alive := s.alive + {thread})
    case Death(thread) => s.(alive := s.alive - {thread})
    case Change(place, present) => s.(drafts := if present then s.drafts[place := 0] else s.drafts - {place})
    case Delay(thread, skip) => Delayed(s, thread, skip)
    case SaveNow(thread, serializable, rich) => Saved(s, thread, serializable, rich)
    case SaveAll(byTimer, choices) => AllSaved(if byTimer then s.(timer := false) else s, choices)
    case Success(id) => Done(s.(inFlight := s.inFlight - {id}), id, s.inFlight[id])
    case Failure(id, fileReference) =>
      var save := s.inFlight[id];
      var answered := s.(inFlight := s.inFlight - {id});
      if !save.refreshed && fileReference && save.rich then answered.(refreshing := s.refreshing[id := save])
      else Failed(answered, id, save)
    case Refreshed(id, serializable) =>
      var save := s.refreshing[id];
      var answered := s.(refreshing := s.refreshing - {id});
      if serializable then Repeated(answered, save) else Failed(answered, id, save)
  }

  function Run(events: seq<Event>): Option<State> {
    if events == [] then Some(INITIAL) else
      var s :- Run(events[..|events| - 1]);
      var e := events[|events| - 1];
      if CanHappen(s, e) then Some(After(s, e)) else None
  }
}
