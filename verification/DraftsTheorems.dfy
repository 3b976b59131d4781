/** Tracked saves are in progress, and the end of quit prevention is announced by the answer that empties the table. */
module DraftsTheorems {
  import opened Wrappers
  import opened FlatMap
  import opened DraftsSpec

  // The save with this id is in flight or waits for a fresh file reference, and belongs to this thread.
  predicate InProgress(s: State, id: RequestId, t: Thread) {
    (id in s.inFlight && s.inFlight[id].thread == t) || (id in s.refreshing && s.refreshing[id].thread == t)
  }

  predicate TrackedInv(s: State, t: Thread) {
    t in s.table && t in s.alive && s.table[t] != 0 ==> InProgress(s, s.table[t], t)
  }

  predicate SaveInv(s: State, id: RequestId, save: Save) {
    0 < id <= s.lastId && save.thread in s.placeOf && s.placeOf[save.thread] == save.place
  }

  // The id in a cloud draft, if it is still in flight, is of a save to that very draft.
  predicate DraftInv(s: State, place: Place) {
    place in s.drafts ==>
      && s.drafts[place] <= s.lastId
      && (s.drafts[place] in s.inFlight ==> s.inFlight[s.drafts[place]].place == place)
      && (s.drafts[place] in s.refreshing ==> s.refreshing[s.drafts[place]].place == place)
  }

  ghost predicate PlacesInv(s: State) {
    && (forall t :: t in s.alive ==> t in s.placeOf)
    && (forall t, u :: t in s.alive && u in s.alive && s.placeOf[t] == s.placeOf[u] ==> t == u)
    && (forall t :: t in s.table ==> t in s.placeOf && s.table[t] <= s.lastId)
  }

  ghost predicate SavesInv(s: State) {
    && (forall id :: id in s.inFlight ==> SaveInv(s, id, s.inFlight[id]) && id !in s.refreshing)
    && (forall id :: id in s.refreshing ==> SaveInv(s, id, s.refreshing[id]))
  }

  ghost predicate Inv(s: State) {
    && PlacesInv(s)
    && SavesInv(s)
    && (forall place: Place :: DraftInv(s, place))
    && (forall t: Thread :: TrackedInv(s, t))
  }

  lemma CancelKeepsDraft(s: State, place: Place, p: Place)
    requires SavesInv(s) && DraftInv(s, p)
    ensures DraftInv(Cancelled(s, place), p)
  {
  }

  // A save of another living thread is to another draft.
  lemma CancelKeepsTracked(s: State, place: Place, t: Thread, u: Thread)
    requires PlacesInv(s) && SavesInv(s) && DraftInv(s, place) && TrackedInv(s, u)
    requires t in s.alive && s.placeOf[t] == place && u != t
    ensures TrackedInv(Cancelled(s, place), u)
  {
  }

  lemma CancelKeepsPlaces(s: State, place: Place)
    requires PlacesInv(s) && SavesInv(s)
    ensures PlacesInv(Cancelled(s, place)) && SavesInv(Cancelled(s, place))
  {
  }

  // Cancelling the save that the draft of a place knows of
  lemma CancelKeeps(s: State, place: Place, t: Thread)
    requires Inv(s) && t in s.alive && s.placeOf[t] == place
    ensures var c := Cancelled(s, place);
            && PlacesInv(c) && SavesInv(c) && (forall p: Place :: DraftInv(c, p))
            && (forall u: Thread :: u != t ==> TrackedInv(c, u))
            && c.table == s.table && c.lastId == s.lastId && c.refreshing == s.refreshing && c.placeOf == s.placeOf
            && c.alive == s.alive && c.drafts.Keys == s.drafts.Keys && c.finished == s.finished
               && c.inFlight.Keys <= s.inFlight.Keys
  {
    CancelKeepsPlaces(s, place);
    hide PlacesInv, SavesInv, DraftInv, TrackedInv;
    var c := Cancelled(s, place);
    forall p: Place
      ensures DraftInv(c, p)
    {
      CancelKeepsDraft(s, place, p);
    }
    forall u: Thread | u != t
      ensures TrackedInv(c, u)
    {
      CancelKeepsTracked(s, place, t, u);
    }
  }

  lemma SendKeeps(s: State, save: Save)
    requires PlacesInv(s) && SavesInv(s) && forall p: Place :: DraftInv(s, p)
    requires save.thread in s.placeOf && s.placeOf[save.thread] == save.place
    ensures var c := Sent(s, save);
            && PlacesInv(c) && SavesInv(c) && (forall p: Place :: DraftInv(c, p))
            && (forall u: Thread :: TrackedInv(s, u) ==> TrackedInv(c, u))
            && InProgress(c, c.lastId, save.thread)
  {
    var c := Sent(s, save);
    forall p: Place
      ensures DraftInv(c, p)
    {
      assert DraftInv(s, p);
    }
  }

  lemma NoteKeeps(s: State, place: Place, id: RequestId)
    requires PlacesInv(s) && SavesInv(s) && forall p: Place :: DraftInv(s, p)
    requires id <= s.lastId && id in s.inFlight && s.inFlight[id].place == place
    ensures var c := Noted(s, place, id);
            && PlacesInv(c) && SavesInv(c) && (forall p: Place :: DraftInv(c, p))
            && (forall u: Thread :: TrackedInv(s, u) ==> TrackedInv(c, u))
            && c.inFlight == s.inFlight && c.refreshing == s.refreshing && c.lastId == s.lastId
            && c.placeOf == s.placeOf
            && c.alive == s.alive && c.table == s.table
  {
    var c := Noted(s, place, id);
    forall p: Place
      ensures DraftInv(c, p)
    {
      assert DraftInv(s, p);
    }
  }

  lemma TrackKeeps(s: State, t: Thread, id: RequestId)
    requires PlacesInv(s) && SavesInv(s) && (forall p: Place :: DraftInv(s, p)) && t in s.placeOf
    requires (forall u: Thread :: u != t ==> TrackedInv(s, u)) && id <= s.lastId && InProgress(s, id, t)
    ensures Inv(s.(table := s.table[t := id]))
  {
    var c := s.(table := s.table[t := id]);
    forall p: Place
      ensures DraftInv(c, p)
    {
      assert DraftInv(s, p);
    }
    forall u: Thread
      ensures TrackedInv(c, u)
    {
      assert u != t ==> TrackedInv(s, u);
    }
  }

  lemma PreparedKeeps(s: State, t: Thread, clearOnFail: bool, rich: bool)
    requires Inv(s) && t in s.alive
    ensures var c := Prepared(s, t, clearOnFail, rich); Inv(c.(table := c.table[t := c.lastId]))
    ensures Prepared(s, t, clearOnFail, rich).table == s.table
  {
    hide PlacesInv, SavesInv, DraftInv, TrackedInv, Cancelled, Noted;
    AliveHasPlace(s, t);
    var place := s.placeOf[t];
    CancelKeeps(s, place, t);
    var c := Cancelled(s, place);
    var save := Save(t, place, clearOnFail, rich, false);
    SendKeeps(c, save);
    var d := Sent(c, save);
    NoteKeeps(d, place, d.lastId);
    TrackKeeps(Noted(d, place, d.lastId), t, d.lastId);
  }

  lemma AliveHasPlace(s: State, t: Thread)
    requires PlacesInv(s) && t in s.alive
    ensures t in s.placeOf
  {
  }

  lemma UntrackKeeps(s: State, t: Thread)
    requires Inv(s)
    ensures Inv(s.(table := s.table - {t}))
  {
    var c := s.(table := s.table - {t});
    forall p: Place
      ensures DraftInv(c, p)
    {
      assert DraftInv(s, p);
    }
    forall u: Thread
      ensures TrackedInv(c, u)
    {
      assert TrackedInv(s, u);
    }
  }

  lemma DraftsKeep(s: State, drafts: map<Place, RequestId>)
    requires Inv(s)
    requires forall p :: p in drafts ==> drafts[p] == 0 || (p in s.drafts && drafts[p] == s.drafts[p])
    ensures Inv(s.(drafts := drafts))
  {
    var c := s.(drafts := drafts);
    forall p: Place
      ensures DraftInv(c, p)
    {
      assert DraftInv(s, p);
    }
    forall u: Thread
      ensures TrackedInv(c, u)
    {
      assert TrackedInv(s, u);
    }
  }

  lemma SaveKeepsInv(s: State, t: Thread, serializable: bool, rich: bool)
    requires Inv(s) && t in s.alive && t in s.placeOf
    ensures Inv(Saved(s, t, serializable, rich))
  {
    hide Inv, Prepared;
    PreparedKeeps(s, t, false, rich);
  }

  lemma EntryKeepsInv(s: State, t: Thread, choices: Choices)
    requires Inv(s) && t in s.table && (t in s.alive ==> t in s.placeOf)
    ensures Inv(EntrySaved(s, t, choices))
  {
    hide Inv, Prepared;
    UntrackKeeps(s, t);
    if t in s.alive && s.table[t] == 0 && t !in choices.skip {
      var place := s.placeOf[t];
      var created := Created(s, place, t in choices.anew);
      DraftsKeep(s, created.drafts);
      assert created == s.(drafts := created.drafts);
      UntrackKeeps(created, t);
      if t !in choices.broken {
        PreparedKeeps(created, t, true, t in choices.rich);
      }
    }
  }

  lemma {:induction false} EntriesKeepInv(s: State, threads: seq<Thread>, choices: Choices)
    requires Inv(s)
    ensures Inv(EntriesSaved(s, threads, choices))
  {
    hide Inv, EntrySaved;
    if threads != [] {
      EntriesKeepInv(s, threads[..|threads| - 1], choices);
      var before := EntriesSaved(s, threads[..|threads| - 1], choices);
      var t := threads[|threads| - 1];
      if t in before.table && (t in before.alive ==> t in before.placeOf) {
        EntryKeepsInv(before, t, choices);
      }
    }
  }

  // Answers. The answered save leaves the flight; only its own thread may have tracked it.
  ghost predicate InvBut(s: State, id: RequestId, save: Save) {
    && PlacesInv(s) && SavesInv(s)
    && (forall p: Place :: DraftInv(s, p))
    && (forall t: Thread :: TrackedInv(s, t) || (t == save.thread && t in s.table && s.table[t] == id))
    && id !in s.inFlight && id !in s.refreshing && 0 < id <= s.lastId
    && save.thread in s.placeOf && s.placeOf[save.thread] == save.place
  }

  lemma TakenFromFlight(s: State, id: RequestId)
    requires Inv(s) && id in s.inFlight
    ensures InvBut(s.(inFlight := s.inFlight - {id}), id, s.inFlight[id])
  {
    var c := s.(inFlight := s.inFlight - {id});
    assert SaveInv(s, id, s.inFlight[id]);
    forall p: Place
      ensures DraftInv(c, p)
    {
      assert DraftInv(s, p);
    }
    forall t: Thread
      ensures TrackedInv(c, t) || (t == s.inFlight[id].thread && t in c.table && c.table[t] == id)
    {
      assert TrackedInv(s, t);
    }
  }

  lemma TakenFromRefreshing(s: State, id: RequestId)
    requires Inv(s) && id in s.refreshing
    ensures InvBut(s.(refreshing := s.refreshing - {id}), id, s.refreshing[id])
  {
    var c := s.(refreshing := s.refreshing - {id});
    assert SaveInv(s, id, s.refreshing[id]);
    assert id !in s.inFlight;
    forall p: Place
      ensures DraftInv(c, p)
    {
      assert DraftInv(s, p);
    }
    forall t: Thread
      ensures TrackedInv(c, t) || (t == s.refreshing[id].thread && t in c.table && c.table[t] == id)
    {
      assert TrackedInv(s, t);
    }
  }

  lemma UntrackedKeepsDraft(s: State, t: Thread, id: RequestId, p: Place)
    requires DraftInv(s, p)
    ensures DraftInv(Untracked(s, t, id), p)
  {
  }

  lemma UntrackedKeepsTracked(s: State, t: Thread, id: RequestId, u: Thread)
    requires TrackedInv(s, u) || (u == t && u in s.table && s.table[u] == id)
    ensures TrackedInv(Untracked(s, t, id), u)
  {
  }

  lemma UntrackedRestores(s: State, id: RequestId, save: Save)
    requires InvBut(s, id, save)
    ensures Inv(Untracked(s, save.thread, id))
  {
    hide DraftInv, TrackedInv;
    var c := Untracked(s, save.thread, id);
    forall p: Place
      ensures DraftInv(c, p)
    {
      UntrackedKeepsDraft(s, save.thread, id, p);
    }
    forall t: Thread
      ensures TrackedInv(c, t)
    {
      assert TrackedInv(s, t) || (t == save.thread && t in s.table && s.table[t] == id);
      UntrackedKeepsTracked(s, save.thread, id, t);
    }
  }

  lemma DraftsKeepBut(s: State, id: RequestId, save: Save, drafts: map<Place, RequestId>)
    requires InvBut(s, id, save)
    requires forall p :: p in drafts ==> drafts[p] == 0 || (p in s.drafts && drafts[p] == s.drafts[p])
    ensures InvBut(s.(drafts := drafts), id, save)
  {
    var c := s.(drafts := drafts);
    forall p: Place
      ensures DraftInv(c, p)
    {
      assert DraftInv(s, p);
    }
    forall t: Thread
      ensures TrackedInv(c, t) || (t == save.thread && t in c.table && c.table[t] == id)
    {
      assert TrackedInv(s, t) || (t == save.thread && t in s.table && s.table[t] == id);
    }
  }

  lemma DoneKeepsInv(s: State, id: RequestId, save: Save)
    requires InvBut(s, id, save)
    ensures Inv(Done(s, id, save))
  {
    hide Inv, InvBut, Untracked;
    var noted := Forgotten(s, id, save);
    DraftsKeepBut(s, id, save, noted.drafts);
    assert noted == s.(drafts := noted.drafts);
    UntrackedRestores(noted, id, save);
  }

  lemma FailedKeepsInv(s: State, id: RequestId, save: Save)
    requires InvBut(s, id, save)
    ensures Inv(Failed(s, id, save))
  {
    hide Inv, InvBut, Untracked;
    var noted :=
      if save.place !in s.drafts || s.drafts[save.place] != id then s
      else if save.clearOnFail then s.(drafts := s.drafts - {save.place})
      else s.(drafts := s.drafts[save.place := 0]);
    DraftsKeepBut(s, id, save, noted.drafts);
    assert noted == s.(drafts := noted.drafts);
    UntrackedRestores(noted, id, save);
  }

  lemma RefreshingKeepsDraft(s: State, id: RequestId, save: Save, p: Place)
    requires DraftInv(s, p) && (p in s.drafts && s.drafts[p] == id ==> p == save.place)
    ensures DraftInv(s.(refreshing := s.refreshing[id := save]), p)
  {
  }

  lemma RefreshingKeepsTracked(s: State, id: RequestId, save: Save, t: Thread)
    requires TrackedInv(s, t) || (t == save.thread && t in s.table && s.table[t] == id)
    requires id !in s.refreshing
    ensures TrackedInv(s.(refreshing := s.refreshing[id := save]), t)
  {
  }

  lemma WaitingRestores(s: State, id: RequestId, save: Save)
    requires InvBut(s, id, save) && (forall p: Place :: p in s.drafts && s.drafts[p] == id ==> p == save.place)
    ensures Inv(s.(refreshing := s.refreshing[id := save]))
  {
    hide DraftInv, TrackedInv;
    var c := s.(refreshing := s.refreshing[id := save]);
    forall p: Place
      ensures DraftInv(c, p)
    {
      RefreshingKeepsDraft(s, id, save, p);
    }
    forall t: Thread
      ensures TrackedInv(c, t)
    {
      assert TrackedInv(s, t) || (t == save.thread && t in s.table && s.table[t] == id);
      RefreshingKeepsTracked(s, id, save, t);
    }
  }

  // The repeated save replaces whatever its thread tracked, the answered id included.
  lemma RepeatKeepsInv(s: State, id: RequestId, save: Save)
    requires InvBut(s, id, save)
    ensures Inv(Repeated(s, save))
  {
    hide PlacesInv, SavesInv, DraftInv, TrackedInv, Noted;
    var again := save.(refreshed := true);
    SendKeeps(s, again);
    var sent := Sent(s, again);
    NoteKeeps(sent, save.place, sent.lastId);
    var noted := Noted(sent, save.place, sent.lastId);
    forall t: Thread | t != save.thread
      ensures TrackedInv(noted, t)
    {
      assert TrackedInv(s, t);
    }
    if save.thread in noted.table {
      TrackKeeps(noted, save.thread, sent.lastId);
    } else {
      assert TrackedInv(s, save.thread);
    }
  }

  lemma BirthKeepsInv(s: State, t: Thread, place: Place)
    requires Inv(s) && CanHappen(s, Birth(t, place))
    ensures Inv(After(s, Birth(t, place)))
  {
    var c := After(s, Birth(t, place));
    forall p: Place
      ensures DraftInv(c, p)
    {
      assert DraftInv(s, p);
    }
    forall u: Thread
      ensures TrackedInv(c, u)
    {
      assert TrackedInv(s, u);
    }
  }

  lemma DeathKeepsInv(s: State, t: Thread)
    requires Inv(s) && CanHappen(s, Death(t))
    ensures Inv(After(s, Death(t)))
  {
    var c := After(s, Death(t));
    forall p: Place
      ensures DraftInv(c, p)
    {
      assert DraftInv(s, p);
    }
    forall u: Thread
      ensures TrackedInv(c, u)
    {
      assert TrackedInv(s, u);
    }
  }

  lemma DelayKeepsInv(s: State, t: Thread, skip: bool)
    requires Inv(s) && CanHappen(s, Delay(t, skip))
    ensures Inv(After(s, Delay(t, skip)))
  {
    var c := After(s, Delay(t, skip));
    forall p: Place
      ensures DraftInv(c, p)
    {
      assert DraftInv(s, p);
    }
    forall u: Thread
      ensures TrackedInv(c, u)
    {
      assert TrackedInv(s, u);
    }
  }

  lemma FailureKeepsInv(s: State, id: RequestId, fileReference: bool)
    requires Inv(s) && id in s.inFlight
    ensures Inv(After(s, Failure(id, fileReference)))
  {
    TakenFromFlight(s, id);
    DraftsKnowTheirSaves(s, id);
    hide Inv, InvBut, Failed;
    var answered := s.(inFlight := s.inFlight - {id});
    WaitingRestores(answered, id, s.inFlight[id]);
    FailedKeepsInv(answered, id, s.inFlight[id]);
  }

  lemma DraftsKnowTheirSaves(s: State, id: RequestId)
    requires Inv(s) && id in s.inFlight
    ensures forall p: Place :: p in s.drafts && s.drafts[p] == id ==> p == s.inFlight[id].place
  {
    forall p: Place | p in s.drafts && s.drafts[p] == id
      ensures p == s.inFlight[id].place
    {
      assert DraftInv(s, p);
    }
  }

  lemma StepKeepsInv(s: State, e: Event)
    requires Inv(s) && CanHappen(s, e)
    ensures Inv(After(s, e))
  {
    hide Inv, InvBut, AllSaved, Saved, Delayed, Done, Failed, Repeated;
    match e {
      case Birth(t, place) => BirthKeepsInv(s, t, place);
      case Death(t) => DeathKeepsInv(s, t);
      case Change(place, present) => DraftsKeep(s, if present then s.drafts[place := 0] else s.drafts - {place});
      case Delay(t, skip) => DelayKeepsInv(s, t, skip);
      case SaveNow(t, serializable, rich) => SaveKeepsInv(s, t, serializable, rich);
      case SaveAll(byTimer, choices) => PassKeepsInv(s, byTimer, choices);
      case Success(id) =>
        TakenFromFlight(s, id);
        DoneKeepsInv(s.(inFlight := s.inFlight - {id}), id, s.inFlight[id]);
      case Failure(id, fileReference) => FailureKeepsInv(s, id, fileReference);
      case Refreshed(id, serializable) =>
        TakenFromRefreshing(s, id);
        RepeatKeepsInv(s.(refreshing := s.refreshing - {id}), id, s.refreshing[id]);
        FailedKeepsInv(s.(refreshing := s.refreshing - {id}), id, s.refreshing[id]);
    }
  }

  lemma TimerKeepsInv(s: State)
    requires Inv(s)
    ensures Inv(s.(timer := false))
  {
    var t := s.(timer := false);
    forall p: Place
      ensures DraftInv(t, p)
    {
      assert DraftInv(s, p);
    }
    forall u: Thread
      ensures TrackedInv(t, u)
    {
      assert TrackedInv(s, u);
    }
  }

  lemma PassKeepsInv(s: State, byTimer: bool, choices: Choices)
    requires Inv(s)
    ensures Inv(AllSaved(if byTimer then s.(timer := false) else s, choices))
  {
    hide Inv, EntriesSaved, Ascending;
    TimerKeepsInv(s);
    var t := if byTimer then s.(timer := false) else s;
    EntriesKeepInv(t, Ascending(t.table.Keys), choices);
  }

  lemma StartHasInv()
    ensures Inv(INITIAL)
  {
  }

  lemma {:induction false} RunKeepsInv(events: seq<Event>)
    requires Run(events).Some?
    ensures Inv(Run(events).value)
  {
    hide After, CanHappen, Inv;
    if events == [] {
      StartHasInv();
    } else {
      RunKeepsInv(events[..|events| - 1]);
      StepKeepsInv(Run(events[..|events| - 1]).value, events[|events| - 1]);
    }
  }

  // In every run, the save that a living thread tracks is in flight or waits for a fresh file reference.
  lemma TrackedIsInProgress(events: seq<Event>, t: Thread)
    requires Run(events).Some? && t in Run(events).value.table && t in Run(events).value.alive
    requires Run(events).value.table[t] != 0
    ensures var s := Run(events).value; InProgress(s, s.table[t], t)
  {
    hide Run;
    RunKeepsInv(events);
    assert TrackedInv(Run(events).value, t);
  }

  // Answers
  predicate IsAnswer(e: Event) {
    e.Success? || e.Failure? || e.Refreshed?
  }

  lemma UntrackedTable(s: State, t: Thread, id: RequestId)
    ensures var c := Untracked(s, t, id);
            && c.finished == s.finished + (if s.table != map[] && c.table == map[] then 1 else 0)
            && c.table == (if t in s.table && s.table[t] == id then s.table - {t} else s.table)
  {
  }

  // Settling a draft touches nothing else.
  lemma DraftsOnly(s: State, id: RequestId, save: Save)
    ensures Forgotten(s, id, save) == s.(drafts := Forgotten(s, id, save).drafts)
    ensures Dropped(s, id, save) == s.(drafts := Dropped(s, id, save).drafts)
  {
  }

  lemma UntrackedApart(s: State, drafts: map<Place, RequestId>, t: Thread, id: RequestId)
    ensures Untracked(s.(drafts := drafts), t, id) == Untracked(s, t, id).(drafts := drafts)
  {
  }

  lemma SettledIs(s: State, id: RequestId, save: Save)
    ensures var u := Untracked(s, save.thread, id);
            && Done(s, id, save) == u.(drafts := Done(s, id, save).drafts)
            && Failed(s, id, save) == u.(drafts := Failed(s, id, save).drafts)
  {
    hide Forgotten, Dropped, Untracked;
    DraftsOnly(s, id, save);
    UntrackedApart(s, Forgotten(s, id, save).drafts, save.thread, id);
    UntrackedApart(s, Dropped(s, id, save).drafts, save.thread, id);
  }

  lemma RepeatedTable(s: State, save: Save)
    ensures var c := Repeated(s, save);
            && c.table == (if save.thread in s.table then s.table[save.thread := s.lastId + 1] else s.table)
            && c.finished == s.finished && c.lastId == s.lastId + 1 && c.refreshing == s.refreshing
            && c.inFlight == s.inFlight[c.lastId := save.(refreshed := true)]
  {
  }

  // What an answer does to the table: it takes out the answered entry, or tracks its repetition, or does nothing.
  lemma AnswerTable(s: State, e: Event)
    requires IsAnswer(e) && CanHappen(s, e)
    ensures var c := After(s, e);
            || (c.table == s.table && c.finished == s.finished)
            || (exists t :: t in s.table && s.table[t] == e.id && c.table == s.table - {t}
                            && c.finished == s.finished + if c.table == map[] then 1 else 0)
            || (e.Refreshed? && s.refreshing[e.id].thread in s.table && c.finished == s.finished
                && c.table == s.table[s.refreshing[e.id].thread := c.lastId] && c.lastId in c.inFlight)
  {
    hide Done, Failed, Repeated, Untracked;
    var save := if e.Refreshed? then s.refreshing[e.id] else s.inFlight[e.id];
    var taken := if e.Refreshed? then s.(refreshing := s.refreshing - {e.id}) else s.(inFlight := s.inFlight - {e.id});
    SettledIs(taken, e.id, save);
    RepeatedTable(taken, save);
    UntrackedTable(taken, save.thread, e.id);
  }

  // An answer takes an entry out of the table only if its id is the one tracked there, and gives no other entry
  // another id but that of its own repetition.
  lemma AnswerTakesItsOwnEntry(s: State, e: Event, t: Thread)
    requires IsAnswer(e) && CanHappen(s, e) && t in s.table
    ensures var c := After(s, e);
            && (t !in c.table ==> s.table[t] == e.id)
            && (t in c.table && c.table[t] != s.table[t] ==>
                  e.Refreshed? && s.refreshing[e.id].thread == t && c.table[t] == c.lastId && c.lastId in c.inFlight)
  {
    hide After;
    AnswerTable(s, e);
  }

  // The answer that empties the table announces it, once; no other answer does.
  lemma EmptyingIsAnnounced(s: State, e: Event)
    requires IsAnswer(e) && CanHappen(s, e)
    ensures After(s, e).finished == s.finished + if s.table != map[] && After(s, e).table == map[] then 1 else 0
  {
    hide After;
    AnswerTable(s, e);
    var c := After(s, e);
    if e.Refreshed? && s.refreshing[e.id].thread in s.table
      && c.table == s.table[s.refreshing[e.id].thread := c.lastId] {
      assert s.refreshing[e.id].thread in c.table;
    }
  }

  lemma PreparedFrame(s: State, t: Thread, clearOnFail: bool, rich: bool)
    requires t in s.placeOf
    ensures var c := Prepared(s, t, clearOnFail, rich);
            && c.table == s.table && c.finished == s.finished && c.alive == s.alive && c.placeOf == s.placeOf
            && c.refreshing == s.refreshing && c.lastId == s.lastId + 1
  {
    hide Cancelled, Noted;
    CancelledFrame(s, s.placeOf[t]);
    var sent := Sent(Cancelled(s, s.placeOf[t]), Save(t, s.placeOf[t], clearOnFail, rich, false));
    NotedFrame(sent, s.placeOf[t], sent.lastId);
  }

  lemma CancelledFrame(s: State, place: Place)
    ensures var c := Cancelled(s, place);
            && c.table == s.table && c.finished == s.finished && c.alive == s.alive && c.placeOf == s.placeOf
            && c.refreshing == s.refreshing && c.lastId == s.lastId
  {
  }

  lemma NotedFrame(s: State, place: Place, id: RequestId)
    ensures var c := Noted(s, place, id);
            && c.table == s.table && c.finished == s.finished && c.alive == s.alive && c.placeOf == s.placeOf
            && c.refreshing == s.refreshing && c.lastId == s.lastId
  {
  }

  lemma EntryFrame(s: State, t: Thread, choices: Choices)
    requires t in s.table && (t in s.alive ==> t in s.placeOf)
    ensures var c := EntrySaved(s, t, choices);
            && c.finished == s.finished && c.alive == s.alive && c.placeOf == s.placeOf && c.table.Keys <= s.table.Keys
            && (t !in s.alive ==> t !in c.table)
  {
    hide Prepared;
    if t in s.alive && s.table[t] == 0 && t !in choices.skip {
      PreparedFrame(Created(s, s.placeOf[t], t in choices.anew), t, true, t in choices.rich);
    }
  }

  // A pass announces nothing, even if it takes the last entry out: whoever asks for the quit check looks again.
  lemma {:induction false} PassAnnouncesNothing(s: State, threads: seq<Thread>, choices: Choices)
    ensures EntriesSaved(s, threads, choices).finished == s.finished
  {
    hide EntrySaved;
    if threads != [] {
      PassAnnouncesNothing(s, threads[..|threads| - 1], choices);
      var before := EntriesSaved(s, threads[..|threads| - 1], choices);
      var t := threads[|threads| - 1];
      if t in before.table && (t in before.alive ==> t in before.placeOf) {
        EntryFrame(before, t, choices);
      }
    }
  }

  // Entries of destroyed threads: is every tracked save in progress?
  ghost predicate AllTracked(s: State) {
    forall t :: t in s.table && s.table[t] != 0 ==> InProgress(s, s.table[t], t)
  }

  // The entry of another thread tracks the save in flight that the draft of t's place knows of.
  predicate SharesSave(s: State, t: Thread, u: Thread)
    requires t in s.placeOf
  {
    && u != t && u in s.table && s.placeOf[t] in s.drafts
    && s.table[u] == s.drafts[s.placeOf[t]] && s.table[u] in s.inFlight
  }

  lemma SharedIsDead(s: State, t: Thread, u: Thread)
    requires Inv(s) && t in s.alive && t in s.placeOf && SharesSave(s, t, u)
    ensures u !in s.alive
  {
    assert DraftInv(s, s.placeOf[t]);
    assert TrackedInv(s, u);
    assert SaveInv(s, s.table[u], s.inFlight[s.table[u]]);
  }

  // A save leaves every tracked save in progress exactly when no entry, of a destroyed thread at the same place,
  // tracks the save that it cancels.
  lemma SaveKeepsAllTracked(s: State, t: Thread, rich: bool)
    requires Inv(s) && AllTracked(s) && t in s.alive && t in s.placeOf
    ensures AllTracked(Saved(s, t, true, rich)) <==> forall u: Thread :: !SharesSave(s, t, u)
  {
    hide Saved, PlacesInv, SavesInv;
    var c := Saved(s, t, true, rich);
    forall u: Thread
      ensures u in c.table && c.table[u] != 0 ==> (InProgress(c, c.table[u], u) <==> !SharesSave(s, t, u))
      ensures SharesSave(s, t, u) ==> u in c.table && c.table[u] != 0
    {
      SaveAndOther(s, t, rich, u);
    }
  }

  // What becomes of the other saves: the one that the draft knows of leaves the flight.
  lemma PreparedFlight(s: State, t: Thread, rich: bool, id: RequestId)
    requires t in s.placeOf && id <= s.lastId
    ensures var c := Prepared(s, t, false, rich);
            var gone := s.placeOf[t] in s.drafts && s.drafts[s.placeOf[t]] != 0 && s.drafts[s.placeOf[t]] == id;
            && (id in c.inFlight <==> id in s.inFlight && !gone)
            && (id in c.inFlight ==> c.inFlight[id] == s.inFlight[id])
  {
    hide Cancelled;
    CancelledFlight(s, s.placeOf[t], id);
  }

  lemma CancelledFlight(s: State, place: Place, id: RequestId)
    ensures var c := Cancelled(s, place);
            && (id in c.inFlight <==>
                  id in s.inFlight && !(place in s.drafts && s.drafts[place] != 0 && s.drafts[place] == id))
            && (id in c.inFlight ==> c.inFlight[id] == s.inFlight[id]) && c.lastId == s.lastId
  {
  }

  lemma SaveAndOther(s: State, t: Thread, rich: bool, u: Thread)
    requires Inv(s) && AllTracked(s) && t in s.alive && t in s.placeOf
    ensures var c := Saved(s, t, true, rich);
            && (u in c.table <==> u in s.table || u == t)
            && (u in c.table && c.table[u] != 0 ==> (InProgress(c, c.table[u], u) <==> !SharesSave(s, t, u)))
            && (SharesSave(s, t, u) ==> u in c.table && c.table[u] != 0)
  {
    PreparedKeeps(s, t, false, rich);
    PreparedFrame(s, t, false, rich);
    var c := Saved(s, t, true, rich);
    assert TrackedInv(c, u);
    assert t in c.alive;
    if u in s.table && u != t {
      TrackedFacts(s, u);
      hide Inv, Prepared;
      PreparedFlight(s, t, rich, s.table[u]);
    }
  }

  lemma TrackedFacts(s: State, u: Thread)
    requires Inv(s) && AllTracked(s) && u in s.table
    ensures s.table[u] <= s.lastId
    ensures s.table[u] in s.inFlight ==> s.table[u] != 0 && s.table[u] !in s.refreshing
    ensures s.table[u] != 0 ==> InProgress(s, s.table[u], u)
  {
    assert s.table[u] in s.inFlight ==> SaveInv(s, s.table[u], s.inFlight[s.table[u]]);
  }

  // A pass drops the entries of destroyed threads.
  lemma {:induction false} PassDropsDead(s: State, threads: seq<Thread>, choices: Choices, t: Thread)
    requires PlacesInv(s)
    ensures var c := EntriesSaved(s, threads, choices);
            && c.alive == s.alive && c.placeOf == s.placeOf && c.table.Keys <= s.table.Keys
            && (t in c.table && t in threads ==> t in s.alive)
  {
    hide EntrySaved;
    if threads != [] {
      var (front, last) := (threads[..|threads| - 1], threads[|threads| - 1]);
      PassDropsDead(s, front, choices, t);
      var before := EntriesSaved(s, front, choices);
      if last in before.table {
        EntryFrame(before, last, choices);
      }
    }
  }

  lemma PassTracksAll(s: State, choices: Choices)
    requires Inv(s)
    ensures AllTracked(AllSaved(s, choices))
  {
    hide EntriesSaved, Ascending, PlacesInv, SavesInv;
    var c := AllSaved(s, choices);
    EntriesKeepInv(s, Ascending(s.table.Keys), choices);
    AscendingLists(s.table.Keys);
    forall t | t in c.table && c.table[t] != 0
      ensures InProgress(c, c.table[t], t)
    {
      PassDropsDead(s, Ascending(s.table.Keys), choices, t);
      assert t in s.table.Keys;
      assert TrackedInv(c, t);
    }
  }

  // A step that leaves the entry of a destroyed thread with a cancelled save: a save sent at once, of a thread at whose
  // place such an entry tracks the save that the draft knows of.
  ghost predicate Orphans(s: State, e: Event)
    requires CanHappen(s, e)
  {
    e.SaveNow? && e.serializable && exists u: Thread :: SharesSave(s, e.thread, u)
  }

  // A save in progress belongs to the thread that it was sent for, so its answer concerns no other entry.
  lemma SettledKeepsTracked(s: State, c: State, id: RequestId, save: Save)
    requires Inv(s) && AllTracked(s)
    requires (id in s.inFlight && save == s.inFlight[id]) || (id in s.refreshing && save == s.refreshing[id])
    requires c.inFlight == s.inFlight - {id} && c.refreshing == s.refreshing - {id}
    requires c.table ==
             if save.thread in s.table && s.table[save.thread] == id then s.table - {save.thread} else s.table
    ensures AllTracked(c)
  {
    hide PlacesInv;
    forall t | t in c.table && c.table[t] != 0
      ensures InProgress(c, c.table[t], t)
    {
      assert InProgress(s, s.table[t], t);
      assert id in s.inFlight ==> SaveInv(s, id, s.inFlight[id]);
    }
  }

  lemma WaitingKeepsTracked(s: State, id: RequestId)
    requires Inv(s) && AllTracked(s) && id in s.inFlight
    ensures AllTracked(s.(inFlight := s.inFlight - {id}, refreshing := s.refreshing[id := s.inFlight[id]]))
  {
    hide PlacesInv;
    var c := s.(inFlight := s.inFlight - {id}, refreshing := s.refreshing[id := s.inFlight[id]]);
    forall t | t in c.table && c.table[t] != 0
      ensures InProgress(c, c.table[t], t)
    {
      assert InProgress(s, s.table[t], t);
    }
  }

  lemma RepeatKeepsTracked(s: State, id: RequestId)
    requires Inv(s) && AllTracked(s) && id in s.refreshing
    ensures AllTracked(Repeated(s.(refreshing := s.refreshing - {id}), s.refreshing[id]))
  {
    hide Inv, Repeated;
    var (save, taken) := (s.refreshing[id], s.(refreshing := s.refreshing - {id}));
    var c := Repeated(taken, save);
    RepeatedTable(taken, save);
    forall t | t in c.table && c.table[t] != 0
      ensures InProgress(c, c.table[t], t)
    {
      if t != save.thread {
        KnownId(s, t);
      }
    }
  }

  // A tracked save is in progress under an id that was given already.
  lemma KnownId(s: State, t: Thread)
    requires Inv(s) && AllTracked(s) && t in s.table && s.table[t] != 0
    ensures InProgress(s, s.table[t], t) && s.table[t] <= s.lastId
    ensures s.table[t] in s.refreshing ==> s.refreshing[s.table[t]].thread == t
  {
  }

  lemma UntrackedFlight(s: State, t: Thread, id: RequestId)
    ensures Untracked(s, t, id).inFlight == s.inFlight && Untracked(s, t, id).refreshing == s.refreshing
  {
  }

  lemma AnswerKeepsAllTracked(s: State, e: Event)
    requires Inv(s) && AllTracked(s) && IsAnswer(e) && CanHappen(s, e)
    ensures AllTracked(After(s, e))
  {
    hide Inv, AllTracked, Done, Failed, Repeated, Untracked;
    var id := e.id;
    if e.Refreshed? {
      RepeatKeepsTracked(s, id);
    } else {
      WaitingKeepsTracked(s, id);
    }
    var save := if e.Refreshed? then s.refreshing[id] else s.inFlight[id];
    var answered := if e.Refreshed? then s.(refreshing := s.refreshing - {id}) else s.(inFlight := s.inFlight - {id});
    OnlyOnce(s, id);
    SettledIs(answered, id, save);
    UntrackedFlight(answered, save.thread, id);
    UntrackedTable(answered, save.thread, id);
    SettledKeepsTracked(s, Done(answered, id, save), id, save);
    SettledKeepsTracked(s, Failed(answered, id, save), id, save);
  }

  // No save is both in flight and waiting.
  lemma OnlyOnce(s: State, id: RequestId)
    requires Inv(s)
    ensures id in s.inFlight ==> s.refreshing - {id} == s.refreshing
    ensures id in s.refreshing ==> s.inFlight - {id} == s.inFlight
  {
  }

  lemma OwnKeepsAllTracked(s: State, e: Event)
    requires AllTracked(s) && CanHappen(s, e) && (e.Birth? || e.Death? || e.Change? || e.Delay?)
    ensures AllTracked(After(s, e))
  {
    var c := After(s, e);
    forall t | t in c.table && c.table[t] != 0
      ensures InProgress(c, c.table[t], t)
    {
      assert InProgress(s, s.table[t], t);
    }
  }

  // From a state in which every tracked save is in progress, whatever its thread, a step leads to another such state
  // exactly when it orphans no save.
  lemma StepKeepsAllTracked(s: State, e: Event)
    requires Inv(s) && AllTracked(s) && CanHappen(s, e)
    ensures AllTracked(After(s, e)) <==> !Orphans(s, e)
  {
    hide Inv, AllTracked, AllSaved, Saved, SharesSave;
    match e {
      case SaveNow(t, serializable, rich) =>
        if serializable {
          SaveKeepsAllTracked(s, t, rich);
        } else {
          NothingSaved(s, t, rich);
        }
      case SaveAll(byTimer, choices) =>
        var t := if byTimer then s.(timer := false) else s;
        TimerKeepsInv(s);
        PassTracksAll(t, choices);
      case Success(_) => AnswerKeepsAllTracked(s, e);
      case Failure(_, _) => AnswerKeepsAllTracked(s, e);
      case Refreshed(_, _) => AnswerKeepsAllTracked(s, e);
      case _ => OwnKeepsAllTracked(s, e);
    }
  }

  lemma NothingSaved(s: State, t: Thread, rich: bool)
    requires t in s.placeOf
    ensures Saved(s, t, false, rich) == s
  {
  }

  // In every run, all tracked saves were in progress at every moment exactly when no step orphaned one.
  lemma {:induction false} AlwaysTrackedIffNoOrphans(events: seq<Event>)
    requires Run(events).Some?
    ensures AlwaysTracked(events) <==> NoOrphans(events)
  {
    hide After, CanHappen, Inv, AllTracked, Orphans;
    if events == [] {
      StartTracksAll();
    } else {
      var front := events[..|events| - 1];
      AlwaysTrackedIffNoOrphans(front);
      if AlwaysTracked(front) {
        RunKeepsInv(front);
        TrackedNow(front);
        StepKeepsAllTracked(Run(front).value, events[|events| - 1]);
      }
    }
  }

  ghost predicate AlwaysTracked(events: seq<Event>)
    requires Run(events).Some?
  {
    AllTracked(Run(events).value) && (events != [] ==> AlwaysTracked(events[..|events| - 1]))
  }

  ghost predicate NoOrphans(events: seq<Event>)
    requires Run(events).Some?
  {
    events != [] ==>
      var front := events[..|events| - 1];
      NoOrphans(front) && !Orphans(Run(front).value, events[|events| - 1])
  }

  lemma TrackedNow(events: seq<Event>)
    requires Run(events).Some? && AlwaysTracked(events)
    ensures AllTracked(Run(events).value)
  {
  }

  lemma StartTracksAll()
    ensures AllTracked(INITIAL)
  {
  }

  // A thread is destroyed while its save is in flight and created again: its next save cancels the first one, which
  // the old entry still tracks.
  const DEAD_ENTRY: seq<Event> :=
    [Birth(0, 7), Change(7, true), SaveNow(0, true, false), Death(0), Birth(1, 7), SaveNow(1, true, false)]

  lemma RunStep(events: seq<Event>, e: Event, s: State, longer: seq<Event>)
    requires Run(events) == Some(s) && longer == events + [e]
    ensures Run(longer) == if CanHappen(s, e) then Some(After(s, e)) else None
  {
    hide After, CanHappen;
    assert longer[..|events|] == events;
  }

  function BeforeDeath(): State {
    INITIAL.(placeOf := map[0 := 7], alive := {0}, drafts := map[7 := 1], table := map[0 := 1],
             inFlight := map[1 := Save(0, 7, false, false, false)], lastId := 1)
  }

  lemma SavedBeforeDeath()
    ensures Run(DEAD_ENTRY[..3]) == Some(BeforeDeath())
  {
    hide Run;
    var s1 := INITIAL.(placeOf := map[0 := 7], alive := {0});
    var s2 := s1.(drafts := map[7 := 0]);
    var e := DEAD_ENTRY;
    RunNothing();
    assert After(INITIAL, e[0]) == s1;
    RunStep([], e[0], INITIAL, e[..1]);
    assert After(s1, e[1]) == s2;
    RunStep(e[..1], e[1], s1, e[..2]);
    assert After(s2, e[2]) == BeforeDeath();
    RunStep(e[..2], e[2], s2, e[..3]);
  }

  lemma DeadEntryTracksCancelled()
    ensures Run(DEAD_ENTRY).Some?
    ensures var s := Run(DEAD_ENTRY).value; s.table == map[0 := 1, 1 := 2] && s.cancelled == {1} && 0 !in s.alive
  {
    hide Run;
    var s4 := BeforeDeath().(alive := {});
    var s5 := s4.(placeOf := map[0 := 7, 1 := 7], alive := {1});
    var e := DEAD_ENTRY;
    SavedBeforeDeath();
    assert After(BeforeDeath(), e[3]) == s4;
    RunStep(e[..3], e[3], BeforeDeath(), e[..4]);
    assert After(s4, e[4]) == s5;
    RunStep(e[..4], e[4], s4, e[..5]);
    RunStep(e[..5], e[5], s5, e[..6]);
    assert e[..6] == e;
  }

  lemma RunNothing()
    ensures Run([]) == Some(INITIAL)
  {
  }
}
