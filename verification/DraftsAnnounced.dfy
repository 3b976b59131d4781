/** What the announcement that quitting is not held up any more means for the saves in flight. */
module DraftsAnnounced {
  import opened Wrappers
  import opened FlatMap
  import opened DraftsSpec
  import opened DraftsTheorems

  // A save in flight of a thread that exists is the tracked one.
  predicate IsTracked(s: State, id: RequestId) {
    id in s.inFlight && s.inFlight[id].thread in s.alive ==>
      s.inFlight[id].thread in s.table && s.table[s.inFlight[id].thread] == id
  }

  ghost predicate FlightTracked(s: State) {
    forall id :: id in s.inFlight ==> IsTracked(s, id)
  }

  predicate KnownToDraft(s: State, t: Thread)
    requires t in s.placeOf && t in s.table
  {
    s.placeOf[t] in s.drafts && s.drafts[s.placeOf[t]] == s.table[t]
  }

  // A step after which a save in flight is not tracked: a save sent at once over one in flight that the cloud draft
  // does not know of, and so is not cancelled; or a repeated save that finds no entry, or the entry of a newer save
  // in flight.
  predicate Loses(s: State, e: Event)
    requires CanHappen(s, e)
  {
    match e
    case SaveNow(t, serializable, _) =>
      serializable && t in s.table && s.table[t] in s.inFlight && !KnownToDraft(s, t)
    case Refreshed(id, serializable) =>
      var t := s.refreshing[id].thread;
      serializable && t in s.alive && (t in s.table ==> s.table[t] in s.inFlight)
    case _ => false
  }

  // An id in flight was given, and is not zero.
  lemma GivenId(s: State, id: RequestId)
    requires Inv(s) && id in s.inFlight
    ensures 0 < id <= s.lastId && id !in s.refreshing && s.inFlight[id].thread in s.placeOf
  {
    assert SaveInv(s, id, s.inFlight[id]);
  }

  lemma PreparedIs(s: State, t: Thread, clearOnFail: bool, rich: bool, id: RequestId)
    requires t in s.placeOf && id <= s.lastId
    ensures var (c, place) := (Prepared(s, t, clearOnFail, rich), s.placeOf[t]);
            && c.lastId == s.lastId + 1 && c.lastId in c.inFlight && c.inFlight[c.lastId].thread == t
            && (id in c.inFlight <==>
                  id in s.inFlight && !(place in s.drafts && s.drafts[place] != 0 && s.drafts[place] == id))
            && (id in c.inFlight ==> c.inFlight[id] == s.inFlight[id])
            && (forall other :: other in c.inFlight ==> other == c.lastId || other in s.inFlight)
            && c.table == s.table && c.alive == s.alive
  {
    PreparedFrame(s, t, clearOnFail, rich);
    hide Cancelled;
    CancelledFlight(s, s.placeOf[t], id);
    CancelledOnly(s, s.placeOf[t]);
  }

  lemma CancelledOnly(s: State, place: Place)
    ensures Cancelled(s, place).inFlight.Keys <= s.inFlight.Keys
  {
  }

  // Sending over an entry: the others in flight are those of the entry, if it is not cancelled.
  lemma SentOver(s: State, t: Thread, clearOnFail: bool, rich: bool)
    requires Inv(s) && FlightTracked(s) && t in s.alive && t in s.placeOf
    ensures var sent := Prepared(s, t, clearOnFail, rich);
            FlightTracked(sent.(table := sent.table[t := sent.lastId]))
            <==> !(t in s.table && s.table[t] in s.inFlight && !KnownToDraft(s, t))
  {
    hide Inv, Prepared;
    var sent := Prepared(s, t, clearOnFail, rich);
    var c := sent.(table := sent.table[t := sent.lastId]);
    PreparedIs(s, t, clearOnFail, rich, 0);
    if t in s.table && s.table[t] in s.inFlight {
      GivenId(s, s.table[t]);
      TrackedIsOwn(s, t);
      PreparedIs(s, t, clearOnFail, rich, s.table[t]);
      assert !KnownToDraft(s, t) ==> !IsTracked(c, s.table[t]);
    }
    forall id | id in c.inFlight && !(t in s.table && s.table[t] in s.inFlight && !KnownToDraft(s, t))
      ensures IsTracked(c, id)
    {
      if id != c.lastId {
        GivenId(s, id);
        PreparedIs(s, t, clearOnFail, rich, id);
        assert IsTracked(s, id);
      }
    }
  }

  lemma TrackedIsOwn(s: State, t: Thread)
    requires Inv(s) && t in s.alive && t in s.table && s.table[t] in s.inFlight
    ensures s.inFlight[s.table[t]].thread == t
  {
    assert TrackedInv(s, t);
    GivenId(s, s.table[t]);
  }

  // The pass sends only for entries that track nothing.
  lemma EntryKeepsFlight(s: State, t: Thread, choices: Choices)
    requires Inv(s) && FlightTracked(s) && t in s.table && (t in s.alive ==> t in s.placeOf)
    ensures FlightTracked(EntrySaved(s, t, choices))
  {
    hide Inv, Prepared;
    if t in s.alive && s.table[t] == 0 {
      NothingInFlight(s, t);
      var created := Created(s, s.placeOf[t], t in choices.anew);
      CreatedKeepsInv(s, s.placeOf[t], t in choices.anew);
      ZeroIsNotInFlight(s);
      SentOver(created, t, true, t in choices.rich);
    } else if t !in s.alive {
      assert forall id :: id in s.inFlight ==> IsTracked(s, id);
    }
  }

  lemma ZeroIsNotInFlight(s: State)
    requires Inv(s)
    ensures forall id :: id in s.inFlight ==> id != 0
  {
    forall id | id in s.inFlight
      ensures id != 0
    {
      GivenId(s, id);
    }
  }

  lemma CreatedKeepsInv(s: State, place: Place, anew: bool)
    requires Inv(s) && FlightTracked(s)
    ensures Inv(Created(s, place, anew)) && FlightTracked(Created(s, place, anew))
    ensures Created(s, place, anew).table == s.table && Created(s, place, anew).inFlight == s.inFlight
    ensures Created(s, place, anew).alive == s.alive && Created(s, place, anew).placeOf == s.placeOf
  {
    hide Inv, FlightTracked;
    var c := Created(s, place, anew);
    DraftsKeep(s, c.drafts);
    assert c == s.(drafts := c.drafts);
    SameFlight(s, c);
  }

  lemma SameFlight(s: State, c: State)
    requires FlightTracked(s) && c.inFlight == s.inFlight && c.table == s.table && c.alive <= s.alive
    ensures FlightTracked(c)
  {
    forall id | id in c.inFlight
      ensures IsTracked(c, id)
    {
      assert IsTracked(s, id);
    }
  }

  lemma NothingInFlight(s: State, t: Thread)
    requires Inv(s) && FlightTracked(s) && t in s.alive && (t in s.table ==> s.table[t] == 0)
    ensures forall id :: id in s.inFlight ==> s.inFlight[id].thread != t
  {
    forall id | id in s.inFlight
      ensures s.inFlight[id].thread != t
    {
      assert IsTracked(s, id);
      GivenId(s, id);
    }
  }

  lemma {:induction false} EntriesKeepFlight(s: State, threads: seq<Thread>, choices: Choices)
    requires Inv(s) && FlightTracked(s)
    ensures FlightTracked(EntriesSaved(s, threads, choices))
  {
    hide Inv, FlightTracked, EntrySaved;
    if threads != [] {
      var front := threads[..|threads| - 1];
      EntriesKeepFlight(s, front, choices);
      EntriesKeepInv(s, front, choices);
      var before := EntriesSaved(s, front, choices);
      var t := threads[|threads| - 1];
      if t in before.table && (t in before.alive ==> t in before.placeOf) {
        EntryKeepsFlight(before, t, choices);
      }
    }
  }

  // An answer takes its save out of the flight, and its own entry out of the table.
  lemma SettledKeepsFlight(s: State, c: State, id: RequestId)
    requires FlightTracked(s) && (id in s.inFlight || id in s.refreshing) && c.alive == s.alive
    requires c.inFlight == s.inFlight - {id}
    requires c.table == s.table || (exists t :: t in s.table && s.table[t] == id && c.table == s.table - {t})
    ensures FlightTracked(c)
  {
    forall other | other in c.inFlight
      ensures IsTracked(c, other)
    {
      assert IsTracked(s, other);
    }
  }

  lemma RepeatFlight(s: State, id: RequestId)
    requires Inv(s) && FlightTracked(s) && id in s.refreshing
    ensures var c := Repeated(s.(refreshing := s.refreshing - {id}), s.refreshing[id]);
            FlightTracked(c) <==> !Loses(s, Refreshed(id, true))
  {
    hide Inv, Repeated;
    var (save, taken) := (s.refreshing[id], s.(refreshing := s.refreshing - {id}));
    var (c, t) := (Repeated(taken, save), save.thread);
    RepeatedTable(taken, save);
    RepeatedAlive(taken, save);
    if Loses(s, Refreshed(id, true)) {
      if t in s.table {
        TrackedIsOwn(s, t);
        GivenId(s, s.table[t]);
        assert !IsTracked(c, s.table[t]);
      } else {
        assert !IsTracked(c, c.lastId);
      }
    } else {
      forall other | other in c.inFlight
        ensures IsTracked(c, other)
      {
        if other != c.lastId {
          GivenId(s, other);
          assert IsTracked(s, other);
        }
      }
    }
  }

  lemma RepeatedAlive(s: State, save: Save)
    ensures Repeated(s, save).alive == s.alive
  {
  }

  lemma SettledAlive(s: State, id: RequestId, save: Save)
    ensures Done(s, id, save).alive == Failed(s, id, save).alive == s.alive
  {
  }

  lemma AnswerFlight(s: State, e: Event)
    requires Inv(s) && FlightTracked(s) && IsAnswer(e) && CanHappen(s, e)
    ensures FlightTracked(After(s, e)) <==> !Loses(s, e)
  {
    hide Inv, FlightTracked, Done, Failed, Repeated, Untracked, Loses;
    var id := e.id;
    var save := if e.Refreshed? then s.refreshing[id] else s.inFlight[id];
    var answered := if e.Refreshed? then s.(refreshing := s.refreshing - {id}) else s.(inFlight := s.inFlight - {id});
    if e.Refreshed? && e.serializable {
      RepeatFlight(s, id);
    } else {
      assert !Loses(s, e) by { LosesNothing(s, e); }
      OnlyOnce(s, id);
      SettledIs(answered, id, save);
      SettledAlive(answered, id, save);
      UntrackedFlight(answered, save.thread, id);
      UntrackedTable(answered, save.thread, id);
      SettledKeepsFlight(s, After(s, e), id);
    }
  }

  lemma LosesNothing(s: State, e: Event)
    requires CanHappen(s, e) && !(e.SaveNow? && e.serializable) && !(e.Refreshed? && e.serializable)
    ensures !Loses(s, e)
  {
  }

  // Threads, drafts and delays
  lemma OwnKeepsFlight(s: State, e: Event)
    requires Inv(s) && FlightTracked(s) && CanHappen(s, e) && (e.Birth? || e.Death? || e.Change? || e.Delay?)
    ensures FlightTracked(After(s, e))
  {
    hide Inv;
    var c := After(s, e);
    forall id | id in c.inFlight
      ensures IsTracked(c, id)
    {
      assert IsTracked(s, id);
      GivenId(s, id);
    }
  }

  // From a state in which every save in flight of a thread that exists is tracked, a step leads to another such state
  // exactly when it loses none.
  lemma StepKeepsFlight(s: State, e: Event)
    requires Inv(s) && FlightTracked(s) && CanHappen(s, e)
    ensures FlightTracked(After(s, e)) <==> !Loses(s, e)
  {
    hide Inv, FlightTracked, EntriesSaved, Ascending, Prepared, KnownToDraft;
    match e {
      case SaveNow(t, _, rich) => SentOver(s, t, false, rich);
      case SaveAll(byTimer, choices) =>
        var t := if byTimer then s.(timer := false) else s;
        TimerKeepsInv(s);
        SameFlight(s, t);
        EntriesKeepFlight(t, Ascending(t.table.Keys), choices);
      case Success(_) => AnswerFlight(s, e);
      case Failure(_, _) => AnswerFlight(s, e);
      case Refreshed(_, _) => AnswerFlight(s, e);
      case _ => OwnKeepsFlight(s, e);
    }
  }

  ghost predicate AlwaysFlightTracked(events: seq<Event>)
    requires Run(events).Some?
  {
    FlightTracked(Run(events).value) && (events != [] ==> AlwaysFlightTracked(events[..|events| - 1]))
  }

  ghost predicate NothingLost(events: seq<Event>)
    requires Run(events).Some?
  {
    events != [] ==>
      var front := events[..|events| - 1];
      NothingLost(front) && !Loses(Run(front).value, events[|events| - 1])
  }

  lemma FlightTrackedNow(events: seq<Event>)
    requires Run(events).Some? && AlwaysFlightTracked(events)
    ensures FlightTracked(Run(events).value)
  {
  }

  lemma StartHasNoFlight()
    ensures FlightTracked(INITIAL)
  {
  }

  // In every run, the saves in flight of threads that exist were tracked at every moment exactly when no step lost one.
  lemma {:induction false} AlwaysFlightTrackedIffNothingLost(events: seq<Event>)
    requires Run(events).Some?
    ensures AlwaysFlightTracked(events) <==> NothingLost(events)
  {
    hide After, CanHappen, Inv, FlightTracked, Loses;
    if events == [] {
      StartHasNoFlight();
    } else {
      var front := events[..|events| - 1];
      AlwaysFlightTrackedIffNothingLost(front);
      if AlwaysFlightTracked(front) {
        RunKeepsInv(front);
        FlightTrackedNow(front);
        StepKeepsFlight(Run(front).value, events[|events| - 1]);
      }
    }
  }

  lemma OwnAnnouncesNothing(s: State, e: Event)
    requires CanHappen(s, e) && !IsAnswer(e) && !e.SaveAll?
    ensures After(s, e).finished == s.finished
  {
    hide Prepared;
    if e.SaveNow? {
      PreparedFrame(s, e.thread, false, e.rich);
    }
  }

  // Only an answer announces the end of quit prevention, and only the one that empties the table.
  lemma StepAnnounces(s: State, e: Event)
    requires CanHappen(s, e)
    ensures After(s, e).finished ==
            s.finished + if IsAnswer(e) && s.table != map[] && After(s, e).table == map[] then 1 else 0
  {
    hide EntriesSaved, Ascending;
    if IsAnswer(e) {
      hide After;
      EmptyingIsAnnounced(s, e);
    } else if e.SaveAll? {
      var t := if e.byTimer then s.(timer := false) else s;
      PassAnnouncesNothing(t, Ascending(t.table.Keys), e.choices);
    } else {
      hide After;
      OwnAnnouncesNothing(s, e);
    }
  }

  // In a run that lost no save, the announcement comes when no save of a thread that exists is in flight.
  lemma AnnouncedIsIdle(events: seq<Event>, e: Event)
    requires Run(events).Some? && CanHappen(Run(events).value, e)
    requires NothingLost(events) && !Loses(Run(events).value, e)
    requires After(Run(events).value, e).finished != Run(events).value.finished
    ensures var c := After(Run(events).value, e); forall id :: id in c.inFlight ==> c.inFlight[id].thread !in c.alive
  {
    hide Run, After, CanHappen, Inv, Loses, AlwaysFlightTracked, NothingLost;
    var s := Run(events).value;
    RunKeepsInv(events);
    AlwaysFlightTrackedIffNothingLost(events);
    FlightTrackedNow(events);
    StepKeepsFlight(s, e);
    StepAnnounces(s, e);
    var c := After(s, e);
    forall id | id in c.inFlight
      ensures c.inFlight[id].thread !in c.alive
    {
      assert IsTracked(c, id);
    }
  }

  // A save waits for its file reference while a newer one is sent; then it is repeated, and its answer is announced
  // while the newer one is in flight.
  const TOO_EARLY: seq<Event> := [
    Birth(0, 7), Change(7, true), SaveNow(0, true, true), Failure(1, true),
    SaveNow(0, true, true), Refreshed(1, true), Success(3)]

  // The thread 0, with what its entry tracks and what its draft knows of
  function OneThread(tracked: RequestId, known: RequestId): State {
    INITIAL.(placeOf := map[0 := 7], alive := {0}, drafts := map[7 := known], table := map[0 := tracked])
  }

  const FIRST_SAVE := Save(0, 7, false, true, false)

  function Waiting(): State {
    OneThread(1, 1).(refreshing := map[1 := FIRST_SAVE], lastId := 1)
  }

  function Newer(): State {
    OneThread(2, 2).(inFlight := map[2 := FIRST_SAVE], refreshing := map[1 := FIRST_SAVE], lastId := 2)
  }

  lemma FirstWaits()
    ensures Run(TOO_EARLY[..4]) == Some(Waiting())
  {
    hide Run;
    var s1 := INITIAL.(placeOf := map[0 := 7], alive := {0});
    var s2 := s1.(drafts := map[7 := 0]);
    var s3 := OneThread(1, 1).(inFlight := map[1 := FIRST_SAVE], lastId := 1);
    var e := TOO_EARLY;
    RunNothing();
    assert After(INITIAL, e[0]) == s1;
    RunStep([], e[0], INITIAL, e[..1]);
    assert After(s1, e[1]) == s2;
    RunStep(e[..1], e[1], s1, e[..2]);
    assert After(s2, e[2]) == s3;
    RunStep(e[..2], e[2], s2, e[..3]);
    assert After(s3, e[3]) == Waiting();
    RunStep(e[..3], e[3], s3, e[..4]);
  }

  lemma NewerIsSent()
    ensures CanHappen(Waiting(), TOO_EARLY[4]) && After(Waiting(), TOO_EARLY[4]) == Newer()
  {
    var s := Waiting();
    assert Cancelled(s, 7) == s.(drafts := map[7 := 0]);
    var sent := Sent(Cancelled(s, 7), FIRST_SAVE);
    assert Noted(sent, 7, 2) == sent.(drafts := map[7 := 2]);
  }

  function Repeating(): State {
    OneThread(3, 3).(inFlight := map[2 := FIRST_SAVE, 3 := FIRST_SAVE.(refreshed := true)], lastId := 3)
  }

  lemma FirstIsRepeated()
    ensures CanHappen(Newer(), TOO_EARLY[5]) && After(Newer(), TOO_EARLY[5]) == Repeating()
  {
  }

  lemma LastAnswers()
    ensures CanHappen(Repeating(), TOO_EARLY[6])
    ensures var c := After(Repeating(), TOO_EARLY[6]);
            c.finished == 1 && c.alive == {0} && 2 in c.inFlight && c.inFlight[2].thread == 0
  {
    assert map[0 := 3 as RequestId] - {0} == map[];
  }

  lemma AnnouncedTooEarly()
    ensures Run(TOO_EARLY).Some?
    ensures var s := Run(TOO_EARLY).value; s.finished == 1 && 2 in s.inFlight && s.inFlight[2].thread in s.alive
  {
    hide Run, After, CanHappen, Waiting, Newer, Repeating;
    var e := TOO_EARLY;
    FirstWaits();
    NewerIsSent();
    RunStep(e[..4], e[4], Waiting(), e[..5]);
    FirstIsRepeated();
    RunStep(e[..5], e[5], Newer(), e[..6]);
    LastAnswers();
    RunStep(e[..6], e[6], Repeating(), e);
  }
}
