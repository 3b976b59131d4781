/** What becomes of every thread and every save: in a pass over the table, in an immediate save, and by an answer. */
module DraftsLaws {
  import opened Wrappers
  import opened FlatMap
  import opened DraftsSpec
  import opened DraftsTheorems

  // The entry of a living thread that waits, and that is not to be skipped, may get a save.
  predicate IsWaiting(s: State, t: Thread, choices: Choices) {
    t in s.table && t in s.alive && t in s.placeOf && s.table[t] == 0 && t !in choices.skip
  }

  predicate IsSent(s: State, t: Thread, choices: Choices) {
    IsWaiting(s, t, choices) && t !in choices.broken
  }

  // A save takes the place of the one that the draft knows of, unless a new draft took the place of the known one.
  predicate Replaces(s: State, t: Thread, choices: Choices, id: RequestId) {
    && IsSent(s, t, choices) && t !in choices.anew
    && id != 0 && s.placeOf[t] in s.drafts && s.drafts[s.placeOf[t]] == id
  }

  // The save that a draft knows of, or zero
  function Known(s: State, p: Place): RequestId {
    if p in s.drafts then s.drafts[p] else 0
  }

  lemma CancelledIs(s: State, place: Place, p: Place, id: RequestId)
    ensures var c := Cancelled(s, place);
            && (p in c.drafts <==> p in s.drafts)
            && (p in s.drafts ==> c.drafts[p] == if p == place then 0 else s.drafts[p])
            && (id in c.inFlight <==> id in s.inFlight && !(id != 0 && Known(s, place) == id))
            && (id in c.inFlight ==> c.inFlight[id] == s.inFlight[id])
            && (id in c.cancelled <==> id in s.cancelled || (id != 0 && id in s.inFlight && Known(s, place) == id))
            && c.table == s.table && c.timer == s.timer && c.lastId == s.lastId
  {
  }

  lemma PreparedDrafts(s: State, t: Thread, clearOnFail: bool, rich: bool, p: Place)
    requires t in s.placeOf
    ensures var c := Prepared(s, t, clearOnFail, rich);
            && c.lastId == s.lastId + 1 && c.table == s.table && c.timer == s.timer
            && (p in c.drafts <==> p in s.drafts)
            && (p in s.drafts ==> c.drafts[p] == if p == s.placeOf[t] then s.lastId + 1 else s.drafts[p])
  {
    hide Cancelled;
    CancelledIs(s, s.placeOf[t], p, 0);
    CancelledIs(s, s.placeOf[t], s.placeOf[t], 0);
  }

  lemma PreparedSave(s: State, t: Thread, clearOnFail: bool, rich: bool, id: RequestId)
    requires t in s.placeOf
    ensures var (c, place) := (Prepared(s, t, clearOnFail, rich), s.placeOf[t]);
            && (id in c.inFlight <==> id == s.lastId + 1 || (id in s.inFlight && !(id != 0 && Known(s, place) == id)))
            && (id in c.inFlight ==>
                  c.inFlight[id] ==
                  if id == s.lastId + 1 then Save(t, place, clearOnFail, rich, false) else s.inFlight[id])
            && (id in c.cancelled <==>
                  id in s.cancelled || (id != 0 && id in s.inFlight && Known(s, place) == id))
  {
    hide Cancelled;
    CancelledIs(s, s.placeOf[t], s.placeOf[t], id);
  }

  // One entry
  lemma EntryIs(s: State, t: Thread, choices: Choices)
    requires t in s.table && (t in s.alive ==> t in s.placeOf)
    ensures var (c, id) := (EntrySaved(s, t, choices), s.lastId + 1);
            && c.alive == s.alive && c.placeOf == s.placeOf && c.refreshing == s.refreshing && c.timer == s.timer
            && (forall u :: u in c.table <==> u in s.table && (u == t ==> Remains(s, t, choices)))
            && (forall u :: u in c.table ==> c.table[u] == if u == t && IsSent(s, t, choices) then id else s.table[u])
            && c.lastId == (if IsSent(s, t, choices) then id else s.lastId)
  {
    hide Prepared;
    if IsWaiting(s, t, choices) {
      PreparedFrame(Created(s, s.placeOf[t], t in choices.anew), t, true, t in choices.rich);
      PreparedDrafts(Created(s, s.placeOf[t], t in choices.anew), t, true, t in choices.rich, s.placeOf[t]);
    }
  }

  predicate Remains(s: State, t: Thread, choices: Choices)
    requires t in s.table
  {
    t in s.alive && (s.table[t] != 0 || IsSent(s, t, choices))
  }

  lemma EntryDrafts(s: State, t: Thread, choices: Choices, p: Place)
    requires t in s.table && (t in s.alive ==> t in s.placeOf)
    ensures var c := EntrySaved(s, t, choices);
            && (IsSent(s, t, choices) && p == s.placeOf[t] ==> p in c.drafts && c.drafts[p] == s.lastId + 1)
            && (IsWaiting(s, t, choices) && t in choices.broken && p == s.placeOf[t] ==>
                  p in c.drafts && c.drafts[p] == if p in s.drafts && t !in choices.anew then s.drafts[p] else 0)
            && (!(IsWaiting(s, t, choices) && p == s.placeOf[t]) ==>
                  (p in c.drafts <==> p in s.drafts) && (p in s.drafts ==> c.drafts[p] == s.drafts[p]))
  {
    hide Prepared;
    if IsWaiting(s, t, choices) {
      PreparedDrafts(Created(s, s.placeOf[t], t in choices.anew), t, true, t in choices.rich, p);
    }
  }

  lemma EntryFlight(s: State, t: Thread, choices: Choices, id: RequestId)
    requires t in s.table && (t in s.alive ==> t in s.placeOf)
    ensures var c := EntrySaved(s, t, choices);
            && (id in c.inFlight <==> (IsSent(s, t, choices) && id == s.lastId + 1)
                                      || (id in s.inFlight && !Replaces(s, t, choices, id)))
            && (IsSent(s, t, choices) && id == s.lastId + 1 ==>
                  c.inFlight[id] == Save(t, s.placeOf[t], true, t in choices.rich, false))
            && (id in c.inFlight && !(IsSent(s, t, choices) && id == s.lastId + 1) ==> c.inFlight[id] == s.inFlight[id])
  {
    hide Prepared;
    if IsWaiting(s, t, choices) {
      PreparedSave(Created(s, s.placeOf[t], t in choices.anew), t, true, t in choices.rich, id);
    }
  }

  // A whole pass: a destroyed thread, and one that waits and is skipped or cannot be serialized, goes; one in progress
  // stays as it is; each of the others is sent under a new id, and its draft knows of it.
  predicate IsPassed(s: State, c: State, t: Thread, choices: Choices) {
    && c.alive == s.alive && c.placeOf == s.placeOf && c.lastId >= s.lastId
    && (t in c.table <==> t in s.table && Remains(s, t, choices))
    && (t in c.table && !IsSent(s, t, choices) ==> c.table[t] == s.table[t])
    && (IsSent(s, t, choices) ==>
          var (id, place) := (c.table[t], s.placeOf[t]);
          && s.lastId < id <= c.lastId && place in c.drafts && c.drafts[place] == id
          && id in c.inFlight && c.inFlight[id] == Save(t, place, true, t in choices.rich, false))
    && (IsWaiting(s, t, choices) && t in choices.broken ==>
          Keeps(c, s.placeOf[t], if t in choices.anew then 0 else Known(s, s.placeOf[t])))
  }

  // The draft is there and knows of this save.
  predicate Keeps(c: State, place: Place, id: RequestId) {
    place in c.drafts && c.drafts[place] == id
  }

  // The part of a thread that a pass did not come to yet
  predicate IsKept(s: State, c: State, t: Thread) {
    && c.alive == s.alive && c.placeOf == s.placeOf && c.lastId >= s.lastId
    && (t in c.table <==> t in s.table) && (t in s.table ==> c.table[t] == s.table[t])
    && (t in s.alive && t in s.placeOf ==>
          var p := s.placeOf[t]; (p in c.drafts <==> p in s.drafts) && (p in s.drafts ==> c.drafts[p] == s.drafts[p]))
  }

  lemma EntryKeepsOther(s: State, c: State, t: Thread, u: Thread, choices: Choices)
    requires PlacesInv(s) && t != u && u in s.table && IsKept(s, c, u) && u in c.table
    requires u in c.alive ==> u in c.placeOf
    ensures IsKept(s, c, t) ==> IsKept(s, EntrySaved(c, u, choices), t)
    ensures IsPassed(s, c, t, choices) && IdsAreOld(s) ==> IsPassed(s, EntrySaved(c, u, choices), t, choices)
  {
    hide EntrySaved;
    EntryIs(c, u, choices);
    if t in s.alive {
      EntryDrafts(c, u, choices, s.placeOf[t]);
    }
    if t in c.table {
      EntryFlight(c, u, choices, c.table[t]);
    }
  }

  // The ids that the drafts knew before the pass are old ones.
  ghost predicate IdsAreOld(s: State) {
    forall p :: p in s.drafts ==> s.drafts[p] <= s.lastId
  }

  lemma {:induction false} EntriesKeep(s: State, threads: seq<Thread>, choices: Choices, t: Thread)
    requires PlacesInv(s) && IdsAreOld(s) && Distinct(threads) && forall u :: u in threads ==> u in s.table
    ensures var c := EntriesSaved(s, threads, choices);
            if t in threads then IsPassed(s, c, t, choices) else IsKept(s, c, t)
  {
    hide EntrySaved, PlacesInv, IsKept, IsPassed, IdsAreOld;
    if threads == [] {
      assert IsKept(s, s, t) by { KeptAtFirst(s, t); }
    } else {
      var (front, u) := (threads[..|threads| - 1], threads[|threads| - 1]);
      var c := EntriesSaved(s, front, choices);
      assert threads == front + [u];
      assert u !in front;
      EntriesKeep(s, front, choices, u);
      KeptHasPlace(s, c, u);
      if t == u {
        EntryPasses(s, c, t, choices);
      } else {
        EntriesKeep(s, front, choices, t);
        EntryKeepsOther(s, c, t, u, choices);
      }
    }
  }

  lemma KeptAtFirst(s: State, t: Thread)
    ensures IsKept(s, s, t)
  {
  }

  lemma KeptHasPlace(s: State, c: State, u: Thread)
    requires PlacesInv(s) && IsKept(s, c, u) && u in s.table
    ensures u in c.table && (u in c.alive ==> u in c.placeOf)
  {
  }

  lemma EntryPasses(s: State, c: State, t: Thread, choices: Choices)
    requires PlacesInv(s) && IsKept(s, c, t) && t in c.table && (t in c.alive ==> t in c.placeOf)
    ensures IsPassed(s, EntrySaved(c, t, choices), t, choices)
  {
    hide EntrySaved;
    EntryIs(c, t, choices);
    if t in s.alive {
      EntryDrafts(c, t, choices, s.placeOf[t]);
    }
    EntryFlight(c, t, choices, c.lastId + 1);
  }

  lemma KeptReplaces(s: State, c: State, t: Thread, choices: Choices, id: RequestId)
    requires IsKept(s, c, t)
    ensures Replaces(c, t, choices, id) <==> Replaces(s, t, choices, id)
    ensures IsSent(c, t, choices) <==> IsSent(s, t, choices)
  {
  }

  // Of the saves in flight before the pass those stay that no save takes the place of; the others are cancelled.
  lemma {:induction false} EntriesFlight(s: State, threads: seq<Thread>, choices: Choices, id: RequestId)
    requires PlacesInv(s) && IdsAreOld(s) && Distinct(threads) && forall u :: u in threads ==> u in s.table
    requires id <= s.lastId
    ensures var c := EntriesSaved(s, threads, choices);
            && (id in c.inFlight <==> id in s.inFlight && forall t :: t in threads ==> !Replaces(s, t, choices, id))
            && (id in c.inFlight ==> c.inFlight[id] == s.inFlight[id])
  {
    hide EntrySaved, PlacesInv, IsKept, IsPassed, IdsAreOld, Replaces;
    if threads != [] {
      var (front, u) := (threads[..|threads| - 1], threads[|threads| - 1]);
      var c := EntriesSaved(s, front, choices);
      assert threads == front + [u];
      EntriesKeep(s, front, choices, u);
      KeptHasPlace(s, c, u);
      EntriesFlight(s, front, choices, id);
      EntryFlight(c, u, choices, id);
      KeptReplaces(s, c, u, choices, id);
      KeptCounts(s, c, u);
      forall t | t in threads
        ensures t in front || t == u
      {
      }
    }
  }

  lemma KeptCounts(s: State, c: State, t: Thread)
    requires IsKept(s, c, t)
    ensures c.lastId >= s.lastId
  {
  }

  // Every save that a pass sends is of one such thread.
  lemma {:induction false} EntriesSend(s: State, threads: seq<Thread>, choices: Choices, id: RequestId)
    returns (t: Thread)
    requires PlacesInv(s) && IdsAreOld(s) && Distinct(threads) && forall u :: u in threads ==> u in s.table
    requires s.lastId < id <= EntriesSaved(s, threads, choices).lastId
    ensures var c := EntriesSaved(s, threads, choices);
            t in threads && IsSent(s, t, choices) && t in c.table && c.table[t] == id
  {
    hide EntrySaved, PlacesInv, IsKept, IsPassed, IdsAreOld, Replaces;
    if threads == [] {
      assert false;
    } else {
      var (front, u) := (threads[..|threads| - 1], threads[|threads| - 1]);
      var c := EntriesSaved(s, front, choices);
      assert threads == front + [u];
      EntriesKeep(s, front, choices, u);
      KeptHasPlace(s, c, u);
      KeptReplaces(s, c, u, choices, id);
      EntryIs(c, u, choices);
      assert u !in front;
      if id <= c.lastId {
        t := EntriesSend(s, front, choices, id);
        assert t != u;
      } else {
        t := u;
      }
    }
  }

  lemma {:induction false} EntriesRefreshNothing(s: State, threads: seq<Thread>, choices: Choices)
    ensures EntriesSaved(s, threads, choices).refreshing == s.refreshing
  {
    hide EntrySaved;
    if threads != [] {
      var (front, u) := (threads[..|threads| - 1], threads[|threads| - 1]);
      var c := EntriesSaved(s, front, choices);
      EntriesRefreshNothing(s, front, choices);
      if u in c.table && (u in c.alive ==> u in c.placeOf) {
        EntryIs(c, u, choices);
      }
    }
  }

  lemma FlownIsCounted(s: State, id: RequestId)
    requires Inv(s) && id in s.inFlight
    ensures id <= s.lastId
  {
    assert SaveInv(s, id, s.inFlight[id]);
  }

  lemma KnownInRuns(s: State)
    requires Inv(s)
    ensures PlacesInv(s) && IdsAreOld(s)
  {
    forall p | p in s.drafts
      ensures s.drafts[p] <= s.lastId
    {
      assert DraftInv(s, p);
    }
  }

  lemma PassIs(events: seq<Event>, byTimer: bool, choices: Choices, t: Thread)
    requires Run(events).Some? && CanHappen(Run(events).value, SaveAll(byTimer, choices))
    ensures var s := Run(events).value;
            IsPassed(s, After(s, SaveAll(byTimer, choices)), t, choices)
  {
    hide Run, Inv, EntriesSaved, Ascending, PlacesInv, IdsAreOld;
    RunKeepsInv(events);
    var s := Run(events).value;
    var u := if byTimer then s.(timer := false) else s;
    assert Inv(u) by { TimerKeepsInv(s); }
    KnownInRuns(u);
    AscendingLists(u.table.Keys);
    EntriesKeep(u, Ascending(u.table.Keys), choices, t);
    if t !in s.table {
      assert t !in Ascending(u.table.Keys);
    }
  }

  lemma PassFlies(events: seq<Event>, byTimer: bool, choices: Choices, id: RequestId)
    requires Run(events).Some? && CanHappen(Run(events).value, SaveAll(byTimer, choices))
    ensures var s := Run(events).value;
            var c := After(s, SaveAll(byTimer, choices));
            && (id <= s.lastId ==>
                  && (id in c.inFlight <==>
                        id in s.inFlight && forall t :: t in s.table ==> !Replaces(s, t, choices, id))
                  && (id in c.inFlight ==> c.inFlight[id] == s.inFlight[id]))
            && (id > s.lastId && id in c.inFlight ==>
                  exists t :: IsSent(s, t, choices) && t in c.table && c.table[t] == id)
            && c.refreshing == s.refreshing
  {
    hide Run, Inv, EntriesSaved, Ascending, PlacesInv, IdsAreOld;
    RunKeepsInv(events);
    var s := Run(events).value;
    var u := if byTimer then s.(timer := false) else s;
    assert Inv(u) by { TimerKeepsInv(s); }
    KnownInRuns(u);
    AscendingLists(u.table.Keys);
    EntriesRefreshNothing(u, Ascending(u.table.Keys), choices);
    var c := After(s, SaveAll(byTimer, choices));
    assert Inv(c) by { PassKeepsInv(s, byTimer, choices); }
    if id <= s.lastId {
      EntriesFlight(u, Ascending(u.table.Keys), choices, id);
      forall t
        ensures t in Ascending(u.table.Keys) <==> t in s.table
        ensures Replaces(u, t, choices, id) <==> Replaces(s, t, choices, id)
      {
        assert t in u.table <==> t in u.table.Keys;
      }
    } else if id in c.inFlight {
      assert id <= c.lastId by { FlownIsCounted(c, id); }
      var t := EntriesSend(u, Ascending(u.table.Keys), choices, id);
      assert IsSent(s, t, choices);
    }
  }

  // A delayed save is waited for, by a timer; a chat whose drafts are not to be saved is left alone.
  lemma DelayIs(s: State, t: Thread, skip: bool)
    requires CanHappen(s, Delay(t, skip))
    ensures var c := After(s, Delay(t, skip));
            && (skip ==> c == s)
            && (!skip ==>
                  && c.timer && t in c.table && c.table[t] == (if t in s.table then s.table[t] else 0)
                  && (forall u :: u in c.table && u != t <==> u in s.table && u != t)
                  && (forall u :: u in s.table ==> c.table[u] == s.table[u])
                  && c == s.(table := c.table, timer := c.timer))
  {
  }

  // An immediate save is sent, if it can be, in place of the one that the draft knows of; it does not drop the draft
  // when it fails.
  lemma NowIs(s: State, t: Thread, serializable: bool, rich: bool, p: Place, id: RequestId)
    requires CanHappen(s, SaveNow(t, serializable, rich))
    ensures var (c, sent, place) := (After(s, SaveNow(t, serializable, rich)), s.lastId + 1, s.placeOf[t]);
            if !serializable then c == s
            else
              && c.lastId == sent && t in c.table && c.table[t] == sent && c.timer == s.timer
              && (forall u :: u != t ==>
                    (u in c.table <==> u in s.table) && (u in s.table ==> c.table[u] == s.table[u]))
              && sent in c.inFlight && c.inFlight[sent] == Save(t, place, false, rich, false)
              && (id != sent ==>
                    (id in c.inFlight <==> id in s.inFlight && !(id != 0 && Known(s, place) == id))
                    && (id in c.inFlight ==> c.inFlight[id] == s.inFlight[id]))
              && (p in c.drafts <==> p in s.drafts)
              && (p in s.drafts ==> c.drafts[p] == if p == place then sent else s.drafts[p])
  {
    hide Prepared;
    PreparedDrafts(s, t, false, rich, p);
    PreparedSave(s, t, false, rich, id);
    PreparedSave(s, t, false, rich, s.lastId + 1);
  }

  // The first failure of a rich save for want of a fresh file reference makes it wait for one.
  predicate Waits(s: State, e: Event)
    requires CanHappen(s, e)
  {
    e.Failure? && e.fileReference && s.inFlight[e.id].rich && !s.inFlight[e.id].refreshed
  }

  // The save that an event brings to an end without success
  predicate Ends(s: State, e: Event)
    requires CanHappen(s, e)
  {
    (e.Failure? && !Waits(s, e)) || (e.Refreshed? && !e.serializable)
  }

  function SaveOf(s: State, e: Event): Save
    requires CanHappen(s, e) && IsAnswer(e)
  {
    if e.Refreshed? then s.refreshing[e.id] else s.inFlight[e.id]
  }

  lemma UntrackedOnly(s: State, t: Thread, id: RequestId)
    ensures var c := Untracked(s, t, id);
            c.drafts == s.drafts && c.inFlight == s.inFlight && c.refreshing == s.refreshing && c.lastId == s.lastId
  {
  }

  // What an ended or a repeated save makes of a state in which it was just answered
  lemma EndedIs(s: State, id: RequestId, save: Save, p: Place)
    ensures var (done, failed, knows) := (Done(s, id, save), Failed(s, id, save), p == save.place && Known(s, p) == id);
            && (p in done.drafts <==> p in s.drafts)
            && (p in done.drafts ==> done.drafts[p] == if knows then 0 else s.drafts[p])
            && (p in failed.drafts <==> p in s.drafts && !(save.clearOnFail && knows))
            && (p in failed.drafts ==> failed.drafts[p] == if knows then 0 else s.drafts[p])
            && done.inFlight == failed.inFlight == s.inFlight && done.refreshing == failed.refreshing == s.refreshing
            && done.lastId == failed.lastId == s.lastId
  {
    hide Untracked;
    UntrackedOnly(Forgotten(s, id, save), save.thread, id);
    UntrackedOnly(Dropped(s, id, save), save.thread, id);
  }

  lemma NotedIs(s: State, place: Place, id: RequestId, p: Place)
    ensures var c := Noted(s, place, id);
            && (p in c.drafts <==> p in s.drafts)
            && (p in c.drafts ==> c.drafts[p] == if p == place then id else s.drafts[p])
            && c.inFlight == s.inFlight && c.refreshing == s.refreshing && c.lastId == s.lastId
  {
  }

  lemma RepeatedIs(s: State, save: Save, p: Place)
    ensures var (c, again) := (Repeated(s, save), s.lastId + 1);
            && (p in c.drafts <==> p in s.drafts)
            && (p in c.drafts ==> c.drafts[p] == if p == save.place then again else s.drafts[p])
            && c.inFlight == s.inFlight[again := save.(refreshed := true)] && c.refreshing == s.refreshing
            && c.lastId == again
  {
    hide Noted;
    NotedIs(Sent(s, save.(refreshed := true)), save.place, s.lastId + 1, p);
  }

  // Only a save that a pass sent drops its draft when it fails, and only while that draft knows of it. Otherwise the
  // draft that knows of an answered save forgets it, or knows of the repeated one, and every other stays as it is.
  lemma AnswerDrafts(s: State, e: Event, p: Place)
    requires CanHappen(s, e) && IsAnswer(e)
    ensures var (c, save) := (After(s, e), SaveOf(s, e));
            var knows := p == save.place && Known(s, p) == e.id;
            if Waits(s, e) then c.drafts == s.drafts
            else
              var repeats := e.Refreshed? && e.serializable;
              && (p in c.drafts <==> p in s.drafts && !(Ends(s, e) && save.clearOnFail && knows))
              && (p in c.drafts ==>
                    c.drafts[p] ==
                    if repeats && p == save.place then s.lastId + 1
                    else if knows && !repeats then 0
                    else s.drafts[p])
  {
    hide Done, Failed, Repeated;
    var save := SaveOf(s, e);
    var answered := s.(inFlight := s.inFlight - {e.id});
    var refreshed := s.(refreshing := s.refreshing - {e.id});
    EndedIs(answered, e.id, save, p);
    EndedIs(refreshed, e.id, save, p);
    RepeatedIs(refreshed, save, p);
  }

  lemma AnswerFlies(s: State, e: Event)
    requires CanHappen(s, e) && IsAnswer(e)
    ensures var (c, save) := (After(s, e), SaveOf(s, e));
            var repeats := e.Refreshed? && e.serializable;
            && c.inFlight ==
                 (if !e.Refreshed? then s.inFlight - {e.id}
                  else if repeats then s.inFlight[s.lastId + 1 := save.(refreshed := true)]
                  else s.inFlight)
            && c.refreshing ==
                 (if e.Refreshed? then s.refreshing - {e.id}
                  else if Waits(s, e) then s.refreshing[e.id := save]
                  else s.refreshing)
            && c.lastId == s.lastId + (if repeats then 1 else 0)
  {
    hide Done, Failed, Repeated;
    var save := SaveOf(s, e);
    EndedIs(s.(inFlight := s.inFlight - {e.id}), e.id, save, save.place);
    EndedIs(s.(refreshing := s.refreshing - {e.id}), e.id, save, save.place);
    RepeatedIs(s.(refreshing := s.refreshing - {e.id}), save, save.place);
  }

  // In every run only rich saves wait for a fresh file reference, and each of them for the first time.
  predicate RefreshInv(s: State) {
    && (forall id :: id in s.refreshing ==> s.refreshing[id].rich && !s.refreshing[id].refreshed)
    && (forall id :: id in s.inFlight && s.inFlight[id].refreshed ==> s.inFlight[id].rich)
  }

  lemma {:induction false} RefreshedOnce(events: seq<Event>)
    requires Run(events).Some?
    ensures RefreshInv(Run(events).value)
  {
    hide After, CanHappen, Inv, RefreshInv;
    if events == [] {
      assert RefreshInv(INITIAL) by { NoneRefreshes(); }
    } else {
      var (front, e) := (events[..|events| - 1], events[|events| - 1]);
      RefreshedOnce(front);
      RunKeepsInv(front);
      StepRefreshes(front, Run(front).value, e);
    }
  }

  lemma NoneRefreshes()
    ensures RefreshInv(INITIAL)
  {
  }

  lemma StepRefreshes(events: seq<Event>, s: State, e: Event)
    requires Run(events) == Some(s) && RefreshInv(s) && Inv(s) && CanHappen(s, e)
    ensures RefreshInv(After(s, e))
  {
    hide Run, Inv, After, CanHappen;
    match e {
      case SaveNow(t, serializable, rich) => NowRefreshes(s, e);
      case SaveAll(byTimer, choices) => PassRefreshes(events, s, e);
      case Success(id) => AnswerRefreshes(s, e);
      case Failure(id, fileReference) => AnswerRefreshes(s, e);
      case Refreshed(id, serializable) => AnswerRefreshes(s, e);
      case _ => OthersRefreshNothing(s, e);
    }
  }

  lemma OthersRefreshNothing(s: State, e: Event)
    requires CanHappen(s, e) && (e.Birth? || e.Death? || e.Change? || e.Delay?)
    ensures After(s, e).inFlight == s.inFlight && After(s, e).refreshing == s.refreshing
  {
  }

  lemma AnswerRefreshes(s: State, e: Event)
    requires RefreshInv(s) && CanHappen(s, e) && IsAnswer(e)
    ensures RefreshInv(After(s, e))
  {
    hide After;
    AnswerFlies(s, e);
  }

  lemma NowRefreshes(s: State, e: Event)
    requires RefreshInv(s) && CanHappen(s, e) && e.SaveNow?
    ensures RefreshInv(After(s, e))
  {
    hide Prepared;
    var c := After(s, e);
    PreparedFrame(s, e.thread, false, e.rich);
    forall id | id in c.inFlight && c.inFlight[id].refreshed
      ensures c.inFlight[id].rich
    {
      PreparedSave(s, e.thread, false, e.rich, id);
    }
  }

  lemma PassRefreshes(events: seq<Event>, s: State, e: Event)
    requires Run(events) == Some(s) && RefreshInv(s) && CanHappen(s, e) && e.SaveAll?
    ensures RefreshInv(After(s, e))
  {
    hide Run, After;
    var c := After(s, e);
    PassFlies(events, e.byTimer, e.choices, 0);
    forall id | id in c.inFlight && c.inFlight[id].refreshed
      ensures c.inFlight[id].rich
    {
      PassFlies(events, e.byTimer, e.choices, id);
      if id > s.lastId {
        var t :| IsSent(s, t, e.choices) && t in c.table && c.table[t] == id;
        PassIs(events, e.byTimer, e.choices, t);
      }
    }
  }
}
