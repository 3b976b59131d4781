/** Saving drafts to the cloud, with the table of tracked saves and the drafts' request ids updated in place. */
module DraftsCode {
  import opened FlatMap
  import opened DraftsSpec

  class DraftSaver {
    var table: map<Thread, RequestId>
    var drafts: map<Place, RequestId>
    var timer: bool
    var inFlight: map<RequestId, Save>
    var refreshing: map<RequestId, Save>
    var cancelled: set<RequestId>
    var lastId: RequestId
    var finished: nat
    var placeOf: map<Thread, Place>
    var alive: set<Thread>

    function Value(): State
      reads this
    {
      State(table, drafts, timer, inFlight, refreshing, cancelled, lastId, finished, placeOf, alive)
    }

    constructor ()
      ensures Value() == INITIAL
    {
      table, drafts, timer, inFlight, refreshing := map[], map[], false, map[], map[];
      cancelled, lastId, finished, placeOf, alive := {}, 0, 0, map[], {};
    }

    method SaveDraftToCloudDelayed(t: Thread, skip: bool)
      modifies `table, `timer
      ensures Value() == Delayed(old(Value()), t, skip)
    {
      if skip {
        return;
      }
      if t !in table {
        table := table[t := 0];
      }
      timer := true;
    }

    method Cancel(id: RequestId)
      modifies `inFlight, `cancelled
      ensures inFlight == old(inFlight) - {id}
      ensures cancelled == if id in old(inFlight) then old(cancelled) + {id} else old(cancelled)
    {
      if id in inFlight {
        cancelled := cancelled + {id};
      }
      inFlight := inFlight - {id};
    }

    method Send(save: Save) returns (id: RequestId)
      modifies `inFlight, `lastId
      ensures id == lastId && Value() == Sent(old(Value()), save)
    {
      lastId := lastId + 1;
      id := lastId;
      inFlight := inFlight[id := save];
    }

    method CancelCurrent(place: Place)
      modifies `drafts, `inFlight, `cancelled
      ensures Value() == Cancelled(old(Value()), place)
    {
      if place in drafts {
        if drafts[place] != 0 {
          var id := drafts[place];
          drafts := drafts[place := 0];
          Cancel(id);
        }
      }
    }

    method NoteId(place: Place, id: RequestId)
      modifies `drafts
      ensures Value() == Noted(old(Value()), place, id)
    {
      if place in drafts {
        drafts := drafts[place := id];
      }
    }

    // Zero means that the draft could not be serialized, and that nothing was cancelled or sent.
    method SavePreparedDraftToCloud(t: Thread, clearOnFail: bool, serializable: bool, rich: bool)
        returns (id: RequestId)
      requires t in placeOf
      modifies this
      ensures !serializable ==> id == 0 && Value() == old(Value())
      ensures serializable ==> id == lastId > 0 && Value() == Prepared(old(Value()), t, clearOnFail, rich)
    {
      hide Cancelled, Noted;
      if !serializable {
        return 0;
      }
      var place := placeOf[t];
      CancelCurrent(place);
      id := Send(Save(t, place, clearOnFail, rich, false));
      NoteId(place, id);
    }

    method SaveDraftToCloud(t: Thread, serializable: bool, rich: bool) returns (id: RequestId)
      requires t in placeOf
      modifies this
      ensures Value() == Saved(old(Value()), t, serializable, rich)
      ensures id == if serializable then lastId else 0
    {
      hide Prepared;
      id := SavePreparedDraftToCloud(t, false, serializable, rich);
      if id == 0 {
        return 0;
      }
      table := table[t := id];
    }

    method CreateCloudDraft(place: Place, anew: bool)
      modifies `drafts
      ensures Value() == Created(old(Value()), place, anew)
    {
      if anew || place !in drafts {
        drafts := drafts[place := 0];
      }
    }

    method SaveEntry(t: Thread, choices: Choices)
      requires t in table && (t in alive ==> t in placeOf)
      modifies this
      ensures Value() == EntrySaved(old(Value()), t, choices)
    {
      hide Prepared;
      if t !in alive {
        table := table - {t};
        return;
      } else if table[t] != 0 {
        return;
      } else if t in choices.skip {
        table := table - {t};
        return;
      }
      CreateCloudDraft(placeOf[t], t in choices.anew);
      var id := SavePreparedDraftToCloud(t, true, t !in choices.broken, t in choices.rich);
      table := table[t := id];
      if table[t] == 0 {
        table := table - {t};
      }
      DroppedEntry(old(Value()), t, choices);
    }

    method SaveDraftsToCloud(choices: Choices)
      modifies this
      ensures Value() == AllSaved(old(Value()), choices)
    {
      hide Ascending, EntrySaved;
      var threads := Ascending(table.Keys);
      for i := 0 to |threads|
        invariant Value() == EntriesSaved(old(Value()), threads[..i], choices)
      {
        assert threads[..i + 1][..i] == threads[..i];
        if threads[i] in table && (threads[i] in alive ==> threads[i] in placeOf) {
          SaveEntry(threads[i], choices);
        }
      }
      assert threads[..|threads|] == threads;
    }

    // Whether quitting has to wait: the table is looked at again after the pass.
    method IsQuitPrevent(choices: Choices) returns (prevent: bool)
      modifies this
      ensures Value() == AllSaved(old(Value()), choices)
      ensures prevent <==> table != map[]
    {
      hide EntriesSaved;
      if table == map[] {
        NothingToSave(Value(), choices);
        return false;
      }
      SaveDraftsToCloud(choices);
      prevent := table != map[];
    }

    method CheckQuitPreventFinished()
      modifies `finished
      ensures finished == if table == map[] then old(finished) + 1 else old(finished)
    {
      if table == map[] {
        finished := finished + 1;
      }
    }

    method Untrack(t: Thread, id: RequestId)
      modifies `table, `finished
      ensures Value() == Untracked(old(Value()), t, id)
    {
      if t in table && table[t] == id {
        table := table - {t};
        CheckQuitPreventFinished();
      }
    }

    method SaveDone(id: RequestId, save: Save)
      modifies this
      ensures Value() == Done(old(Value()), id, save)
    {
      hide Untracked;
      if save.place in drafts && drafts[save.place] == id {
        drafts := drafts[save.place := 0];
      }
      Untrack(save.thread, id);
    }

    method FailCleanup(id: RequestId, save: Save)
      modifies this
      ensures Value() == Failed(old(Value()), id, save)
    {
      hide Untracked;
      if save.place in drafts && drafts[save.place] == id {
        if save.clearOnFail {
          drafts := drafts - {save.place};
        } else {
          drafts := drafts[save.place := 0];
        }
      }
      Untrack(save.thread, id);
    }

    method Repeat(save: Save)
      modifies this
      ensures Value() == Repeated(old(Value()), save)
    {
      hide Noted;
      var id := Send(save.(refreshed := true));
      NoteId(save.place, id);
      if save.thread in table {
        table := table[save.thread := id];
      }
    }

    method SaveFailed(id: RequestId, fileReference: bool)
      requires id in inFlight
      modifies this
      ensures Value() == After(old(Value()), Failure(id, fileReference))
    {
      hide Failed;
      var save := inFlight[id];
      inFlight := inFlight - {id};
      if !save.refreshed && fileReference && save.rich {
        refreshing := refreshing[id := save];
        return;
      }
      FailCleanup(id, save);
    }

    method FileReferenceRefreshed(id: RequestId, serializable: bool)
      requires id in refreshing
      modifies this
      ensures Value() == After(old(Value()), Refreshed(id, serializable))
    {
      hide Failed, Repeated;
      var save := refreshing[id];
      refreshing := refreshing - {id};
      if serializable {
        Repeat(save);
      } else {
        FailCleanup(id, save);
      }
    }
  }

  lemma DroppedEntry(s: State, t: Thread, choices: Choices)
    requires t in s.table && s.table[t] == 0
    ensures s.table[t := 0] - {t} == s.table - {t}
  {
  }

  lemma NothingToSave(s: State, choices: Choices)
    requires s.table == map[]
    ensures AllSaved(s, choices) == s
  {
    assert s.table.Keys == {};
    assert Ascending(s.table.Keys) == [];
  }
}
