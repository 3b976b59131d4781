/** The loads of the chats lists, as the requests and their handlers update them in place. */
module DialogsCode {
  import opened Wrappers
  import opened FlatMap
  import opened DialogsSpec
  import opened DialogsTheorems

  class DialogsLoader {
    var main: Option<Load>
    var folders: map<Id, Load>
    var slice: int
    var till: int
    var mayBlock: bool
    var blocked: bool
    var lists: map<RequestId, Folder>
    var pinned: map<RequestId, Folder>
    var lastId: RequestId
    var begun: multiset<Folder>
    var done: multiset<Folder>
    var crashed: bool

    function Value(): State
      reads this
    {
      State(main, folders, slice, till, mayBlock, blocked, lists, pinned, lastId, begun, done, crashed)
    }

    constructor ()
      ensures Value() == INITIAL
    {
      main, folders, slice, till, mayBlock, blocked := Some(NEW_LOAD), map[], DEFAULT_SLICE, 0, false, false;
      lists, pinned, lastId, begun, done, crashed := map[], map[], 0, multiset{None}, multiset{}, false;
    }

    function LoadState(f: Folder): (load: Option<Load>)
      reads this
      ensures load == LoadOf(Value(), f)
    {
      match f
      case None => main
      case Some(folder) => if folder in folders then Some(folders[folder]) else None
    }

    method SetLoad(f: Folder, load: Load)
      requires LoadState(f).Some?
      modifies `main, `folders
      ensures Value() == WithLoad(old(Value()), f, load)
    {
      match f
      case None => main := Some(load);
      case Some(folder) => folders := folders[folder := load];
    }

    method RefreshDialogsLoadBlocked()
      modifies `mayBlock, `blocked
      ensures Value() == Refreshed(old(Value()))
    {
      mayBlock := main.Some? && !main.value.listReceived && till > 0;
      blocked := main.Some? && !main.value.listReceived && main.value.requestId == 0 && till > 0
                 && main.value.offsetDate > 0 && main.value.offsetDate <= till;
    }

    method SendPinned(f: Folder) returns (id: RequestId)
      modifies `pinned, `lastId
      ensures id == old(lastId) + 1 && Value() == old(Value()).(lastId := id, pinned := old(pinned)[id := f])
    {
      lastId := lastId + 1;
      id := lastId;
      pinned := pinned[id := f];
    }

    method SendList(f: Folder) returns (id: RequestId)
      modifies `lists, `lastId
      ensures id == old(lastId) + 1 && Value() == old(Value()).(lastId := id, lists := old(lists)[id := f])
    {
      lastId := lastId + 1;
      id := lastId;
      lists := lists[id := f];
    }

    method RequestPinnedDialogs(f: Folder)
      modifies this
      ensures Value() == PinnedRequested(old(Value()), f)
    {
      var state := LoadState(f);
      if state.None? || state.value.pinnedReceived || state.value.pinnedRequestId != 0 {
        return;
      }
      var id := SendPinned(f);
      SetLoad(f, state.value.(pinnedRequestId := id));
    }

    method RequestMoreDialogs(f: Folder)
      modifies this
      ensures Value() == MoreRequested(old(Value()), f)
    {
      hide PinnedRequested, Refreshed;
      var state := LoadState(f);
      if state.None? {
        return;
      } else if state.value.requestId != 0 {
        return;
      } else if blocked {
        return;
      }
      SendListFor(f, state.value);
      if !state.value.pinnedReceived {
        RequestPinnedDialogs(f);
      }
      if f == None {
        RefreshDialogsLoadBlocked();
      }
    }

    method SendListFor(f: Folder, load: Load)
      requires LoadState(f) == Some(load)
      modifies this
      ensures Value() == ListRequested(old(Value()), f, load)
    {
      var id := SendList(f);
      SetLoad(f, load.(requestId := id));
    }

    method RequestDialogs(f: Folder)
      modifies this
      ensures Value() == Requested(old(Value()), f)
    {
      hide MoreRequested;
      if f.Some? && f.value !in folders {
        folders := folders[f.value := NEW_LOAD];
        begun := begun + multiset{f};
      }
      RequestMoreDialogs(f);
    }

    method DialogsLoadFinish(f: Folder)
      modifies this
      ensures Value() == Finished(old(Value()), f)
    {
      var state := LoadState(f);
      if state.None? || !state.value.listReceived || !state.value.pinnedReceived {
        return;
      }
      match f {
        case None => main := None;
        case Some(folder) => folders := folders - {folder};
      }
      done := done + multiset{f};
    }

    method ReceiveList(f: Folder)
      modifies this
      ensures Value() == ListReceived(old(Value()), f)
    {
      hide Finished, WithLoad;
      var state := LoadState(f);
      if state.Some? {
        SetLoad(f, state.value.(listReceived := true));
        DialogsLoadFinish(f);
      }
    }

    method UpdateDialogsOffset(f: Folder, lastDate: int)
      modifies this
      ensures Value() == OffsetUpdated(old(Value()), f, lastDate)
    {
      hide ListReceived, WithLoad;
      var state := LoadState(f);
      if state.Some? {
        if lastDate != 0 {
          SetLoad(f, state.value.(offsetDate := lastDate, requestId := 0));
        } else {
          ReceiveList(f);
        }
      }
    }

    method RequestMoreDialogsIfNeeded(exceptions: bool, archive: Option<Id>)
      modifies this
      ensures Value() == MoreIfNeeded(old(Value()), exceptions, archive)
    {
      hide Requested, MoreRequested;
      if exceptions {
        return;
      } else if main.Some? && !main.value.listReceived {
        if main.value.requestId != 0 {
          return;
        }
        RequestDialogs(None);
      } else if archive.Some? {
        RequestMoreDialogs(archive);
      }
    }

    method ListDone(f: Folder, answer: Answer, exceptions: bool, archive: Option<Id>)
      modifies this
      ensures Value() == ListAnswered(old(Value()), f, answer, exceptions, archive)
    {
      hide ListReceived, OffsetUpdated, Refreshed, MoreIfNeeded;
      match answer {
        case NotModified =>
        case Dialogs => ReceiveList(f);
        case Slice(lastDate) => UpdateDialogsOffset(f, lastDate);
      }
      if f == None && (main.None? || !main.value.listReceived) {
        RefreshDialogsLoadBlocked();
      }
      RequestMoreDialogsIfNeeded(exceptions, archive);
    }

    // The load of a failed list request is dereferenced without a check: the invariant says that it is there.
    method ListFail(id: RequestId)
      requires Inv(Value()) && id in lists
      modifies this
      ensures Value() == After(old(Value()), ListFailure(id))
    {
      hide Inv;
      ListTaken(Value(), id);
      var f := lists[id];
      lists := lists - {id};
      var state := LoadState(f);
      SetLoad(f, state.value.(requestId := 0));
    }

    method PinnedFinish(f: Folder)
      modifies this
      ensures Value() == PinnedAnswered(old(Value()), f)
    {
      hide Finished, WithLoad;
      var state := LoadState(f);
      if state.Some? {
        SetLoad(f, state.value.(pinnedRequestId := 0, pinnedReceived := true));
        DialogsLoadFinish(f);
      }
    }

    method ChooseTimeSlice(seconds: int, now: int)
      modifies this
      ensures Value() == SliceChosen(old(Value()), seconds, now)
    {
      slice := seconds;
      till := 0;
      if seconds != 0 && now - seconds > 0 {
        till := now - seconds;
      }
      RefreshDialogsLoadBlocked();
    }

    method RequestMoreBlockedByDateDialogs(now: int)
      modifies this
      ensures Value() == BlockedRequested(old(Value()), now)
    {
      hide Requested, Refreshed;
      if main.None? {
        return;
      }
      till := if main.value.offsetDate != 0 then main.value.offsetDate - slice else now - slice;
      RefreshDialogsLoadBlocked();
      RequestDialogs(None);
    }
  }
}
