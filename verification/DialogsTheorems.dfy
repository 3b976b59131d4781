/** What holds of the loads in every run of requests, answers and failures. */
module DialogsTheorems {
  import opened Wrappers
  import opened FlatMap
  import opened DialogsSpec

  lemma LoadOfOther(s: State, f: Folder, load: Load, g: Folder)
    ensures LoadOf(WithLoad(s, f, load), g) == if g == f then Some(load) else LoadOf(s, g)
    ensures LoadOf(WithoutLoad(s, f), g) == if g == f then None else LoadOf(s, g)
  {
  }

  // An outstanding list request is the one that its load holds, and the list is not received yet.
  predicate ListInv(s: State, id: RequestId, f: Folder) {
    0 < id <= s.lastId && LoadOf(s, f).Some? && LoadOf(s, f).value.requestId == id && !LoadOf(s, f).value.listReceived
  }

  predicate PinnedInv(s: State, id: RequestId, f: Folder) {
    0 < id <= s.lastId && LoadOf(s, f).Some? && LoadOf(s, f).value.pinnedRequestId == id
      && !LoadOf(s, f).value.pinnedReceived
  }

  predicate LoadInv(s: State, f: Folder, load: Load) {
    && (load.listReceived ==> load.requestId != 0)
    && (load.pinnedRequestId != 0 ==> load.pinnedRequestId in s.pinned && s.pinned[load.pinnedRequestId] == f)
    && load.requestId <= s.lastId
  }

  // Every load that began is either still there or was announced as done.
  predicate CountInv(s: State, f: Folder) {
    s.begun[f] == s.done[f] + if LoadOf(s, f).Some? then 1 else 0
  }

  ghost predicate Core(s: State) {
    && (forall id :: id in s.lists ==> ListInv(s, id, s.lists[id]))
    && (forall id :: id in s.pinned ==> PinnedInv(s, id, s.pinned[id]))
    && (forall f: Folder :: LoadOf(s, f).Some? ==> LoadInv(s, f, LoadOf(s, f).value))
    && (forall f: Folder :: CountInv(s, f))
    && !s.crashed
  }

  predicate IsReady(load: Load) {
    load.listReceived && load.pinnedReceived
  }

  // No load with both answers is kept.
  ghost predicate Inv(s: State) {
    Core(s) && forall f: Folder :: LoadOf(s, f).Some? ==> !IsReady(LoadOf(s, f).value)
  }

  lemma SameLoads(s: State, t: State)
    requires Inv(s) && forall f: Folder :: LoadOf(t, f) == LoadOf(s, f)
    requires t.lists == s.lists && t.pinned == s.pinned && t.lastId == s.lastId
    requires t.begun == s.begun && t.done == s.done && !t.crashed
    ensures Inv(t)
  {
    hide LoadOf;
    forall id | id in t.lists
      ensures ListInv(t, id, t.lists[id])
    {
      assert ListInv(s, id, s.lists[id]);
    }
    forall id | id in t.pinned
      ensures PinnedInv(t, id, t.pinned[id])
    {
      assert PinnedInv(s, id, s.pinned[id]);
    }
    forall f: Folder
      ensures CountInv(t, f)
      ensures LoadOf(t, f).Some? ==> LoadInv(t, f, LoadOf(t, f).value)
    {
      assert CountInv(s, f);
      assert LoadOf(s, f).Some? ==> LoadInv(s, f, LoadOf(s, f).value);
    }
  }

  lemma RefreshKeepsInv(s: State)
    requires Inv(s)
    ensures Inv(Refreshed(s))
  {
    assert forall f: Folder :: LoadOf(Refreshed(s), f) == LoadOf(s, f);
    hide Inv;
    SameLoads(s, Refreshed(s));
  }

  lemma PinnedRequestKeepsInv(s: State, f: Folder)
    requires Inv(s)
    ensures Inv(PinnedRequested(s, f))
  {
    var t := PinnedRequested(s, f);
    if t != s {
      var load := LoadOf(s, f).value;
      var id := s.lastId + 1;
      assert forall g: Folder ::
          LoadOf(t, g) == if g == f then Some(load.(pinnedRequestId := id)) else LoadOf(s, g) by {
        forall g: Folder
          ensures LoadOf(t, g) == if g == f then Some(load.(pinnedRequestId := id)) else LoadOf(s, g)
        {
          LoadOfOther(s, f, load.(pinnedRequestId := id), g);
        }
      }
      InvAfterPinned(s, t, f, load);
    }
  }

  lemma InvAfterPinned(s: State, t: State, f: Folder, load: Load)
    requires Inv(s) && LoadOf(s, f) == Some(load) && !load.pinnedReceived && load.pinnedRequestId == 0
    requires forall g: Folder ::
               LoadOf(t, g) == if g == f then Some(load.(pinnedRequestId := s.lastId + 1)) else LoadOf(s, g)
    requires t.lists == s.lists && t.pinned == s.pinned[s.lastId + 1 := f] && t.lastId == s.lastId + 1
    requires t.begun == s.begun && t.done == s.done && !t.crashed
    ensures Inv(t)
  {
    hide LoadOf;
    forall id | id in t.lists
      ensures ListInv(t, id, t.lists[id])
    {
      assert ListInv(s, id, s.lists[id]);
    }
    forall id | id in t.pinned
      ensures PinnedInv(t, id, t.pinned[id])
    {
      assert id in s.pinned ==> PinnedInv(s, id, s.pinned[id]);
    }
    forall g: Folder
      ensures CountInv(t, g)
      ensures LoadOf(t, g).Some? ==> LoadInv(t, g, LoadOf(t, g).value)
    {
      assert CountInv(s, g);
      assert LoadOf(s, g).Some? ==> LoadInv(s, g, LoadOf(s, g).value);
      NotYetUsed(s, s.lastId + 1);
    }
  }

  lemma NotYetUsed(s: State, id: RequestId)
    requires Inv(s) && id > s.lastId
    ensures id !in s.lists && id !in s.pinned
  {
    assert id in s.lists ==> ListInv(s, id, s.lists[id]);
    assert id in s.pinned ==> PinnedInv(s, id, s.pinned[id]);
  }

  lemma ListRequestKeepsInv(s: State, f: Folder, load: Load)
    requires Inv(s) && LoadOf(s, f) == Some(load) && load.requestId == 0
    ensures Inv(ListRequested(s, f, load))
  {
    hide LoadOf, WithLoad;
    var t := ListRequested(s, f, load);
    var id := s.lastId + 1;
    assert LoadInv(s, f, load);
    ListRequestFrame(s, f, load);
    forall other | other in t.lists
      ensures ListInv(t, other, t.lists[other])
    {
      assert other in s.lists ==> ListInv(s, other, s.lists[other]);
    }
    forall other | other in t.pinned
      ensures PinnedInv(t, other, t.pinned[other])
    {
      assert PinnedInv(s, other, s.pinned[other]);
    }
    forall g: Folder
      ensures CountInv(t, g)
      ensures LoadOf(t, g).Some? ==> LoadInv(t, g, LoadOf(t, g).value)
    {
      assert CountInv(s, g);
      assert LoadOf(s, g).Some? ==> LoadInv(s, g, LoadOf(s, g).value);
    }
  }

  lemma ListRequestFrame(s: State, f: Folder, load: Load)
    ensures var t := ListRequested(s, f, load);
            && t.lists == s.lists[s.lastId + 1 := f] && t.pinned == s.pinned && t.lastId == s.lastId + 1
            && t.begun == s.begun && t.done == s.done && t.crashed == s.crashed
            && forall g: Folder ::
                 LoadOf(t, g) == if g == f then Some(load.(requestId := s.lastId + 1)) else LoadOf(s, g)
  {
    forall g: Folder
      ensures LoadOf(ListRequested(s, f, load), g) ==
              if g == f then Some(load.(requestId := s.lastId + 1)) else LoadOf(s, g)
    {
      LoadOfOther(s, f, load.(requestId := s.lastId + 1), g);
    }
  }

  lemma MoreRequestKeepsInv(s: State, f: Folder)
    requires Inv(s)
    ensures Inv(MoreRequested(s, f))
  {
    hide Inv, ListRequested, PinnedRequested, Refreshed, LoadOf;
    if MayAsk(s, f) {
      var load := LoadOf(s, f).value;
      ListRequestKeepsInv(s, f, load);
      var listed := ListRequested(s, f, load);
      PinnedRequestKeepsInv(listed, f);
      RefreshKeepsInv(if load.pinnedReceived then listed else PinnedRequested(listed, f));
    }
  }

  lemma BeginKeepsInv(s: State, f: Folder)
    requires Inv(s)
    ensures Inv(Begun(s, f))
  {
    hide LoadOf, WithLoad;
    var t := Begun(s, f);
    if t != s {
      forall g: Folder
        ensures LoadOf(t, g) == if g == f then Some(NEW_LOAD) else LoadOf(s, g)
      {
        BeginFrame(s, f, g);
      }
      BeginFrame(s, f, f);
      forall id | id in t.lists
        ensures ListInv(t, id, t.lists[id])
      {
        assert ListInv(s, id, s.lists[id]);
      }
      forall id | id in t.pinned
        ensures PinnedInv(t, id, t.pinned[id])
      {
        assert PinnedInv(s, id, s.pinned[id]);
      }
      forall g: Folder
        ensures CountInv(t, g)
        ensures LoadOf(t, g).Some? ==> LoadInv(t, g, LoadOf(t, g).value)
      {
        assert CountInv(s, g);
        assert LoadOf(s, g).Some? ==> LoadInv(s, g, LoadOf(s, g).value);
      }
    }
  }

  lemma BeginFrame(s: State, f: Folder, g: Folder)
    requires f.Some? && LoadOf(s, f).None?
    ensures var t := Begun(s, f);
            && LoadOf(t, g) == (if g == f then Some(NEW_LOAD) else LoadOf(s, g))
            && t.lists == s.lists && t.pinned == s.pinned && t.lastId == s.lastId
            && t.begun == s.begun + multiset{f} && t.done == s.done && t.crashed == s.crashed
  {
    LoadOfOther(s, f, NEW_LOAD, g);
  }

  lemma RequestKeepsInv(s: State, f: Folder)
    requires Inv(s)
    ensures Inv(Requested(s, f))
  {
    hide Inv, Begun, MoreRequested;
    BeginKeepsInv(s, f);
    MoreRequestKeepsInv(Begun(s, f), f);
  }

  // Answers
  predicate NoList(s: State, f: Folder) {
    forall id :: id in s.lists ==> s.lists[id] != f
  }

  predicate NoPinned(s: State, f: Folder) {
    forall id :: id in s.pinned ==> s.pinned[id] != f
  }

  lemma SetLoadKeepsCore(s: State, f: Folder, load: Load)
    requires Core(s) && LoadOf(s, f).Some? && LoadInv(s, f, load)
    requires NoList(s, f) || (load.requestId == LoadOf(s, f).value.requestId
                              && load.listReceived == LoadOf(s, f).value.listReceived)
    requires NoPinned(s, f)
             || (load.pinnedRequestId == LoadOf(s, f).value.pinnedRequestId
                 && load.pinnedReceived == LoadOf(s, f).value.pinnedReceived)
    ensures Core(WithLoad(s, f, load))
  {
    var t := WithLoad(s, f, load);
    SetLoadFrame(s, f, load);
    hide LoadOf, WithLoad;
    forall id | id in t.lists
      ensures ListInv(t, id, t.lists[id])
    {
      assert ListInv(s, id, s.lists[id]);
    }
    forall id | id in t.pinned
      ensures PinnedInv(t, id, t.pinned[id])
    {
      assert PinnedInv(s, id, s.pinned[id]);
    }
    forall g: Folder
      ensures CountInv(t, g)
      ensures LoadOf(t, g).Some? ==> LoadInv(t, g, LoadOf(t, g).value)
    {
      assert CountInv(s, g);
      assert LoadOf(s, g).Some? ==> LoadInv(s, g, LoadOf(s, g).value);
    }
  }

  lemma SetLoadFrame(s: State, f: Folder, load: Load)
    ensures var t := WithLoad(s, f, load);
            && t.lists == s.lists && t.pinned == s.pinned && t.lastId == s.lastId
            && t.begun == s.begun && t.done == s.done && t.crashed == s.crashed
            && forall g: Folder :: LoadOf(t, g) == if g == f then Some(load) else LoadOf(s, g)
  {
    forall g: Folder
      ensures LoadOf(WithLoad(s, f, load), g) == if g == f then Some(load) else LoadOf(s, g)
    {
      LoadOfOther(s, f, load, g);
    }
  }

  lemma FinishFrame(s: State, f: Folder, g: Folder)
    ensures var t := Finished(s, f);
            var ready := LoadOf(s, f).Some? && IsReady(LoadOf(s, f).value);
            && t.lists == s.lists && t.pinned == s.pinned && t.lastId == s.lastId && t.begun == s.begun
               && t.crashed == s.crashed
            && t.done == (if ready then s.done + multiset{f} else s.done)
            && LoadOf(t, g) == if ready && g == f then None else LoadOf(s, g)
  {
    hide LoadOf, WithoutLoad;
    LoadOfOther(s, f, NEW_LOAD, g);
    WithoutLoadFrame(s, f);
    DoneIsApart(WithoutLoad(s, f), s.done + multiset{f}, g);
  }

  lemma DoneIsApart(s: State, done: multiset<Folder>, g: Folder)
    ensures LoadOf(s.(done := done), g) == LoadOf(s, g)
  {
  }

  lemma WithoutLoadFrame(s: State, f: Folder)
    ensures var t := WithoutLoad(s, f);
            && t.lists == s.lists && t.pinned == s.pinned && t.lastId == s.lastId
            && t.begun == s.begun && t.done == s.done && t.crashed == s.crashed
  {
  }

  lemma FinishKeepsInv(s: State, f: Folder)
    requires Core(s) && NoList(s, f) && NoPinned(s, f)
    requires forall g: Folder :: g != f && LoadOf(s, g).Some? ==> !IsReady(LoadOf(s, g).value)
    ensures Inv(Finished(s, f))
  {
    hide LoadOf, Finished, IsReady;
    var t := Finished(s, f);
    FinishFrame(s, f, f);
    forall id | id in t.lists
      ensures ListInv(t, id, t.lists[id])
    {
      FinishFrame(s, f, s.lists[id]);
      assert ListInv(s, id, s.lists[id]);
    }
    forall id | id in t.pinned
      ensures PinnedInv(t, id, t.pinned[id])
    {
      FinishFrame(s, f, s.pinned[id]);
      assert PinnedInv(s, id, s.pinned[id]);
    }
    forall g: Folder
      ensures CountInv(t, g)
      ensures LoadOf(t, g).Some? ==> LoadInv(t, g, LoadOf(t, g).value) && !IsReady(LoadOf(t, g).value)
    {
      FinishFrame(s, f, g);
      assert CountInv(s, g);
      assert LoadOf(s, g).Some? ==> LoadInv(s, g, LoadOf(s, g).value);
    }
  }

  // Unless both answers are there, nothing is finished.
  lemma NotFinished(s: State, f: Folder)
    requires LoadOf(s, f).Some? ==> !IsReady(LoadOf(s, f).value)
    ensures Finished(s, f) == s
  {
  }

  lemma SetLoadKeepsOthers(s: State, f: Folder, load: Load)
    requires Inv(s)
    ensures forall g: Folder :: g != f && LoadOf(WithLoad(s, f, load), g).Some? ==>
                                  !IsReady(LoadOf(WithLoad(s, f, load), g).value)
  {
    SetLoadFrame(s, f, load);
    hide LoadOf, WithLoad, IsReady;
  }

  lemma ListReceivedKeepsInv(s: State, f: Folder)
    requires Inv(s) && NoList(s, f) && (LoadOf(s, f).Some? ==> LoadOf(s, f).value.requestId != 0)
    ensures Inv(ListReceived(s, f))
  {
    hide LoadOf, WithLoad, Finished, LoadInv;
    if LoadOf(s, f).Some? {
      var load := LoadOf(s, f).value.(listReceived := true);
      ReceivedIsValid(s, f);
      SetLoadKeepsCore(s, f, load);
      SetLoadKeepsOthers(s, f, load);
      SetLoadFrame(s, f, load);
      var t := WithLoad(s, f, load);
      if load.pinnedReceived {
        ReceivedHasNoPinned(s, f);
        FinishKeepsInv(t, f);
      } else {
        NotFinished(t, f);
      }
    }
  }

  lemma ReceivedIsValid(s: State, f: Folder)
    requires Inv(s) && LoadOf(s, f).Some?
    ensures var load := LoadOf(s, f).value;
            && (load.requestId != 0 ==> LoadInv(s, f, load.(listReceived := true)))
            && (NoList(s, f) && !load.listReceived ==> LoadInv(s, f, load.(requestId := 0)))
            && LoadInv(s, f, load.(pinnedRequestId := 0, pinnedReceived := true))
  {
    hide LoadOf;
    assert LoadInv(s, f, LoadOf(s, f).value);
  }

  lemma ReceivedHasNoPinned(s: State, f: Folder)
    requires Inv(s) && LoadOf(s, f).Some? && LoadOf(s, f).value.pinnedReceived
    ensures NoPinned(s, f)
  {
    hide LoadOf;
    forall id | id in s.pinned
      ensures s.pinned[id] != f
    {
      assert PinnedInv(s, id, s.pinned[id]);
    }
  }

  lemma ReceivedHasNoList(s: State, f: Folder)
    requires Inv(s) && LoadOf(s, f).Some? && LoadOf(s, f).value.listReceived
    ensures NoList(s, f)
  {
    hide LoadOf;
    forall id | id in s.lists
      ensures s.lists[id] != f
    {
      assert ListInv(s, id, s.lists[id]);
    }
  }

  lemma DateKeepsInv(s: State, f: Folder, lastDate: int)
    requires Inv(s) && NoList(s, f) && LoadOf(s, f).Some? && !LoadOf(s, f).value.listReceived
    ensures Inv(WithLoad(s, f, LoadOf(s, f).value.(offsetDate := lastDate, requestId := 0)))
  {
    hide LoadOf, WithLoad;
    var load := LoadOf(s, f).value.(offsetDate := lastDate, requestId := 0);
    ReceivedIsValid(s, f);
    SetLoadKeepsCore(s, f, load);
    SetLoadKeepsOthers(s, f, load);
    SetLoadFrame(s, f, load);
  }

  // The state in which a list request was just answered
  lemma ListTaken(s: State, id: RequestId)
    requires Inv(s) && id in s.lists
    ensures var (t, f) := (s.(lists := s.lists - {id}), s.lists[id]);
            && Inv(t) && NoList(t, f)
            && LoadOf(t, f).Some? && LoadOf(t, f).value.requestId == id != 0 && !LoadOf(t, f).value.listReceived
  {
    var t := s.(lists := s.lists - {id});
    assert forall f: Folder :: LoadOf(t, f) == LoadOf(s, f);
    hide LoadOf;
    assert ListInv(s, id, s.lists[id]);
    forall other | other in t.lists
      ensures ListInv(t, other, t.lists[other]) && t.lists[other] != s.lists[id]
    {
      assert ListInv(s, other, s.lists[other]);
    }
    forall other | other in t.pinned
      ensures PinnedInv(t, other, t.pinned[other])
    {
      assert PinnedInv(s, other, s.pinned[other]);
    }
    forall g: Folder
      ensures CountInv(t, g)
      ensures LoadOf(t, g).Some? ==> LoadInv(t, g, LoadOf(t, g).value)
    {
      assert CountInv(s, g);
      assert LoadOf(s, g).Some? ==> LoadInv(s, g, LoadOf(s, g).value);
    }
  }

  lemma MoreIfNeededKeepsInv(s: State, exceptions: bool, archive: Option<Id>)
    requires Inv(s)
    ensures Inv(MoreIfNeeded(s, exceptions, archive))
  {
    hide Inv, Requested, MoreRequested;
    RequestKeepsInv(s, None);
    if archive.Some? {
      MoreRequestKeepsInv(s, archive);
    }
  }

  lemma ListAnswerKeepsInv(s: State, id: RequestId, answer: Answer, exceptions: bool, archive: Option<Id>)
    requires Inv(s) && id in s.lists
    ensures Inv(After(s, ListAnswer(id, answer, exceptions, archive)))
  {
    hide Inv, LoadOf, ListReceived, WithLoad, Refreshed, MoreIfNeeded;
    ListTaken(s, id);
    var (t, f) := (s.(lists := s.lists - {id}), s.lists[id]);
    ListReceivedKeepsInv(t, f);
    if answer.Slice? {
      DateKeepsInv(t, f, answer.lastDate);
    }
    var u := match answer
      case NotModified => t
      case Dialogs => ListReceived(t, f)
      case Slice(lastDate) => OffsetUpdated(t, f, lastDate);
    RefreshKeepsInv(u);
    MoreIfNeededKeepsInv(u, exceptions, archive);
    MoreIfNeededKeepsInv(Refreshed(u), exceptions, archive);
  }

  lemma ListFailureKeepsInv(s: State, id: RequestId)
    requires Inv(s) && id in s.lists
    ensures Inv(After(s, ListFailure(id)))
  {
    hide Inv, LoadOf, WithLoad;
    ListTaken(s, id);
    var (t, f) := (s.(lists := s.lists - {id}), s.lists[id]);
    DateKeepsInv(t, f, LoadOf(t, f).value.offsetDate);
  }

  lemma PinnedTaken(s: State, id: RequestId)
    requires Inv(s) && id in s.pinned
    ensures var (t, f) := (s.(pinned := s.pinned - {id}), s.pinned[id]);
            && LoadOf(t, f).Some? && NoPinned(t, f)
            && Inv(WithLoad(t, f, LoadOf(t, f).value.(pinnedRequestId := 0)))
  {
    var (t, f) := (s.(pinned := s.pinned - {id}), s.pinned[id]);
    assert forall g: Folder :: LoadOf(t, g) == LoadOf(s, g);
    assert PinnedInv(s, id, f);
    var load := LoadOf(t, f).value.(pinnedRequestId := 0);
    SetLoadFrame(t, f, load);
    var u := WithLoad(t, f, load);
    hide LoadOf, WithLoad;
    forall other | other in u.lists
      ensures ListInv(u, other, u.lists[other])
    {
      assert ListInv(s, other, s.lists[other]);
    }
    forall other | other in u.pinned
      ensures PinnedInv(u, other, u.pinned[other]) && u.pinned[other] != f
    {
      assert PinnedInv(s, other, s.pinned[other]);
    }
    forall g: Folder
      ensures CountInv(u, g)
      ensures LoadOf(u, g).Some? ==> LoadInv(u, g, LoadOf(u, g).value)
    {
      assert CountInv(s, g);
      assert LoadOf(s, g).Some? ==> LoadInv(s, g, LoadOf(s, g).value);
    }
  }

  lemma PinnedAnswerKeepsInv(s: State, id: RequestId)
    requires Inv(s) && id in s.pinned
    ensures Inv(After(s, PinnedAnswer(id)))
  {
    hide LoadOf, WithLoad, Finished, LoadInv, CountInv, ListInv, PinnedInv;
    PinnedTaken(s, id);
    var (t, f) := (s.(pinned := s.pinned - {id}), s.pinned[id]);
    var u := WithLoad(t, f, LoadOf(t, f).value.(pinnedRequestId := 0));
    SetLoadFrame(t, f, LoadOf(t, f).value.(pinnedRequestId := 0));
    var load := LoadOf(u, f).value.(pinnedReceived := true);
    assert load == LoadOf(t, f).value.(pinnedRequestId := 0, pinnedReceived := true);
    ReceivedIsValid(u, f);
    assert load == LoadOf(u, f).value.(pinnedRequestId := 0, pinnedReceived := true);
    SetLoadKeepsCore(u, f, load);
    SetLoadKeepsOthers(u, f, load);
    SetLoadFrame(u, f, load);
    SetTwice(t, f, LoadOf(t, f).value.(pinnedRequestId := 0), load);
    if load.listReceived {
      ReceivedHasNoList(u, f);
      FinishKeepsInv(WithLoad(u, f, load), f);
    } else {
      NotFinished(WithLoad(u, f, load), f);
    }
  }

  lemma SetTwice(s: State, f: Folder, a: Load, b: Load)
    ensures WithLoad(WithLoad(s, f, a), f, b) == WithLoad(s, f, b)
  {
    if f.Some? {
      assert s.folders[f.value := a][f.value := b] == s.folders[f.value := b];
    }
  }

  lemma StepKeepsInv(s: State, e: Event)
    requires Inv(s) && CanHappen(s, e)
    ensures Inv(After(s, e))
  {
    hide Inv, Requested, MoreRequested, ListAnswered, ListFailed, PinnedAnswered, BlockedRequested;
    match e {
      case Request(f) => RequestKeepsInv(s, f);
      case RequestMore(f) => MoreRequestKeepsInv(s, f);
      case RequestBlocked(now) => BlockedKeepsInv(s, now);
      case ChooseSlice(seconds, now) => SliceKeepsInv(s, seconds, now);
      case ListAnswer(id, answer, exceptions, archive) => ListAnswerKeepsInv(s, id, answer, exceptions, archive);
      case ListFailure(id) => ListFailureKeepsInv(s, id);
      case PinnedAnswer(id) => PinnedAnswerKeepsInv(s, id);
    }
  }

  lemma SliceKeepsInv(s: State, seconds: int, now: int)
    requires Inv(s)
    ensures Inv(SliceChosen(s, seconds, now))
  {
    hide Inv, Refreshed;
    assert !s.crashed by { NeverCrashed(s); }
    var t := s.(slice := seconds, till := SliceChosen(s, seconds, now).till);
    assert forall f: Folder :: LoadOf(t, f) == LoadOf(s, f);
    assert SliceChosen(s, seconds, now) == Refreshed(t) by { RefreshedTill(s, seconds, now); }
    SameLoads(s, t);
    RefreshKeepsInv(t);
  }

  lemma RefreshedTill(s: State, seconds: int, now: int)
    ensures SliceChosen(s, seconds, now)
            == Refreshed(s.(slice := seconds, till := SliceChosen(s, seconds, now).till))
  {
  }

  lemma BlockedKeepsInv(s: State, now: int)
    requires Inv(s)
    ensures Inv(BlockedRequested(s, now))
  {
    hide Inv, Requested, Refreshed;
    if s.main.Some? {
      var date := s.main.value.offsetDate;
      var t := s.(till := (if date != 0 then date else now) - s.slice);
      assert forall f: Folder :: LoadOf(t, f) == LoadOf(s, f);
      assert !s.crashed by { NeverCrashed(s); }
      SameLoads(s, t);
      RefreshKeepsInv(t);
      RequestKeepsInv(Refreshed(t), None);
    }
  }

  lemma NeverCrashed(s: State)
    requires Inv(s)
    ensures !s.crashed
  {
  }

  lemma StartHasInv()
    ensures Inv(INITIAL)
  {
  }

  lemma {:induction false} RunKeepsInv(events: seq<Event>)
    requires Run(events).Some?
    ensures Inv(Run(events).value)
  {
    hide After, CanHappen, Inv;
    if events == [] {
      StartHasInv();
    } else {
      RunKeepsInv(events[..|events| - 1]);
      StepKeepsInv(Run(events[..|events| - 1]).value, events[|events| - 1]);
    }
  }

  // At most one list request and one pinned request of a folder are on their way, its load is there and holds their
  // ids, and so the failure handler finds it.
  lemma OneRequestAtATime(events: seq<Event>, f: Folder, a: RequestId, b: RequestId)
    requires Run(events).Some?
    ensures var s := Run(events).value;
            && !s.crashed
            && (a in s.lists && b in s.lists && s.lists[a] == s.lists[b] == f ==> a == b)
            && (a in s.pinned && b in s.pinned && s.pinned[a] == s.pinned[b] == f ==> a == b)
            && (a in s.lists && s.lists[a] == f ==>
                  LoadOf(s, f).Some? && LoadOf(s, f).value.requestId == a && !LoadOf(s, f).value.listReceived)
  {
    hide Run, LoadOf;
    RunKeepsInv(events);
    var s := Run(events).value;
    assert a in s.lists ==> ListInv(s, a, s.lists[a]);
    assert b in s.lists ==> ListInv(s, b, s.lists[b]);
    assert a in s.pinned ==> PinnedInv(s, a, s.pinned[a]);
    assert b in s.pinned ==> PinnedInv(s, b, s.pinned[b]);
  }

  // After the list is received no further page is asked for.
  lemma ReceivedListIsNotAskedAgain(events: seq<Event>, f: Folder)
    requires Run(events).Some? && LoadOf(Run(events).value, f).Some? && LoadOf(Run(events).value, f).value.listReceived
    ensures var s := Run(events).value; MoreRequested(s, f) == s && NoList(s, f)
  {
    hide Run, LoadOf;
    RunKeepsInv(events);
    var s := Run(events).value;
    assert LoadInv(s, f, LoadOf(s, f).value);
    ReceivedHasNoList(s, f);
  }

  // Each load that began is dropped and announced once, or is still there.
  lemma DoneOnceForEachLoad(events: seq<Event>, f: Folder)
    requires Run(events).Some?
    ensures var s := Run(events).value; s.begun[f] == s.done[f] + if LoadOf(s, f).Some? then 1 else 0
  {
    hide Run, LoadOf;
    RunKeepsInv(events);
    assert CountInv(Run(events).value, f);
  }

  lemma RequestAnnouncesNothing(s: State, f: Folder)
    ensures MoreRequested(s, f).done == s.done
  {
    if MayAsk(s, f) {
      var listed := ListRequested(s, f, LoadOf(s, f).value);
      assert listed.done == s.done && PinnedRequested(listed, f).done == s.done;
    }
  }

  lemma RequestsAnnounceNothing(s: State, f: Folder)
    ensures MoreRequested(s, f).done == s.done && Requested(s, f).done == s.done
  {
    hide MoreRequested;
    RequestAnnouncesNothing(s, f);
    RequestAnnouncesNothing(Begun(s, f), f);
  }

  // A load is announced only by the answer that completes it: the list's when the pinned ones are there, or the
  // pinned ones' when the list is there.
  lemma DoneNeedsBothAnswers(events: seq<Event>, e: Event, f: Folder)
    requires Run(events).Some? && CanHappen(Run(events).value, e)
    requires After(Run(events).value, e).done[f] != Run(events).value.done[f]
    ensures var s := Run(events).value;
            && LoadOf(s, f).Some?
            && ((e.ListAnswer? && s.lists[e.id] == f && LoadOf(s, f).value.pinnedReceived)
                || (e.PinnedAnswer? && s.pinned[e.id] == f && LoadOf(s, f).value.listReceived))
            && After(s, e).done == s.done + multiset{f}
  {
    hide Run, Inv, Requested, MoreRequested;
    RunKeepsInv(events);
    var s := Run(events).value;
    match e {
      case Request(g) => RequestsAnnounceNothing(s, g);
      case RequestMore(g) => RequestsAnnounceNothing(s, g);
      case RequestBlocked(now) =>
        if s.main.Some? {
          var date := s.main.value.offsetDate;
          RequestsAnnounceNothing(Refreshed(s.(till := (if date != 0 then date else now) - s.slice)), None);
        }
      case ListAnswer(id, answer, exceptions, archive) => ListAnnounces(s, id, answer, exceptions, archive, f);
      case ChooseSlice(_, _) =>
      case ListFailure(id) =>
      case PinnedAnswer(id) => PinnedAnnounces(s, id, f);
    }
  }

  lemma MoreAnnouncesNothing(s: State, exceptions: bool, archive: Option<Id>)
    ensures MoreIfNeeded(s, exceptions, archive).done == s.done
  {
    hide Requested, MoreRequested;
    RequestsAnnounceNothing(s, None);
    RequestsAnnounceNothing(s, archive);
  }

  lemma ReceivedAnnounces(s: State, f: Folder)
    ensures ListReceived(s, f).done ==
            if LoadOf(s, f).Some? && LoadOf(s, f).value.pinnedReceived then s.done + multiset{f} else s.done
  {
    if LoadOf(s, f).Some? {
      LoadOfOther(s, f, LoadOf(s, f).value.(listReceived := true), f);
    }
  }

  lemma OffsetAnnounces(s: State, f: Folder, lastDate: int)
    ensures OffsetUpdated(s, f, lastDate).done ==
            if lastDate == 0 && LoadOf(s, f).Some? && LoadOf(s, f).value.pinnedReceived then s.done + multiset{f}
            else s.done
  {
    hide ListReceived;
    ReceivedAnnounces(s, f);
  }

  lemma ListAnnounces(s: State, id: RequestId, answer: Answer, exceptions: bool, archive: Option<Id>, f: Folder)
    requires Inv(s) && id in s.lists
    requires After(s, ListAnswer(id, answer, exceptions, archive)).done[f] != s.done[f]
    ensures s.lists[id] == f && LoadOf(s, f).Some? && LoadOf(s, f).value.pinnedReceived
    ensures After(s, ListAnswer(id, answer, exceptions, archive)).done == s.done + multiset{f}
  {
    hide Inv, ListReceived, OffsetUpdated, Refreshed, MoreIfNeeded;
    var (t, g) := (s.(lists := s.lists - {id}), s.lists[id]);
    assert LoadOf(t, g) == LoadOf(s, g);
    ReceivedAnnounces(t, g);
    if answer.Slice? {
      OffsetAnnounces(t, g, answer.lastDate);
    }
    var u := match answer
      case NotModified => t
      case Dialogs => ListReceived(t, g)
      case Slice(lastDate) => OffsetUpdated(t, g, lastDate);
    MoreAnnouncesNothing(u, exceptions, archive);
    MoreAnnouncesNothing(Refreshed(u), exceptions, archive);
    assert Refreshed(u).done == u.done by { RefreshAnnouncesNothing(u); }
  }

  lemma RefreshAnnouncesNothing(s: State)
    ensures Refreshed(s).done == s.done
  {
  }

  lemma PinnedAnnounces(s: State, id: RequestId, f: Folder)
    requires id in s.pinned && After(s, PinnedAnswer(id)).done[f] != s.done[f]
    ensures s.pinned[id] == f && LoadOf(s, f).Some? && LoadOf(s, f).value.listReceived
    ensures After(s, PinnedAnswer(id)).done == s.done + multiset{f}
  {
    var (t, g) := (s.(pinned := s.pinned - {id}), s.pinned[id]);
    assert LoadOf(t, g) == LoadOf(s, g);
    if LoadOf(t, g).Some? {
      var load := LoadOf(t, g).value.(pinnedRequestId := 0, pinnedReceived := true);
      SetLoadFrame(t, g, load);
      hide LoadOf, WithLoad, Finished;
      FinishFrame(WithLoad(t, g, load), g, g);
    }
  }

  // A page of the main list is to be asked for, and the date holds it back.
  predicate IsHeldBack(s: State) {
    s.main.Some? && !s.main.value.listReceived && s.main.value.requestId == 0 && 0 < s.main.value.offsetDate <= s.till
  }

  // The main list is blocked by date only while a page is held back, and, if this is exact, all that while.
  predicate BlockedInv(s: State) {
    s.blocked ==> IsHeldBack(s)
  }

  predicate Exact(s: State) {
    s.blocked <==> IsHeldBack(s)
  }

  lemma RefreshedIsExact(s: State)
    ensures Exact(Refreshed(s)) && BlockedInv(Refreshed(s))
  {
  }

  lemma MoreRequestKeepsBlocked(s: State, f: Folder)
    requires BlockedInv(s)
    ensures BlockedInv(MoreRequested(s, f)) && BlockedInv(Requested(s, f))
    ensures Exact(s) ==> Exact(MoreRequested(s, f)) && Exact(Requested(s, f))
  {
    hide Refreshed;
    BegunIsUnblocked(s, f);
    MoreKeepsBlocked(s, f);
    MoreKeepsBlocked(Begun(s, f), f);
  }

  lemma BegunIsUnblocked(s: State, f: Folder)
    requires BlockedInv(s)
    ensures BlockedInv(Begun(s, f)) && (Exact(s) ==> Exact(Begun(s, f)))
  {
  }

  lemma MoreKeepsBlocked(s: State, f: Folder)
    requires BlockedInv(s)
    ensures BlockedInv(MoreRequested(s, f)) && (Exact(s) ==> Exact(MoreRequested(s, f)))
  {
    hide Refreshed, PinnedRequested, ListRequested;
    if MayAsk(s, f) {
      var load := LoadOf(s, f).value;
      var listed := ListRequested(s, f, load);
      var t := if load.pinnedReceived then listed else PinnedRequested(listed, f);
      RefreshedIsExact(t);
      NotBlockedByRequests(s, f, load);
    }
  }

  lemma NotBlockedByRequests(s: State, f: Folder, load: Load)
    ensures var (t, u) := (ListRequested(s, f, load), PinnedRequested(ListRequested(s, f, load), f));
            && t.blocked == u.blocked == s.blocked && t.till == u.till == s.till
            && (f != None ==> t.main == u.main == s.main)
  {
  }

  // A failed request of the main list leaves its next page held back, but nobody looks at the date again.
  predicate FailsUnseen(s: State, e: Event)
    requires CanHappen(s, e)
  {
    e.ListFailure? && s.lists[e.id] == None && s.main.Some? && 0 < s.main.value.offsetDate <= s.till
  }

  // A step keeps blocking exact if and only if it is no such failure.
  lemma StepKeepsBlocked(s: State, e: Event)
    requires Inv(s) && BlockedInv(s) && CanHappen(s, e)
    ensures BlockedInv(After(s, e))
    ensures Exact(s) ==> (Exact(After(s, e)) <==> !FailsUnseen(s, e))
  {
    hide Inv, Requested, MoreRequested, ListAnswered, ListFailed, PinnedAnswered, BlockedRequested, Refreshed,
         IsHeldBack;
    match e {
      case Request(f) => MoreRequestKeepsBlocked(s, f);
      case RequestMore(f) => MoreRequestKeepsBlocked(s, f);
      case RequestBlocked(now) => BlockedRequestKeepsBlocked(s, now);
      case ChooseSlice(seconds, now) => SliceIsExact(s, seconds, now);
      case ListAnswer(id, answer, exceptions, archive) => ListAnswerKeepsBlocked(s, id, answer, exceptions, archive);
      case ListFailure(id) => ListFailureKeepsBlocked(s, id);
      case PinnedAnswer(id) => PinnedAnswerKeepsBlocked(s, id);
    }
  }

  lemma SliceIsExact(s: State, seconds: int, now: int)
    ensures Exact(SliceChosen(s, seconds, now)) && BlockedInv(SliceChosen(s, seconds, now))
  {
  }

  lemma BlockedRequestKeepsBlocked(s: State, now: int)
    requires BlockedInv(s)
    ensures BlockedInv(BlockedRequested(s, now)) && (Exact(s) ==> Exact(BlockedRequested(s, now)))
  {
    hide Requested, Refreshed;
    if s.main.Some? {
      var date := s.main.value.offsetDate;
      var t := s.(till := (if date != 0 then date else now) - s.slice);
      RefreshedIsExact(t);
      MoreRequestKeepsBlocked(Refreshed(t), None);
    }
  }

  // While the main list is blocked, no list request of it is on its way.
  lemma BlockedHasNoRequest(s: State, id: RequestId)
    requires Inv(s) && BlockedInv(s) && id in s.lists && s.lists[id] == None
    ensures !s.blocked && !IsHeldBack(s) && s.main.Some? && !s.main.value.listReceived
  {
    assert ListInv(s, id, s.lists[id]);
  }

  lemma MoreIfNeededKeepsBlocked(s: State, exceptions: bool, archive: Option<Id>)
    requires BlockedInv(s)
    ensures BlockedInv(MoreIfNeeded(s, exceptions, archive))
    ensures Exact(s) ==> Exact(MoreIfNeeded(s, exceptions, archive))
  {
    hide Requested, MoreRequested;
    MoreRequestKeepsBlocked(s, None);
    MoreRequestKeepsBlocked(s, archive);
  }

  lemma ReceivedMain(s: State, f: Folder, lastDate: int)
    ensures var (t, u) := (ListReceived(s, f), OffsetUpdated(s, f, lastDate));
            && t.blocked == u.blocked == s.blocked && t.till == u.till == s.till
            && (f != None ==> t.main == u.main == s.main)
  {
    hide LoadOf, WithLoad, Finished;
    if LoadOf(s, f).Some? {
      var load := LoadOf(s, f).value;
      MainOf(s, f, load.(listReceived := true));
      MainOf(s, f, load.(offsetDate := lastDate, requestId := 0));
      FinishedMain(WithLoad(s, f, load.(listReceived := true)), f);
    }
  }

  lemma MainOf(s: State, f: Folder, load: Load)
    ensures var t := WithLoad(s, f, load);
            t.blocked == s.blocked && t.till == s.till && (f != None ==> t.main == s.main)
  {
  }

  lemma FinishedMain(s: State, f: Folder)
    ensures var t := Finished(s, f); t.blocked == s.blocked && t.till == s.till && (f != None ==> t.main == s.main)
  {
  }

  lemma ListAnswerKeepsBlocked(s: State, id: RequestId, answer: Answer, exceptions: bool, archive: Option<Id>)
    requires Inv(s) && BlockedInv(s) && id in s.lists
    ensures BlockedInv(After(s, ListAnswer(id, answer, exceptions, archive)))
    ensures Exact(s) ==> Exact(After(s, ListAnswer(id, answer, exceptions, archive)))
  {
    hide Inv, MoreIfNeeded, Refreshed, ListReceived, OffsetUpdated;
    var (t, f) := (s.(lists := s.lists - {id}), s.lists[id]);
    var u := match answer
      case NotModified => t
      case Dialogs => ListReceived(t, f)
      case Slice(lastDate) => OffsetUpdated(t, f, lastDate);
    if f == None {
      BlockedHasNoRequest(s, id);
    }
    ReceivedMain(t, f, 0);
    if answer.Slice? {
      ReceivedMain(t, f, answer.lastDate);
    }
    RefreshedIsExact(u);
    var v := if f == None && (u.main.None? || !u.main.value.listReceived) then Refreshed(u) else u;
    MoreIfNeededKeepsBlocked(v, exceptions, archive);
  }

  lemma ListFailureKeepsBlocked(s: State, id: RequestId)
    requires Inv(s) && BlockedInv(s) && id in s.lists
    ensures BlockedInv(After(s, ListFailure(id)))
    ensures Exact(s) ==> (Exact(After(s, ListFailure(id))) <==> !FailsUnseen(s, ListFailure(id)))
  {
    assert ListInv(s, id, s.lists[id]);
    hide Inv;
    if s.lists[id] == None {
      BlockedHasNoRequest(s, id);
    }
  }

  lemma PinnedAnswerKeepsBlocked(s: State, id: RequestId)
    requires BlockedInv(s) && id in s.pinned
    ensures BlockedInv(After(s, PinnedAnswer(id))) && (Exact(s) ==> Exact(After(s, PinnedAnswer(id))))
  {
  }

  lemma {:induction false} BlockedOnlyByDate(events: seq<Event>)
    requires Run(events).Some?
    ensures BlockedInv(Run(events).value)
  {
    hide After, CanHappen, Inv, BlockedInv;
    if events == [] {
      assert BlockedInv(INITIAL) by { NothingBlocked(); }
    } else {
      BlockedOnlyByDate(events[..|events| - 1]);
      RunKeepsInv(events[..|events| - 1]);
      StepKeepsBlocked(Run(events[..|events| - 1]).value, events[|events| - 1]);
    }
  }

  // In every run, blocking was exact at every moment exactly when no request failed unseen.
  lemma {:induction false} AlwaysExactIffSeen(events: seq<Event>)
    requires Run(events).Some?
    ensures AlwaysExact(events) <==> AllSeen(events)
  {
    hide After, CanHappen, Inv, BlockedInv, Exact, FailsUnseen;
    if events == [] {
      NothingBlocked();
    } else {
      var front := events[..|events| - 1];
      AlwaysExactIffSeen(front);
      if AlwaysExact(front) {
        BlockedOnlyByDate(front);
        RunKeepsInv(front);
        ExactNow(front);
        StepKeepsBlocked(Run(front).value, events[|events| - 1]);
      }
    }
  }

  ghost predicate AlwaysExact(events: seq<Event>)
    requires Run(events).Some?
  {
    Exact(Run(events).value) && (events != [] ==> AlwaysExact(events[..|events| - 1]))
  }

  ghost predicate AllSeen(events: seq<Event>)
    requires Run(events).Some?
  {
    events != [] ==>
      var front := events[..|events| - 1];
      AllSeen(front) && !FailsUnseen(Run(front).value, events[|events| - 1])
  }

  lemma ExactNow(events: seq<Event>)
    requires Run(events).Some? && AlwaysExact(events)
    ensures Exact(Run(events).value)
  {
  }

  lemma NothingBlocked()
    ensures BlockedInv(INITIAL) && Exact(INITIAL)
  {
  }

  // The page on its way is not one that the date would hold back.
  predicate IsClear(s: State) {
    s.main.Some? && s.main.value.requestId != 0 && !s.main.value.listReceived ==>
      !(0 < s.main.value.offsetDate <= s.till)
  }

  lemma MoreKeepsClear(s: State, f: Folder)
    requires IsClear(s) && Exact(s)
    ensures IsClear(MoreRequested(s, f)) && IsClear(Requested(s, f))
  {
    AskedIsClear(s, f);
    AskedIsClear(Begun(s, f), f);
  }

  lemma AskedIsClear(s: State, f: Folder)
    requires IsClear(s) && Exact(s)
    ensures IsClear(MoreRequested(s, f))
  {
    if MayAsk(s, f) {
      var load := LoadOf(s, f).value;
      NotBlockedByRequests(s, f, load);
      if f == None {
        var listed := ListRequested(s, f, load);
        assert IsClear(listed) && IsClear(PinnedRequested(listed, f));
      }
    }
  }

  lemma IfNeededKeepsClear(s: State, exceptions: bool, archive: Option<Id>)
    requires IsClear(s) && Exact(s)
    ensures IsClear(MoreIfNeeded(s, exceptions, archive))
  {
    hide Requested, MoreRequested, IsClear, Exact;
    MoreKeepsClear(s, None);
    MoreKeepsClear(s, archive);
  }

  // A page that was answered leaves no request, or no list to ask for.
  lemma AnsweredMain(s: State, lastDate: int)
    ensures IsClear(ListReceived(s, None)) && IsClear(OffsetUpdated(s, None, lastDate))
    ensures !IsHeldBack(ListReceived(s, None))
    ensures var u := OffsetUpdated(s, None, lastDate); u.main.None? || u.main.value.listReceived ==> !IsHeldBack(u)
  {
  }

  lemma ListAnswerKeepsClear(s: State, id: RequestId, answer: Answer, exceptions: bool, archive: Option<Id>)
    requires Inv(s) && BlockedInv(s) && IsClear(s) && Exact(s) && id in s.lists
    ensures IsClear(After(s, ListAnswer(id, answer, exceptions, archive)))
  {
    hide Inv, MoreIfNeeded, Refreshed, ListReceived, OffsetUpdated;
    var (t, f) := (s.(lists := s.lists - {id}), s.lists[id]);
    var u := match answer
      case NotModified => t
      case Dialogs => ListReceived(t, f)
      case Slice(lastDate) => OffsetUpdated(t, f, lastDate);
    var date := if answer.Slice? then answer.lastDate else 0;
    ReceivedMain(t, f, date);
    if f == None {
      BlockedHasNoRequest(s, id);
      AnsweredMain(t, date);
    }
    RefreshedIsExact(u);
    RefreshedIsClear(u);
    var v := if f == None && (u.main.None? || !u.main.value.listReceived) then Refreshed(u) else u;
    IfNeededKeepsClear(v, exceptions, archive);
  }

  lemma RefreshedIsClear(s: State)
    requires IsClear(s)
    ensures IsClear(Refreshed(s))
  {
  }

  lemma BlockedKeepsClear(s: State, now: int)
    requires BlockedInv(s) && s.blocked
    ensures IsClear(BlockedRequested(s, now))
  {
    hide Requested, Refreshed;
    var date := s.main.value.offsetDate;
    var t := s.(till := (if date != 0 then date else now) - s.slice);
    RefreshedIsExact(t);
    RefreshedIsClear(t);
    MoreKeepsClear(Refreshed(t), None);
  }

  lemma FailureIsSeen(s: State, id: RequestId)
    requires Inv(s) && IsClear(s) && id in s.lists
    ensures IsClear(After(s, ListFailure(id))) && !FailsUnseen(s, ListFailure(id))
  {
    hide Inv;
    ListTaken(s, id);
  }

  // A time slice that is chosen while a page of the main list is on its way
  predicate ShortensInFlight(s: State, e: Event) {
    e.ChooseSlice? && s.main.Some? && s.main.value.requestId != 0
  }

  lemma StepKeepsClear(s: State, e: Event)
    requires Inv(s) && BlockedInv(s) && Exact(s) && IsClear(s) && CanHappen(s, e) && !ShortensInFlight(s, e)
    ensures IsClear(After(s, e)) && !FailsUnseen(s, e)
  {
    hide Inv, Requested, MoreRequested, ListAnswered, BlockedRequested, Refreshed;
    match e {
      case Request(f) => MoreKeepsClear(s, f);
      case RequestMore(f) => MoreKeepsClear(s, f);
      case RequestBlocked(now) => BlockedKeepsClear(s, now);
      case ChooseSlice(seconds, now) =>
        RefreshedIsClear(s.(slice := seconds, till := SliceChosen(s, seconds, now).till));
        RefreshedTill(s, seconds, now);
      case ListAnswer(id, answer, exceptions, archive) => ListAnswerKeepsClear(s, id, answer, exceptions, archive);
      case ListFailure(id) => FailureIsSeen(s, id);
      case PinnedAnswer(id) =>
    }
  }

  ghost predicate NoneShortened(events: seq<Event>)
    requires Run(events).Some?
  {
    events != [] ==>
      var front := events[..|events| - 1];
      NoneShortened(front) && !ShortensInFlight(Run(front).value, events[|events| - 1])
  }

  // Nothing else than such a choice makes a failure go unseen: without it, blocking is exact at every moment.
  lemma {:induction false} ExactUnlessShortened(events: seq<Event>)
    requires Run(events).Some? && NoneShortened(events)
    ensures AllSeen(events) && AlwaysExact(events) && IsClear(Run(events).value)
  {
    hide After, CanHappen, Inv, BlockedInv, Exact, FailsUnseen, IsClear, ShortensInFlight;
    AlwaysExactIffSeen(events);
    if events == [] {
      StartIsClear();
    } else {
      var front := events[..|events| - 1];
      ExactUnlessShortened(front);
      BlockedOnlyByDate(front);
      RunKeepsInv(front);
      ExactNow(front);
      StepKeepsClear(Run(front).value, events[|events| - 1]);
    }
  }

  lemma StartIsClear()
    ensures IsClear(INITIAL)
  {
  }

  // A failure can go unseen: the time slice is shortened while a page is on its way, and then its request fails.
  const UNSEEN: seq<Event> := [
    ChooseSlice(1500, 2000), Request(None), ListAnswer(1, Slice(1000), false, None),
    ChooseSlice(600, 2000), ListFailure(3)]

  lemma OneMore(events: seq<Event>, s: State, e: Event, more: seq<Event>)
    requires Run(events) == Some(s) && CanHappen(s, e) && more == events + [e]
    ensures Run(more) == Some(After(s, e))
  {
    hide After, CanHappen;
    assert more[..|events|] == events;
  }

  // The main load, with its requests on their way
  function Loading(slice: int, till: int, load: Load, lists: map<RequestId, Folder>): State {
    State(Some(load), map[], slice, till, till > 0, false, lists, map[2 := None], 3, multiset{None}, multiset{}, false)
  }

  lemma FirstPageLoaded()
    ensures Run(UNSEEN[..3]) == Some(Loading(1500, 500, Load(1000, 3, false, 2, false), map[3 := None]))
  {
    hide Run;
    var e := UNSEEN;
    assert Run([]) == Some(INITIAL) by { StartsAt(); }
    OneMore([], INITIAL, e[0], e[..1]);
    var s := After(INITIAL, e[0]);
    OneMore(e[..1], s, e[1], e[..2]);
    var t := After(s, e[1]);
    assert t == Loading(1500, 500, Load(0, 1, false, 2, false), map[1 := None]).(lastId := 2);
    OneMore(e[..2], t, e[2], e[..3]);
  }

  lemma StartsAt()
    ensures Run([]) == Some(INITIAL)
  {
  }

  lemma FailureGoesUnseen()
    ensures Run(UNSEEN).Some?
    ensures var s := Run(UNSEEN).value; IsHeldBack(s) && s.mayBlock && !s.blocked
    ensures !AllSeen(UNSEEN)
  {
    hide Run;
    var e := UNSEEN;
    FirstPageLoaded();
    var s := Loading(1500, 500, Load(1000, 3, false, 2, false), map[3 := None]);
    OneMore(e[..3], s, e[3], e[..4]);
    var t := Loading(600, 1400, Load(1000, 3, false, 2, false), map[3 := None]);
    assert After(s, e[3]) == t;
    OneMore(e[..4], t, e[4], e);
    assert e[..|e| - 1] == e[..4];
  }
}
