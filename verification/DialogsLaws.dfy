/** What each event makes of the loads, told load by load: who is asked, what an answer leaves, where the date limit
    goes, and when the main list is held back. */
module DialogsLaws {
  import opened Wrappers
  import opened FlatMap
  import opened DialogsSpec
  import opened DialogsTheorems

  // The main list is not there yet.
  predicate IsToLoad(s: State) {
    s.main.Some? && !s.main.value.listReceived
  }

  // The load of folder f was replaced, and everything that surrounds the loads stays.
  predicate IsApart(s: State, t: State, f: Folder, g: Folder) {
    && (g != f ==> LoadOf(t, g) == LoadOf(s, g))
    && t.till == s.till && t.slice == s.slice && t.crashed == s.crashed
  }

  // A load is asked for when it has no request and nothing blocks; its pinned dialogs are asked for with it, unless
  // they are there or on their way.
  predicate AsksList(s: State, f: Folder) {
    LoadOf(s, f).Some? && LoadOf(s, f).value.requestId == 0 && !s.blocked
  }

  predicate AsksPinned(load: Load) {
    !load.pinnedReceived && load.pinnedRequestId == 0
  }

  lemma SetLoadIs(s: State, f: Folder, load: Load, g: Folder)
    ensures var t := WithLoad(s, f, load);
            && IsApart(s, t, f, g) && LoadOf(t, f) == Some(load) && IsAround(s, t)
            && t.lists == s.lists && t.pinned == s.pinned && t.lastId == s.lastId
  {
    LoadOfOther(s, f, load, g);
  }

  predicate IsAround(s: State, t: State) {
    t.begun == s.begun && t.done == s.done && t.blocked == s.blocked && t.mayBlock == s.mayBlock
  }

  lemma RefreshIs(s: State, g: Folder)
    ensures var t := Refreshed(s);
            && LoadOf(t, g) == LoadOf(s, g) && t.till == s.till && t.slice == s.slice && t.crashed == s.crashed
            && t.begun == s.begun && t.done == s.done
            && t.lists == s.lists && t.pinned == s.pinned && t.lastId == s.lastId
            && (t.mayBlock <==> IsToLoad(s) && s.till > 0)
            && (t.blocked <==> IsHeldBack(s))
  {
  }

  lemma PinnedRequestIs(s: State, f: Folder, g: Folder)
    requires LoadOf(s, f).Some?
    ensures var (t, load, id) := (PinnedRequested(s, f), LoadOf(s, f).value, s.lastId + 1);
            if AsksPinned(load) then
              && IsApart(s, t, f, g) && IsAround(s, t) && LoadOf(t, f) == Some(load.(pinnedRequestId := id))
              && t.lists == s.lists && t.pinned == s.pinned[id := f]
            else t == s
  {
    var (t, load, id) := (PinnedRequested(s, f), LoadOf(s, f).value, s.lastId + 1);
    hide LoadOf, WithLoad;
    var known := WithLoad(s, f, load.(pinnedRequestId := id));
    SetLoadIs(s, f, load.(pinnedRequestId := id), g);
    if AsksPinned(load) {
      ApartFromRequests(known, t);
    }
  }

  lemma MoreIs(s: State, f: Folder, g: Folder)
    requires AsksList(s, f)
    ensures var (t, load, id) := (MoreRequested(s, f), LoadOf(s, f).value, s.lastId + 1);
            && IsApart(s, t, f, g)
            && LoadOf(t, f) ==
                 Some(load.(requestId := id,
                            pinnedRequestId := if AsksPinned(load) then id + 1 else load.pinnedRequestId))
            && t.lists == s.lists[id := f] && t.pinned == (if AsksPinned(load) then s.pinned[id + 1 := f] else s.pinned)
            && t.begun == s.begun && t.done == s.done && !t.blocked
            && (t.mayBlock <==> if f == None then !load.listReceived && s.till > 0 else s.mayBlock)
  {
    hide LoadOf, WithLoad, Refreshed, PinnedRequested;
    var (load, id) := (LoadOf(s, f).value, s.lastId + 1);
    var listed := load.(requestId := id);
    SetLoadIs(s, f, listed, g);
    var u := ListRequested(s, f, load);
    ApartFromRequests(WithLoad(s, f, listed), u);
    assert LoadOf(u, f) == Some(listed);
    PinnedRequestIs(u, f, g);
    var v := PinnedRequested(u, f);
    RefreshIs(v, f);
    RefreshIs(v, g);
    MainIs(v);
  }

  lemma MainIs(s: State)
    ensures LoadOf(s, None) == s.main
  {
  }

  lemma ApartFromRequests(s: State, t: State)
    requires s.main == t.main && s.folders == t.folders
    ensures forall g: Folder :: LoadOf(t, g) == LoadOf(s, g)
  {
  }

  lemma MoreAsksNothing(s: State, f: Folder)
    requires !AsksList(s, f)
    ensures MoreRequested(s, f) == s
  {
  }

  // A folder that is asked for the first time begins with a new load.
  lemma RequestBegins(s: State, f: Id, g: Folder)
    requires f !in s.folders
    ensures var (t, id) := (After(s, Request(Some(f))), s.lastId + 1);
            && IsApart(s, t, Some(f), g)
            && t.begun == s.begun + multiset{Some(f)} && t.done == s.done
            && t.blocked == s.blocked && t.mayBlock == s.mayBlock
            && if s.blocked then LoadOf(t, Some(f)) == Some(NEW_LOAD) && t.lists == s.lists && t.pinned == s.pinned
               else
                 && LoadOf(t, Some(f)) == Some(Load(0, id, false, id + 1, false))
                 && t.lists == s.lists[id := Some(f)] && t.pinned == s.pinned[id + 1 := Some(f)]
  {
    hide MoreRequested;
    var u := Begun(s, Some(f));
    BeginFrame(s, Some(f), g);
    if s.blocked {
      MoreAsksNothing(u, Some(f));
    } else {
      MoreIs(u, Some(f), g);
    }
  }

  lemma RequestGoesOn(s: State, f: Folder)
    requires f.Some? ==> f.value in s.folders
    ensures After(s, Request(f)) == After(s, RequestMore(f))
  {
  }

  // What a page makes of its own load
  function Paged(s: State, f: Folder, answer: Answer): State {
    match answer
    case NotModified => s
    case Dialogs => ListReceived(s, f)
    case Slice(lastDate) => OffsetUpdated(s, f, lastDate)
  }

  predicate Moves(answer: Answer) {
    answer.Slice? && answer.lastDate != 0
  }

  predicate Drops(load: Load, answer: Answer) {
    load.pinnedReceived && !Moves(answer) && !answer.NotModified?
  }

  lemma PagedIs(s: State, f: Folder, answer: Answer, g: Folder)
    requires LoadOf(s, f).Some? && !LoadOf(s, f).value.listReceived
    ensures var (t, load) := (Paged(s, f, answer), LoadOf(s, f).value);
            && IsApart(s, t, f, g) && t.blocked == s.blocked && t.mayBlock == s.mayBlock
            && LoadOf(t, f) ==
                 (if answer.NotModified? then Some(load)
                  else if Moves(answer) then Some(load.(offsetDate := answer.lastDate, requestId := 0))
                  else if Drops(load, answer) then None
                  else Some(load.(listReceived := true)))
            && t.lists == s.lists && t.pinned == s.pinned && t.lastId == s.lastId && t.begun == s.begun
            && t.done == (if Drops(load, answer) then s.done + multiset{f} else s.done)
  {
    hide LoadOf, WithLoad, Finished;
    var load := LoadOf(s, f).value;
    var received := load.(listReceived := true);
    if Moves(answer) {
      SetLoadIs(s, f, load.(offsetDate := answer.lastDate, requestId := 0), g);
    } else {
      SetLoadIs(s, f, received, g);
      FinishIs(WithLoad(s, f, received), f, g);
      FinishIs(WithLoad(s, f, received), f, f);
    }
  }

  lemma AnsweredIsPaged(s: State, id: RequestId, answer: Answer, archive: Option<Id>)
    requires id in s.lists
    ensures var page := Paged(s.(lists := s.lists - {id}), s.lists[id], answer);
            After(s, ListAnswer(id, answer, true, archive)) ==
            if s.lists[id] == None && (page.main.None? || IsToLoad(page)) then Refreshed(page) else page
  {
    hide ListReceived, OffsetUpdated, Refreshed;
  }

  // An answer to a list request: a page with a date moves its load on, the end of the list is noted, and a load that
  // has both answers is dropped and announced.
  lemma PageIs(s: State, id: RequestId, answer: Answer, archive: Option<Id>, g: Folder)
    requires Inv(s) && id in s.lists
    ensures var (t, f) := (After(s, ListAnswer(id, answer, true, archive)), s.lists[id]);
            var load := LoadOf(s, f);
            && load.Some? && IsApart(s, t, f, g)
            && LoadOf(t, f) ==
                 (if answer.NotModified? then load
                  else if Moves(answer) then Some(load.value.(offsetDate := answer.lastDate, requestId := 0))
                  else if Drops(load.value, answer) then None
                  else Some(load.value.(listReceived := true)))
            && t.lists == s.lists - {id} && t.pinned == s.pinned && t.lastId == s.lastId && t.begun == s.begun
            && t.done == (if Drops(load.value, answer) then s.done + multiset{f} else s.done)
  {
    hide Inv, LoadOf, Paged, After, Refreshed;
    ListTaken(s, id);
    var (u, f) := (s.(lists := s.lists - {id}), s.lists[id]);
    ApartFromRequests(s, u);
    AnsweredIsPaged(s, id, answer, archive);
    PagedIs(u, f, answer, g);
    RefreshIs(Paged(u, f, answer), f);
    RefreshIs(Paged(u, f, answer), g);
  }

  lemma FinishIs(s: State, f: Folder, g: Folder)
    ensures var t := Finished(s, f);
            var ready := LoadOf(s, f).Some? && IsReady(LoadOf(s, f).value);
            && t.lists == s.lists && t.pinned == s.pinned && t.lastId == s.lastId && t.begun == s.begun
            && IsApart(s, t, f, g) && t.blocked == s.blocked && t.mayBlock == s.mayBlock
            && t.done == (if ready then s.done + multiset{f} else s.done)
            && LoadOf(t, f) == if ready then None else LoadOf(s, f)
  {
    FinishFrame(s, f, g);
    FinishFrame(s, f, f);
  }

  // Unless the main list ended while its pinned dialogs are missing, its answer sees what is held back by date.
  lemma PageSeesDate(s: State, id: RequestId, answer: Answer, archive: Option<Id>)
    requires Inv(s) && id in s.lists
    ensures var t := After(s, ListAnswer(id, answer, true, archive));
            if s.lists[id] == None && (t.main.None? || IsToLoad(t))
            then Exact(t) && (t.mayBlock <==> IsToLoad(t) && t.till > 0)
            else t.blocked == s.blocked && t.mayBlock == s.mayBlock
  {
    hide Inv, LoadOf, Paged, After, Refreshed;
    ListTaken(s, id);
    var u := s.(lists := s.lists - {id});
    ApartFromRequests(s, u);
    AnsweredIsPaged(s, id, answer, archive);
    PagedIs(u, s.lists[id], answer, None);
    var page := Paged(u, s.lists[id], answer);
    RefreshIs(page, None);
    MainIs(page);
    MainIs(Refreshed(page));
    RefreshedIsExact(page);
  }

  // Then the next page is asked for: of the main list until it is there, and of the archive after that, if it is
  // needed.
  lemma AsksOn(s: State, id: RequestId, answer: Answer, archive: Option<Id>)
    requires id in s.lists
    ensures var u := After(s, ListAnswer(id, answer, true, archive));
            After(s, ListAnswer(id, answer, false, archive)) ==
            if IsToLoad(u) then MoreRequested(u, None)
            else if archive.Some? then MoreRequested(u, archive)
            else u
  {
    hide ListReceived, OffsetUpdated, Refreshed;
  }

  // So the loading does not stall: while nothing is blocked, a list that is wanted has a request on its way.
  lemma AnswersDoNotStall(s: State, id: RequestId, answer: Answer, archive: Option<Id>)
    requires Inv(s) && id in s.lists
    ensures var t := After(s, ListAnswer(id, answer, false, archive));
            && (IsToLoad(t) ==> t.main.value.requestId != 0 || t.blocked)
            && (!IsToLoad(t) && archive.Some? && LoadOf(t, archive).Some? ==>
                  LoadOf(t, archive).value.requestId != 0 || t.blocked)
  {
    hide After, MoreRequested, Inv;
    var u := After(s, ListAnswer(id, answer, true, archive));
    AsksOn(s, id, answer, archive);
    var f := if IsToLoad(u) then None else archive;
    if AsksList(u, f) {
      MoreIs(u, f, None);
      MoreIs(u, f, f);
    } else {
      MoreAsksNothing(u, f);
    }
  }

  // A failed list request, and an answer about the pinned dialogs, are noted in their load.
  lemma FailureIs(s: State, id: RequestId, g: Folder)
    requires Inv(s) && id in s.lists
    ensures var (t, f) := (After(s, ListFailure(id)), s.lists[id]);
            && LoadOf(s, f).Some? && IsApart(s, t, f, g)
            && LoadOf(t, f) == Some(LoadOf(s, f).value.(requestId := 0))
            && t.lists == s.lists - {id} && t.pinned == s.pinned && t.done == s.done
            && t.blocked == s.blocked && t.mayBlock == s.mayBlock
  {
    hide Inv, LoadOf, WithLoad;
    ListTaken(s, id);
    var (u, f) := (s.(lists := s.lists - {id}), s.lists[id]);
    ApartFromRequests(s, u);
    SetLoadIs(u, f, LoadOf(s, f).value.(requestId := 0), g);
  }

  lemma PinnedIs(s: State, id: RequestId, g: Folder)
    requires Inv(s) && id in s.pinned
    ensures var (t, f) := (After(s, PinnedAnswer(id)), s.pinned[id]);
            var load := LoadOf(s, f);
            && load.Some? && IsApart(s, t, f, g)
            && LoadOf(t, f) ==
                 (if load.value.listReceived then None
                  else Some(load.value.(pinnedRequestId := 0, pinnedReceived := true)))
            && t.lists == s.lists && t.pinned == s.pinned - {id} && t.blocked == s.blocked && t.mayBlock == s.mayBlock
            && t.done == (if load.value.listReceived then s.done + multiset{f} else s.done)
  {
    assert PinnedInv(s, id, s.pinned[id]);
    hide Inv, LoadOf, WithLoad, Finished;
    var (u, f) := (s.(pinned := s.pinned - {id}), s.pinned[id]);
    ApartFromRequests(s, u);
    var load := LoadOf(s, f).value.(pinnedRequestId := 0, pinnedReceived := true);
    SetLoadIs(u, f, load, g);
    FinishIs(WithLoad(u, f, load), f, g);
    FinishIs(WithLoad(u, f, load), f, f);
  }

  // The button moves the limit to one slice before the page that is held back, whatever the time, and that page is
  // asked for exactly if the slice is not empty.
  lemma ButtonIs(events: seq<Event>, now: int)
    requires Run(events).Some? && CanHappen(Run(events).value, RequestBlocked(now))
    ensures var s := Run(events).value;
            var t := After(s, RequestBlocked(now));
            && s.main.Some? && t.main.Some?
            && t.till == s.main.value.offsetDate - s.slice && t.slice == s.slice
            && t.main.value.offsetDate == s.main.value.offsetDate
            && (t.main.value.requestId == s.lastId + 1 <==> s.slice > 0)
            && t.lists == (if s.slice > 0 then s.lists[s.lastId + 1 := None] else s.lists)
            && (t.blocked <==> s.slice <= 0)
            && (t.mayBlock <==> t.till > 0)
  {
    hide Run, MoreRequested;
    BlockedOnlyByDate(events);
    var s := Run(events).value;
    var date := s.main.value.offsetDate;
    var u := Refreshed(s.(till := date - s.slice));
    if AsksList(u, None) {
      MoreIs(u, None, None);
    } else {
      MoreAsksNothing(u, None);
    }
  }

  // A chosen slice holds the next page back exactly if that page is not newer than the slice; no slice holds nothing.
  lemma SliceIs(s: State, seconds: int, now: int)
    ensures var t := After(s, ChooseSlice(seconds, now));
            && t.slice == seconds && t.main == s.main && t.folders == s.folders
            && t.lists == s.lists && t.pinned == s.pinned && t.begun == s.begun && t.done == s.done
            && (t.blocked <==>
                  && seconds != 0 && IsToLoad(s) && s.main.value.requestId == 0
                  && 0 < s.main.value.offsetDate && s.main.value.offsetDate + seconds <= now)
            && (t.mayBlock <==> seconds != 0 && IsToLoad(s) && seconds < now)
  {
  }

  // In every run, while the main list is to be loaded, it may be blocked exactly if there is a limit.
  predicate MayBlockInv(s: State) {
    (IsToLoad(s) ==> (s.mayBlock <==> s.till > 0)) && (s.mayBlock ==> s.till > 0)
  }

  lemma MoreKeepsMayBlock(s: State, f: Folder)
    requires MayBlockInv(s)
    ensures MayBlockInv(MoreRequested(s, f))
  {
    hide MoreRequested;
    if AsksList(s, f) {
      MoreIs(s, f, None);
    } else {
      MoreAsksNothing(s, f);
    }
  }

  lemma AnswerKeepsMayBlock(s: State, id: RequestId, answer: Answer, exceptions: bool, archive: Option<Id>)
    requires Inv(s) && MayBlockInv(s) && id in s.lists
    ensures MayBlockInv(After(s, ListAnswer(id, answer, exceptions, archive)))
  {
    hide After, MoreRequested, Inv;
    var u := After(s, ListAnswer(id, answer, true, archive));
    PageIs(s, id, answer, archive, None);
    PageSeesDate(s, id, answer, archive);
    AsksOn(s, id, answer, archive);
    assert IsToLoad(u) && s.lists[id] != None ==> IsToLoad(s);
    MoreKeepsMayBlock(u, None);
    MoreKeepsMayBlock(u, archive);
    assert exceptions == true || exceptions == false;
  }

  lemma StepKeepsMayBlock(s: State, e: Event)
    requires Inv(s) && MayBlockInv(s) && CanHappen(s, e)
    ensures MayBlockInv(After(s, e))
  {
    hide Inv, MoreRequested, ListAnswered, ListFailed, PinnedAnswered;
    match e {
      case Request(f) =>
        assert MayBlockInv(Begun(s, f));
        MoreKeepsMayBlock(Begun(s, f), f);
      case RequestMore(f) => MoreKeepsMayBlock(s, f);
      case RequestBlocked(now) =>
        if s.main.Some? {
          var date := s.main.value.offsetDate;
          MoreKeepsMayBlock(Refreshed(s.(till := (if date != 0 then date else now) - s.slice)), None);
        }
      case ChooseSlice(seconds, now) => SliceIs(s, seconds, now);
      case ListAnswer(id, answer, exceptions, archive) => AnswerKeepsMayBlock(s, id, answer, exceptions, archive);
      case ListFailure(id) => FailureIs(s, id, None);
      case PinnedAnswer(id) => PinnedIs(s, id, None);
    }
  }

  lemma {:induction false} MayBlockIffLimited(events: seq<Event>)
    requires Run(events).Some?
    ensures var s := Run(events).value;
            (IsToLoad(s) ==> (s.mayBlock <==> s.till > 0)) && (s.mayBlock ==> s.till > 0)
  {
    hide After, CanHappen, Inv;
    if events != [] {
      var front := events[..|events| - 1];
      MayBlockIffLimited(front);
      RunKeepsInv(front);
      StepKeepsMayBlock(Run(front).value, events[|events| - 1]);
    }
  }

  // The slice chosen last, or a week
  function SliceOf(events: seq<Event>): int {
    if events == [] then 7 * 86400
    else if events[|events| - 1].ChooseSlice? then events[|events| - 1].seconds
    else SliceOf(events[..|events| - 1])
  }

  lemma StepKeepsSlice(s: State, e: Event)
    requires Inv(s) && CanHappen(s, e)
    ensures After(s, e).slice == if e.ChooseSlice? then e.seconds else s.slice
  {
    hide Inv, MoreRequested, ListAnswered, ListFailed, PinnedAnswered;
    match e {
      case Request(f) => MoreKeepsSlice(Begun(s, f), f);
      case RequestMore(f) => MoreKeepsSlice(s, f);
      case RequestBlocked(now) =>
        if s.main.Some? {
          var date := s.main.value.offsetDate;
          MoreKeepsSlice(Refreshed(s.(till := (if date != 0 then date else now) - s.slice)), None);
        }
      case ChooseSlice(seconds, now) => SliceIs(s, seconds, now);
      case ListAnswer(id, answer, exceptions, archive) => AnswerKeepsSlice(s, e);
      case ListFailure(id) => FailureIs(s, id, None);
      case PinnedAnswer(id) => PinnedIs(s, id, None);
    }
  }

  lemma MoreKeepsSlice(s: State, f: Folder)
    ensures MoreRequested(s, f).slice == s.slice
  {
    hide MoreRequested;
    if AsksList(s, f) {
      MoreIs(s, f, None);
    } else {
      MoreAsksNothing(s, f);
    }
  }

  lemma AnswerKeepsSlice(s: State, e: Event)
    requires Inv(s) && CanHappen(s, e) && e.ListAnswer?
    ensures After(s, e).slice == s.slice
  {
    hide After, MoreRequested, Inv;
    var u := After(s, ListAnswer(e.id, e.answer, true, e.archive));
    PageIs(s, e.id, e.answer, e.archive, None);
    AsksOn(s, e.id, e.answer, e.archive);
    MoreKeepsSlice(u, None);
    MoreKeepsSlice(u, e.archive);
    assert e.exceptions == true || e.exceptions == false;
  }

  // In every run the slice is the one chosen last.
  lemma {:induction false} SliceIsChosen(events: seq<Event>)
    requires Run(events).Some?
    ensures Run(events).value.slice == SliceOf(events)
  {
    hide After, CanHappen, Inv;
    if events != [] {
      var front := events[..|events| - 1];
      SliceIsChosen(front);
      RunKeepsInv(front);
      StepKeepsSlice(Run(front).value, events[|events| - 1]);
    }
  }
}
