/** Loading the chats list page by page, in the main list and in folders: the state and what each step makes of it. */
module DialogsSpec {
  import opened Wrappers
  import opened FlatMap

  // A folder, or the main list
  type Folder = Option<Id>

  type RequestId = nat

  datatype Load = Load(
    offsetDate: int, requestId: RequestId, listReceived: bool, pinnedRequestId: RequestId, pinnedReceived: bool)

  const NEW_LOAD := Load(0, 0, false, 0, false)

  // The program keeps the loads, the time slice of the settings, and what may block the main load; its surroundings
  // know the requests on their way, the last request id, which loads began and were announced as done, and whether a
  // missing load was dereferenced.
  datatype State = State(
    main: Option<Load>, folders: map<Id, Load>, slice: int, till: int, mayBlock: bool, blocked: bool,
    lists: map<RequestId, Folder>, pinned: map<RequestId, Folder>, lastId: RequestId,
    begun: multiset<Folder>, done: multiset<Folder>, crashed: bool)

  const DEFAULT_SLICE := 7 * 24 * 60 * 60

  const INITIAL := State(
    Some(NEW_LOAD), map[], DEFAULT_SLICE, 0, false, false, map[], map[], 0, multiset{None}, multiset{}, false)

  function LoadOf(s: State, f: Folder): Option<Load> {
    match f
    case None => s.main
    case Some(folder) => if folder in s.folders then Some(s.folders[folder]) else None
  }

  function WithLoad(s: State, f: Folder, load: Load): State {
    match f
    case None => s.(main := Some(load))
    case Some(folder) => s.(folders := s.folders[folder := load])
  }

  function WithoutLoad(s: State, f: Folder): State {
    match f
    case None => s.(main := None)
    case Some(folder) => s.(folders := s.folders - {folder})
  }

  // refreshDialogsLoadBlocked
  function Refreshed(s: State): State {
    var waits := s.main.Some? && !s.main.value.listReceived && s.till > 0;
    s.(mayBlock := waits,
       blocked := waits && s.main.value.requestId == 0 && 0 < s.main.value.offsetDate <= s.till)
  }

  // requestPinnedDialogs
  function PinnedRequested(s: State, f: Folder): State {
    var load := LoadOf(s, f);
    if load.None? || load.value.pinnedReceived || load.value.pinnedRequestId != 0 then s
    else
      var id := s.lastId + 1;
      WithLoad(s, f, load.value.(pinnedRequestId := id)).(lastId := id, pinned := s.pinned[id := f])
  }

  // requestMoreDialogs
  function ListRequested(s: State, f: Folder, load: Load): State {
    var id := s.lastId + 1;
    WithLoad(s, f, load.(requestId := id)).(lastId := id, lists := s.lists[id := f])
  }

  predicate MayAsk(s: State, f: Folder) {
    LoadOf(s, f).Some? && LoadOf(s, f).value.requestId == 0 && !s.blocked
  }

  function MoreRequested(s: State, f: Folder): State {
    if !MayAsk(s, f) then s
    else
      var load := LoadOf(s, f).value;
      var listed := ListRequested(s, f, load);
      var t := if load.pinnedReceived then listed else PinnedRequested(listed, f);
      if f == None then Refreshed(t) else t
  }

  // requestDialogs
  function Begun(s: State, f: Folder): State {
    if f.Some? && LoadOf(s, f).None? then WithLoad(s, f, NEW_LOAD).(begun := s.begun + multiset{f}) else s
  }

  function Requested(s: State, f: Folder): State {
    MoreRequested(Begun(s, f), f)
  }

  // dialogsLoadFinish
  function Finished(s: State, f: Folder): State {
    var load := LoadOf(s, f);
    if load.None? || !load.value.listReceived || !load.value.pinnedReceived then s
    else WithoutLoad(s, f).(done := s.done + multiset{f})
  }

  function ListReceived(s: State, f: Folder): State {
    if LoadOf(s, f).None? then s else Finished(WithLoad(s, f, LoadOf(s, f).value.(listReceived := true)), f)
  }

  // updateDialogsOffset, for the date found in the page, or zero
  function OffsetUpdated(s: State, f: Folder, lastDate: int): State {
    if LoadOf(s, f).None? then s
    else if lastDate != 0 then WithLoad(s, f, LoadOf(s, f).value.(offsetDate := lastDate, requestId := 0))
    else ListReceived(s, f)
  }

  // requestMoreDialogsIfNeeded: an exception of a chat filter may be loaded first; the archive may be needed.
  function MoreIfNeeded(s: State, exceptions: bool, archive: Option<Id>): State {
    if exceptions then s
    else if s.main.Some? && !s.main.value.listReceived then
      if s.main.value.requestId != 0 then s else Requested(s, None)
    else if archive.Some? then MoreRequested(s, archive)
    else s
  }

  datatype Answer = NotModified | Dialogs | Slice(lastDate: int)

  function ListAnswered(s: State, f: Folder, answer: Answer, exceptions: bool, archive: Option<Id>): State {
    var t := match answer
      case NotModified => s
      case Dialogs => ListReceived(s, f)
      case Slice(lastDate) => OffsetUpdated(s, f, lastDate);
    var u := if f == None && (t.main.None? || !t.main.value.listReceived) then Refreshed(t) else t;
    MoreIfNeeded(u, exceptions, archive)
  }

  // The failure handler does not ask whether the load is still there.
  function ListFailed(s: State, f: Folder): State {
    if LoadOf(s, f).None? then s.(crashed := true) else WithLoad(s, f, LoadOf(s, f).value.(requestId := 0))
  }

  function PinnedAnswered(s: State, f: Folder): State {
    if LoadOf(s, f).None? then s
    else Finished(WithLoad(s, f, LoadOf(s, f).value.(pinnedRequestId := 0, pinnedReceived := true)), f)
  }

  // requestMoreBlockedByDateDialogs
  function BlockedRequested(s: State, now: int): State {
    if s.main.None? then s
    else
      var date := s.main.value.offsetDate;
      Requested(Refreshed(s.(till := (if date != 0 then date else now) - s.slice)), None)
  }

  // setupSupportMode: the time slice is chosen, at first and whenever it changes, also with a request on its way.
  function SliceChosen(s: State, seconds: int, now: int): State {
    var till := if seconds == 0 then 0 else if now - seconds < 0 then 0 else now - seconds;
    Refreshed(s.(slice := seconds, till := till))
  }

  // What can happen: dialogs are asked for, or asked for in spite of the date, by a button that works only while they
  // are blocked; the time slice is chosen; a list request is answered or fails; a pinned request is answered or fails,
  // which is the same to the load.
  datatype Event =
    | Request(folder: Folder)
    | RequestMore(folder: Folder)
    | RequestBlocked(now: int)
    | ChooseSlice(seconds: int, now: int)
    | ListAnswer(id: RequestId, answer: Answer, exceptions: bool, archive: Option<Id>)
    | ListFailure(id: RequestId)
    | PinnedAnswer(id: RequestId)

  predicate CanHappen(s: State, e: Event) {
    match e
    case RequestBlocked(_) => s.blocked
    case ListAnswer(id, _, _, _) => id in s.lists
    case ListFailure(id) => id in s.lists
    case PinnedAnswer(id) => id in s.pinned
    case _ => true
  }

  function After(s: State, e: Event): State
    requires CanHappen(s, e)
  {
    match e
    case Request(f) => Requested(s, f)
    case RequestMore(f) => MoreRequested(s, f)
    case RequestBlocked(now) => BlockedRequested(s, now)
    case ChooseSlice(seconds, now) => SliceChosen(s, seconds, now)
    case ListAnswer(id, answer, exceptions, archive) =>
      ListAnswered(s.(lists := s.lists - {id}), s.lists[id], answer, exceptions, archive)
    case ListFailure(id) => ListFailed(s.(lists := s.lists - {id}), s.lists[id])
    case PinnedAnswer(id) => PinnedAnswered(s.(pinned := s.pinned - {id}), s.pinned[id])
  }

  function Run(events: seq<Event>): Option<State> {
    if events == [] then Some(INITIAL) else
      var s :- Run(events[..|events| - 1]);
      var e := events[|events| - 1];
      if CanHappen(s, e) then Some(After(s, e)) else None
  }
}
