/** Requests for message data, coalesced by message: the state and what each step makes of it. */
module MessageDataSpec {
  import opened Wrappers
  import opened FlatMap

  type Channel = Id

  type MsgId = Id

  type RequestId = nat

  // The identity of one registered callback
  type Callback = nat

  // A message of a channel, or one outside channels
  datatype Key = Key(channel: Option<Channel>, msg: MsgId)

  datatype Entry = Entry(callbacks: seq<Callback>, requestId: RequestId)

  type Requests = map<MsgId, Entry>

  datatype Sent = Sent(channel: Option<Channel>, ids: seq<MsgId>)

  // The tables and the scheduled resolve are the program's; the rest is what its surroundings know: the requests on
  // their way, the last request id, where each callback was registered, and which callbacks were called.
  datatype State = State(
    main: Requests, channels: map<Channel, Requests>, scheduled: bool,
    outstanding: map<RequestId, Sent>, lastId: RequestId, home: map<Callback, Key>, fired: seq<Callback>)

  const INITIAL := State(map[], map[], false, map[], 0, map[], [])

  function Table(s: State, c: Option<Channel>): Requests {
    match c
    case None => s.main
    case Some(channel) => if channel in s.channels then s.channels[channel] else map[]
  }

  function WithTable(s: State, c: Option<Channel>, r: Requests): State {
    match c
    case None => s.(main := r)
    case Some(channel) => s.(channels := s.channels[channel := r])
  }

  // requestMessageData
  function Registered(r: Requests, msg: MsgId, done: Option<Callback>): Entry {
    var e := if msg in r then r[msg] else Entry([], 0);
    if done.Some? then e.(callbacks := e.callbacks + [done.value]) else e
  }

  function Requested(s: State, key: Key, done: Option<Callback>): State {
    var r := Table(s, key.channel);
    var e := Registered(r, key.msg, done);
    WithTable(s, key.channel, r[key.msg := e]).(
      scheduled := s.scheduled || e.requestId == 0,
      home := if done.Some? then s.home[done.value := key] else s.home)
  }

  // The messages that no request asks for yet
  function Waiting(r: Requests): set<MsgId> {
    set m | m in r && r[m].requestId <= 0
  }

  function Stamped(r: Requests, id: RequestId): Requests {
    map m | m in r :: if r[m].requestId > 0 then r[m] else r[m].(requestId := id)
  }

  // One request for everything that waits in one table
  function Asked(s: State, c: Option<Channel>): State {
    var ids := Ascending(Waiting(Table(s, c)));
    if ids == [] then s else
      var id := s.lastId + 1;
      WithTable(s, c, Stamped(Table(s, c), id)).(lastId := id, outstanding := s.outstanding[id := Sent(c, ids)])
  }

  function ChannelAsked(s: State, channel: Channel): State {
    if Table(s, Some(channel)) == map[] then s.(channels := s.channels - {channel}) else Asked(s, Some(channel))
  }

  function ChannelsAsked(s: State, order: seq<Channel>): State {
    if order == [] then s else ChannelAsked(ChannelsAsked(s, order[..|order| - 1]), order[|order| - 1])
  }

  // resolveMessageDatas
  function Resolved(s: State): State {
    ChannelsAsked(Asked(s.(scheduled := false), None), Ascending(s.channels.Keys))
  }

  // finalizeMessageDataRequest
  function Left(r: Requests, id: RequestId): Requests {
    map m | m in r && r[m].requestId != id :: r[m]
  }

  function Callbacks(r: Requests, keys: seq<MsgId>, id: RequestId): seq<Callback>
    requires forall m :: m in keys ==> m in r
  {
    if keys == [] then [] else
      var (front, last) := (keys[..|keys| - 1], keys[|keys| - 1]);
      Callbacks(r, front, id) + if r[last].requestId == id then r[last].callbacks else []
  }

  function Collected(r: Requests, id: RequestId): seq<Callback> {
    AscendingLists(r.Keys);
    Callbacks(r, Ascending(r.Keys), id)
  }

  function WithoutId(s: State, c: Option<Channel>, id: RequestId): State {
    var left := Left(Table(s, c), id);
    match c
    case None => s.(main := left)
    case Some(channel) =>
      if left == map[] then s.(channels := s.channels - {channel}) else s.(channels := s.channels[channel := left])
  }

  function Finalized(s: State, c: Option<Channel>, id: RequestId): State {
    WithoutId(s, c, id).(fired := s.fired + Collected(Table(s, c), id))
  }

  // What can happen: a message is requested, with a new callback if with any; the scheduled resolve runs; a request
  // on its way is answered or fails.
  datatype Event = Request(key: Key, done: Option<Callback>) | Resolve | Answer(id: RequestId)

  predicate CanHappen(s: State, e: Event) {
    match e
    case Request(_, done) => done.Some? ==> done.value !in s.home
    case Resolve => s.scheduled
    case Answer(id) => id in s.outstanding
  }

  function After(s: State, e: Event): State
    requires CanHappen(s, e)
  {
    match e
    case Request(key, done) => Requested(s, key, done)
    case Resolve => Resolved(s)
    case Answer(id) => Finalized(s.(outstanding := s.outstanding - {id}), s.outstanding[id].channel, id)
  }

  // The state after a run of events, if each could happen when it did
  function Run(events: seq<Event>): Option<State> {
    if events == [] then Some(INITIAL) else
      var s :- Run(events[..|events| - 1]);
      var e := events[|events| - 1];
      if CanHappen(s, e) then Some(After(s, e)) else None
  }
}
