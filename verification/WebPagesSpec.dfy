/** Web pages that wait for their content: which of them one pass asks for, and with which requests. */
module WebPagesSpec {
  import opened Wrappers
  import opened FlatMap

  type Channel = Id

  type MsgId = Id

  type PageId = Id

  const INT_MAX: int := 0x7FFF_FFFF

  const DAY: int := 86400

  // The message that shows a page, in a channel or outside of one
  datatype Item = Item(channel: Option<Channel>, msg: MsgId)

  // A page waits until a time, and shows in a message or in none.
  datatype Page = Page(pendingTill: int, failed: bool, item: Option<Item>)

  type Pages = map<PageId, Page>

  // A request on its way: the channel it goes to, the messages it asks for, the pages it is for
  datatype Sent = Sent(channel: Option<Channel>, ids: seq<MsgId>, pages: set<PageId>)

  // The pending table holds 0 for a page that is not asked for; the timer, while it is active, the milliseconds left.
  datatype State = State(
    pages: Pages, pending: map<PageId, int>, timer: Option<int>,
    sent: map<nat, Sent>, lastId: nat, answered: set<nat>)

  // The pages of this pass: not asked for yet, due, and shown in a message
  predicate IsDue(s: State, now: int, p: PageId) {
    p in s.pages && s.pages[p].pendingTill <= now
  }

  function Turns(s: State, now: int): map<PageId, Item> {
    map p | p in s.pending && s.pending[p] <= 0 && IsDue(s, now, p) && s.pages[p].item.Some? :: s.pages[p].item.value
  }

  function Channels(turns: map<PageId, Item>): set<Channel> {
    set p | p in turns && turns[p].channel.Some? :: turns[p].channel.value
  }

  function Somes(channels: seq<Channel>): (order: seq<Option<Channel>>)
    ensures |order| == |channels|
    ensures forall i :: 0 <= i < |order| ==> order[i] == Some(channels[i])
  {
    seq(|channels|, i requires 0 <= i < |channels| => Some(channels[i]))
  }

  // The requests of one pass: first the one outside channels, then one for each channel
  predicate HasPlain(turns: map<PageId, Item>) {
    exists p :: p in turns && turns[p].channel == None
  }

  function Plain(turns: map<PageId, Item>): (order: seq<Option<Channel>>)
    ensures |order| <= 1
  {
    if HasPlain(turns) then [None] else []
  }

  function Order(turns: map<PageId, Item>): seq<Option<Channel>> {
    Plain(turns) + Somes(Ascending(Channels(turns)))
  }

  // Their ids follow the last one that was used.
  function Assigned(order: seq<Option<Channel>>, lastId: nat): (ids: map<Option<Channel>, nat>)
    ensures forall c :: c in ids <==> c in order
  {
    if order == [] then map[] else
      var front := order[..|order| - 1];
      assert order == front + [order[|order| - 1]];
      Assigned(front, lastId)[order[|order| - 1] := lastId + |order|]
  }

  // The messages to ask for in one channel, in the order of the pages
  function Messages(turns: map<PageId, Item>, pages: seq<PageId>, c: Option<Channel>): seq<MsgId> {
    if pages == [] then [] else
      var (front, last) := (pages[..|pages| - 1], pages[|pages| - 1]);
      Messages(turns, front, c) + if last in turns && turns[last].channel == c then [turns[last].msg] else []
  }

  function PagesOf(turns: map<PageId, Item>, c: Option<Channel>): set<PageId> {
    set p | p in turns && turns[p].channel == c
  }

  function Sending(s: State, turns: map<PageId, Item>, order: seq<Option<Channel>>): map<nat, Sent> {
    if order == [] then s.sent else
      var (front, last) := (order[..|order| - 1], order[|order| - 1]);
      Sending(s, turns, front)[
        s.lastId + |order| := Sent(last, Messages(turns, Ascending(s.pending.Keys), last), PagesOf(turns, last))]
  }

  // resolveWebPages
  function Resolved(s: State, now: int): State {
    var turns := Turns(s, now);
    var order := Order(turns);
    var ids := Assigned(order, s.lastId);
    assert forall p :: p in turns ==> turns[p].channel in ids by { TurnsAreOrdered(turns); }
    s.(pending := map p | p in s.pending :: if p in turns then ids[turns[p].channel] else s.pending[p],
       sent := Sending(s, turns, order),
       lastId := s.lastId + |order|,
       timer := NextTimer(s, now))
  }

  lemma TurnsAreOrdered(turns: map<PageId, Item>)
    ensures forall p :: p in turns ==> turns[p].channel in Order(turns)
  {
    hide Ascending;
    AscendingLists(Channels(turns));
    forall p | p in turns
      ensures turns[p].channel in Order(turns)
    {
      var c := turns[p].channel;
      if c.Some? {
        var channels := Ascending(Channels(turns));
        assert c.value in Channels(turns);
        var i :| 0 <= i < |channels| && channels[i] == c.value;
        assert Somes(channels)[i] == c;
      }
    }
  }

  // The shortest wait among the pages that are not due yet
  function Wait(s: State, now: int, pages: seq<PageId>): (m: int)
    ensures m <= INT_MAX
  {
    if pages == [] then INT_MAX else
      var (front, last) := (pages[..|pages| - 1], pages[|pages| - 1]);
      var m := Wait(s, now, front);
      if last in s.pending && s.pending[last] <= 0 && last in s.pages && s.pages[last].pendingTill > now
      then Min(m, s.pages[last].pendingTill - now) else m
  }

  function Min(a: int, b: int): int {
    if a < b then a else b
  }

  function NextTimer(s: State, now: int): Option<int> {
    var m := Wait(s, now, Ascending(s.pending.Keys));
    if m < INT_MAX then Some(Min(m, DAY) * 1000) else s.timer
  }

  // The timer runs down, and is not active any more when it calls for a pass.
  function Elapsed(s: State, ms: nat): State {
    s.(timer := if s.timer.None? then None else Some(if s.timer.value > ms then s.timer.value - ms else 0))
  }

  function Fired(s: State, now: int): State {
    Resolved(s.(timer := None), now)
  }

  // requestWebPageDelayed
  function Delayed(s: State, p: PageId, now: int): State
    requires p in s.pages
  {
    if s.pages[p].failed || s.pages[p].pendingTill == 0 then s
    else
      var left := (s.pages[p].pendingTill - now) * 1000;
      s.(pending := if p in s.pending then s.pending else s.pending[p := 0],
         timer := if s.timer.None? || left <= s.timer.value then Some((if left < 0 then 0 else left) + 1) else s.timer)
  }

  // clearWebPageRequest
  function Cleared(s: State, p: PageId): State {
    var pending := s.pending - {p};
    s.(pending := pending, timer := if pending == map[] then None else s.timer)
  }

  // gotWebPages: the pages that the answer did not fill have failed.
  function Got(s: State, req: nat): State {
    s.(pending := map p | p in s.pending && s.pending[p] != req :: s.pending[p],
       pages := map p | p in s.pages ::
                  if p in s.pending && s.pending[p] == req then Settled(s.pages[p]) else s.pages[p])
  }

  function Settled(page: Page): Page {
    if page.pendingTill > 0 then page.(pendingTill := 0, failed := true) else page
  }

  // What can happen. Pages come, change and move as their surroundings like; time goes by, and a pass is made when the
  // timer has run down; a request is answered at most once.
  datatype Event =
    | Change(pages: Pages)
    | Delay(page: PageId, now: int)
    | Clear(page: PageId)
    | ClearAll
    | Elapse(ms: nat)
    | Pass(now: int)
    | Answer(id: nat)

  predicate CanHappen(s: State, e: Event) {
    match e
    case Change(pages) => s.pages.Keys <= pages.Keys
    case Delay(page, _) => page in s.pages
    case Clear(_) => true
    case ClearAll => true
    case Elapse(_) => true
    case Pass(_) => s.timer == Some(0)
    case Answer(id) => id in s.sent && id !in s.answered
  }

  function After(s: State, e: Event): State
    requires CanHappen(s, e)
  {
    match e
    case Change(pages) => s.(pages := pages)
    case Delay(page, now) => Delayed(s, page, now)
    case Clear(page) => Cleared(s, page)
    case ClearAll => s.(pending := map[], timer := None)
    case Elapse(ms) => Elapsed(s, ms)
    case Pass(now) => Fired(s, now)
    case Answer(id) => Got(s.(answered := s.answered + {id}), id)
  }

  const INITIAL := State(map[], map[], None, map[], 0, {})

  function Run(events: seq<Event>): Option<State> {
    if events == [] then Some(INITIAL) else
      var s :- Run(events[..|events| - 1]);
      var e := events[|events| - 1];
      if CanHappen(s, e) then Some(After(s, e)) else None
  }
}
