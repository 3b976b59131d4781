/** After a pass every page it touched holds the id of the one request for its own channel that asks for its message. */
module WebPagesTheorems {
  import opened Wrappers
  import opened FlatMap
  import opened WebPagesSpec

  lemma OrderIsDistinct(turns: map<PageId, Item>)
    ensures Distinct(Order(turns))
  {
    hide Ascending, Channels, HasPlain, Somes;
    AscendingLists(Channels(turns));
    var order, channels := Order(turns), Ascending(Channels(turns));
    var n := |order| - |channels|;
    assert n <= 1;
    forall i, j | 0 <= i < j < |order|
      ensures order[i] != order[j]
    {
      assert order[j] == Some(channels[j - n]);
      if i >= n {
        assert order[i] == Some(channels[i - n]) && channels[i - n] < channels[j - n];
      }
    }
  }

  lemma {:induction false} AssignedAt(order: seq<Option<Channel>>, lastId: nat, i: nat)
    requires i < |order| && Distinct(order)
    ensures order[i] in order && Assigned(order, lastId)[order[i]] == lastId + 1 + i
  {
    if i < |order| - 1 {
      AssignedAt(order[..|order| - 1], lastId, i);
    }
  }

  lemma {:induction false} SendingKeeps(s: State, turns: map<PageId, Item>, order: seq<Option<Channel>>, id: nat)
    ensures id in Sending(s, turns, order) <==> id in s.sent || s.lastId < id <= s.lastId + |order|
    ensures id in s.sent && id <= s.lastId ==> Sending(s, turns, order)[id] == s.sent[id]
  {
    hide Messages, PagesOf, Ascending;
    if order != [] {
      SendingKeeps(s, turns, order[..|order| - 1], id);
    }
  }

  lemma {:induction false} SendingAt(s: State, turns: map<PageId, Item>, order: seq<Option<Channel>>, i: nat)
    requires i < |order|
    ensures s.lastId + 1 + i in Sending(s, turns, order)
    ensures Sending(s, turns, order)[s.lastId + 1 + i]
            == Sent(order[i], Messages(turns, Ascending(s.pending.Keys), order[i]), PagesOf(turns, order[i]))
  {
    hide Messages, PagesOf, Ascending;
    if i < |order| - 1 {
      SendingAt(s, turns, order[..|order| - 1], i);
    }
  }

  lemma {:induction false} MessagesAre(turns: map<PageId, Item>, pages: seq<PageId>, c: Option<Channel>, m: MsgId)
    ensures m in Messages(turns, pages, c)
            <==> exists p :: p in pages && p in turns && turns[p].channel == c && turns[p].msg == m
  {
    if pages != [] {
      MessagesAre(turns, pages[..|pages| - 1], c, m);
      assert pages == pages[..|pages| - 1] + [pages[|pages| - 1]];
    }
  }

  lemma MessageIsAsked(s: State, now: int, p: PageId)
    requires p in Turns(s, now)
    ensures var item := Turns(s, now)[p]; item.msg in Messages(Turns(s, now), Ascending(s.pending.Keys), item.channel)
  {
    hide Ascending;
    AscendingLists(s.pending.Keys);
    var turns := Turns(s, now);
    assert p in s.pending.Keys;
    MessagesAre(turns, Ascending(s.pending.Keys), turns[p].channel, turns[p].msg);
  }

  ghost predicate Inv(s: State) {
    && (forall p :: p in s.pending ==> p in s.pages && PendingInv(s, p))
    && (forall id :: id in s.sent ==> 0 < id <= s.lastId)
    && (forall id :: id in s.answered ==> id in s.sent)
  }

  // A page waits for nothing, or for a request that was sent for it and is not answered.
  predicate PendingInv(s: State, p: PageId)
    requires p in s.pending
  {
    var id := s.pending[p];
    id == 0 || (id > 0 && id in s.sent && id !in s.answered && p in s.sent[id].pages)
  }

  // The request of one touched page
  lemma TouchedId(s: State, now: int, p: PageId) returns (i: nat)
    requires p in Turns(s, now)
    ensures var (t, order) := (Resolved(s, now), Order(Turns(s, now)));
            p in t.pending && i < |order| && order[i] == Turns(s, now)[p].channel && t.pending[p] == s.lastId + 1 + i
  {
    hide Turns, Order, Sending, NextTimer, Assigned;
    var turns := Turns(s, now);
    var order := Order(turns);
    TurnsInPending(s, now);
    TurnsAreOrdered(turns);
    OrderIsDistinct(turns);
    i :| 0 <= i < |order| && order[i] == turns[p].channel;
    AssignedAt(order, s.lastId, i);
  }

  lemma TouchedPage(s: State, now: int, p: PageId)
    requires p in Turns(s, now)
    ensures p in Resolved(s, now).pending
    ensures var (t, item) := (Resolved(s, now), Turns(s, now)[p]);
            var id := t.pending[p];
            && s.lastId < id <= t.lastId && id in t.sent && t.sent[id].channel == item.channel
            && item.msg in t.sent[id].ids && p in t.sent[id].pages
  {
    hide Ascending, Turns, Order, Wait, Resolved, Sending;
    ResolvedFrame(s, now);
    var i := TouchedId(s, now, p);
    SendingAt(s, Turns(s, now), Order(Turns(s, now)), i);
    MessageIsAsked(s, now, p);
  }

  lemma TurnsInPending(s: State, now: int)
    ensures forall p :: p in Turns(s, now) ==> p in s.pending && s.pending[p] <= 0 && p in s.pages
  {
  }

  // Two touched pages share a request exactly when they share a channel.
  lemma OneRequestForEachChannel(s: State, now: int, p: PageId, q: PageId)
    requires p in Turns(s, now) && q in Turns(s, now)
    ensures p in Resolved(s, now).pending && q in Resolved(s, now).pending
    ensures var (t, turns) := (Resolved(s, now), Turns(s, now));
            t.pending[p] == t.pending[q] <==> turns[p].channel == turns[q].channel
  {
    hide Resolved, Turns;
    TouchedPage(s, now, p);
    TouchedPage(s, now, q);
    OrderIsDistinct(Turns(s, now));
    var i := TouchedId(s, now, p);
    var j := TouchedId(s, now, q);
  }

  lemma UntouchedPage(s: State, now: int, p: PageId)
    ensures var t := Resolved(s, now);
            && (p in t.pending <==> p in s.pending)
            && (p in s.pending && p !in Turns(s, now) ==> t.pending[p] == s.pending[p])
  {
    hide Turns, Order, Sending, NextTimer, Assigned;
  }

  lemma SentByPass(s: State, now: int, id: nat) returns (i: nat)
    requires forall k :: k in s.sent ==> k <= s.lastId
    requires id in Resolved(s, now).sent && id > s.lastId
    ensures var (t, turns) := (Resolved(s, now), Turns(s, now));
            && id == s.lastId + 1 + i && i < |Order(turns)|
            && t.sent[id] == Sent(Order(turns)[i], Messages(turns, Ascending(s.pending.Keys), Order(turns)[i]),
                                  PagesOf(turns, Order(turns)[i]))
  {
    hide Ascending, Turns, Order, Resolved, Messages, PagesOf, NextTimer, Sending;
    ResolvedFrame(s, now);
    SendingKeeps(s, Turns(s, now), Order(Turns(s, now)), id);
    i := id - s.lastId - 1;
    SendingAt(s, Turns(s, now), Order(Turns(s, now)), i);
  }

  // A request of this pass asks for the messages of touched pages of its channel, and of nothing else.
  lemma AsksForTouched(s: State, now: int, id: nat, m: MsgId)
    requires forall k :: k in s.sent ==> k <= s.lastId
    requires id in Resolved(s, now).sent && id > s.lastId && m in Resolved(s, now).sent[id].ids
    ensures var (t, turns) := (Resolved(s, now), Turns(s, now));
            exists p :: p in turns && p in t.pending && turns[p] == Item(t.sent[id].channel, m) && t.pending[p] == id
  {
    hide Ascending, Turns, Order, Resolved, Messages;
    var (t, turns) := (Resolved(s, now), Turns(s, now));
    var i := SentByPass(s, now, id);
    MessagesAre(turns, Ascending(s.pending.Keys), Order(turns)[i], m);
    var p :| p in Ascending(s.pending.Keys) && p in turns && turns[p].channel == Order(turns)[i] && turns[p].msg == m;
    var j := TouchedId(s, now, p);
    OrderIsDistinct(turns);
    assert turns[p] == Item(t.sent[id].channel, m) && t.pending[p] == id;
  }

  // The pass leaves no temporary id behind.
  lemma NoTemporaryIdIsLeft(s: State, now: int)
    requires Inv(s)
    ensures forall p :: p in Resolved(s, now).pending ==> Resolved(s, now).pending[p] >= 0
  {
    hide Resolved, Turns;
    forall p | p in Resolved(s, now).pending
      ensures Resolved(s, now).pending[p] >= 0
    {
      UntouchedPage(s, now, p);
      if p in Turns(s, now) {
        TouchedPage(s, now, p);
      }
    }
  }

  lemma ResolvedFrame(s: State, now: int)
    ensures var t := Resolved(s, now);
            && t.pages == s.pages && t.answered == s.answered && t.lastId >= s.lastId
            && t.sent == Sending(s, Turns(s, now), Order(Turns(s, now)))
            && t.lastId == s.lastId + |Order(Turns(s, now))|
            && t.timer == NextTimer(s, now)
  {
    hide Turns, Order, Sending, NextTimer, Assigned;
  }

  lemma PassKeepsInv(s: State, now: int)
    requires Inv(s)
    ensures Inv(Resolved(s, now))
  {
    hide Resolved, Turns, Order, Sending, NextTimer;
    var (t, turns) := (Resolved(s, now), Turns(s, now));
    ResolvedFrame(s, now);
    forall id: nat
      ensures id in t.sent <==> id in s.sent || s.lastId < id <= t.lastId
      ensures id in s.sent ==> t.sent[id] == s.sent[id]
    {
      SendingKeeps(s, turns, Order(turns), id);
    }
    forall p | p in t.pending
      ensures p in t.pages && PendingInv(t, p)
    {
      UntouchedPage(s, now, p);
      if p in turns {
        TouchedPage(s, now, p);
      }
    }
  }

  // The pass does not look at the timer.
  lemma TimerApart(s: State, now: int)
    ensures Turns(s.(timer := None), now) == Turns(s, now)
  {
  }

  lemma UntimedKeepsInv(s: State)
    requires Inv(s)
    ensures Inv(s.(timer := None))
  {
    var t := s.(timer := None);
    forall p | p in t.pending
      ensures PendingInv(t, p)
    {
      assert PendingInv(s, p);
    }
  }

  lemma FiredKeepsInv(s: State, now: int)
    requires Inv(s)
    ensures Inv(Fired(s, now))
  {
    hide Resolved, Inv;
    UntimedKeepsInv(s);
    PassKeepsInv(s.(timer := None), now);
  }

  lemma StepKeepsInv(s: State, e: Event)
    requires Inv(s) && CanHappen(s, e)
    ensures Inv(After(s, e))
  {
    hide Resolved;
    match e {
      case Pass(now) => FiredKeepsInv(s, now);
      case Answer(id) =>
        var t := After(s, e);
        forall p | p in t.pending
          ensures p in t.pages && PendingInv(t, p)
        {
          assert PendingInv(s, p);
        }
      case Delay(page, now) =>
        var t := After(s, e);
        forall p | p in t.pending
          ensures p in t.pages && PendingInv(t, p)
        {
          assert p in s.pending ==> PendingInv(s, p);
        }
      case ClearAll =>
      case _ =>
        assert forall p :: p in s.pending ==> PendingInv(s, p);
        var t := After(s, e);
        forall p | p in t.pending
          ensures PendingInv(t, p)
        {
        }
    }
  }

  lemma {:induction false} RunKeepsInv(events: seq<Event>)
    requires Run(events).Some?
    ensures Inv(Run(events).value)
  {
    hide After, CanHappen, Inv;
    if events == [] {
      assert Inv(INITIAL) by { StartHasInv(); }
    } else {
      RunKeepsInv(events[..|events| - 1]);
      StepKeepsInv(Run(events[..|events| - 1]).value, events[|events| - 1]);
    }
  }

  lemma StartHasInv()
    ensures Inv(INITIAL)
  {
  }

  // In every run: a pass gives each page it touches the id of the one new request to the page's own channel, which
  // asks for the page's message, and gives nothing to any other page.
  lemma PassAssignsRequests(events: seq<Event>, now: int, p: PageId)
    requires Run(events).Some? && CanHappen(Run(events).value, Pass(now)) && p in Run(events).value.pending
    ensures var s := Run(events).value;
            var (t, turns) := (After(s, Pass(now)), Turns(s, now));
            && t.pending.Keys == s.pending.Keys && t.pending[p] >= 0
            && (p !in turns ==> t.pending[p] == s.pending[p])
            && (p in turns ==> var id := t.pending[p];
                  && id in t.sent && id !in s.sent && t.sent[id].channel == turns[p].channel
                  && turns[p].msg in t.sent[id].ids
                  && forall q :: q in turns ==> (t.pending[q] == id <==> turns[q].channel == turns[p].channel))
  {
    hide Run, Resolved, Turns;
    RunKeepsInv(events);
    var s := Run(events).value.(timer := None);
    TimerApart(Run(events).value, now);
    var (t, turns) := (Resolved(s, now), Turns(s, now));
    assert forall q :: q in s.pending ==> PendingInv(Run(events).value, q);
    NoTemporaryIdIsLeft(s, now);
    forall q: PageId
      ensures q in t.pending <==> q in s.pending
      ensures q in s.pending && q !in turns ==> t.pending[q] == s.pending[q]
    {
      UntouchedPage(s, now, q);
    }
    if p in turns {
      TouchedPage(s, now, p);
      forall q | q in turns
        ensures q in t.pending && (t.pending[q] == t.pending[p] <==> turns[q].channel == turns[p].channel)
      {
        TurnsInPending(s, now);
        OneRequestForEachChannel(s, now, q, p);
      }
    }
  }

  // The timer is set to the shortest wait of a page that is not due yet, and to a day at most.
  lemma {:induction false} WaitIsShortest(s: State, now: int, pages: seq<PageId>, p: PageId)
    requires p in pages && p in s.pending && s.pending[p] <= 0 && p in s.pages && s.pages[p].pendingTill > now
    ensures Wait(s, now, pages) <= s.pages[p].pendingTill - now
  {
    var front := pages[..|pages| - 1];
    if p in front {
      WaitIsShortest(s, now, front, p);
    }
  }

  lemma TimerDoesNotOversleep(s: State, now: int, p: PageId)
    requires p in s.pending && s.pending[p] <= 0 && p in s.pages && s.pages[p].pendingTill > now
    requires s.pages[p].pendingTill - now < INT_MAX
    ensures Resolved(s, now).timer.Some?
    ensures Resolved(s, now).timer.value <= 1000 * Min(s.pages[p].pendingTill - now, DAY)
  {
    hide Resolved, Wait, Ascending;
    AscendingLists(s.pending.Keys);
    assert p in Ascending(s.pending.Keys);
    WaitIsShortest(s, now, Ascending(s.pending.Keys), p);
    ResolvedFrame(s, now);
  }

  // The pages that a pass can neither ask for nor wait for: due and shown in no message, or due in 68 years
  function Overlooked(s: State, now: int): set<PageId> {
    set p | p in s.pending && s.pending[p] <= 0 && p in s.pages
            && if s.pages[p].pendingTill <= now then s.pages[p].item.None?
               else s.pages[p].pendingTill - now >= INT_MAX
  }

  function LastOverlooked(events: seq<Event>): set<PageId>
    requires Run(events).Some?
  {
    if events == [] then {} else
      var (front, last) := (events[..|events| - 1], events[|events| - 1]);
      if last.Pass? then Overlooked(Run(front).value, last.now) else LastOverlooked(front)
  }

  ghost predicate IsTimed(s: State, overlooked: set<PageId>) {
    s.timer.None? ==> forall p :: p in s.pending && s.pending[p] <= 0 ==> p in overlooked
  }

  lemma NoTurn(s: State, now: int, p: PageId)
    requires Inv(s) && p in s.pending && s.pending[p] <= 0 && p !in Turns(s, now)
    ensures s.pages[p].pendingTill > now || s.pages[p].item.None?
  {
  }

  lemma PassIsTimed(s: State, now: int)
    requires Inv(s)
    ensures IsTimed(Fired(s, now), Overlooked(s, now))
  {
    hide Resolved, Turns;
    var r := s.(timer := None);
    var t := Resolved(r, now);
    TimerApart(s, now);
    if t.timer.None? {
      assert Inv(r) by { UntimedKeepsInv(s); }
      forall p | p in t.pending && t.pending[p] <= 0
        ensures p in Overlooked(s, now)
      {
        UntouchedPage(r, now, p);
        if p in Turns(r, now) {
          TouchedPage(r, now, p);
        }
        NoTurn(r, now, p);
        if 0 < s.pages[p].pendingTill - now < INT_MAX {
          TimerDoesNotOversleep(r, now, p);
        }
      }
    }
  }

  lemma StepIsTimed(s: State, e: Event, overlooked: set<PageId>)
    requires Inv(s) && CanHappen(s, e) && IsTimed(s, overlooked)
    ensures IsTimed(After(s, e), if e.Pass? then Overlooked(s, e.now) else overlooked)
  {
    hide Resolved, Turns, Inv;
    if e.Pass? {
      PassIsTimed(s, e.now);
    } else if e.Answer? {
      var t := After(s, e);
      forall p | p in t.pending && t.pending[p] <= 0
        ensures p in s.pending && s.pending[p] <= 0
      {
      }
    }
  }

  // In every run, while the timer is not active, no page waits to be asked for but those that the last pass could
  // neither ask for nor wait for.
  lemma {:induction false} WaitersAreTimed(events: seq<Event>)
    requires Run(events).Some?
    ensures IsTimed(Run(events).value, LastOverlooked(events))
  {
    hide After, CanHappen, Inv, IsTimed, Overlooked;
    if events == [] {
      NothingWaits();
    } else {
      var (front, last) := (events[..|events| - 1], events[|events| - 1]);
      WaitersAreTimed(front);
      RunKeepsInv(front);
      StepIsTimed(Run(front).value, last, LastOverlooked(front));
    }
  }

  lemma NothingWaits()
    ensures IsTimed(INITIAL, {})
  {
  }
}
