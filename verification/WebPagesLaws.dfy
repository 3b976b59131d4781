/** Which pages a pass asks for, when the timer calls for the next one, and what becomes of a page that is answered,
    told from dates and messages. */
module WebPagesLaws {
  import opened Wrappers
  import opened FlatMap
  import opened WebPagesSpec
  import opened WebPagesTheorems

  // A page that no request is for is due, and a message shows it.
  predicate IsAskable(s: State, now: int, p: PageId) {
    && p in s.pending && s.pending[p] == 0
    && p in s.pages && s.pages[p].pendingTill <= now && s.pages[p].item.Some?
  }

  // A page that no request is for is not due yet.
  predicate IsEarly(s: State, now: int, p: PageId) {
    p in s.pending && s.pending[p] == 0 && p in s.pages && s.pages[p].pendingTill > now
  }

  lemma TurnIff(s: State, now: int, p: PageId)
    requires Inv(s)
    ensures p in Turns(s, now) <==> IsAskable(s, now, p)
    ensures p in Turns(s, now) ==> Turns(s, now)[p] == s.pages[p].item.value
  {
  }

  // A pass gives a page a request exactly if it is due and shown, and leaves every other page as it was.
  lemma AskedIff(s: State, now: int, p: PageId)
    requires Inv(s) && p in s.pending
    ensures var t := Resolved(s, now);
            && p in t.pending
            && (IsAskable(s, now, p) ==>
                  var (id, item) := (t.pending[p], s.pages[p].item.value);
                  && s.lastId < id <= t.lastId && id in t.sent && t.sent[id].channel == item.channel
                  && item.msg in t.sent[id].ids)
            && (!IsAskable(s, now, p) ==> t.pending[p] == s.pending[p])
  {
    hide Resolved, Turns;
    TurnIff(s, now, p);
    UntouchedPage(s, now, p);
    if p in Turns(s, now) {
      TouchedPage(s, now, p);
    }
  }

  // Two such pages share a request exactly if their messages are in the same channel, or both outside of one.
  lemma SharedIff(s: State, now: int, p: PageId, q: PageId)
    requires Inv(s) && IsAskable(s, now, p) && IsAskable(s, now, q)
    ensures var t := Resolved(s, now);
            && p in t.pending && q in t.pending
            && (t.pending[p] == t.pending[q] <==> s.pages[p].item.value.channel == s.pages[q].item.value.channel)
  {
    hide Resolved, Turns;
    TurnIff(s, now, p);
    TurnIff(s, now, q);
    OneRequestForEachChannel(s, now, p, q);
  }

  // A new request asks for exactly the messages that show such pages in its channel; the old ones stay as they are.
  lemma AsksForExactly(s: State, now: int, id: nat, m: MsgId)
    requires Inv(s) && id in Resolved(s, now).sent
    ensures var t := Resolved(s, now);
            && (id in s.sent ==> t.sent[id] == s.sent[id])
            && (id !in s.sent ==>
                  (m in t.sent[id].ids <==>
                     exists p :: IsAskable(s, now, p) && s.pages[p].item.value == Item(t.sent[id].channel, m)))
  {
    hide Resolved, Turns, Order, Ascending, Messages, Sending, NextTimer;
    var t := Resolved(s, now);
    ResolvedFrame(s, now);
    SendingKeeps(s, Turns(s, now), Order(Turns(s, now)), id);
    if id !in s.sent {
      var i := SentByPass(s, now, id);
      var c := Order(Turns(s, now))[i];
      MessagesAre(Turns(s, now), Ascending(s.pending.Keys), c, m);
      AscendingLists(s.pending.Keys);
      forall p
        ensures p in Ascending(s.pending.Keys) && p in Turns(s, now) && Turns(s, now)[p].channel == c
                && Turns(s, now)[p].msg == m
                <==> IsAskable(s, now, p) && s.pages[p].item.value == Item(c, m)
      {
        TurnIff(s, now, p);
        assert p in s.pending ==> p in s.pending.Keys;
      }
    }
  }

  // It is for just the pages that it asks about, in every channel its own.
  lemma IsForExactly(s: State, now: int, id: nat, p: PageId)
    requires Inv(s) && id in Resolved(s, now).sent && id !in s.sent
    ensures var sent := Resolved(s, now).sent[id];
            p in sent.pages <==> IsAskable(s, now, p) && s.pages[p].item.value.channel == sent.channel
  {
    hide Resolved, Turns, Order, Ascending, Messages, Sending, NextTimer;
    ResolvedFrame(s, now);
    SendingKeeps(s, Turns(s, now), Order(Turns(s, now)), id);
    var i := SentByPass(s, now, id);
    TurnIff(s, now, p);
  }

  // The timer is set for the page that is due first, but for a day at most; without an early page it stays as it is.
  lemma {:induction false} WaitIs(s: State, now: int, pages: seq<PageId>)
    requires Inv(s)
    ensures var m := Wait(s, now, pages);
            || (m == INT_MAX
                && forall p :: p in pages && IsEarly(s, now, p) ==> s.pages[p].pendingTill - now >= INT_MAX)
            || exists p :: p in pages && IsEarly(s, now, p) && m == s.pages[p].pendingTill - now
  {
    if pages != [] {
      var (front, last) := (pages[..|pages| - 1], pages[|pages| - 1]);
      WaitIs(s, now, front);
      assert pages == front + [last];
      assert last in s.pending ==> PendingInv(s, last);
      if exists p :: p in front && IsEarly(s, now, p) && Wait(s, now, front) == s.pages[p].pendingTill - now {
        var p :| p in front && IsEarly(s, now, p) && Wait(s, now, front) == s.pages[p].pendingTill - now;
        assert p in pages;
      }
    }
  }

  lemma TimerIs(s: State, now: int)
    requires Inv(s)
    ensures var t := Resolved(s, now);
            || (t.timer == s.timer && forall p :: IsEarly(s, now, p) ==> s.pages[p].pendingTill - now >= INT_MAX)
            || exists p :: && IsEarly(s, now, p) && t.timer == Some(1000 * Min(s.pages[p].pendingTill - now, DAY))
                           && forall q :: IsEarly(s, now, q) ==> s.pages[q].pendingTill >= s.pages[p].pendingTill
  {
    hide Resolved, Wait, Ascending, Inv;
    var pages := Ascending(s.pending.Keys);
    AscendingLists(s.pending.Keys);
    ResolvedFrame(s, now);
    WaitIs(s, now, pages);
    forall q | IsEarly(s, now, q)
      ensures q in pages && Wait(s, now, pages) <= s.pages[q].pendingTill - now
    {
      assert q in s.pending.Keys;
      WaitIsShortest(s, now, pages, q);
    }
  }

  // A page that is to be waited for is pending afterwards; a timer that comes before its time is kept, and any other is
  // set to a millisecond after that.
  lemma DelayIs(s: State, p: PageId, now: int)
    requires p in s.pages
    ensures var (t, page) := (Delayed(s, p, now), s.pages[p]);
            var left := if page.pendingTill > now then 1000 * (page.pendingTill - now) else 0;
            if page.failed || page.pendingTill == 0 then t == s
            else
              && t.pending.Keys == s.pending.Keys + {p} && (p !in s.pending ==> t.pending[p] == 0)
              && (forall q :: q in s.pending ==> t.pending[q] == s.pending[q])
              && (s.timer.Some? && 0 <= s.timer.value < left ==> t.timer == s.timer)
              && (s.timer.None? || s.timer.value >= left ==> t.timer == Some(left + 1))
              && t == s.(pending := t.pending, timer := t.timer)
  {
  }

  // A page that is cleared is forgotten, and the timer with the last one.
  lemma ClearIs(s: State, p: PageId)
    ensures var t := Cleared(s, p);
            && p !in t.pending
            && (forall q :: q in s.pending && q != p ==> q in t.pending && t.pending[q] == s.pending[q])
            && t.pending.Keys <= s.pending.Keys && (t.pending.Keys == {} ==> t.timer == None)
            && (t.pending.Keys != {} ==> t.timer == s.timer) && t == s.(pending := t.pending, timer := t.timer)
  {
    var t := Cleared(s, p);
    assert t.pending.Keys == {} <==> t.pending == map[];
  }

  // An answer takes its own pages out; those that it did not fill have failed, and are not asked for again, whenever
  // they are shown. Other pages stay as they are.
  lemma AnswerIs(s: State, id: nat, p: PageId, later: int)
    requires id in s.sent && id !in s.answered && p in s.pages
    ensures var t := After(s, Answer(id));
            && t.pages.Keys == s.pages.Keys && t.timer == s.timer && t.sent == s.sent && t.answered == s.answered + {id}
            && (p in t.pending <==> p in s.pending && s.pending[p] != id)
            && (p in t.pending ==> t.pending[p] == s.pending[p])
            && (p in s.pending && s.pending[p] == id ==>
                  && t.pages[p].item == s.pages[p].item && t.pages[p].pendingTill <= 0
                  && (t.pages[p].failed <==> s.pages[p].failed || s.pages[p].pendingTill > 0)
                  && (s.pages[p].pendingTill >= 0 ==> Delayed(t, p, later) == t))
            && (!(p in s.pending && s.pending[p] == id) ==> t.pages[p] == s.pages[p])
  {
  }

  // The timer runs down to zero, and is not active any more when there is nothing left to wait for.
  lemma TimePasses(s: State, ms: nat)
    ensures var t := After(s, Elapse(ms));
            && (t.timer.Some? <==> s.timer.Some?)
            && (s.timer.Some? && s.timer.value >= ms ==> t.timer == Some(s.timer.value - ms))
            && (s.timer.Some? && s.timer.value < ms ==> t.timer == Some(0))
            && t == s.(timer := t.timer)
  {
  }

  lemma AllAreCleared(s: State)
    ensures After(s, ClearAll) == s.(pending := map[], timer := None)
  {
  }
}
