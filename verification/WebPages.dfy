/** The pass over the waiting pages, with its temporary ids: -1 outside channels, -2 - index for each channel. */
module WebPagesCode {
  import opened Wrappers
  import opened FlatMap
  import opened WebPagesSpec
  import opened WebPagesTheorems

  // The index of a channel in this pass and the messages to ask for in it
  datatype Collected = Collected(index: nat, ids: seq<MsgId>)

  type ByChannel = map<Channel, Collected>

  predicate IndicesInv(table: ByChannel) {
    && (forall c :: c in table ==> table[c].index < |table|)
    && (forall c, d :: c in table && d in table && table[c].index == table[d].index ==> c == d)
  }

  // The channels met so far
  function Met(turns: map<PageId, Item>, pages: seq<PageId>): set<Channel> {
    if pages == [] then {} else
      var (front, last) := (pages[..|pages| - 1], pages[|pages| - 1]);
      Met(turns, front) + if last in turns && turns[last].channel.Some? then {turns[last].channel.value} else {}
  }

  lemma {:induction false} MetAre(turns: map<PageId, Item>, pages: seq<PageId>, c: Channel)
    ensures c in Met(turns, pages) <==> exists p :: p in pages && p in turns && turns[p].channel == Some(c)
  {
    if pages != [] {
      MetAre(turns, pages[..|pages| - 1], c);
      assert pages == pages[..|pages| - 1] + [pages[|pages| - 1]];
    }
  }

  ghost predicate Covers(pages: seq<PageId>, turns: map<PageId, Item>) {
    forall p :: p in turns ==> p in pages
  }

  lemma AllMet(turns: map<PageId, Item>, pages: seq<PageId>)
    requires Covers(pages, turns)
    ensures Met(turns, pages) == Channels(turns)
  {
    forall c: Channel
      ensures c in Met(turns, pages) <==> c in Channels(turns)
    {
      MetAre(turns, pages, c);
    }
  }

  lemma {:induction false} PlainMessages(turns: map<PageId, Item>, pages: seq<PageId>)
    ensures Messages(turns, pages, None) != [] <==> exists p :: p in pages && p in turns && turns[p].channel == None
  {
    if pages != [] {
      PlainMessages(turns, pages[..|pages| - 1]);
      assert pages == pages[..|pages| - 1] + [pages[|pages| - 1]];
    }
  }

  function TemporaryOf(index: int): int {
    -index - 2
  }

  // The temporary id of a touched page
  function Temporary(item: Item, table: ByChannel): int
    requires item.channel.Some? ==> item.channel.value in table
  {
    if item.channel.Some? then TemporaryOf(table[item.channel.value].index) else -1
  }

  // The table agrees with the pages walked so far.
  ghost predicate TableInv(turns: map<PageId, Item>, pages: seq<PageId>, table: ByChannel) {
    && table.Keys == Met(turns, pages)
    && IndicesInv(table)
    && forall c :: c in table ==> table[c].ids == Messages(turns, pages, Some(c))
  }

  method AddMessage(table: ByChannel, c: Channel, msg: MsgId) returns (added: ByChannel)
    requires IndicesInv(table)
    ensures added.Keys == table.Keys + {c} && IndicesInv(added)
    ensures forall d :: d in table ==> added[d].index == table[d].index && (d != c ==> added[d].ids == table[d].ids)
    ensures added[c].ids == (if c in table then table[c].ids else []) + [msg]
  {
    hide IndicesInv;
    if c !in table {
      added := table[c := Collected(|table|, [msg])];
    } else {
      added := table[c := table[c].(ids := table[c].ids + [msg])];
    }
    IndicesGrow(table, c, added);
  }

  lemma IndicesGrow(table: ByChannel, c: Channel, added: ByChannel)
    requires IndicesInv(table) && added.Keys == table.Keys + {c}
    requires forall d :: d in table ==> added[d].index == table[d].index
    requires c !in table ==> added[c].index == |table|
    ensures IndicesInv(added)
  {
    SizeGrows(table, c, added);
  }

  lemma SizeGrows(table: ByChannel, c: Channel, added: ByChannel)
    requires added.Keys == table.Keys + {c}
    ensures |added| == if c in table then |table| else |table| + 1
  {
    if c in table {
      assert table.Keys + {c} == table.Keys;
    }
  }

  lemma {:induction false} NotMet(turns: map<PageId, Item>, pages: seq<PageId>, c: Channel)
    requires c !in Met(turns, pages)
    ensures Messages(turns, pages, Some(c)) == []
  {
    if pages != [] {
      NotMet(turns, pages[..|pages| - 1], c);
    }
  }

  lemma NextMessages(turns: map<PageId, Item>, pages: seq<PageId>, i: nat, c: Option<Channel>)
    requires i < |pages|
    ensures Messages(turns, pages[..i + 1], c) ==
            Messages(turns, pages[..i], c)
            + (if pages[i] in turns && turns[pages[i]].channel == c then [turns[pages[i]].msg] else [])
  {
    assert pages[..i + 1][..i] == pages[..i];
  }

  lemma NextMet(turns: map<PageId, Item>, pages: seq<PageId>, i: nat)
    requires i < |pages|
    ensures Met(turns, pages[..i + 1]) ==
            Met(turns, pages[..i])
            + (if pages[i] in turns && turns[pages[i]].channel.Some? then {turns[pages[i]].channel.value} else {})
  {
    assert pages[..i + 1][..i] == pages[..i];
  }

  lemma TableUnchanged(turns: map<PageId, Item>, pages: seq<PageId>, i: nat, table: ByChannel)
    requires i < |pages| && TableInv(turns, pages[..i], table)
    requires pages[i] in turns ==> turns[pages[i]].channel == None
    ensures TableInv(turns, pages[..i + 1], table)
  {
    hide Messages, Met, IndicesInv;
    NextMet(turns, pages, i);
    forall c | c in table
      ensures table[c].ids == Messages(turns, pages[..i + 1], Some(c))
    {
      NextMessages(turns, pages, i, Some(c));
    }
  }

  method CollectPage(ghost turns: map<PageId, Item>, ghost pages: seq<PageId>, ghost i: nat, table: ByChannel,
                     c: Channel, msg: MsgId)
      returns (added: ByChannel)
    requires i < |pages| && TableInv(turns, pages[..i], table)
    requires pages[i] in turns && turns[pages[i]] == Item(Some(c), msg)
    ensures TableInv(turns, pages[..i + 1], added) && c in added
    ensures forall d :: d in table ==> d in added && added[d].index == table[d].index
  {
    hide Messages, Met, IndicesInv;
    added := AddMessage(table, c, msg);
    NextMet(turns, pages, i);
    if c !in table {
      NotMet(turns, pages[..i], c);
    }
    forall d | d in added
      ensures added[d].ids == Messages(turns, pages[..i + 1], Some(d))
    {
      NextMessages(turns, pages, i, Some(d));
    }
  }

  // Where the first loop stands before page i
  ghost predicate Walked(s: State, pending: map<PageId, int>, turns: map<PageId, Item>, walk: seq<PageId>, i: nat,
                         table: ByChannel)
    requires i <= |walk|
  {
    && pending.Keys == s.pending.Keys
    && (forall k :: 0 <= k < |walk| ==> walk[k] in s.pending)
    && (forall k :: i <= k < |walk| ==> pending[walk[k]] == s.pending[walk[k]])
    && (forall k :: 0 <= k < i ==> IsTemporary(s, turns, table, walk[k], pending[walk[k]]))
  }

  predicate IsTemporary(s: State, turns: map<PageId, Item>, table: ByChannel, p: PageId, id: int) {
    if p in turns then
      (turns[p].channel.Some? ==> turns[p].channel.value in table) && id == Temporary(turns[p], table)
    else p in s.pending && id == s.pending[p]
  }

  lemma NextWait(s: State, now: int, walk: seq<PageId>, i: nat)
    requires i < |walk|
    ensures Wait(s, now, walk[..i + 1]) ==
            var (p, m) := (walk[i], Wait(s, now, walk[..i]));
            if p in s.pending && s.pending[p] <= 0 && p in s.pages && s.pages[p].pendingTill > now
            then Min(m, s.pages[p].pendingTill - now) else m
  {
    assert walk[..i + 1][..i] == walk[..i];
  }

  class WebPages {
    var pages: Pages
    var pending: map<PageId, int>
    var timer: Option<int>
    var sent: map<nat, Sent>
    var lastId: nat
    var answered: set<nat>

    function Value(): State
      reads this
    {
      State(pages, pending, timer, sent, lastId, answered)
    }

    constructor ()
      ensures Value() == INITIAL
    {
      pages, pending, timer, sent, lastId, answered := map[], map[], None, map[], 0, {};
    }

    method RequestWebPageDelayed(page: PageId, now: int)
      requires page in pages
      modifies `pending, `timer
      ensures Value() == Delayed(old(Value()), page, now)
    {
      if pages[page].failed || pages[page].pendingTill == 0 {
        return;
      }
      if page !in pending {
        pending := pending[page := 0];
      }
      var left := (pages[page].pendingTill - now) * 1000;
      if timer.None? || left <= timer.value {
        timer := Some((if left < 0 then 0 else left) + 1);
      }
    }

    method ClearWebPageRequest(page: PageId)
      modifies `pending, `timer
      ensures Value() == Cleared(old(Value()), page)
    {
      pending := pending - {page};
      if pending == map[] && timer.Some? {
        timer := None;
      }
    }

    method VisitPage(now: int, ghost s: State, ghost turns: map<PageId, Item>, walk: seq<PageId>, i: nat,
                     ids: seq<MsgId>, table: ByChannel)
        returns (moreIds: seq<MsgId>, moreTable: ByChannel)
      requires i < |walk| && Distinct(walk) && Walked(s, pending, turns, walk, i, table)
      requires Value() == s.(pending := pending) && turns == Turns(s, now) && walk[i] in pages
      requires TableInv(turns, walk[..i], table) && ids == Messages(turns, walk[..i], None)
      modifies `pending
      ensures Walked(s, pending, turns, walk, i + 1, moreTable)
      ensures TableInv(turns, walk[..i + 1], moreTable) && moreIds == Messages(turns, walk[..i + 1], None)
    {
      hide Messages, TableInv;
      var page := walk[i];
      moreIds, moreTable := ids, table;
      NextMessages(turns, walk, i, None);
      if pending[page] > 0 || pages[page].pendingTill > now || pages[page].item.None? {
        TableUnchanged(turns, walk, i, table);
        return;
      }
      var item := pages[page].item.value;
      if item.channel.Some? {
        moreTable := CollectPage(turns, walk, i, table, item.channel.value, item.msg);
        pending := pending[page := TemporaryOf(moreTable[item.channel.value].index)];
      } else {
        moreIds := ids + [item.msg];
        TableUnchanged(turns, walk, i, table);
        pending := pending[page := -1];
      }
    }

    method ShortenWait(now: int, page: PageId, wait: int) returns (m: int)
      requires page in pending && page in pages
      ensures m == if pending[page] <= 0 && pages[page].pendingTill > now then Min(wait, pages[page].pendingTill - now)
                   else wait
    {
      m := wait;
      if pending[page] <= 0 && pages[page].pendingTill > now {
        m := Min(wait, pages[page].pendingTill - now);
      }
    }

    // The first loop: temporary ids, the messages to ask for, and the shortest wait
    method Collect(now: int, ghost turns: map<PageId, Item>, walk: seq<PageId>)
        returns (ids: seq<MsgId>, table: ByChannel, wait: int)
      requires walk == Ascending(pending.Keys) && pending.Keys <= pages.Keys && turns == Turns(Value(), now)
      modifies `pending
      ensures Walked(old(Value()), pending, turns, walk, |walk|, table)
      ensures TableInv(turns, walk, table) && ids == Messages(turns, walk, None)
      ensures wait == Wait(old(Value()), now, walk)
    {
      hide Messages, Turns, TableInv, Ascending, Wait, Rising, Distinct;
      ghost var s := Value();
      AscendingLists(pending.Keys);
      ids, table, wait := [], map[], INT_MAX;
      NothingCollected(s, now, turns, walk);
      assert forall k :: 0 <= k < |walk| ==> walk[k] in walk;
      for i := 0 to |walk|
        invariant Value() == s.(pending := pending) && Walked(s, pending, turns, walk, i, table)
        invariant TableInv(turns, walk[..i], table) && ids == Messages(turns, walk[..i], None)
        invariant wait == Wait(s, now, walk[..i])
      {
        NextWait(s, now, walk, i);
        wait := ShortenWait(now, walk[i], wait);
        ids, table := VisitPage(now, s, turns, walk, i, ids, table);
      }
      assert walk[..|walk|] == walk;
    }

    method Send(c: Option<Channel>, ids: seq<MsgId>, for_: set<PageId>) returns (id: nat)
      modifies `sent, `lastId
      ensures id == lastId == old(lastId) + 1 && sent == old(sent)[id := Sent(c, ids, for_)]
    {
      lastId := lastId + 1;
      id := lastId;
      sent := sent[id := Sent(c, ids, for_)];
    }

    // The requests: one outside channels if anything is asked for there, then one for each channel
    method SendAll(ghost s: State, turns: map<PageId, Item>, walk: seq<PageId>, ids: seq<MsgId>, table: ByChannel)
        returns (requestId: nat, byIndex: seq<nat>)
      requires walk == Ascending(s.pending.Keys) && Covers(walk, turns)
      requires TableInv(turns, walk, table) && ids == Messages(turns, walk, None)
      requires sent == s.sent && lastId == s.lastId
      modifies `sent, `lastId
      ensures sent == Sending(s, turns, Order(turns)) && lastId == s.lastId + |Order(turns)|
      ensures HasPlain(turns) ==> requestId == s.lastId + 1
      ensures HasPlain(turns) || table != map[] <==> requestId != 0 || byIndex != []
      ensures |byIndex| == |table| && IndicesInv(table) && table.Keys == Channels(turns)
      ensures forall c :: c in table ==>
                Some(c) in Assigned(Order(turns), s.lastId)
                  && byIndex[table[c].index] == Assigned(Order(turns), s.lastId)[Some(c)]
    {
      hide Messages, Sending, Assigned, Ascending, HasPlain, Channels, Order, IndicesInv, Met;
      AllMet(turns, walk);
      requestId := SendPlain(s, turns, walk, ids);
      byIndex := SendToChannels(s, turns, walk, table);
      forall c | c in table
        ensures table[c].index < |byIndex| && Some(c) in Assigned(Order(turns), s.lastId)
        ensures byIndex[table[c].index] == Assigned(Order(turns), s.lastId)[Some(c)]
      {
        var k := ChannelIsAssigned(turns, s.lastId, c);
        IndexInRange(table, c);
      }
    }

    method SendPlain(ghost s: State, turns: map<PageId, Item>, walk: seq<PageId>, ids: seq<MsgId>)
        returns (requestId: nat)
      requires walk == Ascending(s.pending.Keys) && Covers(walk, turns) && ids == Messages(turns, walk, None)
      requires sent == s.sent && lastId == s.lastId
      modifies `sent, `lastId
      ensures HasPlain(turns) ==> requestId == s.lastId + 1
      ensures !HasPlain(turns) ==> requestId == 0
      ensures sent == Sending(s, turns, Plain(turns))
      ensures lastId == s.lastId + |Plain(turns)|
    {
      hide Messages, Ascending;
      PlainMessages(turns, walk);
      requestId := 0;
      if ids != [] {
        requestId := Send(None, ids, PagesOf(turns, None));
        NextSending(s, turns, [None], 0);
      }
    }

    method SendToChannel(ghost s: State, turns: map<PageId, Item>, walk: seq<PageId>, table: ByChannel,
                         channels: seq<Channel>, k: nat, byIndex: seq<nat>, ghost o: nat)
        returns (filled: seq<nat>)
      requires walk == Ascending(s.pending.Keys) && TableInv(turns, walk, table) && IndicesInv(table)
      requires k < |channels| && channels[k] in table && Distinct(channels) && |byIndex| == |table|
      requires o + k < |Order(turns)| && Order(turns)[o + k] == Some(channels[k])
      requires sent == Sending(s, turns, Order(turns)[..o + k]) && lastId == s.lastId + o + k
      requires Filled(table, channels, k, byIndex, s.lastId + o)
      modifies `sent, `lastId
      ensures sent == Sending(s, turns, Order(turns)[..o + k + 1]) && lastId == s.lastId + o + k + 1
      ensures |filled| == |table| && Filled(table, channels, k + 1, filled, s.lastId + o)
    {
      hide Messages, Sending, Ascending, Order, TableInv, IndicesInv, Filled, PagesOf, Distinct;
      var c := channels[k];
      NextSending(s, turns, Order(turns), o + k);
      IndexInRange(table, c);
      TableHasMessages(turns, walk, table, c);
      var id := Send(Some(c), table[c].ids, PagesOf(turns, Some(c)));
      NextFilled(table, channels, k, byIndex, s.lastId + o);
      filled := byIndex[table[c].index := id];
    }

    method SendEach(ghost s: State, turns: map<PageId, Item>, walk: seq<PageId>, table: ByChannel,
                    channels: seq<Channel>, ghost o: nat)
        returns (byIndex: seq<nat>)
      requires walk == Ascending(s.pending.Keys) && TableInv(turns, walk, table) && IndicesInv(table)
      requires Distinct(channels) && |Order(turns)| == o + |channels|
      requires forall k :: 0 <= k < |channels| ==> channels[k] in table && Order(turns)[o + k] == Some(channels[k])
      requires sent == Sending(s, turns, Order(turns)[..o]) && lastId == s.lastId + o
      modifies `sent, `lastId
      ensures sent == Sending(s, turns, Order(turns)) && lastId == s.lastId + |Order(turns)|
      ensures |byIndex| == |table| && Filled(table, channels, |channels|, byIndex, s.lastId + o)
    {
      hide Messages, Sending, Ascending, Order, TableInv, IndicesInv, Filled, Distinct;
      byIndex := seq(|table|, i => 0);
      NothingFilled(table, channels, byIndex, s.lastId + o);
      for k := 0 to |channels|
        invariant |byIndex| == |table| && lastId == s.lastId + o + k
        invariant sent == Sending(s, turns, Order(turns)[..o + k])
        invariant Filled(table, channels, k, byIndex, s.lastId + o)
      {
        byIndex := SendToChannel(s, turns, walk, table, channels, k, byIndex, o);
      }
      assert Order(turns)[..|Order(turns)|] == Order(turns);
    }

    method SendToChannels(ghost s: State, turns: map<PageId, Item>, walk: seq<PageId>, table: ByChannel)
        returns (byIndex: seq<nat>)
      requires walk == Ascending(s.pending.Keys) && TableInv(turns, walk, table) && table.Keys == Channels(turns)
      requires IndicesInv(table)
      requires sent == Sending(s, turns, Plain(turns)) && lastId == s.lastId + |Plain(turns)|
      modifies `sent, `lastId
      ensures sent == Sending(s, turns, Order(turns)) && lastId == s.lastId + |Order(turns)|
      ensures |byIndex| == |table|
      ensures forall k :: 0 <= k < |Ascending(Channels(turns))| ==>
                var c := Ascending(Channels(turns))[k];
                c in table && byIndex[table[c].index] == s.lastId + |Plain(turns)| + k + 1
    {
      hide Messages, Sending, Ascending, Plain, Channels, Order, TableInv, IndicesInv, Filled, Rising, Distinct;
      ghost var o := |Plain(turns)|;
      var channels := Ascending(table.Keys);
      AscendingLists(table.Keys);
      OrderOf(turns);
      assert forall k :: 0 <= k < |channels| ==> channels[k] in channels;
      byIndex := SendEach(s, turns, walk, table, channels, o);
      AllFilled(table, channels, byIndex, s.lastId + o);
    }

    // The last loop: every temporary id becomes the id of its request.
    method Replace(ghost s: State, turns: map<PageId, Item>, walk: seq<PageId>, table: ByChannel, requestId: nat,
                   byIndex: seq<nat>)
      requires Walked(s, pending, turns, walk, |walk|, table) && Distinct(walk)
      requires (forall p :: p in walk <==> p in s.pending) && (forall p :: p in s.pending ==> s.pending[p] >= 0)
      requires |byIndex| == |table| && IndicesInv(table)
      modifies `pending
      ensures pending.Keys == s.pending.Keys
      ensures forall p :: p in s.pending ==> pending[p] == Replaced(s, turns, table, requestId, byIndex, p)
    {
      hide IndicesInv, IsTemporary, Replaced;
      for i := 0 to |walk|
        invariant pending.Keys == s.pending.Keys
        invariant forall k :: i <= k < |walk| ==> pending[walk[k]] == old(pending)[walk[k]]
        invariant forall k :: 0 <= k < i ==> pending[walk[k]] == Final(old(pending)[walk[k]], requestId, byIndex)
      {
        var page := walk[i];
        if pending[page] > 0 {
          continue;
        } else if pending[page] < 0 {
          if pending[page] == -1 {
            pending := pending[page := requestId];
          } else {
            assert IsTemporary(s, turns, table, page, pending[page]);
            TemporaryInRange(s, turns, table, page, pending[page], |byIndex|);
            pending := pending[page := byIndex[-pending[page] - 2]];
          }
        }
      }
      forall p | p in s.pending
        ensures pending[p] == Replaced(s, turns, table, requestId, byIndex, p)
      {
        var k :| 0 <= k < |walk| && walk[k] == p;
        assert IsTemporary(s, turns, table, walk[k], old(pending)[walk[k]]);
        FinalOfTemporary(s, turns, table, p, old(pending)[p], requestId, byIndex);
      }
    }

    // An answer: its pages leave the table, and those it did not fill have failed.
    method GotWebPages(req: nat)
      requires pending.Keys <= pages.Keys
      modifies `pending, `pages
      ensures Value() == Got(old(Value()), req)
    {
      hide Ascending, Rising, GotSome, Got;
      var walk := Ascending(pending.Keys);
      AscendingLists(pending.Keys);
      assert forall k :: 0 <= k < |walk| ==> walk[k] in walk;
      ghost var s, done := Value(), {};
      NothingGot(s, req);
      for i := 0 to |walk|
        invariant Value() == GotSome(s, req, done)
        invariant (forall k :: 0 <= k < i ==> walk[k] in done) && forall k :: i <= k < |walk| ==> walk[k] !in done
        invariant done <= s.pending.Keys
      {
        var page := walk[i];
        GotOne(s, req, done, page);
        if pending[page] == req {
          if pages[page].pendingTill > 0 {
            pages := pages[page := pages[page].(pendingTill := 0, failed := true)];
          }
          pending := pending - {page};
        }
        done := done + {page};
      }
      assert done == s.pending.Keys;
      GotAll(s, req);
    }

    method ResolveWebPages(now: int)
      requires pending.Keys <= pages.Keys && forall p :: p in pending ==> pending[p] >= 0
      modifies this
      ensures Value() == Resolved(old(Value()), now)
    {
      hide Turns, Order, Ascending, Sending, Assigned, Wait, TableInv, IndicesInv, HasPlain, Channels, Replaced,
           Messages, Walked, Rising, Distinct, Resolved;
      ghost var s := Value();
      ResolvedParts(s, now);
      var turns := Turns(Value(), now);
      var walk := Ascending(pending.Keys);
      AscendingLists(pending.Keys);
      TurnsInPending(s, now);
      var ids, table, wait := Collect(now, turns, walk);
      var requestId, byIndex := SendAll(s, turns, walk, ids, table);
      if requestId != 0 || byIndex != [] {
        Replace(s, turns, walk, table, requestId, byIndex);
      } else {
        NothingToReplace(s, pending, turns, walk, table, requestId, byIndex);
      }
      ResolvedPending(s, now, table, requestId, byIndex, pending);
      if wait < INT_MAX {
        timer := Some(Min(wait, DAY) * 1000);
      }
    }

    // The timer, which is set for one call, calls for a pass.
    method TimerFired(now: int)
      requires pending.Keys <= pages.Keys && forall p :: p in pending ==> pending[p] >= 0
      modifies this
      ensures Value() == Fired(old(Value()), now)
    {
      timer := None;
      ResolveWebPages(now);
    }
  }

  lemma ChannelsAreThere(turns: map<PageId, Item>)
    ensures forall p :: p in turns && turns[p].channel.Some? ==> turns[p].channel.value in Channels(turns)
  {
  }

  lemma NothingToReplace(s: State, pending: map<PageId, int>, turns: map<PageId, Item>, walk: seq<PageId>,
                         table: ByChannel, requestId: nat, byIndex: seq<nat>)
    requires Walked(s, pending, turns, walk, |walk|, table) && table == map[] && !HasPlain(turns)
             && table.Keys == Channels(turns)
    requires (forall p :: p in walk <==> p in s.pending) && |byIndex| == |table| && IndicesInv(table)
    ensures pending.Keys == s.pending.Keys
    ensures forall p :: p in s.pending ==> pending[p] == Replaced(s, turns, table, requestId, byIndex, p)
  {
    ChannelsAreThere(turns);
    forall p | p in s.pending
      ensures pending[p] == s.pending[p] && p !in turns
    {
      var k :| 0 <= k < |walk| && walk[k] == p;
      assert IsTemporary(s, turns, table, walk[k], pending[p]);
    }
  }

  lemma ResolvedParts(s: State, now: int)
    ensures var (order, t) := (Order(Turns(s, now)), Resolved(s, now));
            t == s.(pending := t.pending, sent := Sending(s, Turns(s, now), order), lastId := s.lastId + |order|,
                    timer := NextTimer(s, now))
  {
    hide Turns, Order, Sending, NextTimer, Assigned;
  }

  lemma ResolvedPending(s: State, now: int, table: ByChannel, requestId: nat, byIndex: seq<nat>,
                        pending: map<PageId, int>)
    requires var turns := Turns(s, now);
             && table.Keys == Channels(turns) && IndicesInv(table) && |byIndex| == |table|
                && pending.Keys == s.pending.Keys
             && (HasPlain(turns) ==> requestId == s.lastId + 1)
             && (forall c :: c in table ==>
                   Some(c) in Assigned(Order(turns), s.lastId)
                     && byIndex[table[c].index] == Assigned(Order(turns), s.lastId)[Some(c)])
             && (forall p :: p in s.pending ==> pending[p] == Replaced(s, turns, table, requestId, byIndex, p))
    ensures pending == Resolved(s, now).pending
  {
    hide Turns, Order, Sending, NextTimer, Assigned, IndicesInv;
    var turns := Turns(s, now);
    TurnsInPending(s, now);
    forall p | p in s.pending
      ensures pending[p] == Resolved(s, now).pending[p]
    {
      if p in turns {
        var i := TouchedId(s, now, p);
        OrderIsDistinct(turns);
        AssignedAt(Order(turns), s.lastId, i);
        if turns[p].channel.None? {
          PlainIsFirst(turns, p);
        }
      } else {
        UntouchedPage(s, now, p);
      }
    }
  }

  lemma PlainIsFirst(turns: map<PageId, Item>, p: PageId)
    requires p in turns && turns[p].channel.None?
    ensures HasPlain(turns) && Order(turns) != [] && Order(turns)[0] == None
  {
    hide Ascending, Channels;
  }

  // An answer that has reached some of the pages
  function GotSome(s: State, req: nat, done: set<PageId>): State {
    s.(pending := map p | p in s.pending && !(p in done && s.pending[p] == req) :: s.pending[p],
       pages := map p | p in s.pages ::
                  if p in done && p in s.pending && s.pending[p] == req then Settled(s.pages[p]) else s.pages[p])
  }

  lemma NothingGot(s: State, req: nat)
    ensures GotSome(s, req, {}) == s
  {
  }

  lemma GotAll(s: State, req: nat)
    ensures GotSome(s, req, s.pending.Keys) == Got(s, req)
  {
  }

  lemma GotOne(s: State, req: nat, done: set<PageId>, page: PageId)
    requires page in s.pending && page in s.pages && page !in done
    ensures var (t, u) := (GotSome(s, req, done), GotSome(s, req, done + {page}));
            && page in t.pending && page in t.pages && t.pending[page] == s.pending[page]
               && t.pages[page] == s.pages[page]
            && (s.pending[page] != req ==> u == t)
            && (s.pending[page] == req ==>
                  && u.pending == t.pending - {page} && u.pages == t.pages[page := Settled(t.pages[page])]
                  && u == t.(pending := u.pending, pages := u.pages))
  {
  }

  // What a page holds in the end
  function Replaced(s: State, turns: map<PageId, Item>, table: ByChannel, requestId: nat, byIndex: seq<nat>,
                    p: PageId): int
    requires IndicesInv(table) && |byIndex| == |table| && p in s.pending
  {
    if p in turns && turns[p].channel.None? then requestId
    else if p in turns && turns[p].channel.value in table then byIndex[table[turns[p].channel.value].index]
    else s.pending[p]
  }

  // The ids of the first k channels are in their places.
  ghost predicate Filled(table: ByChannel, channels: seq<Channel>, k: nat, byIndex: seq<nat>, base: nat) {
    forall j :: 0 <= j < k && j < |channels| ==>
      channels[j] in table && table[channels[j]].index < |byIndex| && byIndex[table[channels[j]].index] == base + j + 1
  }

  lemma NothingFilled(table: ByChannel, channels: seq<Channel>, byIndex: seq<nat>, base: nat)
    ensures Filled(table, channels, 0, byIndex, base)
  {
  }

  lemma NextFilled(table: ByChannel, channels: seq<Channel>, k: nat, byIndex: seq<nat>, base: nat)
    requires Filled(table, channels, k, byIndex, base) && k < |channels| && channels[k] in table
    requires IndicesInv(table) && |byIndex| == |table| && Distinct(channels) && table[channels[k]].index < |byIndex|
    ensures Filled(table, channels, k + 1, byIndex[table[channels[k]].index := base + k + 1], base)
  {
    forall j | 0 <= j < k
      ensures table[channels[j]].index != table[channels[k]].index
    {
      assert channels[j] != channels[k];
    }
  }

  lemma AllFilled(table: ByChannel, channels: seq<Channel>, byIndex: seq<nat>, base: nat)
    requires Filled(table, channels, |channels|, byIndex, base) && |byIndex| == |table| && IndicesInv(table)
    ensures forall k :: 0 <= k < |channels| ==>
              channels[k] in table && byIndex[table[channels[k]].index] == base + k + 1
  {
  }

  lemma TableHasMessages(turns: map<PageId, Item>, walk: seq<PageId>, table: ByChannel, c: Channel)
    requires TableInv(turns, walk, table) && c in table
    ensures table[c].ids == Messages(turns, walk, Some(c))
  {
  }

  lemma IndexInRange(table: ByChannel, c: Channel)
    requires c in table && IndicesInv(table)
    ensures table[c].index < |table|
  {
  }

  function Final(id: int, requestId: nat, byIndex: seq<nat>): int {
    if id >= 0 then id else if id == -1 then requestId else if -id - 2 < |byIndex| then byIndex[-id - 2] else id
  }

  lemma TemporaryInRange(s: State, turns: map<PageId, Item>, table: ByChannel, p: PageId, id: int, n: nat)
    requires IsTemporary(s, turns, table, p, id) && id < -1 && IndicesInv(table) && n == |table|
    requires p in s.pending && s.pending[p] >= 0
    ensures -id - 2 < n
  {
  }

  lemma FinalOfTemporary(s: State, turns: map<PageId, Item>, table: ByChannel, p: PageId, id: int, requestId: nat,
                         byIndex: seq<nat>)
    requires IsTemporary(s, turns, table, p, id) && IndicesInv(table) && |byIndex| == |table|
    requires p in s.pending && s.pending[p] >= 0
    ensures Final(id, requestId, byIndex) == Replaced(s, turns, table, requestId, byIndex, p)
  {
  }

  lemma NothingCollected(s: State, now: int, turns: map<PageId, Item>, walk: seq<PageId>)
    ensures TableInv(turns, walk[..0], map[]) && Messages(turns, walk[..0], None) == []
            && Wait(s, now, walk[..0]) == INT_MAX
  {
  }

  lemma OrderOf(turns: map<PageId, Item>)
    ensures var (order, channels, o) := (Order(turns), Ascending(Channels(turns)), |Plain(turns)|);
            && |order| == o + |channels| && order[..o] == Plain(turns)
            && forall k :: 0 <= k < |channels| ==> order[o + k] == Some(channels[k])
  {
    hide Ascending, Channels, Plain, Somes;
    var channels := Ascending(Channels(turns));
    assert Order(turns) == Plain(turns) + Somes(channels);
  }

  lemma ChannelIsAssigned(turns: map<PageId, Item>, lastId: nat, c: Channel) returns (k: nat)
    requires c in Channels(turns)
    ensures Some(c) in Assigned(Order(turns), lastId)
    ensures k < |Ascending(Channels(turns))| && Ascending(Channels(turns))[k] == c
    ensures Assigned(Order(turns), lastId)[Some(c)] == lastId + |Plain(turns)| + k + 1
  {
    hide Ascending, Channels, Plain, Order, Assigned;
    var channels := Ascending(Channels(turns));
    AscendingLists(Channels(turns));
    OrderOf(turns);
    OrderIsDistinct(turns);
    k :| 0 <= k < |channels| && channels[k] == c;
    AssignedAt(Order(turns), lastId, |Plain(turns)| + k);
  }

  lemma NextSending(s: State, turns: map<PageId, Item>, order: seq<Option<Channel>>, i: nat)
    requires i < |order|
    ensures Sending(s, turns, order[..i + 1]) == Sending(s, turns, order[..i])[
              s.lastId + i + 1 :=
                Sent(order[i], Messages(turns, Ascending(s.pending.Keys), order[i]), PagesOf(turns, order[i]))]
  {
    hide Messages, Ascending, PagesOf;
    assert order[..i + 1][..i] == order[..i];
  }
}