/** What one pass does to every entry, when a pass is scheduled, and in which order the callbacks are called. */
module MessageDataLaws {
  import opened Wrappers
  import opened FlatMap
  import opened MessageDataSpec
  import opened MessageDataTheorems

  // In every run a pass is scheduled exactly while some message waits to be asked for.
  ghost predicate SomeWaits(s: State) {
    exists k: Key :: Held(s, k) && At(s, k).requestId == 0
  }

  lemma StepKeepsReason(s: State, e: Event)
    requires Inv(s) && CanHappen(s, e) && (s.scheduled ==> SomeWaits(s))
    ensures After(s, e).scheduled ==> SomeWaits(After(s, e))
  {
    hide Inv, Core, Requested, Finalized, Table, Collected;
    var t := After(s, e);
    match e {
      case Request(key, done) =>
        RequestedTables(s, key, done, key);
        if s.scheduled && SomeWaits(s) {
          var k: Key :| Held(s, k) && At(s, k).requestId == 0;
          RequestedTables(s, key, done, k);
        } else {
          NewReason(s, key, done);
        }
      case Resolve =>
        NothingScheduled(s);
      case Answer(id) =>
        assert Core(s) && 0 < id by { AnsweredIsSent(s, id); }
        AnswerFrame(s, id);
        if s.scheduled {
          var k: Key :| Held(s, k) && At(s, k).requestId == 0;
          AnswerTables(s, id, k);
        }
    }
  }

  lemma NewReason(s: State, key: Key, done: Option<Callback>)
    requires !s.scheduled
    ensures Requested(s, key, done).scheduled ==> Registered(Table(s, key.channel), key.msg, done).requestId == 0
  {
  }

  lemma AnsweredIsSent(s: State, id: RequestId)
    requires Inv(s) && id in s.outstanding
    ensures Core(s) && 0 < id
  {
    assert RequestInv(s, id);
  }

  lemma {:induction false} AskingKeepsUnscheduled(s: State, order: seq<Channel>)
    requires !s.scheduled
    ensures !ChannelsAsked(s, order).scheduled
  {
    hide Asked;
    if order != [] {
      var (front, last) := (order[..|order| - 1], order[|order| - 1]);
      AskingKeepsUnscheduled(s, front);
      AskedFrame(ChannelsAsked(s, front), Some(last));
    }
  }

  lemma NothingScheduled(s: State)
    ensures !Resolved(s).scheduled
  {
    hide Asked, ChannelsAsked, Ascending;
    AskedFrame(s.(scheduled := false), None);
    AskingKeepsUnscheduled(Asked(s.(scheduled := false), None), Ascending(s.channels.Keys));
  }

  lemma {:induction false} ScheduledIffSomeWaits(events: seq<Event>)
    requires Run(events).Some?
    ensures Run(events).value.scheduled <==> SomeWaits(Run(events).value)
  {
    hide After, CanHappen, SomeWaits, Core, Held;
    if events != [] {
      var front := events[..|events| - 1];
      ScheduledIffSomeWaits(front);
      RunKeepsInv(front);
      StepKeepsReason(Run(front).value, events[|events| - 1]);
    }
    RunKeepsInv(events);
    assert SomeWaits(Run(events).value) ==> Run(events).value.scheduled by { WaitsForPass(Run(events).value); }
  }

  lemma WaitsForPass(s: State)
    requires Inv(s)
    ensures SomeWaits(s) ==> s.scheduled
  {
  }

  // A pass keeps every entry with its callbacks; a message that was asked for before keeps its request, and those that
  // waited in one table get one new request, which asks for them.
  lemma ChannelAskedTables(s: State, channel: Channel, k: Key)
    ensures var t := ChannelAsked(s, channel);
            && t.lastId >= s.lastId
            && (Held(t, k) <==> Held(s, k))
            && (Held(s, k) ==>
                  && At(t, k).callbacks == At(s, k).callbacks
                  && At(t, k).requestId ==
                       if k.channel == Some(channel) && At(s, k).requestId <= 0 then s.lastId + 1
                       else At(s, k).requestId)
  {
    hide Asked;
    AskedTables(s, Some(channel), k);
    AskedFrame(s, Some(channel));
  }

  lemma {:induction false} ChannelsAskedTables(s: State, order: seq<Channel>, k: Key)
    ensures var t := ChannelsAsked(s, order);
            && (Held(t, k) <==> Held(s, k))
            && (Held(s, k) ==>
                  && At(t, k).callbacks == At(s, k).callbacks
                  && (At(t, k).requestId == At(s, k).requestId
                      || (At(s, k).requestId <= 0 && At(t, k).requestId > s.lastId)))
            && t.lastId >= s.lastId
  {
    hide ChannelAsked, Held;
    if order != [] {
      var (front, last) := (order[..|order| - 1], order[|order| - 1]);
      ChannelsAskedTables(s, front, k);
      ChannelAskedTables(ChannelsAsked(s, front), last, k);
    }
  }

  lemma {:induction false} AskedTogether(s: State, order: seq<Channel>, k: Key, l: Key)
    requires Held(s, k) && Held(s, l) && k.channel == l.channel && At(s, k).requestId == At(s, l).requestId
    ensures var t := ChannelsAsked(s, order);
            Held(t, k) && Held(t, l) && At(t, k).requestId == At(t, l).requestId
  {
    hide ChannelAsked, Table;
    if order != [] {
      var (front, last) := (order[..|order| - 1], order[|order| - 1]);
      AskedTogether(s, front, k, l);
      ChannelAskedTables(ChannelsAsked(s, front), last, k);
      ChannelAskedTables(ChannelsAsked(s, front), last, l);
    }
  }

  lemma PassIs(s: State, k: Key)
    requires Inv(s)
    ensures var t := Resolved(s);
            && (Held(t, k) <==> Held(s, k))
            && (Held(s, k) ==>
                  && At(t, k).callbacks == At(s, k).callbacks && IsAsked(t, At(t, k).requestId, k)
                  && (At(s, k).requestId > 0 ==> At(t, k).requestId == At(s, k).requestId)
                  && (At(s, k).requestId == 0 ==> At(t, k).requestId !in s.outstanding))
  {
    hide Inv, Core, Asked, ChannelsAsked, Ascending, Table;
    var u := s.(scheduled := false);
    var order := Ascending(s.channels.Keys);
    var t := Resolved(s);
    SameTables(s, u, k);
    AskedTables(u, None, k);
    AskedFrame(u, None);
    ChannelsAskedTables(Asked(u, None), order, k);
    ResolveKeepsInv(s);
    if Held(s, k) {
      assert At(t, k).requestId > 0;
      assert IsAsked(t, At(t, k).requestId, k) by { EntryIsAsked(t, k); }
      if At(s, k).requestId == 0 && At(t, k).requestId in s.outstanding {
        OldRequest(s, At(t, k).requestId);
      }
    }
  }

  lemma SameTables(s: State, t: State, k: Key)
    requires s.main == t.main && s.channels == t.channels
    ensures Held(s, k) <==> Held(t, k)
    ensures Held(s, k) ==> At(s, k) == At(t, k)
  {
  }

  lemma EntryIsAsked(s: State, k: Key)
    requires Inv(s) && Held(s, k) && At(s, k).requestId > 0
    ensures IsAsked(s, At(s, k).requestId, k)
  {
    hide Table;
    assert EntryInv(s, k, At(s, k));
  }

  lemma OldRequest(s: State, id: RequestId)
    requires Inv(s) && id in s.outstanding
    ensures id <= s.lastId
  {
    assert RequestInv(s, id);
  }

  lemma TogetherIff(s: State, k: Key, l: Key)
    requires Inv(s) && Held(s, k) && Held(s, l) && At(s, k).requestId == 0 && At(s, l).requestId == 0
    ensures var t := Resolved(s);
            && Held(t, k) && Held(t, l)
            && (At(t, k).requestId == At(t, l).requestId <==> k.channel == l.channel)
  {
    hide Inv, Core, Asked, ChannelsAsked, Ascending, Table;
    var u := s.(scheduled := false);
    var t := Resolved(s);
    PassIs(s, k);
    PassIs(s, l);
    if k.channel == l.channel {
      SameTables(s, u, k);
      SameTables(s, u, l);
      AskedTables(u, None, k);
      AskedTables(u, None, l);
      AskedTogether(Asked(u, None), Ascending(s.channels.Keys), k, l);
    }
  }

  // A pass leaves no empty table behind.
  lemma {:induction false} NoEmptyIsLeft(s: State, order: seq<Channel>, c: Channel)
    requires c in order || c !in s.channels || s.channels[c] != map[]
    ensures var t := ChannelsAsked(s, order); c in t.channels ==> t.channels[c] != map[]
  {
    hide ChannelAsked;
    if order != [] {
      var (front, last) := (order[..|order| - 1], order[|order| - 1]);
      if c in front || c != last {
        NoEmptyIsLeft(s, front, c);
      }
      NotEmpty(ChannelsAsked(s, front), last, c);
    }
  }

  lemma NotEmpty(s: State, channel: Channel, c: Channel)
    requires c == channel || c !in s.channels || s.channels[c] != map[]
    ensures var t := ChannelAsked(s, channel); c in t.channels ==> t.channels[c] != map[]
  {
    hide Ascending;
    var r := Table(s, Some(channel));
    AscendingLists(Waiting(r));
    if r != map[] && c == channel && Ascending(Waiting(r)) != [] {
      var m := Ascending(Waiting(r))[0];
      assert m in Ascending(Waiting(r)) && m in Stamped(r, s.lastId + 1);
    }
  }

  lemma PassDropsEmpty(s: State)
    ensures ChannelsInv(Resolved(s))
  {
    hide ChannelsAsked, Ascending;
    AscendingLists(s.channels.Keys);
    var u := Asked(s.(scheduled := false), None);
    forall c | c in Resolved(s).channels
      ensures Resolved(s).channels[c] != map[]
    {
      assert c in s.channels ==> c in s.channels.Keys;
      NoEmptyIsLeft(u, Ascending(s.channels.Keys), c);
    }
  }

  // The callbacks of one message, in the order in which they were registered
  function RegisteredAt(events: seq<Event>, k: Key): seq<Callback> {
    if events == [] then [] else
      var (front, e) := (events[..|events| - 1], events[|events| - 1]);
      RegisteredAt(front, k) + if e.Request? && e.key == k && e.done.Some? then [e.done.value] else []
  }

  // Of some callbacks those that were registered for one message
  function OfMessage(home: map<Callback, Key>, callbacks: seq<Callback>, k: Key): seq<Callback> {
    if callbacks == [] then [] else
      var (front, last) := (callbacks[..|callbacks| - 1], callbacks[|callbacks| - 1]);
      OfMessage(home, front, k) + if last in home && home[last] == k then [last] else []
  }

  lemma {:induction false} OfMessageJoins(home: map<Callback, Key>, a: seq<Callback>, b: seq<Callback>, k: Key)
    ensures OfMessage(home, a + b, k) == OfMessage(home, a, k) + OfMessage(home, b, k)
  {
    if b == [] {
      assert a + b == a;
    } else {
      var (front, last) := (b[..|b| - 1], b[|b| - 1]);
      assert (a + b)[..|a + b| - 1] == a + front;
      OfMessageJoins(home, a, front, k);
    }
  }

  lemma {:induction false} AllOrNothing(home: map<Callback, Key>, a: seq<Callback>, h: Key, k: Key)
    requires forall c :: c in a ==> c in home && home[c] == h
    ensures OfMessage(home, a, k) == if h == k then a else []
  {
    if a != [] {
      assert a[|a| - 1] in a;
      AllOrNothing(home, a[..|a| - 1], h, k);
    }
  }

  lemma {:induction false} NewHome(s: map<Callback, Key>, a: seq<Callback>, c: Callback, h: Key, k: Key)
    requires c !in a
    ensures OfMessage(s[c := h], a, k) == OfMessage(s, a, k)
  {
    if a != [] {
      assert a[|a| - 1] in a;
      NewHome(s, a[..|a| - 1], c, h, k);
    }
  }

  function Holding(s: State, k: Key): seq<Callback> {
    if Held(s, k) then At(s, k).callbacks else []
  }

  lemma {:induction false} CalledOf(s: State, c: Option<Channel>, keys: seq<MsgId>, id: RequestId, k: Key)
    requires EntriesInv(s) && Distinct(keys) && forall m :: m in keys ==> m in Table(s, c)
    ensures OfMessage(s.home, Callbacks(Table(s, c), keys, id), k)
            == if k.channel == c && k.msg in keys && Table(s, c)[k.msg].requestId == id
               then Table(s, c)[k.msg].callbacks else []
  {
    hide Table;
    if keys != [] {
      var r := Table(s, c);
      var (front, last) := (keys[..|keys| - 1], keys[|keys| - 1]);
      CalledOf(s, c, front, id, k);
      assert keys == front + [last];
      assert last !in front;
      OfMessageJoins(s.home, Callbacks(r, front, id), if r[last].requestId == id then r[last].callbacks else [], k);
      assert EntryInv(s, Key(c, last), At(s, Key(c, last)));
      AllOrNothing(s.home, r[last].callbacks, Key(c, last), k);
    }
  }

  lemma AnswerCalls(s: State, id: RequestId, k: Key)
    requires Core(s) && id in s.outstanding
    ensures var t := After(s, Answer(id));
            OfMessage(t.home, t.fired, k) + Holding(t, k) == OfMessage(s.home, s.fired, k) + Holding(s, k)
  {
    hide After, Table, Callbacks, Ascending;
    var c := s.outstanding[id].channel;
    var r := Table(s, c);
    var t := After(s, Answer(id));
    AnswerFrame(s, id);
    AnswerTables(s, id, k);
    AnswerHasItsMessages(s, id, k);
    AscendingLists(r.Keys);
    CalledOf(s, c, Ascending(r.Keys), id, k);
    OfMessageJoins(s.home, s.fired, Collected(r, id), k);
  }

  // In every run the callbacks of one message are called in the order in which they were registered: first come those
  // that were called, then those that the message holds.
  lemma {:induction false} CalledInOrder(events: seq<Event>, k: Key)
    requires Run(events).Some?
    ensures var s := Run(events).value;
            RegisteredAt(events, k) == OfMessage(s.home, s.fired, k) + Holding(s, k)
  {
    hide After, CanHappen, Core, Table;
    if events == [] {
      assert !Held(INITIAL, k) by { NothingHeld(k); }
    } else {
      var (front, e) := (events[..|events| - 1], events[|events| - 1]);
      CalledInOrder(front, k);
      RunKeepsInv(front);
      StepKeepsOrder(Run(front).value, e, k);
    }
  }

  lemma NothingHeld(k: Key)
    ensures !Held(INITIAL, k)
  {
  }

  lemma StepKeepsOrder(s: State, e: Event, k: Key)
    requires Inv(s) && CanHappen(s, e)
    ensures var t := After(s, e);
            OfMessage(t.home, t.fired, k) + Holding(t, k)
            == OfMessage(s.home, s.fired, k) + Holding(s, k)
               + if e.Request? && e.key == k && e.done.Some? then [e.done.value] else []
  {
    hide Core, Requested, Resolved, Finalized, Table, Registered;
    match e {
      case Request(key, done) =>
        assert done.Some? ==> done.value !in s.fired by { NewIsNotCalled(s, e); }
        RequestedFrame(s, key, done);
        RequestedTables(s, key, done, k);
        RegisteredKeepsId(s, key, done);
        if done.Some? {
          NewHome(s.home, s.fired, done.value, key, k);
        }
      case Resolve =>
        PassIs(s, k);
        PassCallsNone(s);
      case Answer(id) =>
        assert Core(s);
        AnswerCalls(s, id, k);
    }
  }

  lemma NewIsNotCalled(s: State, e: Event)
    requires Inv(s) && CanHappen(s, e) && e.Request?
    ensures e.done.Some? ==> e.done.value !in s.fired
  {
  }

  lemma {:induction false} AskingCallsNone(s: State, order: seq<Channel>)
    ensures ChannelsAsked(s, order).home == s.home && ChannelsAsked(s, order).fired == s.fired
  {
    hide Asked;
    if order != [] {
      var (front, last) := (order[..|order| - 1], order[|order| - 1]);
      AskingCallsNone(s, front);
      AskedFrame(ChannelsAsked(s, front), Some(last));
    }
  }

  lemma PassCallsNone(s: State)
    ensures Resolved(s).home == s.home && Resolved(s).fired == s.fired
  {
    hide Asked, ChannelsAsked, Ascending;
    AskedFrame(s.(scheduled := false), None);
    AskingCallsNone(Asked(s.(scheduled := false), None), Ascending(s.channels.Keys));
  }

  // One answer calls the callbacks of a lower message first.
  lemma {:induction false} LowerFirst(s: State, c: Option<Channel>, keys: seq<MsgId>, id: RequestId, i: nat, j: nat)
    requires EntriesInv(s) && Rising(keys) && forall m :: m in keys ==> m in Table(s, c)
    requires i < j < |Callbacks(Table(s, c), keys, id)|
    ensures var calls := Callbacks(Table(s, c), keys, id);
            calls[i] in s.home && calls[j] in s.home && s.home[calls[i]].msg <= s.home[calls[j]].msg
  {
    hide Table, EntriesInv;
    var r := Table(s, c);
    var (front, last) := (keys[..|keys| - 1], keys[|keys| - 1]);
    var (calls, before) := (Callbacks(r, keys, id), Callbacks(r, front, id));
    assert keys == front + [last];
    if j < |before| {
      LowerFirst(s, c, front, id, i, j);
    } else {
      assert r[last].requestId == id && calls[j] in r[last].callbacks;
      HomeOf(s, c, last, calls[j]);
      if i < |before| {
        assert calls[i] in before;
        CallbacksOf(r, front, id, calls[i]);
        var m :| m in front && r[m].requestId == id && calls[i] in r[m].callbacks;
        HomeOf(s, c, m, calls[i]);
      } else {
        assert calls[i] in r[last].callbacks;
        HomeOf(s, c, last, calls[i]);
      }
    }
  }

  lemma HomeOf(s: State, c: Option<Channel>, m: MsgId, callback: Callback)
    requires EntriesInv(s) && m in Table(s, c) && callback in Table(s, c)[m].callbacks
    ensures callback in s.home && s.home[callback] == Key(c, m)
  {
    hide Table;
    assert EntryInv(s, Key(c, m), At(s, Key(c, m)));
  }

  lemma AnswerCallsLowerFirst(s: State, id: RequestId, i: nat, j: nat)
    requires Inv(s) && id in s.outstanding && |s.fired| <= i < j < |After(s, Answer(id)).fired|
    ensures var t := After(s, Answer(id));
            t.fired[i] in t.home && t.fired[j] in t.home && t.home[t.fired[i]].msg <= t.home[t.fired[j]].msg
  {
    hide After, Table, Callbacks, Ascending, EntriesInv;
    var c := s.outstanding[id].channel;
    var t := After(s, Answer(id));
    AnswerFrame(s, id);
    AscendingLists(Table(s, c).Keys);
    LowerFirst(s, c, Ascending(Table(s, c).Keys), id, i - |s.fired|, j - |s.fired|);
  }
}
