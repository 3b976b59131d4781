/** No callback is lost and none is called twice, in every run of requests, resolves and answers. */
module MessageDataTheorems {
  import opened Wrappers
  import opened FlatMap
  import opened MessageDataSpec

  predicate Held(s: State, k: Key) {
    k.msg in Table(s, k.channel)
  }

  function At(s: State, k: Key): Entry
    requires Held(s, k)
  {
    Table(s, k.channel)[k.msg]
  }

  // A request on its way asks for this message of this channel.
  predicate IsAsked(s: State, id: RequestId, k: Key) {
    id in s.outstanding && s.outstanding[id].channel == k.channel && k.msg in s.outstanding[id].ids
  }

  // A callback sits in the entry it was registered at, until it is called.
  ghost predicate EntryInv(s: State, k: Key, e: Entry) {
    && (e.requestId == 0 || IsAsked(s, e.requestId, k))
    && Distinct(e.callbacks)
    && forall c :: c in e.callbacks ==> c in s.home && s.home[c] == k && c !in s.fired
  }

  ghost predicate EntriesInv(s: State) {
    forall k: Key :: Held(s, k) ==> EntryInv(s, k, At(s, k))
  }

  predicate RequestInv(s: State, id: RequestId) {
    && 0 < id <= s.lastId
    && id in s.outstanding
    && forall m :: m in s.outstanding[id].ids ==>
         var k := Key(s.outstanding[id].channel, m); Held(s, k) && At(s, k).requestId == id
  }

  ghost predicate RequestsInv(s: State) {
    forall id :: id in s.outstanding ==> RequestInv(s, id)
  }

  predicate IsWaitingFor(s: State, c: Callback)
    requires c in s.home
  {
    Held(s, s.home[c]) && c in At(s, s.home[c]).callbacks
  }

  ghost predicate CallbacksInv(s: State) {
    && (forall c :: c in s.home ==> c in s.fired || IsWaitingFor(s, c))
    && (forall c :: c in s.fired ==> c in s.home)
    && Distinct(s.fired)
  }

  predicate ChannelsInv(s: State) {
    forall channel :: channel in s.channels ==> s.channels[channel] != map[]
  }

  ghost predicate Core(s: State) {
    EntriesInv(s) && RequestsInv(s) && CallbacksInv(s) && ChannelsInv(s) && s.lastId >= 0
  }

  // What was not asked for yet will be, by the scheduled resolve.
  ghost predicate Scheduled(s: State) {
    forall k: Key :: Held(s, k) && At(s, k).requestId == 0 ==> s.scheduled
  }

  ghost predicate Inv(s: State) {
    Core(s) && Scheduled(s)
  }

  lemma TableOfOther(s: State, c: Option<Channel>, r: Requests, d: Option<Channel>)
    ensures Table(WithTable(s, c, r), d) == if d == c then r else Table(s, d)
  {
  }

  // Requesting one more message
  lemma RequestedTables(s: State, key: Key, done: Option<Callback>, k: Key)
    ensures var t := Requested(s, key, done);
            && (Held(t, k) <==> Held(s, k) || k == key)
            && (k == key ==> At(t, k) == Registered(Table(s, key.channel), key.msg, done))
            && (Held(s, k) && k != key ==> At(t, k) == At(s, k))
            && (Held(s, k) ==> At(t, k).requestId == At(s, k).requestId)
  {
    hide Registered;
    var e := Registered(Table(s, key.channel), key.msg, done);
    TableOfOther(s, key.channel, Table(s, key.channel)[key.msg := e], k.channel);
    assert Held(s, key) ==> e.requestId == At(s, key).requestId by { RegisteredKeepsId(s, key, done); }
  }

  lemma RegisteredKeepsId(s: State, key: Key, done: Option<Callback>)
    ensures var e := Registered(Table(s, key.channel), key.msg, done);
            && e.requestId == (if Held(s, key) then At(s, key).requestId else 0)
            && e.callbacks ==
               (if Held(s, key) then At(s, key).callbacks else []) + (if done.Some? then [done.value] else [])
  {
  }

  lemma RequestKeepsEntries(s: State, key: Key, done: Option<Callback>)
    requires Core(s) && (done.Some? ==> done.value !in s.home)
    ensures EntriesInv(Requested(s, key, done))
  {
    hide Requested, Table, Registered;
    var t := Requested(s, key, done);
    assert t.outstanding == s.outstanding && t.fired == s.fired by { RequestedFrame(s, key, done); }
    assert t.home == if done.Some? then s.home[done.value := key] else s.home by { RequestedFrame(s, key, done); }
    forall k: Key | Held(t, k)
      ensures EntryInv(t, k, At(t, k))
    {
      RequestedTables(s, key, done, k);
      if k == key {
        RegisteredKeepsId(s, key, done);
        RegisteredIsDistinct(s, key, done);
      } else {
        assert EntryInv(s, k, At(s, k));
      }
    }
  }

  lemma RequestedFrame(s: State, key: Key, done: Option<Callback>)
    ensures var t := Requested(s, key, done);
            && t.outstanding == s.outstanding && t.fired == s.fired && t.lastId == s.lastId
            && t.home == (if done.Some? then s.home[done.value := key] else s.home)
            && (s.scheduled ==> t.scheduled)
            && (Registered(Table(s, key.channel), key.msg, done).requestId == 0 ==> t.scheduled)
  {
  }

  lemma RegisteredIsDistinct(s: State, key: Key, done: Option<Callback>)
    requires EntriesInv(s) && (done.Some? ==> done.value !in s.home)
    ensures Distinct(Registered(Table(s, key.channel), key.msg, done).callbacks)
  {
    if Held(s, key) {
      assert EntryInv(s, key, At(s, key));
      if done.Some? {
        assert forall c :: c in At(s, key).callbacks ==> c in s.home && c !in [done.value];
        DistinctConcat(At(s, key).callbacks, [done.value]);
      }
    }
  }

  lemma RequestKeepsRequests(s: State, key: Key, done: Option<Callback>)
    requires Core(s)
    ensures RequestsInv(Requested(s, key, done))
  {
    hide Requested, Table, Registered;
    var t := Requested(s, key, done);
    RequestedFrame(s, key, done);
    forall id | id in t.outstanding
      ensures RequestInv(t, id)
    {
      assert RequestInv(s, id);
      forall m | m in t.outstanding[id].ids
        ensures var k := Key(t.outstanding[id].channel, m); Held(t, k) && At(t, k).requestId == id
      {
        RequestedTables(s, key, done, Key(s.outstanding[id].channel, m));
      }
    }
  }

  lemma RequestKeepsCallbacks(s: State, key: Key, done: Option<Callback>)
    requires Core(s) && (done.Some? ==> done.value !in s.home)
    ensures CallbacksInv(Requested(s, key, done))
  {
    hide Requested, Table, Registered;
    var t := Requested(s, key, done);
    RequestedFrame(s, key, done);
    forall c | c in t.home
      ensures c in t.fired || IsWaitingFor(t, c)
    {
      RequestedTables(s, key, done, t.home[c]);
      RegisteredKeepsId(s, key, done);
      if done != Some(c) {
        assert c in s.fired || IsWaitingFor(s, c);
      }
    }
  }

  lemma RequestKeepsInv(s: State, key: Key, done: Option<Callback>)
    requires Inv(s) && (done.Some? ==> done.value !in s.home)
    ensures Inv(Requested(s, key, done))
  {
    hide Requested, EntriesInv, RequestsInv, CallbacksInv, Table, Registered;
    RequestKeepsEntries(s, key, done);
    RequestKeepsRequests(s, key, done);
    RequestKeepsCallbacks(s, key, done);
    RequestKeepsChannels(s, key, done);
    RequestedFrame(s, key, done);
    var t := Requested(s, key, done);
    forall k: Key | Held(t, k) && At(t, k).requestId == 0
      ensures t.scheduled
    {
      RequestedTables(s, key, done, k);
    }
  }

  lemma RequestKeepsChannels(s: State, key: Key, done: Option<Callback>)
    requires ChannelsInv(s)
    ensures ChannelsInv(Requested(s, key, done))
  {
    hide Registered;
    assert key.msg in Table(Requested(s, key, done), key.channel);
  }

  // Sending one request for a table
  lemma AskedFrame(s: State, c: Option<Channel>)
    ensures var t := Asked(s, c);
            && t.home == s.home && t.fired == s.fired && t.scheduled == s.scheduled
            && (if Waiting(Table(s, c)) == {} then t == s
                else t.lastId == s.lastId + 1
                     && t.outstanding == s.outstanding[s.lastId + 1 := Sent(c, Ascending(Waiting(Table(s, c))))])
            && t.channels.Keys <= s.channels.Keys + (if c.Some? then {c.value} else {})
  {
    hide Stamped, Waiting;
    AscendingLists(Waiting(Table(s, c)));
    if Waiting(Table(s, c)) == {} {
      assert Ascending(Waiting(Table(s, c))) == [];
    } else {
      assert Least(Waiting(Table(s, c))) in Ascending(Waiting(Table(s, c)));
    }
  }

  lemma AskedTables(s: State, c: Option<Channel>, k: Key)
    ensures var t := Asked(s, c);
            && (Held(t, k) <==> Held(s, k))
            && (Held(s, k) ==>
                  && At(t, k).callbacks == At(s, k).callbacks
                  && At(t, k).requestId ==
                       if k.channel == c && At(s, k).requestId <= 0 then s.lastId + 1 else At(s, k).requestId)
  {
    hide Ascending;
    var ids := Waiting(Table(s, c));
    AscendingLists(ids);
    assert Held(s, k) && k.channel == c && At(s, k).requestId <= 0 ==> k.msg in ids && k.msg in Ascending(ids);
    if Ascending(ids) != [] {
      TableOfOther(s, c, Stamped(Table(s, c), s.lastId + 1), k.channel);
    }
  }

  lemma AskKeepsEntries(s: State, c: Option<Channel>)
    requires Core(s)
    ensures EntriesInv(Asked(s, c))
  {
    hide Asked, Table, Waiting, Ascending;
    var t := Asked(s, c);
    AskedFrame(s, c);
    forall k: Key | Held(t, k)
      ensures EntryInv(t, k, At(t, k))
    {
      AskedTables(s, c, k);
      assert EntryInv(s, k, At(s, k));
      var id := At(s, k).requestId;
      if id != 0 {
        assert RequestInv(s, id);
      } else if k.channel == c {
        assert IsAsked(t, s.lastId + 1, k) by { WaitsInOrder(s, c, k); }
      }
    }
  }

  lemma WaitsInOrder(s: State, c: Option<Channel>, k: Key)
    requires Held(s, k) && k.channel == c && At(s, k).requestId <= 0
    ensures Waiting(Table(s, c)) != {} && k.msg in Ascending(Waiting(Table(s, c)))
  {
    AscendingLists(Waiting(Table(s, c)));
    assert k.msg in Waiting(Table(s, c));
  }

  lemma AskKeepsRequests(s: State, c: Option<Channel>)
    requires Core(s)
    ensures RequestsInv(Asked(s, c))
  {
    hide Asked, Table, Ascending;
    var t := Asked(s, c);
    AskedFrame(s, c);
    AscendingLists(Waiting(Table(s, c)));
    forall id | id in t.outstanding
      ensures RequestInv(t, id)
    {
      assert id in s.outstanding ==> RequestInv(s, id);
      forall m | m in t.outstanding[id].ids
        ensures var k := Key(t.outstanding[id].channel, m); Held(t, k) && At(t, k).requestId == id
      {
        AskedTables(s, c, Key(t.outstanding[id].channel, m));
      }
    }
  }

  lemma AskKeepsCallbacks(s: State, c: Option<Channel>)
    requires Core(s)
    ensures CallbacksInv(Asked(s, c))
  {
    hide Asked, Table, Waiting;
    var t := Asked(s, c);
    AskedFrame(s, c);
    forall callback | callback in t.home
      ensures callback in t.fired || IsWaitingFor(t, callback)
    {
      AskedTables(s, c, t.home[callback]);
      assert callback in s.fired || IsWaitingFor(s, callback);
    }
  }

  lemma AskKeepsChannels(s: State, c: Option<Channel>)
    requires ChannelsInv(s)
    ensures ChannelsInv(Asked(s, c))
  {
    hide Ascending;
    var r := Table(s, c);
    AscendingLists(Waiting(r));
    if Ascending(Waiting(r)) != [] {
      assert Ascending(Waiting(r))[0] in Ascending(Waiting(r));
      assert Ascending(Waiting(r))[0] in Stamped(r, s.lastId + 1);
    }
  }

  lemma AskKeepsCore(s: State, c: Option<Channel>)
    requires Core(s)
    ensures Core(Asked(s, c))
  {
    hide Asked, EntriesInv, RequestsInv, CallbacksInv, ChannelsInv;
    AskKeepsEntries(s, c);
    AskKeepsRequests(s, c);
    AskKeepsCallbacks(s, c);
    AskKeepsChannels(s, c);
    AskedFrame(s, c);
  }

  // A table without anything to ask for
  ghost predicate AllAsked(s: State, c: Option<Channel>) {
    forall m :: m in Table(s, c) ==> Table(s, c)[m].requestId > 0
  }

  lemma AskedIsAsked(s: State, c: Option<Channel>, d: Option<Channel>)
    requires s.lastId >= 0 && (d == c || AllAsked(s, d))
    ensures AllAsked(Asked(s, c), d)
  {
    hide Asked, Table;
    var t := Asked(s, c);
    forall m | m in Table(t, d)
      ensures Table(t, d)[m].requestId > 0
    {
      AskedTables(s, c, Key(d, m));
      assert m in Table(s, d) && (d != c ==> Table(s, d)[m].requestId > 0);
      assert At(t, Key(d, m)) == Table(t, d)[m] && At(s, Key(d, m)) == Table(s, d)[m];
    }
  }

  // No channel keeps an empty table, so no channel is dropped here.
  lemma ChannelAskedIsAsked(s: State, channel: Channel)
    requires Core(s) && channel in s.channels
    ensures ChannelAsked(s, channel) == Asked(s, Some(channel))
  {
  }

  lemma {:induction false} ChannelsAskedKeepCore(s: State, order: seq<Channel>)
    requires Core(s) && AllAsked(s, None) && forall c :: c in order ==> c in s.channels
    ensures var t := ChannelsAsked(s, order);
            && Core(t) && t.channels.Keys == s.channels.Keys && t.scheduled == s.scheduled
            && AllAsked(t, None) && forall c :: c in order ==> AllAsked(t, Some(c))
  {
    hide Asked, ChannelAsked, Core, AllAsked;
    if order != [] {
      var (front, last) := (order[..|order| - 1], order[|order| - 1]);
      var t := ChannelsAsked(s, front);
      ChannelsAskedKeepCore(s, front);
      assert last in order;
      ChannelAskedIsAsked(t, last);
      AskKeepsCore(t, Some(last));
      AskedKeepsKeys(t, Some(last));
      CoreCounts(t);
      AskedIsAsked(t, Some(last), None);
      forall c | c in order
        ensures AllAsked(Asked(t, Some(last)), Some(c))
      {
        assert c in front || c == last;
        AskedIsAsked(t, Some(last), Some(c));
      }
    }
  }

  lemma CoreCounts(s: State)
    requires Core(s)
    ensures s.lastId >= 0
  {
  }

  lemma AskedKeepsKeys(s: State, c: Option<Channel>)
    requires c.Some? ==> c.value in s.channels
    ensures Asked(s, c).channels.Keys == s.channels.Keys && Asked(s, c).scheduled == s.scheduled
  {
    hide Stamped, Waiting, Ascending;
  }

  lemma UnscheduledCore(s: State)
    requires Core(s)
    ensures Core(s.(scheduled := false))
  {
    var t := s.(scheduled := false);
    assert forall c :: Table(t, c) == Table(s, c);
    assert forall k: Key :: Held(t, k) <==> Held(s, k);
    forall k: Key | Held(t, k)
      ensures EntryInv(t, k, At(t, k))
    {
      assert EntryInv(s, k, At(s, k));
    }
    forall id | id in t.outstanding
      ensures RequestInv(t, id)
    {
      assert RequestInv(s, id);
    }
  }

  lemma AskedIsSent(s: State, k: Key)
    requires AllAsked(s, None) && forall c :: c in s.channels ==> AllAsked(s, Some(c))
    requires Held(s, k)
    ensures At(s, k).requestId > 0
  {
    hide AllAsked;
    assert AllAsked(s, k.channel) by {
      assert k.channel.Some? ==> k.channel.value in s.channels;
    }
    NotZero(s, k);
  }

  lemma NotZero(s: State, k: Key)
    requires AllAsked(s, k.channel) && Held(s, k)
    ensures At(s, k).requestId > 0
  {
  }

  lemma ResolveKeepsInv(s: State)
    requires Inv(s)
    ensures Inv(Resolved(s))
    ensures forall k: Key :: Held(Resolved(s), k) ==> At(Resolved(s), k).requestId > 0
  {
    hide Core, Asked, ChannelsAsked, Scheduled, AllAsked;
    var t := s.(scheduled := false);
    UnscheduledCore(s);
    AskKeepsCore(t, None);
    CoreCounts(t);
    AskedIsAsked(t, None, None);
    AskedKeepsKeys(t, None);
    AscendingLists(s.channels.Keys);
    ChannelsAskedKeepCore(Asked(t, None), Ascending(s.channels.Keys));
    var r := Resolved(s);
    forall k: Key | Held(r, k)
      ensures At(r, k).requestId > 0
    {
      AskedIsSent(r, k);
    }
    SentIsScheduled(r);
  }

  lemma SentIsScheduled(s: State)
    requires forall k: Key :: Held(s, k) ==> At(s, k).requestId > 0
    ensures Scheduled(s)
  {
  }

  // An answer
  lemma {:induction false} CallbacksOf(r: Requests, keys: seq<MsgId>, id: RequestId, c: Callback)
    requires forall m :: m in keys ==> m in r
    ensures c in Callbacks(r, keys, id) <==> exists m :: m in keys && r[m].requestId == id && c in r[m].callbacks
  {
    if keys != [] {
      CallbacksOf(r, keys[..|keys| - 1], id, c);
      assert keys == keys[..|keys| - 1] + [keys[|keys| - 1]];
    }
  }

  lemma CollectedIs(r: Requests, id: RequestId, c: Callback)
    ensures c in Collected(r, id) <==> exists m :: m in r && r[m].requestId == id && c in r[m].callbacks
  {
    AscendingLists(r.Keys);
    CallbacksOf(r, Ascending(r.Keys), id, c);
  }

  // Two entries of one table hold different callbacks.
  ghost predicate Apart(r: Requests) {
    && (forall m :: m in r ==> Distinct(r[m].callbacks))
    && (forall m, n, c :: m in r && n in r && c in r[m].callbacks && c in r[n].callbacks ==> m == n)
  }

  lemma TableIsApart(s: State, c: Option<Channel>)
    requires EntriesInv(s)
    ensures Apart(Table(s, c))
  {
    hide Table;
    forall m | m in Table(s, c)
      ensures Distinct(Table(s, c)[m].callbacks)
      ensures forall b :: b in Table(s, c)[m].callbacks ==> b in s.home && s.home[b] == Key(c, m)
    {
      assert EntryInv(s, Key(c, m), At(s, Key(c, m)));
    }
  }

  lemma {:induction false} CallbacksDistinct(r: Requests, keys: seq<MsgId>, id: RequestId)
    requires Apart(r) && Distinct(keys) && forall m :: m in keys ==> m in r
    ensures Distinct(Callbacks(r, keys, id))
  {
    if keys != [] {
      var (front, last) := (keys[..|keys| - 1], keys[|keys| - 1]);
      CallbacksDistinct(r, front, id);
      var more := if r[last].requestId == id then r[last].callbacks else [];
      forall c | c in Callbacks(r, front, id)
        ensures c !in more
      {
        CallbacksOf(r, front, id, c);
        var m :| m in front && r[m].requestId == id && c in r[m].callbacks;
        assert m != last;
      }
      DistinctConcat(Callbacks(r, front, id), more);
    }
  }

  lemma FinalizedTables(s: State, c: Option<Channel>, id: RequestId, k: Key)
    ensures var t := Finalized(s, c, id);
            && (Held(t, k) <==> Held(s, k) && !(k.channel == c && At(s, k).requestId == id))
            && (Held(t, k) ==> At(t, k) == At(s, k))
  {
    hide Collected, WithoutId;
    WithoutIdTable(s, c, id, k.channel);
  }

  lemma WithoutIdTable(s: State, c: Option<Channel>, id: RequestId, d: Option<Channel>)
    ensures Table(WithoutId(s, c, id), d) == if d == c then Left(Table(s, c), id) else Table(s, d)
  {
    hide Left;
  }

  lemma FinalizedFrame(s: State, c: Option<Channel>, id: RequestId)
    ensures var t := Finalized(s, c, id);
            && t.outstanding == s.outstanding && t.home == s.home && t.lastId == s.lastId && t.scheduled == s.scheduled
            && t.fired == s.fired + Collected(Table(s, c), id)
            && (ChannelsInv(s) ==> ChannelsInv(t))
  {
    hide Collected;
  }

  // The state in which request id was just answered
  function Answered(s: State, id: RequestId): State {
    s.(outstanding := s.outstanding - {id})
  }

  lemma AnsweredTables(s: State, id: RequestId)
    ensures forall c :: Table(Answered(s, id), c) == Table(s, c)
  {
  }

  // The messages that an answered request asked for are exactly the entries that carry its id.
  lemma AnswerHasItsMessages(s: State, id: RequestId, k: Key)
    requires Core(s) && id in s.outstanding
    ensures Held(s, k) && At(s, k).requestId == id <==>
            k.channel == s.outstanding[id].channel && k.msg in s.outstanding[id].ids
  {
    hide Table;
    assert RequestInv(s, id);
    if Held(s, k) && At(s, k).requestId == id {
      assert EntryInv(s, k, At(s, k));
    }
  }

  lemma AnswerTables(s: State, id: RequestId, k: Key)
    requires Core(s) && id in s.outstanding
    ensures var t := After(s, Answer(id));
            && (Held(t, k) <==> Held(s, k) && At(s, k).requestId != id)
            && (Held(t, k) ==> At(t, k) == At(s, k))
  {
    hide Finalized, Table;
    AnsweredTables(s, id);
    FinalizedTables(Answered(s, id), s.outstanding[id].channel, id, k);
    AnswerHasItsMessages(s, id, k);
  }

  lemma AnswerFrame(s: State, id: RequestId)
    requires id in s.outstanding
    ensures var t := After(s, Answer(id));
            && t.outstanding == s.outstanding - {id} && t.home == s.home && t.lastId == s.lastId
            && t.scheduled == s.scheduled
            && t.fired == s.fired + Collected(Table(s, s.outstanding[id].channel), id)
            && (ChannelsInv(s) ==> ChannelsInv(t))
  {
    hide Finalized, Table;
    AnsweredTables(s, id);
    FinalizedFrame(Answered(s, id), s.outstanding[id].channel, id);
  }

  lemma FiredByAnswer(s: State, id: RequestId, c: Callback)
    requires Core(s) && id in s.outstanding
    ensures c in Collected(Table(s, s.outstanding[id].channel), id)
            <==>
            c in s.home && Held(s, s.home[c]) && At(s, s.home[c]).requestId == id && c in At(s, s.home[c]).callbacks
  {
    hide Table;
    var channel := s.outstanding[id].channel;
    var r := Table(s, channel);
    CollectedIs(r, id, c);
    if c in Collected(r, id) {
      var m :| m in r && r[m].requestId == id && c in r[m].callbacks;
      assert EntryInv(s, Key(channel, m), At(s, Key(channel, m)));
    }
    if c in s.home && Held(s, s.home[c]) && At(s, s.home[c]).requestId == id && c in At(s, s.home[c]).callbacks {
      AnswerHasItsMessages(s, id, s.home[c]);
      assert s.home[c].msg in r;
    }
  }

  lemma AnswerKeepsEntries(s: State, id: RequestId)
    requires Core(s) && id in s.outstanding
    ensures EntriesInv(After(s, Answer(id)))
  {
    hide After, Table, Collected;
    var t := After(s, Answer(id));
    AnswerFrame(s, id);
    forall k: Key | Held(t, k)
      ensures EntryInv(t, k, At(t, k))
    {
      AnswerTables(s, id, k);
      assert EntryInv(s, k, At(s, k));
      forall c | c in At(t, k).callbacks
        ensures c !in t.fired
      {
        FiredByAnswer(s, id, c);
      }
    }
  }

  lemma AnswerKeepsRequests(s: State, id: RequestId)
    requires Core(s) && id in s.outstanding
    ensures RequestsInv(After(s, Answer(id)))
  {
    hide After, Table, Collected;
    var t := After(s, Answer(id));
    AnswerFrame(s, id);
    forall other | other in t.outstanding
      ensures RequestInv(t, other)
    {
      assert RequestInv(s, other);
      forall m | m in t.outstanding[other].ids
        ensures var k := Key(t.outstanding[other].channel, m); Held(t, k) && At(t, k).requestId == other
      {
        AnswerTables(s, id, Key(s.outstanding[other].channel, m));
      }
    }
  }

  lemma AnswerKeepsCallbacks(s: State, id: RequestId)
    requires Core(s) && id in s.outstanding
    ensures CallbacksInv(After(s, Answer(id)))
  {
    hide After, Table, Collected;
    var t := After(s, Answer(id));
    var channel := s.outstanding[id].channel;
    AnswerFrame(s, id);
    forall c | c in t.home
      ensures c in t.fired || IsWaitingFor(t, c)
    {
      assert c in s.fired || IsWaitingFor(s, c);
      FiredByAnswer(s, id, c);
      AnswerTables(s, id, s.home[c]);
    }
    forall c | c in Collected(Table(s, channel), id)
      ensures c in s.home && c !in s.fired
    {
      FiredByAnswer(s, id, c);
      assert EntryInv(s, s.home[c], At(s, s.home[c]));
    }
    CollectedDistinct(s, channel, id);
    DistinctConcat(s.fired, Collected(Table(s, channel), id));
  }

  lemma CollectedDistinct(s: State, c: Option<Channel>, id: RequestId)
    requires EntriesInv(s)
    ensures Distinct(Collected(Table(s, c), id))
  {
    hide Table;
    TableIsApart(s, c);
    AscendingLists(Table(s, c).Keys);
    CallbacksDistinct(Table(s, c), Ascending(Table(s, c).Keys), id);
  }

  lemma AnswerKeepsInv(s: State, id: RequestId)
    requires Inv(s) && id in s.outstanding
    ensures Inv(After(s, Answer(id)))
  {
    hide After, EntriesInv, RequestsInv, CallbacksInv, ChannelsInv, Table;
    AnswerKeepsEntries(s, id);
    AnswerKeepsRequests(s, id);
    AnswerKeepsCallbacks(s, id);
    AnswerFrame(s, id);
    var t := After(s, Answer(id));
    forall k: Key | Held(t, k) && At(t, k).requestId == 0
      ensures t.scheduled
    {
      AnswerTables(s, id, k);
    }
  }

  // The invariant holds in every state that any run reaches.
  lemma StepKeepsInv(s: State, e: Event)
    requires Inv(s) && CanHappen(s, e)
    ensures Inv(After(s, e))
  {
    hide Inv, Requested, Resolved, Finalized;
    match e {
      case Request(key, done) => RequestKeepsInv(s, key, done);
      case Resolve => ResolveKeepsInv(s);
      case Answer(id) => AnswerKeepsInv(s, id);
    }
  }

  lemma {:induction false} RunKeepsInv(events: seq<Event>)
    requires Run(events).Some?
    ensures Inv(Run(events).value)
  {
    hide After, CanHappen;
    if events == [] {
      StartHasInv();
    } else {
      RunKeepsInv(events[..|events| - 1]);
      StepKeepsInv(Run(events[..|events| - 1]).value, events[|events| - 1]);
    }
  }

  lemma StartHasInv()
    ensures Inv(INITIAL)
  {
  }

  // The registered callbacks are, at every moment of every run, the called ones and the held ones: none in both,
  // none called twice, none held anywhere but at the message it was registered for.
  lemma CallbacksAreConserved(events: seq<Event>, c: Callback)
    requires Run(events).Some? && c in Run(events).value.home
    ensures var s := Run(events).value;
            && Distinct(s.fired)
            && (c in s.fired <==> !IsWaitingFor(s, c))
            && forall k: Key :: Held(s, k) && c in At(s, k).callbacks ==> k == s.home[c]
  {
    hide Run, Table;
    RunKeepsInv(events);
    var s := Run(events).value;
    forall k: Key | Held(s, k) && c in At(s, k).callbacks
      ensures k == s.home[c] && c !in s.fired
    {
      assert EntryInv(s, k, At(s, k));
    }
  }

  // An answer removes the entries of its own request, each with all its callbacks, and touches nothing else.
  lemma AnswerRemovesItsEntries(events: seq<Event>, id: RequestId, k: Key)
    requires Run(events).Some? && id in Run(events).value.outstanding
    ensures var s := Run(events).value;
            var t := After(s, Answer(id));
            && (Held(t, k) <==> Held(s, k) && !IsAsked(s, id, k))
            && (Held(t, k) ==> At(t, k) == At(s, k))
            && (IsAsked(s, id, k) ==> Held(s, k) && forall c :: c in At(s, k).callbacks ==> c in t.fired)
  {
    hide Run, After, Table, Collected;
    RunKeepsInv(events);
    var s := Run(events).value;
    AnswerHasItsMessages(s, id, k);
    AnswerTables(s, id, k);
    AnswerFrame(s, id);
    if IsAsked(s, id, k) {
      assert EntryInv(s, k, At(s, k));
      forall c | c in At(s, k).callbacks
        ensures c in After(s, Answer(id)).fired
      {
        FiredByAnswer(s, id, c);
      }
    }
  }

  // When nothing is on its way and nothing is scheduled, every callback was called.
  lemma NothingIsForgotten(events: seq<Event>)
    requires Run(events).Some? && Run(events).value.outstanding == map[] && !Run(events).value.scheduled
    ensures var s := Run(events).value;
            && (forall k: Key :: !Held(s, k))
            && (forall c :: c in s.home <==> c in s.fired)
  {
    hide Run, Table;
    RunKeepsInv(events);
    var s := Run(events).value;
  }
}
