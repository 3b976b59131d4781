/** The tables of message data requests, as they are updated in place. */
module MessageDataCode {
  import opened Wrappers
  import opened FlatMap
  import opened MessageDataSpec

  method CollectMessageIds(requests: Requests) returns (ids: seq<MsgId>)
    ensures ids == Ascending(Waiting(requests))
  {
    hide Ascending;
    var keys := Ascending(requests.Keys);
    AscendingLists(requests.Keys);
    ids := [];
    for i := 0 to |keys|
      invariant Rising(ids) && forall m :: m in ids <==> m in keys[..i] && requests[m].requestId <= 0
    {
      assert keys[i] in keys && keys[..i + 1] == keys[..i] + [keys[i]];
      if requests[keys[i]].requestId > 0 {
        continue;
      }
      RisingGrows(ids, keys, i);
      ids := ids + [keys[i]];
    }
    assert keys[..|keys|] == keys;
    RisingIsAscending(ids, Waiting(requests));
  }

  lemma RisingGrows(ids: seq<Id>, keys: seq<Id>, i: nat)
    requires Rising(ids) && Rising(keys) && i < |keys| && forall m :: m in ids ==> m in keys[..i]
    ensures Rising(ids + [keys[i]])
  {
    forall j | 0 <= j < |ids|
      ensures ids[j] < keys[i]
    {
      assert ids[j] in ids;
      var k :| 0 <= k < i && keys[..i][k] == ids[j];
      assert keys[k] == ids[j];
    }
  }

  method Stamp(requests: Requests, id: RequestId) returns (stamped: Requests)
    ensures stamped == Stamped(requests, id)
  {
    hide Ascending, Stamped;
    var keys := Ascending(requests.Keys);
    AscendingLists(requests.Keys);
    assert forall k :: 0 <= k < |keys| ==> keys[k] in keys;
    stamped := requests;
    for i := 0 to |keys|
      invariant stamped.Keys == requests.Keys
      invariant forall k :: i <= k < |keys| ==> stamped[keys[k]] == requests[keys[k]]
      invariant forall k :: 0 <= k < i ==> stamped[keys[k]] == StampedEntry(requests[keys[k]], id)
    {
      assert keys[i] in keys;
      if stamped[keys[i]].requestId > 0 {
        continue;
      }
      stamped := stamped[keys[i] := stamped[keys[i]].(requestId := id)];
    }
    IsStamped(requests, keys, stamped, id);
  }

  function StampedEntry(e: Entry, id: RequestId): Entry {
    if e.requestId > 0 then e else e.(requestId := id)
  }

  lemma IsStamped(requests: Requests, keys: seq<MsgId>, stamped: Requests, id: RequestId)
    requires stamped.Keys == requests.Keys && forall m :: m in keys <==> m in requests
    requires forall k :: 0 <= k < |keys| ==> keys[k] in keys && stamped[keys[k]] == StampedEntry(requests[keys[k]], id)
    ensures stamped == Stamped(requests, id)
  {
  }

  method TakeCallbacks(requests: Requests, id: RequestId) returns (left: Requests, callbacks: seq<Callback>)
    ensures left == Left(requests, id) && callbacks == Collected(requests, id)
  {
    hide Ascending, Callbacks, Left;
    var keys := Ascending(requests.Keys);
    AscendingLists(requests.Keys);
    NoCallbacks(requests, id);
    assert keys[..0] == [];
    left := requests;
    callbacks := [];
    for i := 0 to |keys|
      invariant callbacks == Callbacks(requests, keys[..i], id)
      invariant forall m :: m in left <==> m in requests && !(m in keys[..i] && requests[m].requestId == id)
      invariant forall m :: m in left ==> left[m] == requests[m]
    {
      assert keys[i] in keys;
      NextCallbacks(requests, keys, i, id);
      if requests[keys[i]].requestId == id {
        assert keys[i] in left by { NotBefore(keys, i); }
        callbacks := callbacks + left[keys[i]].callbacks;
        left := left - {keys[i]};
      }
    }
    assert keys[..|keys|] == keys;
    IsLeft(requests, left, id);
  }

  lemma NoCallbacks(requests: Requests, id: RequestId)
    ensures Callbacks(requests, [], id) == []
  {
  }

  lemma IsLeft(requests: Requests, left: Requests, id: RequestId)
    requires forall m :: m in left <==> m in requests && requests[m].requestId != id
    requires forall m :: m in left ==> left[m] == requests[m]
    ensures left == Left(requests, id)
  {
    assert forall m :: m in Left(requests, id) ==> Left(requests, id)[m] == requests[m];
    assert forall m :: m in left <==> m in Left(requests, id);
  }

  lemma NotBefore(keys: seq<Id>, i: nat)
    requires Rising(keys) && i < |keys|
    ensures keys[i] !in keys[..i]
  {
  }

  lemma NextCallbacks(requests: Requests, keys: seq<MsgId>, i: nat, id: RequestId)
    requires i < |keys| && forall m :: m in keys ==> m in requests
    ensures Callbacks(requests, keys[..i + 1], id)
            == Callbacks(requests, keys[..i], id)
               + (if requests[keys[i]].requestId == id then requests[keys[i]].callbacks else [])
    ensures forall m :: m in keys[..i + 1] <==> m in keys[..i] || m == keys[i]
  {
    assert keys[..i + 1][..i] == keys[..i] && keys[..i + 1] == keys[..i] + [keys[i]];
  }

  class MessageDatas {
    var main: Requests
    var channels: map<Channel, Requests>
    var scheduled: bool
    var outstanding: map<RequestId, Sent>
    var lastId: RequestId
    var home: map<Callback, Key>
    var fired: seq<Callback>

    function Value(): State
      reads this
    {
      State(main, channels, scheduled, outstanding, lastId, home, fired)
    }

    constructor ()
      ensures Value() == INITIAL
    {
      main, channels, scheduled, outstanding, lastId, home, fired := map[], map[], false, map[], 0, map[], [];
    }

    method Send(c: Option<Channel>, ids: seq<MsgId>) returns (id: RequestId)
      modifies `outstanding, `lastId
      ensures id == lastId == old(lastId) + 1 && outstanding == old(outstanding)[id := Sent(c, ids)]
    {
      lastId := lastId + 1;
      id := lastId;
      outstanding := outstanding[id := Sent(c, ids)];
    }

    method RequestMessageData(channel: Option<Channel>, msg: MsgId, done: Option<Callback>)
      modifies this
      ensures Value() == Requested(old(Value()), Key(channel, msg), done)
    {
      if channel.Some? {
        if channel.value !in channels {
          channels := channels[channel.value := map[]];
        }
      }
      var requests := if channel.Some? then channels[channel.value] else main;
      ghost var e := Registered(requests, msg, done);
      ghost var updated := requests[msg := e];
      if msg !in requests {
        requests := requests[msg := Entry([], 0)];
      }
      if done.Some? {
        requests := requests[msg := requests[msg].(callbacks := requests[msg].callbacks + [done.value])];
        home := home[done.value := Key(channel, msg)];
      }
      if requests[msg].requestId == 0 {
        scheduled := true;
      }
      assert requests == updated;
      if channel.Some? {
        channels := channels[channel.value := requests];
      } else {
        main := requests;
      }
    }

    method ResolveMain()
      modifies this
      ensures Value() == Asked(old(Value()), None)
    {
      hide Ascending;
      var ids := CollectMessageIds(main);
      if ids != [] {
        var requestId := Send(None, ids);
        main := Stamp(main, requestId);
      }
    }

    method ResolveChannel(channel: Channel)
      requires channel in channels
      modifies this
      ensures Value() == ChannelAsked(old(Value()), channel)
      ensures channels.Keys <= old(channels.Keys) && old(channels.Keys) <= channels.Keys + {channel}
    {
      hide Ascending, Waiting;
      var requests := channels[channel];
      if requests == map[] {
        channels := channels - {channel};
        return;
      }
      var ids := CollectMessageIds(requests);
      if ids != [] {
        var requestId := Send(Some(channel), ids);
        var stamped := Stamp(requests, requestId);
        channels := channels[channel := stamped];
      }
    }

    method ResolveChannels(order: seq<Channel>)
      requires Distinct(order) && forall c :: c in order ==> c in channels
      modifies this
      ensures Value() == ChannelsAsked(old(Value()), order)
    {
      hide ChannelAsked;
      for i := 0 to |order|
        invariant Value() == ChannelsAsked(old(Value()), order[..i])
        invariant forall k :: i <= k < |order| ==> order[k] in channels
      {
        assert order[..i + 1][..i] == order[..i];
        ResolveChannel(order[i]);
      }
      assert order[..|order|] == order;
    }

    method ResolveMessageDatas()
      modifies this
      ensures Value() == Resolved(old(Value()))
    {
      hide Asked, ChannelsAsked, Ascending;
      scheduled := false;
      AskedKeepsChannels(Value());
      AscendingLists(channels.Keys);
      var order := Ascending(channels.Keys);
      ResolveMain();
      ResolveChannels(order);
    }

    method FinalizeMessageDataRequest(channel: Option<Channel>, requestId: RequestId)
      modifies this
      ensures Value() == Finalized(old(Value()), channel, requestId)
    {
      hide Collected, Left;
      if channel.Some? && channel.value !in channels {
        NothingToFinalize(Value(), channel.value, requestId);
        return;
      }
      var requests := if channel.Some? then channels[channel.value] else main;
      var left, callbacks := TakeCallbacks(requests, requestId);
      if channel.None? {
        main := left;
      } else if left == map[] {
        channels := channels - {channel.value};
      } else {
        channels := channels[channel.value := left];
      }
      fired := fired + callbacks;
    }
  }

  lemma AskedKeepsChannels(s: State)
    ensures Asked(s, None).channels == s.channels
  {
    hide Ascending, Waiting;
  }

  lemma NothingToFinalize(s: State, channel: Channel, id: RequestId)
    requires channel !in s.channels
    ensures Finalized(s, Some(channel), id) == s
  {
    var r: Requests := map[];
    assert r.Keys == {};
    assert Collected(r, id) == [];
    assert s.channels - {channel} == s.channels;
    assert s.fired + [] == s.fired;
  }
}
