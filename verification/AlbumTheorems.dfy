/** In every run an album is sent at most once, complete, in order, and for no more stars than were approved. */
module AlbumTheorems {
  import opened Wrappers
  import opened FlatMap
  import opened AlbumSpec

  // An album that is still kept: unsent and with all its stars, or sent once and without the stars it cost.
  ghost predicate AlbumInv(s: State, group: GroupId, album: Album) {
    && group in s.approved
    && (!album.sent ==> album.approved == s.approved[group] && forall k :: 0 <= k < |s.log| ==> s.log[k].group != group)
    && (album.sent ==> IsReady(album.items)
                       && exists k :: 0 <= k < |s.log| && s.log[k].group == group
                                      && album.approved + s.log[k].stars == s.approved[group])
  }

  ghost predicate LogInv(s: State) {
    && (forall k :: 0 <= k < |s.log| ==> s.log[k].group in s.approved && s.log[k].stars <= s.approved[s.log[k].group])
    && (forall j, k :: 0 <= j < k < |s.log| ==> s.log[j].group != s.log[k].group)
  }

  ghost predicate AlbumsInv(s: State) {
    forall group :: group in s.albums ==> AlbumInv(s, group, s.albums[group])
  }

  ghost predicate FlightInv(s: State) {
    forall id :: id in s.inFlight ==> id <= s.lastId && s.inFlight[id] in s.log
  }

  ghost predicate Inv(s: State) {
    AlbumsInv(s) && LogInv(s) && FlightInv(s)
  }

  lemma KeepAlbums(s: State, t: State)
    requires Inv(s) && t.log == s.log && t.approved == s.approved && t.lastId == s.lastId
    requires forall id :: id in t.inFlight ==> id in s.inFlight && t.inFlight[id] == s.inFlight[id]
    requires forall group :: group in t.albums ==> group in s.albums && SameButItems(s.albums[group], t.albums[group])
    ensures Inv(t)
  {
    forall group | group in t.albums
      ensures AlbumInv(t, group, t.albums[group])
    {
      assert AlbumInv(s, group, s.albums[group]);
    }
  }

  // Items may go or change while the album is not sent; they may go afterwards.
  predicate SameButItems(a: Album, b: Album) {
    b.approved == a.approved && b.sent == a.sent && (a.sent && IsReady(a.items) ==> IsReady(b.items))
  }

  lemma OutgoingStars(group: GroupId, album: Album, messages: Messages, perMessage: nat)
    requires IsReady(album.items) && album.items != [] && Sample(album.items, messages).Some?
    ensures var sent := Outgoing(group, album, messages, perMessage);
            sent.group == group && sent.stars <= album.approved
  {
    hide IsReady, Sample, ContentOf;
  }

  lemma DispatchKeepsInv(s: State, group: GroupId, perMessage: nat)
    requires Inv(s) && Dispatches(s, group)
    ensures Inv(Dispatched(s, group, perMessage))
  {
    hide Outgoing, Sample;
    var album := s.albums[group];
    assert AlbumInv(s, group, album);
    OutgoingStars(group, album, s.messages, perMessage);
    var sent := Outgoing(group, album, s.messages, perMessage);
    var t := Dispatched(s, group, perMessage);
    var n := |s.log|;
    assert t.log[n] == sent;
    assert forall k :: 0 <= k < n ==> t.log[k] == s.log[k];
    forall other | other in t.albums
      ensures AlbumInv(t, other, t.albums[other])
    {
      assert AlbumInv(s, other, s.albums[other]);
      if s.albums[other].sent {
        var k :| 0 <= k < n && s.log[k].group == other
          && s.albums[other].approved + s.log[k].stars == s.approved[other];
        assert t.log[k] == s.log[k];
      }
    }
    forall id | id in t.inFlight
      ensures id <= t.lastId && t.inFlight[id] in t.log
    {
    }
  }

  lemma ReadyKeepsInv(s: State, group: GroupId, perMessage: nat)
    requires Inv(s) && group in s.albums
    ensures Inv(SentIfReady(s, group, perMessage))
  {
    hide Inv, Dispatched, Sample, IsReady;
    if Dispatches(s, group) {
      DispatchKeepsInv(s, group, perMessage);
    }
    DroppedKeepsInv(s, group);
  }

  lemma DroppedKeepsInv(s: State, group: GroupId)
    requires Inv(s)
    ensures Inv(s.(albums := s.albums - {group}))
  {
    KeepAlbums(s, s.(albums := s.albums - {group}));
  }

  lemma FilledKeepsInv(s: State, group: GroupId, msg: MsgId, media: Media, randomId: Id)
    requires Inv(s) && group in s.albums && HasItem(s.albums[group].items, msg) && msg in s.messages
    ensures Inv(Filled(s, group, msg, media, randomId))
  {
    var t := Filled(s, group, msg, media, randomId);
    var (a, b) := (s.albums[group].items, t.albums[group].items);
    forall item | item in b && IsReady(a)
      ensures item.prepared.Some?
    {
      var k :| 0 <= k < |b| && b[k] == item;
      assert a[k] in a;
    }
    hide Inv;
    KeepAlbums(s, t);
  }

  lemma RemovedItems(s: State, group: GroupId, msg: MsgId)
    requires group in s.albums && HasItem(s.albums[group].items, msg) && msg in s.messages
    requires IsReady(s.albums[group].items)
    ensures IsReady(Removed(s, group, msg).albums[group].items)
  {
    var a := s.albums[group].items;
    var b := Removed(s, group, msg).albums[group].items;
    var i := IndexOf(a, msg);
    forall item | item in b
      ensures item.prepared.Some?
    {
      var k :| 0 <= k < |b| && b[k] == item;
      assert a[if k < i then k else k + 1] in a;
    }
  }

  lemma RemovedFrame(s: State, group: GroupId, msg: MsgId)
    requires group in s.albums && HasItem(s.albums[group].items, msg) && msg in s.messages
    ensures var t := Removed(s, group, msg);
            && t.log == s.log && t.approved == s.approved && t.lastId == s.lastId && t.inFlight == s.inFlight
            && t.albums == s.albums[group := s.albums[group].(items := t.albums[group].items)]
  {
  }

  lemma RemovedKeepsInv(s: State, group: GroupId, msg: MsgId)
    requires Inv(s) && group in s.albums && HasItem(s.albums[group].items, msg) && msg in s.messages
    ensures Inv(Removed(s, group, msg))
  {
    hide Inv, Removed, IsReady;
    RemovedFrame(s, group, msg);
    if IsReady(s.albums[group].items) {
      RemovedItems(s, group, msg);
    }
    KeepAlbums(s, Removed(s, group, msg));
  }

  lemma CancelKeepsInv(s: State, group: GroupId, msg: MsgId, perMessage: nat)
    requires Inv(s) && msg in s.messages && (group in s.albums ==> HasItem(s.albums[group].items, msg))
    ensures Inv(Cancelled(s, group, msg, perMessage))
  {
    hide Inv, Removed, SentIfReady;
    if group in s.albums {
      RemovedFrame(s, group, msg);
      RemovedKeepsInv(s, group, msg);
      ReadyKeepsInv(Removed(s, group, msg), group, perMessage);
    }
    var t := if group in s.albums then SentIfReady(Removed(s, group, msg), group, perMessage) else s;
    KeepAlbums(t, t.(messages := t.messages - {msg}));
  }

  lemma CreateKeepsInv(s: State, e: Event)
    requires Inv(s) && e.Create? && CanHappen(s, e)
    ensures Inv(After(s, e))
  {
    hide Distinct;
    var t := After(s, e);
    forall group | group in t.albums
      ensures AlbumInv(t, group, t.albums[group])
    {
      assert group in s.albums ==> AlbumInv(s, group, s.albums[group]);
    }
  }

  lemma StepKeepsInv(s: State, e: Event)
    requires Inv(s) && CanHappen(s, e)
    ensures Inv(After(s, e))
  {
    hide Inv, Filled, SentIfReady, Cancelled, Distinct, IsReady;
    match e {
      case Create(_, _, _, _) => CreateKeepsInv(s, e);
      case Arrive(_, _) => KeepAlbums(s, After(s, e));
      case Vanish(_) => KeepAlbums(s, After(s, e));
      case Upload(group, msg, media, randomId, perMessage) =>
        FilledKeepsInv(s, group, msg, media, randomId);
        assert group in Filled(s, group, msg, media, randomId).albums by { FilledHas(s, group, msg, media, randomId); }
        ReadyKeepsInv(Filled(s, group, msg, media, randomId), group, perMessage);
      case Cancel(group, msg, perMessage) => CancelKeepsInv(s, group, msg, perMessage);
      case Done(id) => KeepAlbums(s, After(s, e));
      case Fail(id) => KeepAlbums(s, After(s, e));
    }
  }

  lemma FilledHas(s: State, group: GroupId, msg: MsgId, media: Media, randomId: Id)
    requires group in s.albums && HasItem(s.albums[group].items, msg) && msg in s.messages
    ensures group in Filled(s, group, msg, media, randomId).albums
  {
  }

  lemma StartHasInv()
    ensures Inv(INITIAL)
  {
  }

  lemma {:induction false} RunKeepsInv(events: seq<Event>)
    requires Run(events).Some?
    ensures Inv(Run(events).value)
  {
    hide After, CanHappen, Inv;
    if events == [] {
      StartHasInv();
    } else {
      RunKeepsInv(events[..|events| - 1]);
      StepKeepsInv(Run(events[..|events| - 1]).value, events[|events| - 1]);
    }
  }

  // In every run no album is sent twice, by whatever path, and none costs more stars than were approved for it.
  lemma SentAtMostOnce(events: seq<Event>, j: nat, k: nat)
    requires Run(events).Some? && j < k < |Run(events).value.log|
    ensures var log := Run(events).value.log; log[j].group != log[k].group
  {
    hide Run;
    RunKeepsInv(events);
  }

  lemma StarsAreApproved(events: seq<Event>, k: nat)
    requires Run(events).Some? && k < |Run(events).value.log|
    ensures var s := Run(events).value; s.log[k].group in s.approved && s.log[k].stars <= s.approved[s.log[k].group]
  {
    hide Run;
    RunKeepsInv(events);
  }

  // An album that is kept and unsent has every star left; a sent one what its request did not take.
  lemma StarsAreConserved(events: seq<Event>, group: GroupId)
    requires Run(events).Some? && group in Run(events).value.albums
    ensures var s := Run(events).value;
            var album := s.albums[group];
            && group in s.approved
            && (!album.sent ==> album.approved == s.approved[group])
            && (album.sent ==> exists k :: 0 <= k < |s.log| && s.log[k].group == group
                                           && album.approved + s.log[k].stars == s.approved[group])
  {
    hide Run;
    RunKeepsInv(events);
    assert AlbumInv(Run(events).value, group, Run(events).value.albums[group]);
  }

  // An album goes out exactly when it is unsent, all the items it has left are uploaded, and one of their messages
  // is still there.
  lemma SentExactlyWhenReady(s: State, group: GroupId, perMessage: nat)
    requires group in s.albums
    ensures SentIfReady(s, group, perMessage).log ==
            if Dispatches(s, group) then s.log + [Outgoing(group, s.albums[group], s.messages, perMessage)] else s.log
  {
    hide Outgoing, Sample, IsReady;
  }

  // No text is lost with the first item: the new first one takes it over, and so does its media if it is uploaded.
  lemma FirstTextMoves(s: State, group: GroupId, msg: MsgId)
    requires group in s.albums && |s.albums[group].items| > 1 && s.albums[group].items[0].msg == msg
             && msg in s.messages
    requires s.albums[group].items[1].msg in s.messages
    ensures var (a, t) := (s.albums[group].items, Removed(s, group, msg));
            var b := t.albums[group].items;
            var text := MovedText(s.messages[msg].text, s.messages[a[1].msg].text);
            && b[0].msg == a[1].msg && t.messages == s.messages[a[1].msg := s.messages[a[1].msg].(text := text)]
            && b[0].prepared == if a[1].prepared.None? then None else Some(a[1].prepared.value.(caption := text))
  {
    var a := s.albums[group].items;
    assert HasItem(a, msg) && IndexOf(a, msg) == 0;
  }
}
