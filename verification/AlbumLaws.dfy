/** What each event makes of the messages, of the albums that are kept, of the requests and of the stars, told from the
    events before it. */
module AlbumLaws {
  import opened Wrappers
  import opened FlatMap
  import opened AlbumSpec
  import opened AlbumTheorems
  import opened AlbumHistory
  import C = AlbumCaptions

  // A message takes over the text of one that goes: its own text stays in front, and a line end comes between.
  predicate IsHandedOn(gone: string, own: string, text: string) {
    if own == "" then text == gone
    else
      && |text| == |own| + 1 + |gone| && text[..|own|] == own && text[|own|] == '\n' && text[|own| + 1..] == gone
  }

  // The cancelled message is the first of its album, and m is the next one.
  predicate HandsOn(s: State, e: Event, m: MsgId) {
    && e.Cancel? && e.group in s.albums
    && var items := s.albums[e.group].items;
       |items| > 1 && items[0].msg == e.msg && items[1].msg == m
  }

  predicate Ends(e: Event, m: MsgId) {
    (e.Vanish? && e.msg == m) || (e.Cancel? && e.msg == m)
  }

  lemma RemovedMessages(s: State, e: Event, m: MsgId)
    requires e.Cancel? && CanHappen(s, e) && e.group in s.albums
    ensures var t := Removed(s, e.group, e.msg);
            && (m in t.messages <==> m in s.messages)
            && (m in s.messages ==>
                  && t.messages[m].replyTo == s.messages[m].replyTo
                  && t.messages[m].ephemeral == s.messages[m].ephemeral
                  && if HandsOn(s, e, m)
                     then IsHandedOn(s.messages[e.msg].text, s.messages[m].text, t.messages[m].text)
                     else t.messages[m].text == s.messages[m].text)
  {
    var items := s.albums[e.group].items;
    var i := IndexOf(items, e.msg);
    var left := items[..i] + items[i + 1..];
    assert i == 0 ==> left == items[1..];
    assert i != 0 ==> items[0].msg != e.msg;
    hide IndexOf;
  }

  // The messages that are there are those that came and did not go, with their texts, but for the one text that is
  // handed on.
  lemma MessagesAfter(s: State, e: Event, m: MsgId)
    requires CanHappen(s, e)
    ensures var t := After(s, e);
            && (m in t.messages <==> (m in s.messages && !Ends(e, m)) || (e.Arrive? && e.msg == m))
            && (e.Arrive? && e.msg == m ==> t.messages[m] == e.message)
            && (m in s.messages && !Ends(e, m) ==>
                  && t.messages[m].replyTo == s.messages[m].replyTo
                  && t.messages[m].ephemeral == s.messages[m].ephemeral
                  && if HandsOn(s, e, m)
                     then IsHandedOn(s.messages[e.msg].text, s.messages[m].text, t.messages[m].text)
                     else t.messages[m].text == s.messages[m].text)
  {
    hide SentIfReady, Removed, Distinct, IsFree, IndexOf, IsHandedOn;
    if e.Cancel? && e.group in s.albums {
      RemovedMessages(s, e, m);
      RemovedFrame(s, e.group, e.msg);
      C.ReadyFrame(Removed(s, e.group, e.msg), e.group, e.perMessage);
    } else if e.Upload? {
      C.ReadyFrame(Filled(s, e.group, e.msg, e.media, e.randomId), e.group, e.perMessage);
    }
  }

  // How a ready album goes out: told by its items, and by the messages chosen
  lemma KindIs(group: GroupId, album: Album, messages: Messages, perMessage: nat)
    requires IsReady(album.items) && album.items != [] && Sample(album.items, messages).Some?
    ensures var sent := Outgoing(group, album, messages, perMessage);
            var ephemeral := ReplyToEphemeral(Msgs(album.items), messages);
            && sent.group == group
            && (sent.content.ToEphemeral? <==> ephemeral)
            && (sent.content.Single? <==> !ephemeral && album.price == 0 && |album.items| == 1)
            && (sent.content.Grouped? <==> !ephemeral && album.price == 0 && |album.items| > 1)
            && (ephemeral ==> sent.stars == 0)
            && (!ephemeral && album.price > 0 ==> sent.stars == Lesser(perMessage, album.approved))
            && (!ephemeral && album.price == 0 ==> sent.stars == Lesser(perMessage * |album.items|, album.approved))
  {
    hide IsReady, Sample, Existing, AreThere, Parts, FirstThere;
    SampleIs(album.items, messages);
  }

  function Lesser(a: nat, b: nat): (c: nat)
    ensures c <= a && c <= b && (c == a || c == b)
  {
    if a <= b then a else b
  }

  // An album that goes out with a request is kept until that is answered.
  predicate Awaits(s: State, group: GroupId, perMessage: nat) {
    Dispatches(s, group)
      && var content := Outgoing(group, s.albums[group], s.messages, perMessage).content;
         content.PaidMedia? || content.Grouped?
  }

  // What becomes of the albums when one of them is looked at
  lemma ReadyIs(s: State, group: GroupId, perMessage: nat, g: GroupId)
    requires group in s.albums
    ensures var (t, album) := (SentIfReady(s, group, perMessage), s.albums[group]);
            && (g != group ==> (g in t.albums <==> g in s.albums) && (g in s.albums ==> t.albums[g] == s.albums[g]))
            && (group in t.albums <==>
                  album.sent || Awaits(s, group, perMessage) || (album.items != [] && !IsReady(album.items)))
            && (group in t.albums ==> (t.albums[group].sent <==> album.sent || Dispatches(s, group)))
            && (if Awaits(s, group, perMessage)
                then t.log != [] && t.lastId == s.lastId + 1
                     && t.inFlight == s.inFlight[t.lastId := t.log[|t.log| - 1]]
                else t.lastId == s.lastId && t.inFlight == s.inFlight)
  {
    hide IsReady, Sample, Outgoing;
  }

  // None of these messages is there.
  ghost predicate NoneThere(msgs: seq<MsgId>, messages: Messages) {
    forall msg :: msg in msgs ==> msg !in messages
  }

  // Which album an event takes away: one that is complete and goes out without a request to answer, which is one to an
  // ephemeral place or a single unpaid one; one that nothing is left of; one that is answered; one of several medias
  // that failed.
  ghost predicate TakesAway(events: seq<Event>, s: State, e: Event, group: GroupId)
    requires CanHappen(s, e)
  {
    var (full, messages) := (events + [e], BeforeSending(s, e).messages);
    var chosen := Chosen(full, group);
    || (&& Concerns(s, e, group) && AllUploaded(full, group)
        && (NoneThere(chosen, messages) || ReplyToEphemeral(chosen, messages)
            || (PriceOf(full, group) == 0 && |chosen| == 1)))
    || (e.Done? && s.inFlight[e.id].group == group)
    || (e.Fail? && s.inFlight[e.id].group == group && s.inFlight[e.id].content.Grouped?)
  }

  lemma ConcernedAlbum(events: seq<Event>, s: State, e: Event)
    requires Run(events) == Some(s) && CanHappen(s, e) && (e.Upload? || e.Cancel?) && Concerns(s, e, e.group)
    ensures var (full, u) := (events + [e], BeforeSending(s, e));
            && e.group in u.albums
            && var album := u.albums[e.group];
               && !album.sent && ItemsAre(full, e.group, album.items) && album.price == PriceOf(full, e.group)
               && (IsReady(album.items) <==> AllUploaded(full, e.group))
               && (Dispatches(u, e.group) <==> IsComplete(full, e.group, u.messages))
               && album.approved == s.albums[e.group].approved
  {
    hide Run, HistoryInv, ItemsAre, PriceOf, Dispatches, IsComplete, IsReady, AllUploaded, BeforeSending;
    RunKeepsHistory(events);
    BeforeSendingKeepsHistory(events, s, e);
    BeforeSendingFrame(s, e);
    SamePrice(events, s, e);
    var u := BeforeSending(s, e);
    HistoryOf(events + [e], u, e.group);
    ReadyIff(events + [e], e.group, u.albums[e.group].items);
    DispatchesIff(events + [e], u, e.group);
    SameApproved(s, e);
  }

  lemma SameApproved(s: State, e: Event)
    requires CanHappen(s, e) && (e.Upload? || e.Cancel?) && Concerns(s, e, e.group)
    ensures e.group in BeforeSending(s, e).albums
    ensures BeforeSending(s, e).albums[e.group].approved == s.albums[e.group].approved
  {
    hide IndexOf;
  }

  // The way that a concerned album takes, told from the events
  lemma AwaitsIff(events: seq<Event>, s: State, e: Event)
    requires Run(events) == Some(s) && CanHappen(s, e) && (e.Upload? || e.Cancel?) && Concerns(s, e, e.group)
    ensures var (full, u) := (events + [e], BeforeSending(s, e));
            var chosen := Chosen(full, e.group);
            && (Awaits(u, e.group, e.perMessage) <==>
                  IsComplete(full, e.group, u.messages) && !ReplyToEphemeral(chosen, u.messages)
                  && !(PriceOf(full, e.group) == 0 && |chosen| == 1))
  {
    hide Run, PriceOf, IsComplete, IsReady, AllUploaded, BeforeSending, Outgoing, Chosen, UploadOf, Distinct, Sample,
         ReplyToEphemeral;
    ConcernedAlbum(events, s, e);
    var u := BeforeSending(s, e);
    if Dispatches(u, e.group) {
      KindIs(e.group, u.albums[e.group], u.messages, e.perMessage);
      OneKind(Outgoing(e.group, u.albums[e.group], u.messages, e.perMessage).content);
    }
  }

  lemma OneKind(content: Content)
    ensures content.PaidMedia? || content.Grouped? <==> !content.ToEphemeral? && !content.Single?
  {
  }

  lemma NoneThereIff(events: seq<Event>, group: GroupId, messages: Messages)
    requires AllUploaded(events, group)
    ensures NoneThere(Chosen(events, group), messages) <==> !IsComplete(events, group, messages)
  {
    hide Chosen, UploadOf;
  }

  lemma EmptyIsUploaded(events: seq<Event>, group: GroupId, items: seq<Item>)
    requires ItemsAre(events, group, items) && items == []
    ensures AllUploaded(events, group) && NoneThere(Chosen(events, group), map[])
    ensures Chosen(events, group) == []
  {
    assert Msgs(items) == [];
  }

  lemma ReplyNeedsMessage(msgs: seq<MsgId>, messages: Messages)
    ensures ReplyToEphemeral(msgs, messages) ==> !NoneThere(msgs, messages)
  {
    FirstThereIff(msgs, messages);
  }

  lemma ConcernedStays(events: seq<Event>, s: State, e: Event)
    requires Run(events) == Some(s) && CanHappen(s, e) && (e.Upload? || e.Cancel?) && Concerns(s, e, e.group)
    ensures var t := After(s, e);
            && (e.group in t.albums <==> !TakesAway(events, s, e, e.group))
            && (e.group in t.albums ==>
                  (t.albums[e.group].sent <==> IsComplete(events + [e], e.group, BeforeSending(s, e).messages)))
  {
    hide Run, PriceOf, IsComplete, IsReady, AllUploaded, BeforeSending, Outgoing, Chosen, UploadOf, Distinct,
         SentIfReady, Awaits, Dispatches, NoneThere, ReplyToEphemeral, After, CanHappen;
    var (full, u) := (events + [e], BeforeSending(s, e));
    ConcernedAlbum(events, s, e);
    AwaitsIff(events, s, e);
    StepIsSending(s, e);
    ReadyIs(u, e.group, e.perMessage, e.group);
    if AllUploaded(full, e.group) {
      NoneThereIff(full, e.group, u.messages);
      ReplyNeedsMessage(Chosen(full, e.group), u.messages);
    } else if u.albums[e.group].items == [] {
      EmptyIsUploaded(full, e.group, u.albums[e.group].items);
    }
    assert IsComplete(full, e.group, u.messages) ==> AllUploaded(full, e.group) by {
      CompleteIsUploaded(full, e.group, u.messages);
    }
  }

  lemma CompleteIsUploaded(events: seq<Event>, group: GroupId, messages: Messages)
    ensures IsComplete(events, group, messages) ==> AllUploaded(events, group)
  {
  }

  lemma UnconcernedStays(s: State, e: Event, group: GroupId)
    requires CanHappen(s, e) && (e.Upload? || e.Cancel?) && !Concerns(s, e, group) && group in s.albums
    ensures group in After(s, e).albums && After(s, e).albums[group].sent == s.albums[group].sent
  {
    hide BeforeSending, SentIfReady, CanHappen, After;
    StepIsSending(s, e);
    BeforeSendingPrice(s, e, group);
    SameSent(s, e, group);
    if e.group in s.albums {
      ReadyIs(BeforeSending(s, e), e.group, e.perMessage, group);
    }
  }

  lemma SameSent(s: State, e: Event, group: GroupId)
    requires CanHappen(s, e) && (e.Upload? || e.Cancel?) && group in s.albums
    ensures group in BeforeSending(s, e).albums
    ensures BeforeSending(s, e).albums[group].sent == s.albums[group].sent
  {
    hide IndexOf;
  }

  // In every run an album is kept until one of these events takes it away, and it counts as sent since an upload or a
  // cancellation completed it.
  lemma AlbumStaysIff(events: seq<Event>, s: State, e: Event, group: GroupId)
    requires Run(events) == Some(s) && CanHappen(s, e) && group in s.albums
    ensures var t := After(s, e);
            && (group in t.albums <==> !TakesAway(events, s, e, group))
            && (group in t.albums ==>
                  (t.albums[group].sent <==>
                     s.albums[group].sent
                     || (Concerns(s, e, group) && IsComplete(events + [e], group, BeforeSending(s, e).messages))))
  {
    hide Run, PriceOf, IsComplete, AllUploaded, BeforeSending, Chosen, UploadOf, Distinct, SentIfReady, Dispatches,
         NoneThere, ReplyToEphemeral, IsFree;
    if e.Upload? || e.Cancel? {
      if Concerns(s, e, group) {
        ConcernedStays(events, s, e);
      } else {
        UnconcernedStays(s, e, group);
      }
    } else if e.Create? {
      assert e.group != group by { KnownGroup(events, s, group); }
    }
  }

  lemma KnownGroup(events: seq<Event>, s: State, group: GroupId)
    requires Run(events) == Some(s) && group in s.albums
    ensures group in s.approved
  {
    hide Run;
    RunKeepsInv(events);
    assert AlbumInv(s, group, s.albums[group]);
  }

  // What goes out costs nothing at an ephemeral place, the price of one message if it is paid media, and that price
  // for each message otherwise, but never more than was approved.
  ghost function Bill(events: seq<Event>, group: GroupId, messages: Messages, perMessage: nat, approved: nat): nat {
    var chosen := Chosen(events, group);
    if ReplyToEphemeral(chosen, messages) then 0
    else if PriceOf(events, group) > 0 then Lesser(perMessage, approved)
    else Lesser(perMessage * |chosen|, approved)
  }

  predicate Sends(s: State, e: Event)
    requires CanHappen(s, e)
  {
    |After(s, e).log| > |s.log|
  }

  function LastSent(s: State, e: Event): Sent
    requires CanHappen(s, e) && Sends(s, e)
  {
    After(s, e).log[|s.log|]
  }

  lemma StarsAre(events: seq<Event>, s: State, e: Event)
    requires Run(events) == Some(s) && CanHappen(s, e) && (e.Upload? || e.Cancel?) && Sends(s, e)
    ensures e.group in s.approved
    ensures LastSent(s, e).stars ==
            Bill(events + [e], e.group, BeforeSending(s, e).messages, e.perMessage, s.approved[e.group])
  {
    hide Run, PriceOf, IsComplete, IsReady, AllUploaded, BeforeSending, Outgoing, Chosen, UploadOf, Distinct,
         SentIfReady, ReplyToEphemeral, IsWhatWasChosen, Sample;
    StepSends(events, s, e);
    var u := BeforeSending(s, e);
    ConcernedAlbum(events, s, e);
    BeforeSendingFrame(s, e);
    StepIsSending(s, e);
    SentExactlyWhenReady(u, e.group, e.perMessage);
    KindIs(e.group, u.albums[e.group], u.messages, e.perMessage);
    assert s.albums[e.group].approved == s.approved[e.group] && e.group in s.approved by {
      StarsAreConserved(events, e.group);
    }
  }

  // Nothing else sends.
  lemma OnlyTheseSend(s: State, e: Event)
    requires CanHappen(s, e) && !e.Upload? && !e.Cancel?
    ensures !Sends(s, e)
  {
  }

  // A request is in flight from the step that sends an album of paid media or of several medias, and until it is
  // answered.
  lemma FlightAfter(events: seq<Event>, s: State, e: Event)
    requires Run(events) == Some(s) && CanHappen(s, e)
    ensures var t := After(s, e);
            if e.Done? || e.Fail? then t.inFlight == s.inFlight - {e.id} && t.lastId == s.lastId
            else if Sends(s, e) && (LastSent(s, e).content.PaidMedia? || LastSent(s, e).content.Grouped?)
            then t.lastId == s.lastId + 1 && t.inFlight == s.inFlight[t.lastId := LastSent(s, e)]
            else t.inFlight == s.inFlight && t.lastId == s.lastId
  {
    hide Run, IsReady, BeforeSending, Outgoing, Distinct, SentIfReady, Sample, IsFree;
    if (e.Upload? || e.Cancel?) && e.group in s.albums {
      var u := BeforeSending(s, e);
      StepIsSending(s, e);
      BeforeSendingFrame(s, e);
      SameFlight(s, e);
      ReadyIs(u, e.group, e.perMessage, e.group);
      SentExactlyWhenReady(u, e.group, e.perMessage);
    }
  }

  lemma SameFlight(s: State, e: Event)
    requires CanHappen(s, e)
    ensures BeforeSending(s, e).inFlight == s.inFlight && BeforeSending(s, e).lastId == s.lastId
  {
    hide IndexOf;
  }
}
