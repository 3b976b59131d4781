/** What an album sends, told from what happened to it: the medias that were uploaded for the messages it was created
    with, in that order, without the cancelled ones. */
module AlbumHistory {
  import opened Wrappers
  import opened FlatMap
  import opened AlbumSpec
  import opened AlbumTheorems

  function Msgs(items: seq<Item>): (msgs: seq<MsgId>)
    ensures |msgs| == |items|
  {
    seq(|items|, i requires 0 <= i < |items| => items[i].msg)
  }

  function Minus(msgs: seq<MsgId>, msg: MsgId): seq<MsgId> {
    if msgs == [] then [] else
      var (front, last) := (msgs[..|msgs| - 1], msgs[|msgs| - 1]);
      if last == msg then Minus(front, msg) else Minus(front, msg) + [last]
  }

  function Kept(msgs: seq<MsgId>, messages: Messages): seq<MsgId> {
    if msgs == [] then [] else
      var (front, last) := (msgs[..|msgs| - 1], msgs[|msgs| - 1]);
      if last in messages then Kept(front, messages) + [last] else Kept(front, messages)
  }

  // The messages that an album was created with, without those that were cancelled
  function Chosen(events: seq<Event>, group: GroupId): seq<MsgId> {
    if events == [] then [] else
      var (front, last) := (events[..|events| - 1], events[|events| - 1]);
      match last
      case Create(g, msgs, _, _) => if g == group then msgs else Chosen(front, group)
      case Cancel(g, msg, _) => if g == group then Minus(Chosen(front, group), msg) else Chosen(front, group)
      case _ => Chosen(front, group)
  }

  // What was uploaded for a message
  datatype Uploaded = Uploaded(media: Media, randomId: Id)

  function UploadOf(events: seq<Event>, group: GroupId, msg: MsgId): Option<Uploaded> {
    if events == [] then None else
      var (front, last) := (events[..|events| - 1], events[|events| - 1]);
      if last.Upload? && last.group == group && last.msg == msg then Some(Uploaded(last.media, last.randomId))
      else UploadOf(front, group, msg)
  }

  function OfItem(item: Item): Option<Uploaded> {
    if item.prepared.None? then None else Some(Uploaded(item.prepared.value.media, item.prepared.value.randomId))
  }

  // The items of an album are told by what happened.
  ghost predicate ItemsAre(events: seq<Event>, group: GroupId, items: seq<Item>) {
    && Msgs(items) == Chosen(events, group) && Distinct(Msgs(items))
    && forall item :: item in items ==> OfItem(item) == UploadOf(events, group, item.msg)
  }

  ghost predicate NotUploaded(events: seq<Event>, group: GroupId) {
    forall msg: MsgId :: UploadOf(events, group, msg) == None
  }

  ghost predicate HistoryInv(events: seq<Event>, s: State) {
    && (forall g :: g in s.albums ==> ItemsAre(events, g, s.albums[g].items))
    && (forall g: GroupId :: g !in s.approved ==> g !in s.albums && NotUploaded(events, g))
  }

  // One more event
  lemma MoreEvents(events: seq<Event>, e: Event, group: GroupId, msg: MsgId)
    ensures Chosen(events + [e], group) ==
            if e.Create? && e.group == group then e.msgs
            else if e.Cancel? && e.group == group then Minus(Chosen(events, group), e.msg) else Chosen(events, group)
    ensures UploadOf(events + [e], group, msg) ==
            if e.Upload? && e.group == group && e.msg == msg then Some(Uploaded(e.media, e.randomId))
            else UploadOf(events, group, msg)
  {
    assert (events + [e])[..|events|] == events;
  }

  lemma ItemsStay(events: seq<Event>, e: Event, group: GroupId, items: seq<Item>)
    requires ItemsAre(events, group, items)
    requires (e.Create? || e.Cancel? || e.Upload?) ==> e.group != group
    ensures ItemsAre(events + [e], group, items)
  {
    hide Chosen, UploadOf, Distinct;
    forall item | item in items
      ensures OfItem(item) == UploadOf(events + [e], group, item.msg)
    {
      MoreEvents(events, e, group, item.msg);
    }
    MoreEvents(events, e, group, 0);
  }

  lemma NotUploadedStays(events: seq<Event>, e: Event, group: GroupId)
    requires NotUploaded(events, group) && (e.Upload? ==> e.group != group)
    ensures NotUploaded(events + [e], group)
  {
    hide UploadOf;
    forall msg: MsgId
      ensures UploadOf(events + [e], group, msg) == None
    {
      MoreEvents(events, e, group, msg);
    }
  }

  // Taking the one item of a message out
  lemma {:induction false} MinusIs(msgs: seq<MsgId>, i: nat)
    requires i < |msgs| && Distinct(msgs)
    ensures Minus(msgs, msgs[i]) == msgs[..i] + msgs[i + 1..] && Distinct(msgs[..i] + msgs[i + 1..])
  {
    var (front, last) := (msgs[..|msgs| - 1], msgs[|msgs| - 1]);
    if i == |msgs| - 1 {
      MinusAbsent(front, last);
    } else {
      MinusIs(front, i);
      assert front[..i] + front[i + 1..] + [last] == msgs[..i] + msgs[i + 1..];
    }
  }

  lemma {:induction false} MinusAbsent(msgs: seq<MsgId>, msg: MsgId)
    requires msg !in msgs
    ensures Minus(msgs, msg) == msgs
  {
    if msgs != [] {
      MinusAbsent(msgs[..|msgs| - 1], msg);
    }
  }

  lemma OnlyOneItem(items: seq<Item>, msg: MsgId, i: nat)
    requires i < |items| && items[i].msg == msg && Distinct(Msgs(items))
    ensures IndexOf(items, msg) == i
  {
    assert Msgs(items)[i] == msg && Msgs(items)[IndexOf(items, msg)] == msg;
  }

  // What the events make of the items
  lemma CreatedItems(events: seq<Event>, e: Event)
    requires e.Create? && Distinct(e.msgs) && NotUploaded(events, e.group)
    ensures ItemsAre(events + [e], e.group, NewItems(e.msgs))
  {
    hide Chosen, UploadOf;
    var items := NewItems(e.msgs);
    assert Msgs(items) == e.msgs;
    MoreEvents(events, e, e.group, 0);
    forall item | item in items
      ensures OfItem(item) == UploadOf(events + [e], e.group, item.msg)
    {
      MoreEvents(events, e, e.group, item.msg);
    }
  }

  lemma FilledItems(events: seq<Event>, e: Event, s: State)
    requires e.Upload? && CanHappen(s, e) && ItemsAre(events, e.group, s.albums[e.group].items)
    ensures ItemsAre(events + [e], e.group, Filled(s, e.group, e.msg, e.media, e.randomId).albums[e.group].items)
  {
    hide Chosen, UploadOf;
    var (a, b) := (s.albums[e.group].items, Filled(s, e.group, e.msg, e.media, e.randomId).albums[e.group].items);
    var i := IndexOf(a, e.msg);
    assert Msgs(b) == Msgs(a);
    MoreEvents(events, e, e.group, 0);
    forall item | item in b
      ensures OfItem(item) == UploadOf(events + [e], e.group, item.msg)
    {
      var k :| 0 <= k < |b| && b[k] == item;
      MoreEvents(events, e, e.group, item.msg);
      if k != i {
        assert a[k] in a;
        OnlyOneItem(a, a[k].msg, k);
      }
    }
  }

  lemma RemovedAt(s: State, group: GroupId, msg: MsgId, k: nat)
    requires group in s.albums && HasItem(s.albums[group].items, msg) && msg in s.messages
    requires k < |s.albums[group].items| - 1
    ensures group in Removed(s, group, msg).albums
    ensures var (a, b) := (s.albums[group].items, Removed(s, group, msg).albums[group].items);
            var l := if k < IndexOf(a, msg) then k else k + 1;
            |b| == |a| - 1 && b[k].msg == a[l].msg && OfItem(b[k]) == OfItem(a[l])
  {
    hide IndexOf;
  }

  lemma RemovedCount(s: State, group: GroupId, msg: MsgId)
    requires group in s.albums && HasItem(s.albums[group].items, msg) && msg in s.messages
    ensures group in Removed(s, group, msg).albums
    ensures |Removed(s, group, msg).albums[group].items| == |s.albums[group].items| - 1
  {
    hide IndexOf;
  }

  lemma RemovedItems(events: seq<Event>, e: Event, s: State)
    requires e.Cancel? && CanHappen(s, e) && e.group in s.albums && ItemsAre(events, e.group, s.albums[e.group].items)
    ensures e.group in Removed(s, e.group, e.msg).albums
    ensures ItemsAre(events + [e], e.group, Removed(s, e.group, e.msg).albums[e.group].items)
  {
    hide Chosen, UploadOf, Distinct, Removed, IndexOf;
    RemovedCount(s, e.group, e.msg);
    var (a, b) := (s.albums[e.group].items, Removed(s, e.group, e.msg).albums[e.group].items);
    var i := IndexOf(a, e.msg);
    forall k | 0 <= k < |b|
      ensures var l := if k < i then k else k + 1; b[k].msg == a[l].msg && OfItem(b[k]) == OfItem(a[l]) && a[l] in a
    {
      RemovedAt(s, e.group, e.msg, k);
    }
    assert Msgs(b) == Msgs(a)[..i] + Msgs(a)[i + 1..];
    MinusIs(Msgs(a), i);
    MoreEvents(events, e, e.group, 0);
    forall item | item in b
      ensures OfItem(item) == UploadOf(events + [e], e.group, item.msg)
    {
      var k :| 0 <= k < |b| && b[k] == item;
      MoreEvents(events, e, e.group, item.msg);
    }
  }

  // Sending, or dropping, an album leaves the others as they are.
  lemma ReadyKeepsHistory(events: seq<Event>, s: State, group: GroupId, perMessage: nat)
    requires HistoryInv(events, s) && group in s.albums
    ensures HistoryInv(events, SentIfReady(s, group, perMessage))
  {
    hide ItemsAre, NotUploaded, Outgoing, IsReady, Sample;
  }

  // Every other album, and every group that there was not, is as before.
  lemma OthersStay(events: seq<Event>, e: Event, s: State, t: State)
    requires HistoryInv(events, s) && t.approved.Keys >= s.approved.Keys
    requires forall g :: g in t.albums ==>
                           ItemsAre(events + [e], g, t.albums[g].items)
                           || (g in s.albums && t.albums[g] == s.albums[g]
                               && ((e.Create? || e.Cancel? || e.Upload?) ==> e.group != g))
    requires forall g :: g in t.albums ==> g in t.approved
    requires e.Upload? ==> e.group in t.approved
    ensures HistoryInv(events + [e], t)
  {
    hide ItemsAre, NotUploaded;
    forall g | g in t.albums
      ensures ItemsAre(events + [e], g, t.albums[g].items)
    {
      if !ItemsAre(events + [e], g, t.albums[g].items) {
        ItemsStay(events, e, g, s.albums[g].items);
      }
    }
    forall g: GroupId | g !in t.approved
      ensures NotUploaded(events + [e], g)
    {
      NotUploadedStays(events, e, g);
    }
  }

  // The state in which the album of a step may be sent
  function BeforeSending(s: State, e: Event): State
    requires CanHappen(s, e)
  {
    match e
    case Upload(group, msg, media, randomId, _) => Filled(s, group, msg, media, randomId)
    case Cancel(group, msg, _) => if group in s.albums then Removed(s, group, msg) else s
    case _ => s
  }

  lemma BeforeSendingKeepsHistory(events: seq<Event>, s: State, e: Event)
    requires HistoryInv(events, s) && CanHappen(s, e) && (e.Upload? || e.Cancel?)
    ensures HistoryInv(events + [e], BeforeSending(s, e))
  {
    hide ItemsAre, NotUploaded, IsReady;
    var t := BeforeSending(s, e);
    if e.group in s.albums {
      if e.Upload? {
        FilledItems(events, e, s);
      } else {
        RemovedItems(events, e, s);
      }
    }
    OthersStay(events, e, s, t);
  }

  // What happens in a step, told as what it makes of the album and whether that is then sent
  lemma StepIsSending(s: State, e: Event)
    requires CanHappen(s, e) && (e.Upload? || e.Cancel?)
    ensures var (t, u) := (After(s, e), BeforeSending(s, e));
            if e.group !in s.albums then t == u.(messages := t.messages) && u == s
            else e.group in u.albums && t == SentIfReady(u, e.group, e.perMessage).(messages := t.messages)
  {
    hide SentIfReady, IndexOf;
  }

  lemma StepKeepsHistory(events: seq<Event>, s: State, e: Event)
    requires HistoryInv(events, s) && CanHappen(s, e)
    ensures HistoryInv(events + [e], After(s, e))
  {
    hide ItemsAre, NotUploaded, SentIfReady, Filled, Removed, Distinct;
    var t := After(s, e);
    if e.Upload? || e.Cancel? {
      BeforeSendingKeepsHistory(events, s, e);
      StepIsSending(s, e);
      if e.group in s.albums {
        ReadyKeepsHistory(events + [e], BeforeSending(s, e), e.group, e.perMessage);
      }
    } else {
      if e.Create? {
        CreatedItems(events, e);
      }
      OthersStay(events, e, s, t);
    }
  }

  lemma StartHasHistory()
    ensures HistoryInv([], INITIAL)
  {
  }

  lemma {:induction false} RunKeepsHistory(events: seq<Event>)
    requires Run(events).Some?
    ensures HistoryInv(events, Run(events).value)
  {
    hide After, CanHappen, HistoryInv;
    if events == [] {
      StartHasHistory();
    } else {
      var (front, last) := (events[..|events| - 1], events[|events| - 1]);
      RunKeepsHistory(front);
      StepKeepsHistory(front, Run(front).value, last);
      assert events == front + [last];
    }
  }

  // The price that an album was created with
  function PriceOf(events: seq<Event>, group: GroupId): nat {
    if events == [] then 0 else
      var (front, last) := (events[..|events| - 1], events[|events| - 1]);
      if last.Create? && last.group == group then last.price else PriceOf(front, group)
  }

  lemma StepPrice(s: State, e: Event, group: GroupId)
    requires CanHappen(s, e) && group in After(s, e).albums
    ensures var price := After(s, e).albums[group].price;
            if e.Create? && e.group == group then price == e.price
            else group in s.albums && price == s.albums[group].price
  {
    hide IndexOf, Outgoing, IsReady, Sample, Distinct, IsFree, SentIfReady, BeforeSending;
    if e.Upload? || e.Cancel? {
      StepIsSending(s, e);
      BeforeSendingPrice(s, e, group);
      if e.group in s.albums {
        ReadyPrice(BeforeSending(s, e), e.group, e.perMessage, group);
      }
    }
  }

  lemma BeforeSendingPrice(s: State, e: Event, group: GroupId)
    requires CanHappen(s, e) && (e.Upload? || e.Cancel?)
    ensures var u := BeforeSending(s, e);
            && (group in u.albums <==> group in s.albums)
            && (group in u.albums ==> u.albums[group].price == s.albums[group].price)
  {
    hide IndexOf;
  }

  lemma ReadyPrice(s: State, sent: GroupId, perMessage: nat, group: GroupId)
    requires sent in s.albums && group in SentIfReady(s, sent, perMessage).albums
    ensures group in s.albums && SentIfReady(s, sent, perMessage).albums[group].price == s.albums[group].price
  {
    hide Outgoing, IsReady, Sample;
  }

  lemma {:induction false} RunKeepsPrices(events: seq<Event>, group: GroupId)
    requires Run(events).Some? && group in Run(events).value.albums
    ensures Run(events).value.albums[group].price == PriceOf(events, group)
  {
    hide After, CanHappen;
    if events == [] {
      assert false;
    } else {
      var (front, last) := (events[..|events| - 1], events[|events| - 1]);
      StepPrice(Run(front).value, last, group);
      if !(last.Create? && last.group == group) {
        RunKeepsPrices(front, group);
      }
    }
  }

  // The first of these messages that is there, and whether it replies to an ephemeral one
  function FirstThere(msgs: seq<MsgId>, messages: Messages): (first: Option<MsgId>)
    ensures first.Some? ==> first.value in messages && first.value in msgs
  {
    if msgs == [] then None else if msgs[0] in messages then Some(msgs[0]) else FirstThere(msgs[1..], messages)
  }

  predicate ReplyToEphemeral(msgs: seq<MsgId>, messages: Messages) {
    var first := FirstThere(msgs, messages);
    && first.Some?
    && var target := messages[first.value].replyTo;
       target.Some? && target.value in messages && messages[target.value].ephemeral
  }

  lemma {:induction false} SampleIs(items: seq<Item>, messages: Messages)
    ensures Sample(items, messages) == FirstThere(Msgs(items), messages)
  {
    if items != [] {
      SampleIs(items[1..], messages);
      assert Msgs(items)[1..] == Msgs(items[1..]);
    }
  }

  // What went out after these events, while these messages were there: exactly what was uploaded for the messages
  // chosen. To an ephemeral place only those that are still there go, without random numbers; paid media have the
  // first random number only.
  ghost predicate IsWhatWasChosen(sent: Sent, events: seq<Event>, messages: Messages) {
    var (group, chosen) := (sent.group, Chosen(events, sent.group));
    var price := PriceOf(events, sent.group);
    && (sent.content.ToEphemeral? <==> ReplyToEphemeral(chosen, messages))
    && match sent.content
       case ToEphemeral(parts) =>
         var msgs := Kept(chosen, messages);
         && |parts| == |msgs|
         && forall i :: 0 <= i < |msgs| ==>
              UploadOf(events, group, msgs[i]).Some? && UploadOf(events, group, msgs[i]).value.media == parts[i].media
       case PaidMedia(bare, _, randomId) =>
         && price > 0 && |bare| == |chosen| > 0
         && (forall i :: 0 <= i < |chosen| ==>
               UploadOf(events, group, chosen[i]).Some? && UploadOf(events, group, chosen[i]).value.media == bare[i])
         && randomId == UploadOf(events, group, chosen[0]).value.randomId
       case Single(only) =>
         price == 0 && |chosen| == 1 && UploadOf(events, group, chosen[0]) == Some(Uploaded(only.media, only.randomId))
       case Grouped(medias) =>
         && price == 0 && |medias| == |chosen| >= 2
         && forall i :: 0 <= i < |chosen| ==>
              UploadOf(events, group, chosen[i]) == Some(Uploaded(medias[i].media, medias[i].randomId))
  }

  lemma {:induction false} MsgsOfExisting(items: seq<Item>, messages: Messages)
    ensures Msgs(Existing(items, messages)) == Kept(Msgs(items), messages)
  {
    if items != [] {
      var (front, last) := (items[..|items| - 1], items[|items| - 1]);
      MsgsOfExisting(front, messages);
      assert Msgs(items)[..|items| - 1] == Msgs(front);
      assert Msgs(Existing(front, messages) + [last]) == Msgs(Existing(front, messages)) + [last.msg];
    }
  }

  lemma MediasAreUploads(events: seq<Event>, group: GroupId, items: seq<Item>, i: nat)
    requires IsReady(items) && ItemsAre(events, group, items) && i < |items|
    ensures var m := Medias(items)[i];
            UploadOf(events, group, Chosen(events, group)[i]) == Some(Uploaded(m.media, m.randomId))
  {
    hide Chosen, UploadOf, Distinct;
    assert items[i] in items && Msgs(items)[i] == items[i].msg;
    assert OfItem(items[i]) == UploadOf(events, group, items[i].msg);
  }

  lemma PartsAreUploads(events: seq<Event>, group: GroupId, items: seq<Item>, messages: Messages, i: nat)
    requires IsReady(items) && ItemsAre(events, group, items) && i < |Existing(items, messages)|
    ensures |Existing(items, messages)| == |Kept(Chosen(events, group), messages)|
    ensures var (item, msg) := (Existing(items, messages)[i], Kept(Chosen(events, group), messages)[i]);
            && item.msg == msg && item in items && item.prepared.Some?
            && UploadOf(events, group, msg).Some?
               && UploadOf(events, group, msg).value.media == item.prepared.value.media
  {
    hide Chosen, UploadOf, Distinct, Existing, Kept;
    MsgsOfExisting(items, messages);
    var item := Existing(items, messages)[i];
    assert Msgs(Existing(items, messages))[i] == item.msg;
    ExistingAre(items, messages, item);
    assert OfItem(item) == UploadOf(events, group, item.msg);
  }

  lemma EphemeralIsChosen(events: seq<Event>, group: GroupId, album: Album, messages: Messages, perMessage: nat)
    requires IsReady(album.items) && album.items != [] && Sample(album.items, messages).Some?
    requires ItemsAre(events, group, album.items) && GoesToEphemeral(album.items, messages)
    requires ReplyToEphemeral(Chosen(events, group), messages)
    ensures IsWhatWasChosen(Outgoing(group, album, messages, perMessage), events, messages)
  {
    hide Chosen, UploadOf, Existing, Kept, ItemsAre, GoesToEphemeral, ReplyToEphemeral, Sample, IsReady, AreThere;
    ExistingAreReady(album.items, messages);
    var items := Existing(album.items, messages);
    assert |items| == |Kept(Chosen(events, group), messages)| by { KeptCount(events, group, album.items, messages); }
    forall i | 0 <= i < |items|
      ensures var msg := Kept(Chosen(events, group), messages)[i];
              && UploadOf(events, group, msg).Some?
              && UploadOf(events, group, msg).value.media == Parts(items, messages)[i].media
    {
      PartsAreUploads(events, group, album.items, messages, i);
    }
  }

  lemma KeptCount(events: seq<Event>, group: GroupId, items: seq<Item>, messages: Messages)
    requires ItemsAre(events, group, items)
    ensures |Existing(items, messages)| == |Kept(Chosen(events, group), messages)|
  {
    MsgsOfExisting(items, messages);
    assert |Msgs(Existing(items, messages))| == |Existing(items, messages)|;
  }

  lemma OutgoingIsChosen(events: seq<Event>, group: GroupId, album: Album, messages: Messages, perMessage: nat)
    requires IsReady(album.items) && album.items != [] && Sample(album.items, messages).Some?
    requires ItemsAre(events, group, album.items) && album.price == PriceOf(events, group)
    ensures IsWhatWasChosen(Outgoing(group, album, messages, perMessage), events, messages)
  {
    hide Chosen, UploadOf, Existing, Kept, Distinct, Sample, FirstThere, IsReady, Medias, PriceOf;
    var items := album.items;
    SampleIs(items, messages);
    if GoesToEphemeral(items, messages) {
      EphemeralIsChosen(events, group, album, messages, perMessage);
    } else {
      forall i | 0 <= i < |items|
        ensures var m := Medias(items)[i];
                UploadOf(events, group, Chosen(events, group)[i]) == Some(Uploaded(m.media, m.randomId))
      {
        MediasAreUploads(events, group, items, i);
      }
    }
  }

  // An album is complete when every message chosen has its upload and one of them at least is still there.
  ghost predicate IsComplete(events: seq<Event>, group: GroupId, messages: Messages) {
    && AllUploaded(events, group)
    && exists msg :: msg in Chosen(events, group) && msg in messages
  }

  lemma {:induction false} FirstThereIff(msgs: seq<MsgId>, messages: Messages)
    ensures FirstThere(msgs, messages).Some? <==> exists msg :: msg in msgs && msg in messages
  {
    if msgs != [] {
      FirstThereIff(msgs[1..], messages);
      assert msgs == [msgs[0]] + msgs[1..];
    }
  }

  ghost predicate AllUploaded(events: seq<Event>, group: GroupId) {
    forall msg :: msg in Chosen(events, group) ==> UploadOf(events, group, msg).Some?
  }

  lemma ReadyIff(events: seq<Event>, group: GroupId, items: seq<Item>)
    requires ItemsAre(events, group, items)
    ensures IsReady(items) <==> AllUploaded(events, group)
  {
    hide Chosen, UploadOf, Distinct;
    var msgs := Chosen(events, group);
    assert msgs == Msgs(items);
    if IsReady(items) {
      forall msg | msg in msgs
        ensures UploadOf(events, group, msg).Some?
      {
        var i :| 0 <= i < |msgs| && msgs[i] == msg;
        assert items[i] in items && items[i].msg == msg && OfItem(items[i]).Some?;
      }
    }
    if AllUploaded(events, group) {
      forall item | item in items
        ensures item.prepared.Some?
      {
        var i :| 0 <= i < |items| && items[i] == item;
        assert msgs[i] in msgs && msgs[i] == item.msg;
      }
    }
  }

  lemma DispatchesIff(events: seq<Event>, s: State, group: GroupId)
    requires HistoryInv(events, s) && group in s.albums && !s.albums[group].sent
    ensures Dispatches(s, group) <==> IsComplete(events, group, s.messages)
  {
    hide Chosen, UploadOf, Distinct, IsReady, Sample, NotUploaded, AllUploaded;
    var items := s.albums[group].items;
    assert ItemsAre(events, group, items);
    ReadyIff(events, group, items);
    SampleIs(items, s.messages);
    FirstThereIff(Msgs(items), s.messages);
    assert Chosen(events, group) == Msgs(items) && (items == [] ==> Msgs(items) == []);
  }

  lemma CompleteDepends(events: seq<Event>, group: GroupId, a: Messages, b: Messages)
    requires a.Keys == b.Keys
    ensures IsComplete(events, group, a) <==> IsComplete(events, group, b)
  {
    hide Chosen, UploadOf;
    assert forall m: MsgId :: m in a.Keys <==> m in b.Keys;
  }

  // An upload or a cancellation for this album, which is kept and not sent
  predicate Concerns(s: State, e: Event, group: GroupId) {
    (e.Upload? || e.Cancel?) && e.group == group && group in s.albums && !s.albums[group].sent
  }

  lemma BeforeSendingFrame(s: State, e: Event)
    requires CanHappen(s, e) && (e.Upload? || e.Cancel?) && e.group in s.albums
    ensures var u := BeforeSending(s, e);
            && u.log == s.log && u.messages.Keys == s.messages.Keys
            && e.group in u.albums && u.albums[e.group].sent == s.albums[e.group].sent
  {
    hide IndexOf;
  }

  lemma HistoryOf(events: seq<Event>, s: State, group: GroupId)
    requires HistoryInv(events, s) && group in s.albums
    ensures ItemsAre(events, group, s.albums[group].items)
  {
  }

  // The same album, before the step and before it is sent
  lemma SamePrice(events: seq<Event>, s: State, e: Event)
    requires Run(events) == Some(s) && CanHappen(s, e) && (e.Upload? || e.Cancel?) && e.group in s.albums
    ensures var u := BeforeSending(s, e);
            e.group in u.albums && u.albums[e.group].price == PriceOf(events + [e], e.group)
  {
    hide Run, IndexOf;
    RunKeepsPrices(events, e.group);
    assert (events + [e])[..|events|] == events;
  }

  lemma ReadyToSend(events: seq<Event>, s: State, e: Event)
    requires Run(events) == Some(s) && CanHappen(s, e) && (e.Upload? || e.Cancel?) && Concerns(s, e, e.group)
    requires Dispatches(BeforeSending(s, e), e.group)
    ensures var u := BeforeSending(s, e);
            IsWhatWasChosen(Outgoing(e.group, u.albums[e.group], u.messages, e.perMessage), events + [e], u.messages)
  {
    hide HistoryInv, ItemsAre, BeforeSending, IsReady, Sample, Outgoing, IsWhatWasChosen, PriceOf, Run;
    var (full, u) := (events + [e], BeforeSending(s, e));
    RunKeepsHistory(events);
    BeforeSendingKeepsHistory(events, s, e);
    HistoryOf(full, u, e.group);
    SamePrice(events, s, e);
    OutgoingIsChosen(full, e.group, u.albums[e.group], u.messages, e.perMessage);
  }

  // A step of a run sends an album exactly when it completes it; it sends one album at most, and what was chosen.
  lemma StepSends(events: seq<Event>, s: State, e: Event)
    requires Run(events) == Some(s) && CanHappen(s, e)
    ensures if exists group :: Concerns(s, e, group) && IsComplete(events + [e], group, s.messages)
            then |After(s, e).log| == |s.log| + 1 && After(s, e).log[..|s.log|] == s.log
                 && Concerns(s, e, After(s, e).log[|s.log|].group)
                 && IsWhatWasChosen(After(s, e).log[|s.log|], events + [e], BeforeSending(s, e).messages)
            else After(s, e).log == s.log
  {
    hide Run, HistoryInv, Chosen, IsReady, Sample, Outgoing, SentIfReady, BeforeSending, IsComplete, IsWhatWasChosen;
    RunKeepsHistory(events);
    if (e.Upload? || e.Cancel?) && e.group in s.albums {
      var (full, u) := (events + [e], BeforeSending(s, e));
      BeforeSendingKeepsHistory(events, s, e);
      BeforeSendingFrame(s, e);
      StepIsSending(s, e);
      SentExactlyWhenReady(u, e.group, e.perMessage);
      CompleteDepends(full, e.group, u.messages, s.messages);
      if !s.albums[e.group].sent {
        DispatchesIff(full, u, e.group);
        if Dispatches(u, e.group) {
          ReadyToSend(events, s, e);
          OutgoingStars(e.group, u.albums[e.group], u.messages, e.perMessage);
        }
      }
    }
  }

  // In every run, each thing that was sent is what was chosen at the moment it went out.
  lemma {:induction false} SentWasChosen(events: seq<Event>, k: nat) returns (n: nat)
    requires Run(events).Some? && k < |Run(events).value.log|
    ensures n < |events| && Run(events[..n]).Some? && CanHappen(Run(events[..n]).value, events[n])
    ensures IsWhatWasChosen(Run(events).value.log[k], events[..n + 1],
                            BeforeSending(Run(events[..n]).value, events[n]).messages)
  {
    hide After, CanHappen, BeforeSending, IsWhatWasChosen, IsComplete, Concerns;
    if events == [] {
      assert false;
    } else {
      var (front, last) := (events[..|events| - 1], events[|events| - 1]);
      var s := Run(front).value;
      StepSends(front, s, last);
      assert events == front + [last];
      if k < |s.log| {
        n := SentWasChosen(front, k);
        assert events[..n] == front[..n] && events[..n + 1] == front[..n + 1];
      } else {
        n := |front|;
        assert events[..n] == front && events[..n + 1] == events;
      }
    }
  }
}
