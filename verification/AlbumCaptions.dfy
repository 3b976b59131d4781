/** An album goes out with the texts that its messages have then, also if one took over the text of a cancelled one. */
module AlbumCaptions {
  import opened Wrappers
  import opened FlatMap
  import opened AlbumSpec
  import opened AlbumTheorems
  import opened AlbumHistory

  // A prepared media has the text of its message, if that is still there.
  predicate IsCaptioned(item: Item, messages: Messages) {
    item.prepared.Some? && item.msg in messages ==> item.prepared.value.caption == messages[item.msg].text
  }

  ghost predicate AreCaptioned(s: State, group: GroupId)
    requires group in s.albums
  {
    !s.albums[group].sent ==> forall item :: item in s.albums[group].items ==> IsCaptioned(item, s.messages)
  }

  // No message is in two albums.
  ghost predicate AreApart(s: State) {
    forall g, h, item :: g in s.albums && h in s.albums && g != h && item in s.albums[g].items ==>
                           !HasItem(s.albums[h].items, item.msg)
  }

  ghost predicate CaptionsInv(s: State) {
    AreApart(s) && forall g :: g in s.albums ==> AreCaptioned(s, g)
  }

  // Albums may go, and items may go and change, but none gets new messages.
  lemma StayApart(s: State, t: State)
    requires AreApart(s) && t.albums.Keys <= s.albums.Keys
    requires forall g :: g in t.albums ==>
               forall item :: item in t.albums[g].items ==> HasItem(s.albums[g].items, item.msg)
    ensures AreApart(t)
  {
    forall g, h, item | g in t.albums && h in t.albums && g != h && item in t.albums[g].items
      ensures !HasItem(t.albums[h].items, item.msg)
    {
      var k :| 0 <= k < |s.albums[g].items| && s.albums[g].items[k].msg == item.msg;
      assert s.albums[g].items[k] in s.albums[g].items;
      assert forall l :: 0 <= l < |t.albums[h].items| ==> t.albums[h].items[l] in t.albums[h].items;
    }
  }

  lemma NewItemsAre(msgs: seq<MsgId>, item: Item)
    ensures item in NewItems(msgs) ==> item.msg in msgs
    ensures HasItem(NewItems(msgs), item.msg) ==> item.msg in msgs
  {
  }

  lemma CreateKeepsCaptions(s: State, e: Event)
    requires CaptionsInv(s) && e.Create? && CanHappen(s, e)
    ensures CaptionsInv(After(s, e))
  {
    hide Distinct;
    var t := After(s, e);
    forall g, h, item | g in t.albums && h in t.albums && g != h && item in t.albums[g].items
      ensures !HasItem(t.albums[h].items, item.msg)
    {
      NewItemsAre(e.msgs, item);
      if g != e.group {
        var k :| 0 <= k < |s.albums[g].items| && s.albums[g].items[k] == item;
        assert HasItem(s.albums[g].items, item.msg);
      }
      assert item.msg in e.msgs ==> IsFree(s, item.msg);
    }
    forall g | g in t.albums
      ensures AreCaptioned(t, g)
    {
      assert g in s.albums ==> AreCaptioned(s, g);
    }
  }

  lemma MessagesKeepCaptions(s: State, e: Event)
    requires CaptionsInv(s) && (e.Arrive? || e.Vanish?) && CanHappen(s, e)
    ensures CaptionsInv(After(s, e))
  {
    var t := After(s, e);
    forall g | g in t.albums
      ensures AreCaptioned(t, g)
    {
      assert AreCaptioned(s, g);
      forall item | item in s.albums[g].items
        ensures HasItem(s.albums[g].items, item.msg)
      {
        var k :| 0 <= k < |s.albums[g].items| && s.albums[g].items[k] == item;
      }
    }
  }

  // Filling an item takes its message's text; removing one changes the text and the caption of one other item alike.
  lemma FilledKeepsCaptions(s: State, group: GroupId, msg: MsgId, media: Media, randomId: Id)
    requires CaptionsInv(s) && group in s.albums && HasItem(s.albums[group].items, msg) && msg in s.messages
    ensures CaptionsInv(Filled(s, group, msg, media, randomId))
  {
    var t := Filled(s, group, msg, media, randomId);
    var (a, b) := (s.albums[group].items, t.albums[group].items);
    forall item | item in b
      ensures HasItem(a, item.msg) && (!s.albums[group].sent ==> IsCaptioned(item, t.messages))
    {
      var k :| 0 <= k < |b| && b[k] == item;
      assert a[k].msg == item.msg && a[k] in a;
      assert AreCaptioned(s, group);
    }
    HaveTheirMessages(s);
    StayApart(s, t);
    forall g | g in t.albums
      ensures AreCaptioned(t, g)
    {
      assert AreCaptioned(s, g);
    }
  }

  lemma HaveTheirMessages(s: State)
    ensures forall g :: g in s.albums ==>
              forall item :: item in s.albums[g].items ==> HasItem(s.albums[g].items, item.msg)
  {
    forall g | g in s.albums
      ensures forall item :: item in s.albums[g].items ==> HasItem(s.albums[g].items, item.msg)
    {
      forall item | item in s.albums[g].items
        ensures HasItem(s.albums[g].items, item.msg)
      {
        var k :| 0 <= k < |s.albums[g].items| && s.albums[g].items[k] == item;
      }
    }
  }

  lemma DroppedKeepsCaptions(s: State, t: State)
    requires CaptionsInv(s) && t.albums.Keys <= s.albums.Keys && t.messages == s.messages
    requires forall g :: g in t.albums ==>
               t.albums[g].items == s.albums[g].items && (s.albums[g].sent ==> t.albums[g].sent)
    ensures CaptionsInv(t)
  {
    HaveTheirMessages(s);
    StayApart(s, t);
    forall g | g in t.albums
      ensures AreCaptioned(t, g)
    {
      assert AreCaptioned(s, g);
    }
  }

  lemma RemovedKeepsCaptions(events: seq<Event>, s: State, group: GroupId, msg: MsgId)
    requires HistoryInv(events, s) && CaptionsInv(s)
    requires group in s.albums && HasItem(s.albums[group].items, msg) && msg in s.messages
    ensures CaptionsInv(Removed(s, group, msg))
  {
    hide AreCaptioned, NotUploaded, Chosen, UploadOf;
    var t := Removed(s, group, msg);
    RemovedApart(s, group, msg);
    HaveTheirMessages(s);
    forall g | g in t.albums
      ensures AreCaptioned(t, g)
    {
      if g == group {
        RemovedIsCaptioned(events, s, group, msg);
      } else {
        OtherIsCaptioned(s, group, msg, g);
      }
    }
  }

  lemma RemovedApart(s: State, group: GroupId, msg: MsgId)
    requires CaptionsInv(s) && group in s.albums && HasItem(s.albums[group].items, msg) && msg in s.messages
    ensures AreApart(Removed(s, group, msg)) && Removed(s, group, msg).albums.Keys == s.albums.Keys
  {
    hide Removed, AreCaptioned, IndexOf, OfItem;
    var t := Removed(s, group, msg);
    RemovedOthers(s, group, msg);
    HaveTheirMessages(s);
    RemovedCount(s, group, msg);
    var (a, b) := (s.albums[group].items, t.albums[group].items);
    forall item | item in b
      ensures HasItem(a, item.msg)
    {
      var k :| 0 <= k < |b| && b[k] == item;
      RemovedAt(s, group, msg, k);
    }
    StayApart(s, t);
  }

  // Which message's text changes: that of the next first item, if any
  lemma RemovedOthers(s: State, group: GroupId, msg: MsgId)
    requires group in s.albums && HasItem(s.albums[group].items, msg) && msg in s.messages
    ensures var t := Removed(s, group, msg);
            && t.albums.Keys == s.albums.Keys && t.messages.Keys == s.messages.Keys
            && (forall g :: g in s.albums && g != group ==> t.albums[g] == s.albums[g])
            && t.albums[group].sent == s.albums[group].sent
            && (forall m :: m in s.messages && !HasItem(s.albums[group].items, m) ==> t.messages[m] == s.messages[m])
  {
    var items := s.albums[group].items;
    var left := items[..IndexOf(items, msg)] + items[IndexOf(items, msg) + 1..];
    if |items| > 1 && IndexOf(items, msg) == 0 {
      assert left[0] == items[1];
    }
  }

  lemma OtherIsCaptioned(s: State, group: GroupId, msg: MsgId, g: GroupId)
    requires CaptionsInv(s) && group in s.albums && HasItem(s.albums[group].items, msg) && msg in s.messages
    requires g in s.albums && g != group
    ensures g in Removed(s, group, msg).albums && AreCaptioned(Removed(s, group, msg), g)
  {
    hide Removed;
    RemovedOthers(s, group, msg);
    assert AreCaptioned(s, g);
  }

  // Within the album, the next first item gets its text and its caption together; the others keep theirs.
  lemma RemovedIsCaptioned(events: seq<Event>, s: State, group: GroupId, msg: MsgId)
    requires HistoryInv(events, s) && AreCaptionedIn(s, group)
    requires HasItem(s.albums[group].items, msg) && msg in s.messages
    ensures group in Removed(s, group, msg).albums && AreCaptioned(Removed(s, group, msg), group)
  {
    hide NotUploaded, Chosen, UploadOf;
    var t := Removed(s, group, msg);
    if !s.albums[group].sent {
      var (a, b) := (s.albums[group].items, t.albums[group].items);
      forall item | item in b
        ensures IsCaptioned(item, t.messages)
      {
        var k :| 0 <= k < |b| && b[k] == item;
        RemovedCaption(s, group, msg, k);
      }
    }
  }

  lemma RemovedCaption(s: State, group: GroupId, msg: MsgId, k: nat)
    requires group in s.albums && HasItem(s.albums[group].items, msg) && msg in s.messages
    requires Distinct(Msgs(s.albums[group].items)) && k < |s.albums[group].items| - 1
    requires forall item :: item in s.albums[group].items ==> IsCaptioned(item, s.messages)
    ensures group in Removed(s, group, msg).albums
            && |Removed(s, group, msg).albums[group].items| == |s.albums[group].items| - 1
    ensures IsCaptioned(Removed(s, group, msg).albums[group].items[k], Removed(s, group, msg).messages)
  {
    hide IndexOf;
    var a := s.albums[group].items;
    var l := if k < IndexOf(a, msg) then k else k + 1;
    assert a[l] in a && IsCaptioned(a[l], s.messages);
    assert l > 1 ==> Msgs(a)[l] != Msgs(a)[1];
    if IndexOf(a, msg) == 0 && a[1].msg in s.messages {
      FirstTextMoves(s, group, msg);
    }
  }

  ghost predicate AreCaptionedIn(s: State, group: GroupId) {
    group in s.albums && AreCaptioned(s, group)
  }

  lemma ReadyKeepsCaptions(s: State, group: GroupId, perMessage: nat)
    requires CaptionsInv(s) && group in s.albums
    ensures CaptionsInv(SentIfReady(s, group, perMessage))
  {
    ReadyFrame(s, group, perMessage);
    hide SentIfReady, CaptionsInv;
    DroppedKeepsCaptions(s, SentIfReady(s, group, perMessage));
  }

  lemma ReadyFrame(s: State, group: GroupId, perMessage: nat)
    requires group in s.albums
    ensures var t := SentIfReady(s, group, perMessage);
            && t.albums.Keys <= s.albums.Keys && t.messages == s.messages
            && forall g :: g in t.albums ==>
                 t.albums[g].items == s.albums[g].items && (s.albums[g].sent ==> t.albums[g].sent)
  {
    hide Outgoing, IsReady, Sample;
  }

  // A message that vanishes leaves its medias without a text to agree with.
  lemma VanishKeepsCaptions(s: State, messages: Messages)
    requires CaptionsInv(s) && messages.Keys <= s.messages.Keys
    requires forall msg :: msg in messages ==> messages[msg] == s.messages[msg]
    ensures CaptionsInv(s.(messages := messages))
  {
    var t := s.(messages := messages);
    forall g | g in t.albums
      ensures AreCaptioned(t, g)
    {
      assert AreCaptioned(s, g);
    }
  }

  lemma BeforeSendingKeepsCaptions(events: seq<Event>, s: State, e: Event)
    requires HistoryInv(events, s) && CaptionsInv(s) && CanHappen(s, e)
    ensures CaptionsInv(BeforeSending(s, e))
  {
    hide HistoryInv, CaptionsInv, Filled, Removed;
    match e {
      case Upload(group, msg, media, randomId, _) => FilledKeepsCaptions(s, group, msg, media, randomId);
      case Cancel(group, msg, _) =>
        if group in s.albums {
          RemovedKeepsCaptions(events, s, group, msg);
        }
      case _ =>
    }
  }

  lemma StepKeepsCaptions(events: seq<Event>, s: State, e: Event)
    requires HistoryInv(events, s) && CaptionsInv(s) && CanHappen(s, e)
    ensures CaptionsInv(After(s, e))
  {
    hide HistoryInv, CaptionsInv, SentIfReady, BeforeSending, IsFree;
    var t := After(s, e);
    if e.Upload? || e.Cancel? {
      BeforeSendingKeepsCaptions(events, s, e);
      StepIsSending(s, e);
      var u := BeforeSending(s, e);
      var v := if e.group in s.albums then SentIfReady(u, e.group, e.perMessage) else s;
      if e.group in s.albums {
        ReadyKeepsCaptions(u, e.group, e.perMessage);
      }
      LeavingMessages(s, e);
      VanishKeepsCaptions(v, t.messages);
    } else if e.Create? {
      CreateKeepsCaptions(s, e);
    } else if e.Arrive? || e.Vanish? {
      MessagesKeepCaptions(s, e);
    } else {
      DroppedKeepsCaptions(s, t);
    }
  }

  lemma LeavingMessages(s: State, e: Event)
    requires CanHappen(s, e) && (e.Upload? || e.Cancel?)
    ensures var u := BeforeSending(s, e);
            var v := if e.group in s.albums then SentIfReady(u, e.group, e.perMessage) else s;
            var left := After(s, e).messages;
            left.Keys <= v.messages.Keys && forall msg :: msg in left ==> left[msg] == v.messages[msg]
  {
    hide SentIfReady, IndexOf;
  }

  lemma StartIsCaptioned()
    ensures CaptionsInv(INITIAL)
  {
  }

  lemma {:induction false} RunKeepsCaptions(events: seq<Event>)
    requires Run(events).Some?
    ensures CaptionsInv(Run(events).value)
  {
    hide After, CanHappen, CaptionsInv, HistoryInv;
    if events == [] {
      StartIsCaptioned();
    } else {
      var (front, last) := (events[..|events| - 1], events[|events| - 1]);
      RunKeepsCaptions(front);
      RunKeepsHistory(front);
      StepKeepsCaptions(front, Run(front).value, last);
    }
  }

  // The texts that a request carries are those that the messages have: each its own, but paid media the one of the
  // first message that is there.
  ghost predicate HasTheTexts(sent: Sent, events: seq<Event>, messages: Messages) {
    var chosen := Chosen(events, sent.group);
    var first := FirstThere(chosen, messages);
    match sent.content
    case ToEphemeral(parts) =>
      var msgs := Kept(chosen, messages);
      && |parts| == |msgs|
      && forall i :: 0 <= i < |msgs| ==> msgs[i] in messages && parts[i].text == messages[msgs[i]].text
    case PaidMedia(_, text, _) => first.Some? && text == messages[first.value].text
    case Single(only) => first.Some? && chosen == [first.value] && only.caption == messages[first.value].text
    case Grouped(medias) =>
      && |medias| == |chosen|
      && forall i :: 0 <= i < |chosen| && chosen[i] in messages ==> medias[i].caption == messages[chosen[i]].text
  }

  lemma EphemeralHasTexts(events: seq<Event>, s: State, group: GroupId, perMessage: nat)
    requires HistoryInv(events, s) && Dispatches(s, group) && GoesToEphemeral(s.albums[group].items, s.messages)
    ensures HasTheTexts(Outgoing(group, s.albums[group], s.messages, perMessage), events, s.messages)
  {
    hide Chosen, UploadOf, Existing, Kept, Sample, IsReady, AreThere, GoesToEphemeral, NotUploaded;
    var items := s.albums[group].items;
    ExistingAreReady(items, s.messages);
    assert ItemsAre(events, group, items);
    var there := Existing(items, s.messages);
    MsgsOfExisting(items, s.messages);
    forall i | 0 <= i < |there|
      ensures there[i].msg in s.messages && Kept(Chosen(events, group), s.messages)[i] == there[i].msg
    {
      ExistingAre(items, s.messages, there[i]);
      assert Msgs(there)[i] == there[i].msg;
    }
  }

  lemma OutgoingHasTexts(events: seq<Event>, s: State, group: GroupId, perMessage: nat)
    requires HistoryInv(events, s) && CaptionsInv(s) && Dispatches(s, group)
    ensures HasTheTexts(Outgoing(group, s.albums[group], s.messages, perMessage), events, s.messages)
  {
    hide Chosen, UploadOf, Existing, Kept, Sample, FirstThere, Distinct, NotUploaded, AreApart;
    var items := s.albums[group].items;
    assert ItemsAre(events, group, items) && AreCaptioned(s, group);
    SampleIs(items, s.messages);
    if GoesToEphemeral(items, s.messages) {
      EphemeralHasTexts(events, s, group, perMessage);
    } else {
      forall i | 0 <= i < |items|
        ensures items[i].msg == Chosen(events, group)[i] && IsCaptioned(items[i], s.messages)
      {
        assert items[i] in items;
      }
      var msgs := Msgs(items);
      assert |msgs| == 1 ==> msgs == [msgs[0]];
    }
  }

  // In every run, an album that goes out has the texts that its messages have then, after a cancelled message has
  // handed its own on.
  lemma SentWithTheirTexts(events: seq<Event>, e: Event)
    requires Run(events).Some? && CanHappen(Run(events).value, e)
    requires |After(Run(events).value, e).log| > |Run(events).value.log|
    ensures var s := Run(events).value;
            HasTheTexts(After(s, e).log[|s.log|], events + [e], BeforeSending(s, e).messages)
  {
    hide Run, HistoryInv, CaptionsInv, BeforeSending, SentIfReady, Outgoing, IsComplete, IsWhatWasChosen, HasTheTexts;
    RunKeepsHistory(events);
    RunKeepsCaptions(events);
    var s := Run(events).value;
    StepSends(events, s, e);
    var (full, u) := (events + [e], BeforeSending(s, e));
    BeforeSendingKeepsHistory(events, s, e);
    BeforeSendingKeepsCaptions(events, s, e);
    BeforeSendingFrame(s, e);
    StepIsSending(s, e);
    SentExactlyWhenReady(u, e.group, e.perMessage);
    OutgoingHasTexts(full, u, e.group, e.perMessage);
    OutgoingStars(e.group, u.albums[e.group], u.messages, e.perMessage);
  }
}
