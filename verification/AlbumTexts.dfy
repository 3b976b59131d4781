/** Which texts of an album go out: all of them, unless paid media have a text beside that of the first message. */
module AlbumTexts {
  import opened Wrappers
  import opened FlatMap
  import opened AlbumSpec
  import opened AlbumHistory
  import opened AlbumCaptions

  // The texts of those of these messages that are there and have one
  function TextsOf(msgs: seq<MsgId>, messages: Messages): seq<string> {
    if msgs == [] then [] else
      var (front, last) := (msgs[..|msgs| - 1], msgs[|msgs| - 1]);
      if last in messages && messages[last].text != "" then TextsOf(front, messages) + [messages[last].text]
      else TextsOf(front, messages)
  }

  // The texts that a request carries
  function TextsIn(content: Content): seq<string> {
    match content
    case ToEphemeral(parts) => seq(|parts|, i requires 0 <= i < |parts| => parts[i].text)
    case PaidMedia(_, text, _) => [text]
    case Single(only) => [only.caption]
    case Grouped(medias) => seq(|medias|, i requires 0 <= i < |medias| => medias[i].caption)
  }

  // As many times as messages have a text, the request carries it.
  ghost predicate AllTextsGoOut(content: Content, msgs: seq<MsgId>, messages: Messages) {
    multiset(TextsOf(msgs, messages)) <= multiset(TextsIn(content))
  }

  predicate OnlyFirstHasText(msgs: seq<MsgId>, messages: Messages) {
    forall msg :: msg in msgs && msg in messages && Some(msg) != FirstThere(msgs, messages) ==> messages[msg].text == ""
  }

  lemma {:induction false} CarriedTexts(msgs: seq<MsgId>, texts: seq<string>, messages: Messages)
    requires |texts| == |msgs|
    requires forall i :: 0 <= i < |msgs| && msgs[i] in messages ==> texts[i] == messages[msgs[i]].text
    ensures multiset(TextsOf(msgs, messages)) <= multiset(texts)
  {
    if msgs != [] {
      var n := |msgs| - 1;
      CarriedTexts(msgs[..n], texts[..n], messages);
      assert texts == texts[..n] + [texts[n]];
    }
  }

  lemma {:induction false} TextsOfKept(msgs: seq<MsgId>, messages: Messages)
    ensures TextsOf(Kept(msgs, messages), messages) == TextsOf(msgs, messages)
  {
    if msgs != [] {
      var (front, last) := (msgs[..|msgs| - 1], msgs[|msgs| - 1]);
      TextsOfKept(front, messages);
      if last in messages {
        assert Kept(msgs, messages)[..|Kept(msgs, messages)| - 1] == Kept(front, messages);
      }
    }
  }

  predicate HasText(msg: MsgId, messages: Messages) {
    msg in messages && messages[msg].text != ""
  }

  lemma {:induction false} OneText(msgs: seq<MsgId>, messages: Messages, msg: MsgId)
    requires msg in msgs && HasText(msg, messages)
    ensures multiset(TextsOf(msgs, messages))[messages[msg].text] >= 1
  {
    var (front, last) := (msgs[..|msgs| - 1], msgs[|msgs| - 1]);
    assert msgs == front + [last];
    if last != msg {
      OneText(front, messages, msg);
    }
  }

  lemma {:induction false} TwoTexts(msgs: seq<MsgId>, messages: Messages, a: MsgId, b: MsgId)
    requires a != b && a in msgs && b in msgs && HasText(a, messages) && HasText(b, messages)
    requires messages[a].text == messages[b].text
    ensures multiset(TextsOf(msgs, messages))[messages[a].text] >= 2
  {
    var (front, last) := (msgs[..|msgs| - 1], msgs[|msgs| - 1]);
    assert msgs == front + [last];
    if last == a {
      OneText(front, messages, b);
    } else if last == b {
      OneText(front, messages, a);
    } else {
      TwoTexts(front, messages, a, b);
    }
  }

  lemma {:induction false} NoTexts(msgs: seq<MsgId>, messages: Messages)
    requires forall msg :: msg in msgs ==> !HasText(msg, messages)
    ensures TextsOf(msgs, messages) == []
  {
    if msgs != [] {
      NoTexts(msgs[..|msgs| - 1], messages);
      assert msgs[|msgs| - 1] in msgs;
    }
  }

  // One text at most, if only one message has one
  lemma {:induction false} OnlyText(msgs: seq<MsgId>, messages: Messages, first: MsgId)
    requires Distinct(msgs) && first in messages
    requires forall msg :: msg in msgs && msg != first ==> !HasText(msg, messages)
    ensures multiset(TextsOf(msgs, messages)) <= multiset{messages[first].text}
  {
    if msgs != [] {
      var (front, last) := (msgs[..|msgs| - 1], msgs[|msgs| - 1]);
      assert last in msgs && last !in front;
      if last == first {
        NoTexts(front, messages);
      } else {
        OnlyText(front, messages, first);
      }
    }
  }

  lemma PaidTexts(msgs: seq<MsgId>, messages: Messages, content: Content)
    requires Distinct(msgs) && content.PaidMedia? && FirstThere(msgs, messages).Some?
    requires content.text == messages[FirstThere(msgs, messages).value].text
    ensures AllTextsGoOut(content, msgs, messages) <==> OnlyFirstHasText(msgs, messages)
  {
    hide FirstThere, TextsOf, Distinct;
    var first := FirstThere(msgs, messages).value;
    if OnlyFirstHasText(msgs, messages) {
      OnlyText(msgs, messages, first);
    } else {
      var msg :| msg in msgs && HasText(msg, messages) && msg != first;
      OneText(msgs, messages, msg);
      if messages[first].text == messages[msg].text {
        TwoTexts(msgs, messages, msg, first);
      }
    }
  }

  lemma TextsOfSent(sent: Sent, events: seq<Event>, messages: Messages)
    requires HasTheTexts(sent, events, messages) && Distinct(Chosen(events, sent.group))
    ensures AllTextsGoOut(sent.content, Chosen(events, sent.group), messages)
            <==> (sent.content.PaidMedia? ==> OnlyFirstHasText(Chosen(events, sent.group), messages))
  {
    hide Chosen, FirstThere, TextsOf, Distinct, OnlyFirstHasText, Kept;
    var chosen := Chosen(events, sent.group);
    match sent.content {
      case ToEphemeral(_) =>
        TextsOfKept(chosen, messages);
        CarriedTexts(Kept(chosen, messages), TextsIn(sent.content), messages);
      case PaidMedia(_, _, _) => PaidTexts(chosen, messages, sent.content);
      case _ => CarriedTexts(chosen, TextsIn(sent.content), messages);
    }
  }

  lemma ChosenAreDistinct(events: seq<Event>, s: State, e: Event)
    requires Run(events) == Some(s) && CanHappen(s, e) && (e.Upload? || e.Cancel?) && Concerns(s, e, e.group)
    ensures Distinct(Chosen(events + [e], e.group))
  {
    hide Run, HistoryInv, BeforeSending, Chosen, UploadOf;
    RunKeepsHistory(events);
    BeforeSendingKeepsHistory(events, s, e);
    BeforeSendingFrame(s, e);
    HistoryOf(events + [e], BeforeSending(s, e), e.group);
  }

  // In every run, every text of an album goes out with it, unless it is paid and another message than the first one
  // that is there has a text.
  lemma AllTextsGoOutIff(events: seq<Event>, e: Event)
    requires Run(events).Some? && CanHappen(Run(events).value, e)
    requires |After(Run(events).value, e).log| > |Run(events).value.log|
    ensures var s := Run(events).value;
            var (sent, messages) := (After(s, e).log[|s.log|], BeforeSending(s, e).messages);
            var chosen := Chosen(events + [e], sent.group);
            AllTextsGoOut(sent.content, chosen, messages)
            <==> (sent.content.PaidMedia? ==> OnlyFirstHasText(chosen, messages))
  {
    hide Run, After, CanHappen, HasTheTexts, AllTextsGoOut, OnlyFirstHasText, BeforeSending, IsWhatWasChosen,
         IsComplete;
    var s := Run(events).value;
    SentWithTheirTexts(events, e);
    StepSends(events, s, e);
    ChosenAreDistinct(events, s, e);
    TextsOfSent(After(s, e).log[|s.log|], events + [e], BeforeSending(s, e).messages);
  }

  // A paid album of two messages with the texts a and b: only its first text and random number go out.
  const PAID: seq<Event> := [
    Arrive(1, Message("a", None, false)), Arrive(2, Message("b", None, false)),
    Create(5, [1, 2], 1, 0), Upload(5, 1, 10, 100, 0), Upload(5, 2, 20, 200, 0)]

  const PAID_MESSAGES: Messages := map[1 := Message("a", None, false), 2 := Message("b", None, false)]

  function PaidState(items: seq<Item>): State {
    State(map[5 := Album(items, 1, 0, false)], PAID_MESSAGES, map[], 0, map[5 := 0], [])
  }

  lemma OneMore(events: seq<Event>, s: State, e: Event, more: seq<Event>)
    requires Run(events) == Some(s) && CanHappen(s, e) && more == events + [e]
    ensures Run(more) == Some(After(s, e))
  {
    hide After, CanHappen;
    assert more[..|events|] == events;
  }

  lemma PaidCreated()
    ensures Run(PAID[..3]) == Some(PaidState(NewItems([1, 2])))
  {
    hide Run;
    var e := PAID;
    assert Run([]) == Some(INITIAL) by { StartsAt(); }
    OneMore([], INITIAL, e[0], e[..1]);
    var s := After(INITIAL, e[0]);
    OneMore(e[..1], s, e[1], e[..2]);
    OneMore(e[..2], After(s, e[1]), e[2], e[..3]);
  }

  lemma StartsAt()
    ensures Run([]) == Some(INITIAL)
  {
  }

  lemma PaidAlbum(items: seq<Item>, more: seq<Item>)
    ensures WithItems(PaidState(items), 5, more) == PaidState(more)
  {
    assert PaidState(items).albums[5 := Album(more, 1, 0, false)] == PaidState(more).albums;
  }

  const FIRST := Item(1, Some(Prepared(10, "a", 100)))

  lemma FirstFilled()
    ensures var s := PaidState([Item(1, None), Item(2, None)]);
            CanHappen(s, PAID[3]) && After(s, PAID[3]) == PaidState([FIRST, Item(2, None)])
  {
    var items := [Item(1, None), Item(2, None)];
    assert items[0].msg == 1 && IndexOf(items, 1) == 0;
    var filled := [FIRST, Item(2, None)];
    assert items[0 := FIRST] == filled && filled[1] in filled;
    PaidAlbum(items, filled);
    assert Filled(PaidState(items), 5, 1, 10, 100) == PaidState(filled);
  }

  lemma SecondFilled()
    ensures var s := PaidState([FIRST, Item(2, None)]);
            CanHappen(s, PAID[4]) && After(s, PAID[4]).log == [Sent(5, PaidMedia([10, 20], "a", 100), 0)]
  {
    var items := [FIRST, Item(2, None)];
    assert items[1].msg == 2 && items[1..] == [Item(2, None)];
    assert IndexOf(items[1..], 2) == 0 && IndexOf(items, 2) == 1;
    var full := [FIRST, Item(2, Some(Prepared(20, "b", 200)))];
    assert items[1 := full[1]] == full;
    PaidAlbum(items, full);
    var u := Filled(PaidState(items), 5, 2, 20, 200);
    assert u == PaidState(full);
    assert IsReady(full) && Sample(full, PAID_MESSAGES) == Some(1);
    assert Bare(Medias(full)) == [10, 20];
  }

  lemma PaidTextIsLost()
    ensures Run(PAID).Some? && Run(PAID).value.log == [Sent(5, PaidMedia([10, 20], "a", 100), 0)]
    ensures !AllTextsGoOut(PaidMedia([10, 20], "a", 100), [1, 2], PAID_MESSAGES)
  {
    hide Run, After, CanHappen;
    var e := PAID;
    PaidCreated();
    assert NewItems([1, 2]) == [Item(1, None), Item(2, None)];
    FirstFilled();
    OneMore(e[..3], PaidState(NewItems([1, 2])), e[3], e[..4]);
    SecondFilled();
    OneMore(e[..4], PaidState([FIRST, Item(2, None)]), e[4], e);
    assert 2 in [1, 2] && FirstThere([1, 2], PAID_MESSAGES) == Some(1);
    PaidTexts([1, 2], PAID_MESSAGES, PaidMedia([10, 20], "a", 100));
  }
}
