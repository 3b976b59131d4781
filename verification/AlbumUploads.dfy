/** An upload finds its album and its item: a file that is still awaited belongs to an album that is still there. */
module AlbumUploads {
  import opened FlatMap
  import opened AlbumSpec
  import opened AlbumTheorems
  import opened AlbumHistory

  // A group that is gone has nothing left to be uploaded.
  ghost predicate GoneInv(events: seq<Event>, s: State) {
    forall g :: g in s.approved && g !in s.albums ==> AllUploaded(events, g)
  }

  lemma {:induction false} MinusIn(msgs: seq<MsgId>, msg: MsgId, m: MsgId)
    requires m in Minus(msgs, msg)
    ensures m in msgs
  {
    var (front, last) := (msgs[..|msgs| - 1], msgs[|msgs| - 1]);
    if m != last {
      MinusIn(front, msg, m);
      assert m in front;
    }
  }

  lemma AllUploadedStays(events: seq<Event>, e: Event, group: GroupId)
    requires AllUploaded(events, group) && !(e.Create? && e.group == group)
    ensures AllUploaded(events + [e], group)
  {
    hide Chosen, UploadOf, Minus;
    forall msg | msg in Chosen(events + [e], group)
      ensures UploadOf(events + [e], group, msg).Some?
    {
      MoreEvents(events, e, group, msg);
      if e.Cancel? && e.group == group {
        MinusIn(Chosen(events, group), e.msg, msg);
      }
    }
  }

  // An album is dropped when it has no items left, or all of them are uploaded.
  lemma DroppedIsUploaded(events: seq<Event>, s: State, group: GroupId, perMessage: nat)
    requires HistoryInv(events, s) && group in s.albums && group !in SentIfReady(s, group, perMessage).albums
    ensures AllUploaded(events, group)
  {
    hide Chosen, UploadOf, NotUploaded, AllUploaded, ItemsAre, Sample, Outgoing;
    HistoryOf(events, s, group);
    ReadyIff(events, group, s.albums[group].items);
  }

  lemma AnsweredIsUploaded(events: seq<Event>, s: State, id: RequestId)
    requires HistoryInv(events, s) && Inv(s) && id in s.inFlight && s.inFlight[id].group in s.albums
    ensures AllUploaded(events, s.inFlight[id].group)
  {
    hide Chosen, UploadOf, NotUploaded, AllUploaded, ItemsAre;
    var group := s.inFlight[id].group;
    assert AlbumInv(s, group, s.albums[group]);
    HistoryOf(events, s, group);
    ReadyIff(events, group, s.albums[group].items);
  }

  // Which groups a step makes go
  lemma GroupsThatGo(s: State, e: Event, group: GroupId)
    requires CanHappen(s, e) && group in s.albums && group !in After(s, e).albums
    ensures || ((e.Upload? || e.Cancel?) && e.group == group && group in BeforeSending(s, e).albums
                && group !in SentIfReady(BeforeSending(s, e), group, e.perMessage).albums)
            || ((e.Done? || e.Fail?) && s.inFlight[e.id].group == group)
  {
    hide SentIfReady, BeforeSending;
    if e.Upload? || e.Cancel? {
      StepIsSending(s, e);
      BeforeSendingPrice(s, e, group);
      if e.group in s.albums && e.group != group {
        OthersAreKept(BeforeSending(s, e), e.group, e.perMessage, group);
      }
    }
  }

  lemma OthersAreKept(s: State, sent: GroupId, perMessage: nat, group: GroupId)
    requires sent in s.albums && group in s.albums && group != sent
    ensures group in SentIfReady(s, sent, perMessage).albums
  {
    hide Outgoing, IsReady, Sample;
  }

  // Groups become known by their creation only.
  lemma ApprovedAfter(s: State, e: Event)
    requires CanHappen(s, e)
    ensures After(s, e).approved == if e.Create? then s.approved[e.group := e.approved] else s.approved
  {
    hide SentIfReady, BeforeSending, Distinct, IsFree;
    if e.Upload? || e.Cancel? {
      StepIsSending(s, e);
      BeforeSendingApproved(s, e);
      if e.group in s.albums {
        ReadyApproved(BeforeSending(s, e), e.group, e.perMessage);
      }
    }
  }

  lemma BeforeSendingApproved(s: State, e: Event)
    requires CanHappen(s, e)
    ensures BeforeSending(s, e).approved == s.approved
  {
    hide IndexOf;
  }

  lemma ReadyApproved(s: State, group: GroupId, perMessage: nat)
    requires group in s.albums
    ensures SentIfReady(s, group, perMessage).approved == s.approved
  {
    hide Outgoing, IsReady, Sample;
  }

  lemma StepKeepsGone(events: seq<Event>, s: State, e: Event)
    requires HistoryInv(events, s) && Inv(s) && GoneInv(events, s) && CanHappen(s, e)
    ensures GoneInv(events + [e], After(s, e))
  {
    hide HistoryInv, Inv, AllUploaded, SentIfReady, BeforeSending, Distinct, IsFree;
    ApprovedAfter(s, e);
    var t := After(s, e);
    forall g | g in t.approved && g !in t.albums
      ensures AllUploaded(events + [e], g)
    {
      if g in s.albums {
        GroupsThatGo(s, e, g);
        if e.Upload? || e.Cancel? {
          BeforeSendingKeepsHistory(events, s, e);
          DroppedIsUploaded(events + [e], BeforeSending(s, e), g, e.perMessage);
        } else {
          AnsweredIsUploaded(events, s, e.id);
          AllUploadedStays(events, e, g);
        }
      } else {
        AllUploadedStays(events, e, g);
      }
    }
  }

  lemma {:induction false} GoneIsUploaded(events: seq<Event>)
    requires Run(events).Some?
    ensures GoneInv(events, Run(events).value)
  {
    hide After, CanHappen, HistoryInv, Inv, AllUploaded;
    if events != [] {
      var (front, last) := (events[..|events| - 1], events[|events| - 1]);
      GoneIsUploaded(front);
      RunKeepsHistory(front);
      RunKeepsInv(front);
      StepKeepsGone(front, Run(front).value, last);
      assert events == front + [last];
    }
  }

  // A message is chosen for a group that there was.
  lemma {:induction false} ChosenIsApproved(events: seq<Event>, group: GroupId)
    requires Run(events).Some? && Chosen(events, group) != []
    ensures group in Run(events).value.approved
  {
    hide CanHappen, After, Minus;
    var (front, last) := (events[..|events| - 1], events[|events| - 1]);
    ApprovedAfter(Run(front).value, last);
    if !(last.Create? && last.group == group) {
      assert Chosen(front, group) == [] ==> Chosen(events, group) == [] by { NothingLess(); }
      ChosenIsApproved(front, group);
    }
  }

  lemma NothingLess()
    ensures forall msg: MsgId :: Minus([], msg) == []
  {
  }

  // In every run, the upload of a message finds its album and its item, which is not filled yet, exactly when the
  // message is one of those chosen, has not been uploaded before, and is there: the assertions of the code hold.
  lemma UploadFindsItsItem(events: seq<Event>, e: Event)
    requires Run(events).Some? && e.Upload?
    ensures CanHappen(Run(events).value, e) <==>
            && e.msg in Chosen(events, e.group) && UploadOf(events, e.group, e.msg).None?
            && e.msg in Run(events).value.messages
  {
    hide Run, Chosen, UploadOf, IndexOf, NotUploaded;
    var s := Run(events).value;
    RunKeepsHistory(events);
    GoneIsUploaded(events);
    var (group, msg) := (e.group, e.msg);
    if msg in Chosen(events, group) && UploadOf(events, group, msg).None? {
      ChosenIsApproved(events, group);
    }
    if group in s.albums {
      var items := s.albums[group].items;
      assert ItemsAre(events, group, items);
      if HasItem(items, msg) {
        var i := IndexOf(items, msg);
        assert items[i] in items && Msgs(items)[i] == msg;
      }
      if msg in Chosen(events, group) {
        var k :| 0 <= k < |items| && Msgs(items)[k] == msg;
      }
    }
  }

  // A cancellation finds its item, if the album is still there, exactly when its message is one of those chosen.
  lemma CancelFindsItsItem(events: seq<Event>, e: Event)
    requires Run(events).Some? && e.Cancel?
    ensures var s := Run(events).value;
            CanHappen(s, e) <==> e.msg in s.messages && (e.group in s.albums ==> e.msg in Chosen(events, e.group))
  {
    hide Run, Chosen, UploadOf, NotUploaded;
    var s := Run(events).value;
    RunKeepsHistory(events);
    if e.group in s.albums {
      var items := s.albums[e.group].items;
      assert ItemsAre(events, e.group, items);
      if HasItem(items, e.msg) {
        var i :| 0 <= i < |items| && items[i].msg == e.msg;
        assert Msgs(items)[i] == e.msg;
      }
      if e.msg in Chosen(events, e.group) {
        var k :| 0 <= k < |items| && Msgs(items)[k] == e.msg;
      }
    }
  }
}
