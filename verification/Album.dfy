/** The albums on their way, with the media filled in and the items taken out in place. */
module AlbumCode {
  import opened Wrappers
  import opened FlatMap
  import opened AlbumSpec

  class SendingAlbums {
    var albums: map<GroupId, Album>
    var messages: Messages
    var inFlight: map<RequestId, Sent>
    var lastId: RequestId
    var approved: map<GroupId, nat>
    var log: seq<Sent>

    function Value(): State
      reads this
    {
      State(albums, messages, inFlight, lastId, approved, log)
    }

    constructor ()
      ensures Value() == INITIAL
    {
      albums, messages, inFlight, lastId, approved, log := map[], map[], map[], 0, map[], [];
    }

    method FindItem(items: seq<Item>, msg: MsgId) returns (i: nat)
      requires HasItem(items, msg)
      ensures i == IndexOf(items, msg) < |items|
    {
      i := 0;
      while items[i].msg != msg
        invariant i < |items| && HasItem(items[i..], msg)
        invariant IndexOf(items, msg) == i + IndexOf(items[i..], msg)
        decreases |items| - i
      {
        var k :| 0 <= k < |items[i..]| && items[i..][k].msg == msg;
        assert items[i + 1..][k - 1].msg == msg;
        assert items[i..][1..] == items[i + 1..];
        i := i + 1;
      }
    }

    method FillMedia(group: GroupId, msg: MsgId, media: Media, randomId: Id)
      requires group in albums && HasItem(albums[group].items, msg) && msg in messages
      modifies `albums
      ensures Value() == Filled(old(Value()), group, msg, media, randomId)
    {
      var items := albums[group].items;
      var i := FindItem(items, msg);
      var filled := items[i].(prepared := Some(Prepared(media, messages[msg].text, randomId)));
      albums := albums[group := albums[group].(items := items[i := filled])];
    }

    method RemoveItem(group: GroupId, msg: MsgId)
      requires group in albums && HasItem(albums[group].items, msg) && msg in messages
      modifies `albums, `messages
      ensures Value() == Removed(old(Value()), group, msg)
    {
      var items := albums[group].items;
      var i := FindItem(items, msg);
      var moveCaption := |items| > 1 && i == 0;
      var left := items[..i] + items[i + 1..];
      if moveCaption {
        var first := left[0].msg;
        if first in messages {
          var text := MovedText(messages[msg].text, messages[first].text);
          messages := messages[first := messages[first].(text := text)];
          left := left[0 := Refreshed(left[0], text)];
        }
      }
      albums := albums[group := albums[group].(items := left)];
    }

    // The medias and the first item whose message exists; nothing if a media is missing
    method Gather(items: seq<Item>) returns (ready: bool, medias: seq<Prepared>, sample: Option<MsgId>)
      ensures ready <==> IsReady(items)
      ensures ready ==> medias == Medias(items) && sample == Sample(items, messages)
    {
      medias, sample := [], None;
      for i := 0 to |items|
        invariant |medias| == i && forall k :: 0 <= k < i ==> items[k].prepared == Some(medias[k])
        invariant Sample(items, messages) == if sample.Some? then sample else Sample(items[i..], messages)
      {
        assert items[i] in items;
        if items[i].prepared.None? {
          return false, [], None;
        } else if sample.None? && items[i].msg in messages {
          sample := Some(items[i].msg);
        }
        assert items[i..][1..] == items[i + 1..];
        medias := medias + [items[i].prepared.value];
      }
      assert items[|items|..] == [];
      assert forall item :: item in items ==> item.prepared.Some?;
      ready := true;
    }

    method GatherExisting(items: seq<Item>) returns (parts: seq<Part>)
      requires IsReady(items)
      ensures IsReady(Existing(items, messages)) && AreThere(Existing(items, messages), messages)
      ensures parts == Parts(Existing(items, messages), messages)
    {
      parts := [];
      for i := 0 to |items|
        invariant IsReady(Existing(items[..i], messages)) && AreThere(Existing(items[..i], messages), messages)
        invariant parts == Parts(Existing(items[..i], messages), messages)
      {
        assert items[..i + 1][..i] == items[..i] && items[i] in items;
        if items[i].msg in messages {
          parts := parts + [Part(items[i].prepared.value.media, messages[items[i].msg].text)];
        }
      }
      assert items[..|items|] == items;
    }

    method Send(sent: Sent)
      modifies `inFlight, `lastId
      ensures lastId == old(lastId) + 1 && inFlight == old(inFlight)[lastId := sent]
    {
      lastId := lastId + 1;
      inFlight := inFlight[lastId := sent];
    }

    // A request that is answered later: the album stays until then, marked as sent.
    method SendKept(group: GroupId, sent: Sent)
      requires group in albums && sent.stars <= albums[group].approved
      modifies this
      ensures Value() == old(Value()).(
                log := old(log) + [sent],
                albums := var album := old(albums)[group];
                          old(albums)[group := album.(sent := true, approved := album.approved - sent.stars)],
                inFlight := old(inFlight)[old(lastId) + 1 := sent], lastId := old(lastId) + 1)
    {
      albums := albums[group := albums[group].(sent := true, approved := albums[group].approved - sent.stars)];
      log := log + [sent];
      Send(sent);
    }

    // The message that the sample replies to, if it is there
    method FindTarget(sample: MsgId) returns (target: Option<Message>)
      requires sample in messages
      ensures target == (var id := messages[sample].replyTo;
                         if id.Some? && id.value in messages then Some(messages[id.value]) else None)
    {
      var replyTo := messages[sample].replyTo;
      if replyTo.None? || replyTo.value !in messages {
        return None;
      }
      target := Some(messages[replyTo.value]);
    }

    // Only the medias of the items go out, with the text of the sample and the random number of the first.
    method SendMultiPaidMedia(group: GroupId, sample: MsgId, perMessage: nat)
      requires group in albums && IsReady(albums[group].items) && albums[group].items != [] && sample in messages
      modifies this
      ensures var album := old(albums[group]);
              var (medias, stars) := (Medias(album.items), Min(perMessage, album.approved));
              var sent := Sent(group, PaidMedia(Bare(medias), old(messages)[sample].text, medias[0].randomId), stars);
              Value() == old(Value()).(
                log := old(log) + [sent],
                albums := old(albums)[group := album.(sent := true, approved := album.approved - stars)],
                inFlight := old(inFlight)[old(lastId) + 1 := sent], lastId := old(lastId) + 1)
    {
      var album := albums[group];
      assert forall i :: 0 <= i < |album.items| ==> album.items[i] in album.items;
      var randomId := album.items[0].prepared.value.randomId;
      var bare: seq<Media> := [];
      for i := 0 to |album.items|
        invariant bare == Bare(Medias(album.items))[..i]
      {
        bare := bare + [album.items[i].prepared.value.media];
      }
      assert bare == Bare(Medias(album.items));
      SendKept(group, Sent(group, PaidMedia(bare, messages[sample].text, randomId), Min(perMessage, album.approved)));
    }

    method SendAlbumIfReady(group: GroupId, perMessage: nat)
      requires group in albums
      modifies this
      ensures Value() == SentIfReady(old(Value()), group, perMessage)
    {
      hide Sample, IsReady, Existing, Medias, Parts, Bare;
      var album := albums[group];
      if album.sent {
        return;
      }
      if album.items == [] {
        albums := albums - {group};
        return;
      }
      var ready, medias, sample := Gather(album.items);
      if !ready {
        return;
      }
      if sample.None? {
        albums := albums - {group};
        return;
      }
      var target := FindTarget(sample.value);
      if target.Some? && target.value.ephemeral {
        var parts := GatherExisting(album.items);
        albums := albums - {group};
        log := log + [Sent(group, ToEphemeral(parts), 0)];
      } else if album.price > 0 {
        SendMultiPaidMedia(group, sample.value, perMessage);
      } else if |medias| < 2 {
        var single := medias[0].(caption := messages[sample.value].text);
        log := log + [Sent(group, Single(single), Min(perMessage, album.approved))];
        albums := albums - {group};
      } else {
        SendKept(group, Sent(group, Grouped(medias), Min(perMessage * |medias|, album.approved)));
      }
    }

    method SendAlbumWithUploaded(group: GroupId, msg: MsgId, media: Media, randomId: Id, perMessage: nat)
      requires group in albums && HasItem(albums[group].items, msg) && msg in messages
      modifies this
      ensures Value() == SentIfReady(Filled(old(Value()), group, msg, media, randomId), group, perMessage)
    {
      hide SentIfReady;
      FillMedia(group, msg, media, randomId);
      SendAlbumIfReady(group, perMessage);
    }

    method SendAlbumWithCancelled(group: GroupId, msg: MsgId, perMessage: nat)
      requires msg in messages && (group in albums ==> HasItem(albums[group].items, msg))
      modifies this
      ensures Value() == if group in old(albums) then SentIfReady(Removed(old(Value()), group, msg), group, perMessage)
                         else old(Value())
    {
      hide SentIfReady;
      if group !in albums {
        return;
      }
      RemoveItem(group, msg);
      SendAlbumIfReady(group, perMessage);
    }
  }
}
