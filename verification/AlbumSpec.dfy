/** Albums that are being sent: their items, uploads, cancellations and the one request that sends them. */
module AlbumSpec {
  import opened Wrappers
  import opened FlatMap

  type GroupId = Id

  type MsgId = Id

  type Media = nat

  type RequestId = nat

  // A media with the caption it is sent with
  datatype Prepared = Prepared(media: Media, caption: string, randomId: Id)

  datatype Item = Item(msg: MsgId, prepared: Option<Prepared>)

  // The options hold the stars approved; a price makes the album paid media.
  datatype Album = Album(items: seq<Item>, price: nat, approved: nat, sent: bool)

  // A message that exists: its text, the message that it replies to, and whether it is an ephemeral one
  datatype Message = Message(text: string, replyTo: Option<MsgId>, ephemeral: bool)

  type Messages = map<MsgId, Message>

  datatype Part = Part(media: Media, text: string)

  // What a request carries: to an ephemeral place each part goes on its own and without a random number; paid media
  // have one text and one random number together; a single media and those of a group have their own.
  datatype Content =
    | ToEphemeral(parts: seq<Part>)
    | PaidMedia(bare: seq<Media>, text: string, randomId: Id)
    | Single(only: Prepared)
    | Grouped(medias: seq<Prepared>)

  // What was sent for an album, in the album's order, and the stars
  datatype Sent = Sent(group: GroupId, content: Content, stars: nat)

  // The program keeps the albums; its surroundings know the messages that exist, the requests in flight by their
  // albums, the last request id, every group that there was with the stars approved for it, and what was sent.
  datatype State = State(
    albums: map<GroupId, Album>, messages: Messages,
    inFlight: map<RequestId, Sent>, lastId: RequestId, approved: map<GroupId, nat>, log: seq<Sent>)

  const INITIAL := State(map[], map[], map[], 0, map[], [])

  function Min(a: nat, b: nat): nat {
    if a < b then a else b
  }

  function IndexOf(items: seq<Item>, msg: MsgId): (i: nat)
    requires exists k :: 0 <= k < |items| && items[k].msg == msg
    ensures i < |items| && items[i].msg == msg
  {
    if items[0].msg == msg then 0 else 1 + IndexOf(items[1..], msg)
  }

  predicate HasItem(items: seq<Item>, msg: MsgId) {
    exists k :: 0 <= k < |items| && items[k].msg == msg
  }

  predicate IsReady(items: seq<Item>) {
    forall item :: item in items ==> item.prepared.Some?
  }

  function Medias(items: seq<Item>): (medias: seq<Prepared>)
    requires IsReady(items)
    ensures |medias| == |items|
  {
    seq(|items|, i requires 0 <= i < |items| => items[i].prepared.value)
  }

  // The first item whose message exists
  function Sample(items: seq<Item>, messages: Messages): (sample: Option<MsgId>)
    ensures sample.Some? ==> sample.value in messages
  {
    if items == [] then None
    else if items[0].msg in messages then Some(items[0].msg)
    else Sample(items[1..], messages)
  }

  // The message that the sample replies to decides whether the album goes to an ephemeral place.
  predicate GoesToEphemeral(items: seq<Item>, messages: Messages) {
    var sample := Sample(items, messages);
    && sample.Some?
    && var target := messages[sample.value].replyTo;
       target.Some? && target.value in messages && messages[target.value].ephemeral
  }

  function Existing(items: seq<Item>, messages: Messages): seq<Item> {
    if items == [] then [] else
      var (front, last) := (items[..|items| - 1], items[|items| - 1]);
      if last.msg in messages then Existing(front, messages) + [last] else Existing(front, messages)
  }

  lemma {:induction false} ExistingAre(items: seq<Item>, messages: Messages, item: Item)
    ensures item in Existing(items, messages) <==> item in items && item.msg in messages
  {
    if items != [] {
      ExistingAre(items[..|items| - 1], messages, item);
      assert items == items[..|items| - 1] + [items[|items| - 1]];
    }
  }

  predicate AreThere(items: seq<Item>, messages: Messages) {
    forall item :: item in items ==> item.msg in messages
  }

  lemma ExistingAreReady(items: seq<Item>, messages: Messages)
    requires IsReady(items)
    ensures IsReady(Existing(items, messages)) && AreThere(Existing(items, messages), messages)
  {
    forall item | item in Existing(items, messages)
      ensures item.prepared.Some? && item.msg in messages
    {
      ExistingAre(items, messages, item);
    }
  }

  function Parts(items: seq<Item>, messages: Messages): (parts: seq<Part>)
    requires IsReady(items) && AreThere(items, messages)
    ensures |parts| == |items|
  {
    seq(|items|, i requires 0 <= i < |items| => Part(items[i].prepared.value.media, messages[items[i].msg].text))
  }

  function Bare(medias: seq<Prepared>): (bare: seq<Media>)
    ensures |bare| == |medias|
  {
    seq(|medias|, i requires 0 <= i < |medias| => medias[i].media)
  }

  // sendAlbumIfReady: how an album goes out. Paid media take the text of the sample and the first random number.
  function ContentOf(album: Album, messages: Messages): Content
    requires IsReady(album.items) && album.items != [] && Sample(album.items, messages).Some?
  {
    var text := messages[Sample(album.items, messages).value].text;
    if GoesToEphemeral(album.items, messages) then
      ExistingAreReady(album.items, messages);
      ToEphemeral(Parts(Existing(album.items, messages), messages))
    else
      var medias := Medias(album.items);
      if album.price > 0 then PaidMedia(Bare(medias), text, medias[0].randomId)
      else if |medias| < 2 then Single(medias[0].(caption := text))
      else Grouped(medias)
  }

  // To a chat that takes so many stars for a message
  function Outgoing(group: GroupId, album: Album, messages: Messages, perMessage: nat): Sent
    requires IsReady(album.items) && album.items != [] && Sample(album.items, messages).Some?
  {
    var content := ContentOf(album, messages);
    var price := match content
      case ToEphemeral(_) => 0
      case Grouped(_) => perMessage * |album.items|
      case _ => perMessage;
    Sent(group, content, Min(price, album.approved))
  }

  function Dispatched(s: State, group: GroupId, perMessage: nat): State
    requires Dispatches(s, group)
  {
    var album := s.albums[group];
    var sent := Outgoing(group, album, s.messages, perMessage);
    var logged := s.(log := s.log + [sent]);
    if sent.content.ToEphemeral? || sent.content.Single? then logged.(albums := s.albums - {group})
    else
      logged.(albums := s.albums[group := album.(sent := true, approved := album.approved - sent.stars)],
              inFlight := s.inFlight[s.lastId + 1 := sent], lastId := s.lastId + 1)
  }

  predicate Dispatches(s: State, group: GroupId) {
    && group in s.albums && !s.albums[group].sent && s.albums[group].items != [] && IsReady(s.albums[group].items)
    && Sample(s.albums[group].items, s.messages).Some?
  }

  function SentIfReady(s: State, group: GroupId, perMessage: nat): State
    requires group in s.albums
  {
    var album := s.albums[group];
    if album.sent then s
    else if album.items == [] then s.(albums := s.albums - {group})
    else if !IsReady(album.items) then s
    else if Sample(album.items, s.messages).None? then s.(albums := s.albums - {group})
    else Dispatched(s, group, perMessage)
  }

  function WithItems(s: State, group: GroupId, items: seq<Item>): State
    requires group in s.albums
  {
    s.(albums := s.albums[group := s.albums[group].(items := items)])
  }

  // sendAlbumWithUploaded
  function Filled(s: State, group: GroupId, msg: MsgId, media: Media, randomId: Id): State
    requires group in s.albums && HasItem(s.albums[group].items, msg) && msg in s.messages
  {
    var items := s.albums[group].items;
    var i := IndexOf(items, msg);
    WithItems(s, group, items[i := items[i].(prepared := Some(Prepared(media, s.messages[msg].text, randomId)))])
  }

  // Removing the first item moves its text to the next one, whose media is prepared again.
  function MovedText(caption: string, text: string): string {
    if text == "" then caption else text + "\n" + caption
  }

  function Refreshed(item: Item, text: string): Item {
    if item.prepared.None? then item else item.(prepared := Some(item.prepared.value.(caption := text)))
  }

  function Removed(s: State, group: GroupId, msg: MsgId): State
    requires group in s.albums && HasItem(s.albums[group].items, msg) && msg in s.messages
  {
    var items := s.albums[group].items;
    var i := IndexOf(items, msg);
    var left := items[..i] + items[i + 1..];
    if |items| > 1 && i == 0 && left[0].msg in s.messages then
      var first := s.messages[left[0].msg];
      var text := MovedText(s.messages[msg].text, first.text);
      WithItems(s, group, left[0 := Refreshed(left[0], text)]).(
        messages := s.messages[left[0].msg := first.(text := text)])
    else WithItems(s, group, left)
  }

  // sendAlbumWithCancelled, after which the cancelled message is gone
  function Cancelled(s: State, group: GroupId, msg: MsgId, perMessage: nat): State
    requires msg in s.messages && (group in s.albums ==> HasItem(s.albums[group].items, msg))
  {
    var t := if group in s.albums then SentIfReady(Removed(s, group, msg), group, perMessage) else s;
    t.(messages := t.messages - {msg})
  }

  datatype Event =
    | Create(group: GroupId, msgs: seq<MsgId>, price: nat, approved: nat)
    | Arrive(msg: MsgId, message: Message)
    | Vanish(msg: MsgId)
    | Upload(group: GroupId, msg: MsgId, media: Media, randomId: Id, perMessage: nat)
    | Cancel(group: GroupId, msg: MsgId, perMessage: nat)
    | Done(id: RequestId)
    | Fail(id: RequestId)

  // A message belongs to one album, and its id is not used again.
  predicate IsFree(s: State, msg: MsgId) {
    forall group :: group in s.albums ==> !HasItem(s.albums[group].items, msg)
  }

  predicate CanHappen(s: State, e: Event) {
    match e
    case Create(group, msgs, _, _) =>
      && group !in s.approved && Distinct(msgs)
      && forall msg :: msg in msgs ==> IsFree(s, msg)
    case Arrive(msg, _) => msg !in s.messages && IsFree(s, msg)
    case Vanish(msg) => msg in s.messages
    case Upload(group, msg, _, _, _) =>
      && group in s.albums && HasItem(s.albums[group].items, msg) && msg in s.messages
      && s.albums[group].items[IndexOf(s.albums[group].items, msg)].prepared.None?
    case Cancel(group, msg, _) => msg in s.messages && (group in s.albums ==> HasItem(s.albums[group].items, msg))
    case Done(id) => id in s.inFlight
    case Fail(id) => id in s.inFlight
  }

  function NewItems(msgs: seq<MsgId>): seq<Item> {
    seq(|msgs|, i requires 0 <= i < |msgs| => Item(msgs[i], None))
  }

  // A failed album of paid media stays where it is, sent; a failed grouped one is taken out.
  function After(s: State, e: Event): State
    requires CanHappen(s, e)
  {
    match e
    case Create(group, msgs, price, approved) =>
      s.(albums := s.albums[group := Album(NewItems(msgs), price, approved, false)],
         approved := s.approved[group := approved])
    case Arrive(msg, message) => s.(messages := s.messages[msg := message])
    case Vanish(msg) => s.(messages := s.messages - {msg})
    case Upload(group, msg, media, randomId, perMessage) =>
      SentIfReady(Filled(s, group, msg, media, randomId), group, perMessage)
    case Cancel(group, msg, perMessage) => Cancelled(s, group, msg, perMessage)
    case Done(id) => s.(inFlight := s.inFlight - {id}, albums := s.albums - {s.inFlight[id].group})
    case Fail(id) =>
      var t := s.(inFlight := s.inFlight - {id});
      if s.inFlight[id].content.Grouped? then t.(albums := s.albums - {s.inFlight[id].group}) else t
  }

  function Run(events: seq<Event>): Option<State> {
    if events == [] then Some(INITIAL) else
      var s :- Run(events[..|events| - 1]);
      var e := events[|events| - 1];
      if CanHappen(s, e) then Some(After(s, e)) else None
  }
}
