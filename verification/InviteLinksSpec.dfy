/** The cached invite links of one chat: a live permanent link can only stand first. */
module InviteLinksSpec {
  import opened Wrappers

  // A link with the rest of its fields in one
  datatype Link = Link(link: string, permanent: bool, revoked: bool, usage: nat, rest: nat)

  predicate IsLive(l: Link) {
    l.permanent && !l.revoked
  }

  type Links = seq<Link>

  // The first slice, once it is loaded or started
  type Cache = Option<Links>

  ghost predicate LiveFirst(links: Links) {
    forall k :: 1 <= k < |links| ==> !IsLive(links[k])
  }

  ghost predicate Valid(c: Cache) {
    c.Some? ==> LiveFirst(c.value)
  }

  function MyPermanent(c: Cache): Option<Link> {
    if c.Some? && c.value != [] && IsLive(c.value[0]) then Some(c.value[0]) else None
  }

  // The first live permanent link, if any
  function FirstLive(links: Links): (i: nat)
    ensures i <= |links| && (i < |links| ==> IsLive(links[i])) && forall k :: 0 <= k < i ==> !IsLive(links[k])
  {
    if links == [] || IsLive(links[0]) then 0 else 1 + FirstLive(links[1..])
  }

  // BringPermanentToFront
  function Fronted(links: Links): Links {
    var i := FirstLive(links);
    if i == |links| then links else [links[i]] + links[..i] + links[i + 1..]
  }

  // RemovePermanent
  function WithoutLive(links: Links): Links {
    if links == [] then [] else
      var (front, last) := (links[..|links| - 1], links[|links| - 1]);
      if IsLive(last) then WithoutLive(front) else WithoutLive(front) + [last]
  }

  function WithoutLink(links: Links, link: string): Links {
    if links == [] then [] else
      var (front, last) := (links[..|links| - 1], links[|links| - 1]);
      if last.link == link then WithoutLink(front, link) else WithoutLink(front, link) + [last]
  }

  // prependMyToFirstSlice
  function Prepended(c: Cache, link: Link): Cache {
    var links := if c.Some? then c.value else [];
    if MyPermanent(c).Some? then
      if link.permanent then Some([link] + links[1..]) else Some([links[0], link] + links[1..])
    else Some([link] + links)
  }

  // The answer to an edit or a revocation of one link
  function IndexOf(links: Links, link: string): (i: nat)
    ensures i <= |links| && (i < |links| ==> links[i].link == link) && forall k :: 0 <= k < i ==> links[k].link != link
  {
    if links == [] || links[0].link == link then 0 else 1 + IndexOf(links[1..], link)
  }

  function EditedList(links: Links, key: string, link: Link): Links {
    var j := IndexOf(links, key);
    if j == |links| then links
    else if link.revoked && !links[j].revoked then links[..j] + links[j + 1..]
    else links[j := link]
  }

  function Edited(c: Cache, key: string, link: Link, replacement: Option<Link>): Cache {
    var edited := if c.Some? then Some(EditedList(c.value, key, link)) else c;
    if replacement.Some? then Prepended(edited, replacement.value) else edited
  }

  // The answer to a reload: what the server sent is parsed without the known permanent link.
  function Reloaded(c: Cache, slice: Links): Cache {
    match MyPermanent(c)
    case None => Some(Fronted(slice))
    case Some(permanent) => Some([permanent] + WithoutLive(WithoutLink(slice, permanent.link)))
  }

  // setMyPermanent, of a permanent link; clearMyPermanent
  function PermanentSet(c: Cache, link: Link): Cache {
    var links := if c.Some? then c.value else [];
    match MyPermanent(c)
    case None => Some([link] + links)
    case Some(permanent) =>
      if permanent.link == link.link then Some(links[0 := permanent.(usage := link.usage)])
      else Some([link] + links[1..])
  }

  function PermanentCleared(c: Cache): Cache {
    if MyPermanent(c).Some? then Some(c.value[1..]) else c
  }

  // applyExternalUpdate
  function UpdatedList(links: Links, updated: Link): Links {
    seq(|links|, i requires 0 <= i < |links| => if links[i].link == updated.link then updated else links[i])
  }

  function Updated(c: Cache, updated: Link): Cache {
    if c.Some? then Some(UpdatedList(c.value, updated)) else c
  }

  datatype Event =
    | Create(link: Link)
    | Edit(key: string, link: Link, replacement: Option<Link>)
    | Reload(slice: Links)
    | SetPermanent(link: Link)
    | ClearPermanent
    | Update(updated: Link)
    | Prune

  predicate CanHappen(e: Event) {
    e.SetPermanent? ==> e.link.permanent
  }

  function After(c: Cache, e: Event): Cache {
    match e
    case Create(link) => Prepended(c, link)
    case Edit(key, link, replacement) => Edited(c, key, link, replacement)
    case Reload(slice) => Reloaded(c, slice)
    case SetPermanent(link) => PermanentSet(c, link)
    case ClearPermanent => PermanentCleared(c)
    case Update(updated) => Updated(c, updated)
    case Prune => None
  }

  // When a step keeps the rule
  predicate AtMostOneLive(links: Links) {
    FirstLive(links) == |links| || FirstLive(links[FirstLive(links) + 1..]) == |links| - FirstLive(links) - 1
  }

  // An edit gives a live permanent link to an entry that is not the first and is not dropped by it.
  predicate EditsAnother(c: Cache, key: string, link: Link) {
    c.Some? && 0 < IndexOf(c.value, key) < |c.value| && IsLive(link)
  }

  predicate UpdatesAnother(c: Cache, updated: Link) {
    c.Some? && c.value != [] && IndexOf(c.value[1..], updated.link) < |c.value| - 1 && IsLive(updated)
  }

  predicate KeepsRule(c: Cache, e: Event) {
    match e
    case Reload(slice) => MyPermanent(c).None? ==> AtMostOneLive(slice)
    case Edit(key, link, _) => !EditsAnother(c, key, link)
    case Update(updated) => !UpdatesAnother(c, updated)
    case _ => true
  }
}
