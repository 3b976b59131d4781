/** Replacing a selection of a message by a text with tags: the tags of the three pieces keep their characters. */
module Splice {
  // A tag marks `length` characters from `offset` on.
  datatype Tag = Tag(offset: nat, length: nat, id: string)

  datatype TextWithTags = TextWithTags(text: string, tags: seq<Tag>)

  predicate InBounds(t: TextWithTags) {
    forall tag :: tag in t.tags ==> tag.offset + tag.length <= |t.text|
  }

  // Sorted, without overlaps
  predicate InOrder(tags: seq<Tag>) {
    forall i, j :: 0 <= i < j < |tags| ==> tags[i].offset + tags[i].length <= tags[j].offset
  }

  predicate WellTagged(t: TextWithTags) {
    InBounds(t) && InOrder(t.tags)
  }

  function Covered(text: string, tag: Tag): string
    requires tag.offset + tag.length <= |text|
  {
    text[tag.offset..tag.offset + tag.length]
  }

  function Shifted(tags: seq<Tag>, shift: nat): (shifted: seq<Tag>)
    ensures |shifted| == |tags|
  {
    seq(|tags|, i requires 0 <= i < |tags| => Tag(tags[i].offset + shift, tags[i].length, tags[i].id))
  }

  function Joined(a: TextWithTags, b: TextWithTags): TextWithTags {
    TextWithTags(a.text + b.text, a.tags + Shifted(b.tags, |a.text|))
  }

  // Joining keeps both texts' tags in bounds and in order, and each covers the characters it covered before.
  lemma JoinedIsWellTagged(a: TextWithTags, b: TextWithTags)
    requires WellTagged(a) && WellTagged(b)
    ensures WellTagged(Joined(a, b))
  {
    var t := Joined(a, b);
    var n := |a.tags|;
    forall i | 0 <= i < |t.tags|
      ensures t.tags[i].offset + t.tags[i].length <= |t.text|
      ensures i < n ==> t.tags[i] in a.tags
    {
      assert i < n ==> a.tags[i] in a.tags;
      assert i >= n ==> b.tags[i - n] in b.tags;
    }
    forall i, j | 0 <= i < j < |t.tags|
      ensures t.tags[i].offset + t.tags[i].length <= t.tags[j].offset
    {
      if i >= n {
        assert t.tags[i].offset == b.tags[i - n].offset + |a.text|;
        assert t.tags[j].offset == b.tags[j - n].offset + |a.text|;
      }
    }
  }

  lemma JoinedCovers(a: TextWithTags, b: TextWithTags, i: nat)
    requires InBounds(a) && InBounds(b) && i < |a.tags| + |b.tags|
    ensures var (t, n) := (Joined(a, b), |a.tags|);
            && t.tags[i].offset + t.tags[i].length <= |t.text|
            && Covered(t.text, t.tags[i])
               == (if i < n then Covered(a.text, a.tags[i]) else Covered(b.text, b.tags[i - n]))
            && t.tags[i].id == (if i < n then a.tags[i].id else b.tags[i - n].id)
  {
    var (t, n) := (Joined(a, b), |a.tags|);
    if i < n {
      assert a.tags[i] in a.tags;
      assert t.tags[i] == a.tags[i];
      assert (a.text + b.text)[..|a.text|] == a.text;
    } else {
      assert b.tags[i - n] in b.tags;
      assert (a.text + b.text)[|a.text|..] == b.text;
    }
  }

  // The tags are in bounds, in order and without overlaps again, and there is one for each of the pieces', which has
  // the same id and covers the same characters.
  lemma SplicedKeepsTags(before: TextWithTags, replacement: TextWithTags, after: TextWithTags, i: nat)
    requires WellTagged(before) && WellTagged(replacement) && WellTagged(after)
    requires i < |before.tags| + |replacement.tags| + |after.tags|
    ensures var t := Joined(Joined(before, replacement), after);
            var (b, r) := (|before.tags|, |replacement.tags|);
            && WellTagged(t) && |t.tags| == b + r + |after.tags|
            && t.tags[i].offset + t.tags[i].length <= |t.text|
            && Covered(t.text, t.tags[i]) ==
                 (if i < b then InText(before, i)
                  else if i < b + r then InText(replacement, i - b) else InText(after, i - b - r))
            && t.tags[i].id ==
                 (if i < b then before.tags[i].id
                  else if i < b + r then replacement.tags[i - b].id else after.tags[i - b - r].id)
  {
    hide WellTagged, Covered, Shifted;
    JoinedIsWellTagged(before, replacement);
    JoinedIsWellTagged(Joined(before, replacement), after);
    WellTaggedIsInBounds(before);
    WellTaggedIsInBounds(replacement);
    WellTaggedIsInBounds(after);
    WellTaggedIsInBounds(Joined(before, replacement));
    JoinedCovers(Joined(before, replacement), after, i);
    if i < |before.tags| + |replacement.tags| {
      JoinedCovers(before, replacement, i);
    }
  }

  lemma WellTaggedIsInBounds(t: TextWithTags)
    requires WellTagged(t)
    ensures InBounds(t)
  {
  }

  // What tag i covers, if it is in bounds
  function InText(t: TextWithTags, i: nat): string
    requires i < |t.tags|
  {
    if t.tags[i].offset + t.tags[i].length <= |t.text| then Covered(t.text, t.tags[i]) else ""
  }

  function Clamp(v: int, low: int, high: int): (c: int)
    requires low <= high
    ensures low <= c <= high && (low <= v <= high ==> c == v)
  {
    if v < low then low else if v > high then high else v
  }

  // The selection as it was, within the text as it is now
  function Selection(start: int, end: int, length: nat): (r: (nat, nat))
    ensures r.0 <= r.1 <= length
  {
    var from := Clamp(start, 0, length);
    (from, Clamp(end, from, length))
  }

  method AppendShifted(tags: seq<Tag>, more: seq<Tag>, shift: nat) returns (all: seq<Tag>)
    ensures all == tags + Shifted(more, shift)
  {
    all := tags;
    for i := 0 to |more|
      invariant all == tags + Shifted(more[..i], shift)
    {
      var tag := Tag(more[i].offset + shift, more[i].length, more[i].id);
      assert Shifted(more[..i + 1], shift) == Shifted(more[..i], shift) + [tag];
      all := all + [tag];
    }
    assert more[..|more|] == more;
  }

  // The replacement of a selection: the text around it stays, and the cursor ends up behind the replacement.
  method ApplyToSelection(field: string, before: TextWithTags, replacement: TextWithTags, after: TextWithTags,
                          start: int, end: int)
      returns (full: TextWithTags, cursor: nat)
    requires var (from, till) := Selection(start, end, |field|);
             before.text == field[..from] && after.text == field[till..]
    ensures full == Joined(Joined(before, replacement), after)
    ensures var (from, till) := Selection(start, end, |field|);
            && full.text == field[..from] + replacement.text + field[till..]
            && cursor == from + |replacement.text| <= |full.text|
            && full.text[..cursor] == field[..from] + replacement.text && full.text[cursor..] == field[till..]
  {
    var shiftMiddle := |before.text|;
    var shiftAfter := shiftMiddle + |replacement.text|;
    var tags := AppendShifted(before.tags, replacement.tags, shiftMiddle);
    tags := AppendShifted(tags, after.tags, shiftAfter);
    full := TextWithTags(before.text + replacement.text + after.text, tags);
    cursor := shiftAfter;
  }

  function Distance(a: int, b: int): nat {
    if a <= b then b - a else a - b
  }

  // Without a selection the replacement is everything, and the cursor stays as near as it can.
  method ApplyToAll(replacement: TextWithTags, saved: int) returns (full: TextWithTags, cursor: nat)
    ensures full == replacement && cursor <= |full.text|
    ensures forall c: nat :: c <= |full.text| ==> Distance(cursor, saved) <= Distance(c, saved)
  {
    full := replacement;
    cursor := Clamp(saved, 0, |full.text|);
  }
}
