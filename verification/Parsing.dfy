/** Byte strings, and a cursor that reads them from the front. */
module Parsing {
  import opened Wrappers
  import opened Words

  type Bytes = seq<Byte>

  // A value and the bytes after it
  datatype Step<+T> = Step(value: T, rest: Bytes)

  function TakeBytes(s: Bytes, count: nat): Option<Step<Bytes>> {
    if count > |s| then None else Some(Step(s[..count], s[count..]))
  }

  // What is left to read, behind the items read so far
  function Continued<T>(read: seq<T>, more: Option<Step<seq<T>>>): Option<Step<seq<T>>> {
    if more.None? then None else Some(Step(read + more.value.value, more.value.rest))
  }

  lemma NothingRead<T>(more: Option<Step<seq<T>>>)
    ensures Continued([], more) == more
  {
    if more.Some? {
      assert [] + more.value.value == more.value.value;
    }
  }

  lemma OneMoreRead<T>(read: seq<T>, item: T, more: Option<Step<seq<T>>>)
    ensures Continued(read, Continued([item], more)) == Continued(read + [item], more)
  {
    if more.Some? {
      assert read + ([item] + more.value.value) == read + [item] + more.value.value;
    }
  }

  class Reader {
    const data: Bytes
    var offset: nat

    ghost predicate Valid()
      reads this
    {
      offset <= |data|
    }

    ghost function Rest(): Bytes
      requires Valid()
      reads this
    {
      data[offset..]
    }

    // What was read is what the layout says comes next.
    ghost predicate Has<T(!new)>(taken: Option<Step<T>>, result: Option<T>)
      reads this
    {
      && Valid()
      && (taken.Some? <==> result.Some?)
      && (taken.Some? ==> result.value == taken.value.value && Rest() == taken.value.rest)
    }

    constructor (data: Bytes)
      ensures Valid() && Rest() == data && this.data == data
    {
      this.data := data;
      offset := 0;
    }

    method ReadBytes(count: nat) returns (result: Option<Bytes>)
      requires Valid()
      modifies this
      ensures Has(TakeBytes(old(Rest()), count), result)
    {
      if count > |data| - offset {
        return None;
      }
      ghost var s := Rest();
      result := Some(data[offset..offset + count]);
      offset := offset + count;
      assert result.value == s[..count] && Rest() == s[count..];
    }
  }
}
