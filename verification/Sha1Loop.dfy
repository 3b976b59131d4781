/** The 32-bit position of hashSha1's block loop: where each turn leaves it, and for which lengths the loop ends. */
module Sha1Loop {
  import opened Words

  // A few bytes more, on 32 bits
  lemma PlusWraps(block: Word, more: nat)
    requires more < 0x1_0000_0000
    ensures Plus(block, more) == if block + more < 0x1_0000_0000 then block + more else block + more - 0x1_0000_0000
  {
  }

  // The inner loop takes four bytes at a time, up to the end of the block.
  function Walked(block: Word, end: Word, ghost turns: nat): (b: Word)
    requires block < end ==> end == block + 4 * turns
    ensures b == if block < end then end else block
    decreases turns
  {
    hide Plus;
    PlusWraps(block, 4);
    if block < end then Walked(Plus(block, 4), end, turns - 1) else block
  }

  // One turn of the outer loop; its end is computed in 32 bits too, and is no end once it has wrapped.
  function Turned(block: Word): (b: Word)
    ensures b == if block < 0xFFFF_FFC0 then block + 64 else block
  {
    hide Plus, Walked;
    PlusWraps(block, 64);
    Walked(block, Plus(block, 64), 16)
  }

  // The position after n turns
  function At(n: nat): Word {
    if n == 0 then 0 else Turned(At(n - 1))
  }

  // The condition for one more turn after n of them
  predicate GoesOn(len: Word, n: nat) {
    Plus(At(n), 64) <= len
  }

  ghost predicate Ends(len: Word) {
    exists n: nat :: !GoesOn(len, n)
  }

  const LAST_TURN: nat := 0x3FF_FFFF

  // Each turn takes 64 bytes, until the position can go no further.
  lemma {:induction false} AtIs(n: nat)
    ensures At(n) == if n <= LAST_TURN then 64 * n else 0xFFFF_FFC0
  {
    hide Turned;
    if n > 0 {
      AtIs(n - 1);
    }
  }

  lemma GoesOnIff(len: Word, n: nat)
    ensures GoesOn(len, n) <==> n >= LAST_TURN || 64 * n + 64 <= len
  {
    hide At, Plus;
    AtIs(n);
    PlusWraps(At(n), 64);
  }

  // The loop ends exactly for lengths below 2^32 - 64: from there on its end wraps to zero, and it goes on for ever.
  lemma EndsIffShort(len: Word)
    ensures Ends(len) <==> len < 0xFFFF_FFC0
  {
    hide GoesOn, At;
    forall n: nat | len >= 0xFFFF_FFC0
      ensures GoesOn(len, n)
    {
      GoesOnIff(len, n);
    }
    if len < 0xFFFF_FFC0 {
      GoesOnIff(len, len / 64);
    }
  }

  // For such a length it ends after as many turns as there are full blocks, behind the last of them.
  lemma EndsAfterFullBlocks(len: Word, q: nat)
    requires 64 * q <= len < 64 * q + 64 && len < 0xFFFF_FFC0
    ensures At(q) == 64 * q && !GoesOn(len, q) && (forall n: nat :: n < q ==> GoesOn(len, n))
  {
    hide GoesOn, At;
    AtIs(q);
    GoesOnIff(len, q);
    forall n: nat | n < q
      ensures GoesOn(len, n)
    {
      GoesOnIff(len, n);
    }
  }
}
