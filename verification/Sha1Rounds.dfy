/** sha1PartHash: one block into the running hash, with the message schedule written over the block's buffer. */
module Sha1Rounds {
  import opened Words
  import opened Sha1Spec

  function Shift(v: Word, shift: nat): Word
    requires shift < 32
  {
    WordOr(Shl(v, shift), Shr(v, 32 - shift))
  }

  function AsState(s: seq<Word>): State
    requires |s| == 5
  {
    State(s[0], s[1], s[2], s[3], s[4])
  }

  // The mixing expressions of the code, with `|` where the standard has exclusive or.
  function Choose(b: Word, c: Word, d: Word): Word {
    WordOr(WordAnd(b, c), WordAnd(Not(b), d))
  }

  function Majority(b: Word, c: Word, d: Word): Word {
    WordOr(WordOr(WordAnd(b, c), WordAnd(b, d)), WordAnd(c, d))
  }

  lemma MixingMatches(b: Word, c: Word, d: Word)
    ensures Choose(b, c, d) == Ch(b, c, d)
    ensures Majority(b, c, d) == Maj(b, c, d)
  {
    Pow2Values();
    ChoiceIsDisjoint(b, Not(b), c, d, 32);
    DisjointOrIsXor(And(b, c), And(Not(b), d));
    MajorityOrIsXor(b, c, d);
  }

  // The first `round` words of the buffer are the standard message schedule of its first sixteen words.
  ghost predicate Scheduled(temp: seq<Word>, block: seq<Word>, round: nat)
    requires |block| == 16
  {
    && |temp| == 80
    && round <= 80
    && temp[..16] == block
    && forall i :: 0 <= i < round ==> temp[i] == W(block, i)
  }

  // The code's round macro: the new values of a, b, c, d and e.
  method ShiftSwap(ghost h: State, ghost block: seq<Word>, ghost round: nat, s: State, f: Word, v: Word, w: Word)
      returns (next: State)
    requires |block| == 16 && s == Rounds(h, Schedule(block, round)) && w == W(block, round)
    requires f == F(round, s.b, s.c, s.d) && v == K(round)
    ensures next == Rounds(h, Schedule(block, round + 1))
  {
    var a, b, c, d, e := s.a, s.b, s.c, s.d, s.e;
    var t := Plus(Plus(Plus(Plus(Shift(a, 5), f), e), v), w);
    e := d;
    d := c;
    c := Shift(b, 30);
    b := a;
    a := t;
    next := State(a, b, c, d, e);
    assert Schedule(block, round + 1)[..round] == Schedule(block, round);
  }

  // The recurrence of the schedule, as the code computes it
  lemma NextScheduled(temp: seq<Word>, block: seq<Word>, round: nat)
    requires |block| == 16 && 16 <= round < 80 && Scheduled(temp, block, round)
    ensures W(block, round)
            == Shift(WordXor(WordXor(WordXor(temp[round - 3], temp[round - 8]), temp[round - 14]), temp[round - 16]), 1)
  {
    hide WordXor, Shl, Shr, WordOr;
  }

  lemma OneMoreScheduled(temp: seq<Word>, block: seq<Word>, round: nat)
    requires |block| == 16 && 16 <= round < 80 && Scheduled(temp, block, round)
    ensures Scheduled(temp[round := W(block, round)], block, round + 1)
  {
    hide W;
    assert temp[round := W(block, round)][..16] == temp[..16];
  }

  // The code's second macro writes one more word of the schedule in place.
  method ExtendSchedule(temp: array<Word>, round: nat, ghost block: seq<Word>)
    requires |block| == 16 && 16 <= round < 80 && Scheduled(temp[..], block, round)
    modifies temp
    ensures Scheduled(temp[..], block, round + 1)
  {
    hide W, Shift, WordXor;
    NextScheduled(temp[..], block, round);
    OneMoreScheduled(temp[..], block, round);
    temp[round] := Shift(
      WordXor(WordXor(WordXor(temp[round - 3], temp[round - 8]), temp[round - 14]), temp[round - 16]), 1);
    assert temp[..] == old(temp[..])[round := W(block, round)];
  }

  method ShiftShiftSwap(ghost h: State, ghost block: seq<Word>, temp: array<Word>, round: nat, s: State, f: Word,
                        v: Word)
      returns (next: State)
    requires |block| == 16 && 16 <= round < 80 && Scheduled(temp[..], block, round)
             && s == Rounds(h, Schedule(block, round))
    requires f == F(round, s.b, s.c, s.d) && v == K(round)
    modifies temp
    ensures Scheduled(temp[..], block, round + 1)
    ensures next == Rounds(h, Schedule(block, round + 1))
  {
    ExtendSchedule(temp, round, block);
    next := ShiftSwap(h, block, round, s, f, v, temp[round]);
  }

  // The five loops over one block.
  method AllRounds(temp: array<Word>, h: State) returns (s: State)
    requires temp.Length == 80
    modifies temp
    ensures s == Rounds(h, Schedule(old(temp[..16]), 80))
  {
    ghost var block := temp[..16];
    var round := 0;
    s := h;
    while round < 16
      invariant round <= 16 && s == Rounds(h, Schedule(block, round)) && Scheduled(temp[..], block, round)
    {
      MixingMatches(s.b, s.c, s.d);
      s := ShiftSwap(h, block, round, s, Choose(s.b, s.c, s.d), 0x5a827999, temp[round]);
      round := round + 1;
    }
    while round < 20
      invariant 16 <= round <= 20 && s == Rounds(h, Schedule(block, round)) && Scheduled(temp[..], block, round)
    {
      MixingMatches(s.b, s.c, s.d);
      s := ShiftShiftSwap(h, block, temp, round, s, Choose(s.b, s.c, s.d), 0x5a827999);
      round := round + 1;
    }
    while round < 40
      invariant 20 <= round <= 40 && s == Rounds(h, Schedule(block, round)) && Scheduled(temp[..], block, round)
    {
      s := ShiftShiftSwap(h, block, temp, round, s, WordXor(WordXor(s.b, s.c), s.d), 0x6ed9eba1);
      round := round + 1;
    }
    while round < 60
      invariant 40 <= round <= 60 && s == Rounds(h, Schedule(block, round)) && Scheduled(temp[..], block, round)
    {
      MixingMatches(s.b, s.c, s.d);
      s := ShiftShiftSwap(h, block, temp, round, s, Majority(s.b, s.c, s.d), 0x8f1bbcdc);
      round := round + 1;
    }
    while round < 80
      invariant 60 <= round <= 80 && s == Rounds(h, Schedule(block, round)) && Scheduled(temp[..], block, round)
    {
      s := ShiftShiftSwap(h, block, temp, round, s, WordXor(WordXor(s.b, s.c), s.d), 0xca62c1d6);
      round := round + 1;
    }
  }

  method PartHash(sha: array<Word>, temp: array<Word>)
    requires sha.Length == 5 && temp.Length == 80 && sha != temp
    modifies sha, temp
    ensures AsState(sha[..]) == Compress(AsState(old(sha[..])), old(temp[..16]))
  {
    var s := AllRounds(temp, State(sha[0], sha[1], sha[2], sha[3], sha[4]));
    sha[0] := Plus(sha[0], s.a);
    sha[1] := Plus(sha[1], s.b);
    sha[2] := Plus(sha[2], s.c);
    sha[3] := Plus(sha[3], s.d);
    sha[4] := Plus(sha[4], s.e);
  }
}
