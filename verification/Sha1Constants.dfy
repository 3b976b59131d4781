/** Where the constants of SHA-1 come from: four roots, and twenty bytes that count up and down. */
module Sha1Constants {
  import opened Words
  import opened Sha1Spec

  // The whole part of 2^30 times the root of n
  predicate IsRoot(k: nat, n: nat) {
    k * k <= n * 0x1000_0000_0000_0000 < (k + 1) * (k + 1)
  }

  lemma ConstantsAreRoots(t: nat)
    requires t < 80
    ensures IsRoot(K(t), if t < 20 then 2 else if t < 40 then 3 else if t < 60 then 5 else 10)
  {
  }

  // The bytes of a word, the lowest one first
  function Bytes(w: Word): seq<nat> {
    [w % 0x100, w / 0x100 % 0x100, w / 0x1_0000 % 0x100, w / 0x100_0000]
  }

  // The hexadecimal digits count up, down, and in turn.
  lemma InitialCounts()
    ensures Bytes(INITIAL.a) + Bytes(INITIAL.b) == seq(8, i requires 0 <= i < 8 => 0x22 * i + 1)
    ensures Bytes(INITIAL.c) + Bytes(INITIAL.d) == seq(8, i requires 0 <= i < 8 => 0xFE - 0x22 * i)
    ensures Bytes(INITIAL.e) == seq(4, i requires 0 <= i < 4 => 0xF0 - 0xF * i)
  {
    assert INITIAL.a / 0x100_0000 == 0x67 && INITIAL.a / 0x1_0000 == 0x6745 && INITIAL.a / 0x100 == 0x67_4523;
    assert INITIAL.b / 0x100_0000 == 0xef && INITIAL.b / 0x1_0000 == 0xefcd && INITIAL.b / 0x100 == 0xef_cdab;
    assert INITIAL.c / 0x100_0000 == 0x98 && INITIAL.c / 0x1_0000 == 0x98ba && INITIAL.c / 0x100 == 0x98_badc;
    assert INITIAL.d / 0x100_0000 == 0x10 && INITIAL.d / 0x1_0000 == 0x1032 && INITIAL.d / 0x100 == 0x10_3254;
    assert INITIAL.e / 0x100_0000 == 0xc3 && INITIAL.e / 0x1_0000 == 0xc3d2 && INITIAL.e / 0x100 == 0xc3_d2e1;
  }
}
