/** SHA-1 as FIPS 180-4 defines it: functions (section 4.1.1), constants (4.2.1), padding (5.1.1),
    parsing (5.2.1), initial value (5.3.1) and computation (6.1.2). */
module Sha1Spec {
  import opened Words
  import opened BigEndian

  datatype State = State(a: Word, b: Word, c: Word, d: Word, e: Word)

  // Section 2.2.2: rotation to the left
  function RotL(n: nat, x: Word): Word
    requires n < 32
  {
    WordOr(Shl(x, n), Shr(x, 32 - n))
  }

  // Section 4.1.1
  function Ch(x: Word, y: Word, z: Word): Word {
    WordXor(WordAnd(x, y), WordAnd(Not(x), z))
  }

  function Parity(x: Word, y: Word, z: Word): Word {
    WordXor(WordXor(x, y), z)
  }

  function Maj(x: Word, y: Word, z: Word): Word {
    WordXor(WordXor(WordAnd(x, y), WordAnd(x, z)), WordAnd(y, z))
  }

  function F(t: nat, x: Word, y: Word, z: Word): Word {
    if t < 20 then Ch(x, y, z) else if t < 40 then Parity(x, y, z) else if t < 60 then Maj(x, y, z) else Parity(x, y, z)
  }

  // Section 4.2.1
  function K(t: nat): Word {
    if t < 20 then 0x5a827999 else if t < 40 then 0x6ed9eba1 else if t < 60 then 0x8f1bbcdc else 0xca62c1d6
  }

  // Section 5.3.1
  const INITIAL := State(0x67452301, 0xefcdab89, 0x98badcfe, 0x10325476, 0xc3d2e1f0)

  // Section 6.1.2, step 1: the message schedule
  function W(block: seq<Word>, t: nat): Word
    requires |block| == 16
  {
    if t < 16 then block[t]
    else RotL(1, WordXor(WordXor(WordXor(W(block, t - 3), W(block, t - 8)), W(block, t - 14)), W(block, t - 16)))
  }

  // The first n words of the schedule
  function Schedule(block: seq<Word>, n: nat): (w: seq<Word>)
    requires |block| == 16
    ensures |w| == n
  {
    seq(n, t requires 0 <= t < n => W(block, t))
  }

  // Section 6.1.2, step 3: round t, and one round for each word of a schedule
  function Round(t: nat, s: State, w: Word): State {
    State(Plus(Plus(Plus(Plus(RotL(5, s.a), F(t, s.b, s.c, s.d)), s.e), K(t)), w), s.a, RotL(30, s.b), s.c, s.d)
  }

  function Rounds(h: State, schedule: seq<Word>): State {
    var n := |schedule|;
    if n == 0 then h else Round(n - 1, Rounds(h, schedule[..n - 1]), schedule[n - 1])
  }

  // Section 6.1.2, step 4: the next intermediate hash value
  function Compress(h: State, block: seq<Word>): State
    requires |block| == 16
  {
    var s := Rounds(h, Schedule(block, 80));
    State(Plus(h.a, s.a), Plus(h.b, s.b), Plus(h.c, s.c), Plus(h.d, s.d), Plus(h.e, s.e))
  }

  // Section 5.1.1: a one bit, the fewest zero bits, and the length in bits as a 64-bit number
  function ZeroCount(length: nat): (k: nat)
    ensures k < 64 && (length + 1 + k) % 64 == 56 && (length + 1 + k + 8) % 64 == 0
  {
    if length % 64 < 56 then 55 - length % 64 else 119 - length % 64
  }

  function Zeros(n: nat): (s: seq<Byte>)
    ensures |s| == n && forall i :: 0 <= i < n ==> s[i] == 0
  {
    seq(n, i => 0)
  }

  function PadWith(message: seq<Byte>, field: seq<Byte>): (p: seq<Byte>)
    requires |field| == 8
    ensures |p| == |message| + 1 + ZeroCount(|message|) + 8 && |p| % 64 == 0
  {
    message + [0x80] + Zeros(ZeroCount(|message|)) + field
  }

  function Pad(message: seq<Byte>): (p: seq<Byte>)
    ensures |p| % 64 == 0
  {
    PadWith(message, Digits(8 * |message|, 8))
  }

  // Section 5.2.1: block i of a padded message, as sixteen words
  function Block(padded: seq<Byte>, i: nat): (b: seq<Word>)
    requires 64 * i + 64 <= |padded|
    ensures |b| == 16
  {
    WordsAt(padded, 64 * i)
  }

  function WordsAt(bytes: seq<Byte>, at: nat): (b: seq<Word>)
    requires at + 64 <= |bytes|
    ensures |b| == 16
  {
    seq(16, j requires 0 <= j < 16 => WordAt(bytes, at + 4 * j))
  }

  function WordAt(bytes: seq<Byte>, at: nat): Word
    requires at + 4 <= |bytes|
  {
    FourBytes(bytes[at..at + 4]);
    Value(bytes[at..at + 4])
  }

  function HashBlocks(padded: seq<Byte>, n: nat): State
    requires 64 * n <= |padded|
  {
    if n == 0 then INITIAL else Compress(HashBlocks(padded, n - 1), Block(padded, n - 1))
  }

  function Output(s: State): (d: seq<Byte>)
    ensures |d| == 20
  {
    Digits(s.a, 4) + Digits(s.b, 4) + Digits(s.c, 4) + Digits(s.d, 4) + Digits(s.e, 4)
  }

  function Digest(message: seq<Byte>): (d: seq<Byte>)
    ensures |d| == 20
  {
    var padded := Pad(message);
    Output(HashBlocks(padded, |padded| / 64))
  }
}
