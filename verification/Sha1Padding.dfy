/** The padded message that hashSha1 feeds to the compression, against the padding of the standard. */
module Sha1Padding {
  import opened Words
  import opened BigEndian
  import opened Sha1Spec

  // The padding that the code feeds to the compression: its length word has 32 bits, not 64.
  function LastWord(message: seq<Byte>): Word {
    8 * |message| % 0x1_0000_0000
  }

  function ShortPad(message: seq<Byte>): (p: seq<Byte>)
    ensures |p| % 64 == 0
  {
    PadWith(message, Digits(LastWord(message), 8))
  }

  // The hash that the code computes, whatever the length.
  function ShortDigest(message: seq<Byte>): (d: seq<Byte>)
    ensures |d| == 20
  {
    var padded := ShortPad(message);
    Output(HashBlocks(padded, |padded| / 64))
  }

  // For every length the 32-bit parameter can hold, the code pads as the standard exactly below 2^29 bytes.
  lemma ShortPadIsPad(message: seq<Byte>)
    requires |message| < 0x1_0000_0000
    ensures ShortPad(message) == Pad(message) <==> |message| < 0x2000_0000
  {
    var bits := 8 * |message|;
    FieldTruncated(bits, LastWord(message), 8);
    PadWithInjective(message, Digits(bits, 8), Digits(LastWord(message), 8));
  }

  lemma FieldTruncated(bits: nat, word: nat, count: nat)
    requires count == 8 && bits < 0x1_0000_0000_0000_0000 && word == bits % 0x1_0000_0000
    ensures Digits(bits, count) == Digits(word, count) <==> bits < 0x1_0000_0000
  {
    assert Pow256(8) == 0x1_0000_0000_0000_0000;
    DigitsInjective(bits, word, count);
  }

  lemma PadWithInjective(message: seq<Byte>, f: seq<Byte>, g: seq<Byte>)
    requires |f| == |g| == 8
    ensures PadWith(message, f) == PadWith(message, g) <==> f == g
  {
    var n := |message| + 1 + ZeroCount(|message|);
    assert PadWith(message, f)[n..] == f;
    assert PadWith(message, g)[n..] == g;
  }

  // Words are decided by the bytes they cover.
  lemma SliceWord(x: seq<Byte>, i: nat, n: nat, at: nat)
    requires i + n <= |x| && at + 4 <= n
    ensures WordAt(x, i + at) == WordAt(x[i..i + n], at)
  {
    var (p, q) := (x[i + at..i + at + 4], x[i..i + n][at..at + 4]);
    forall k | 0 <= k < 4
      ensures p[k] == q[k]
    {
      assert p[k] == x[i + at + k];
      assert q[k] == x[i..i + n][at + k];
    }
    assert p == q;
  }

  lemma SliceWords(x: seq<Byte>, i: nat)
    requires i + 64 <= |x|
    ensures WordsAt(x, i) == WordsAt(x[i..i + 64], 0)
  {
    forall j | 0 <= j < 16
      ensures WordAt(x, i + 4 * j) == WordAt(x[i..i + 64], 4 * j)
    {
      SliceWord(x, i, 64, 4 * j);
    }
  }

  function Marked(rest: seq<Byte>): (t: seq<Byte>)
    requires |rest| < 64
    ensures |t| == 64
  {
    rest + [0x80] + Zeros(63 - |rest|)
  }

  // The field's upper word is zero, because the code's length has 32 bits.
  lemma FieldWords(f: seq<Byte>, w: Word)
    requires f == Digits(w, 8)
    ensures WordAt(f, 0) == 0 && WordAt(f, 4) == w
  {
    assert Pow256(4) == 0x1_0000_0000;
    ValueOfDigits(w, 4);
    LeadingZeros(w, 4, 4);
    ValueOfDigits(0, 4);
    assert f[0..4] == Digits(0, 4) && f[4..8] == Digits(w, 4);
  }

  lemma {:induction false} LeadingZeros(v: nat, n: nat, count: nat)
    requires v < Pow256(count)
    ensures Digits(v, n + count) == Digits(0, n) + Digits(v, count)
  {
    if count > 0 {
      LeadingZeros(v / 0x100, n, count - 1);
    }
  }

  // A block that ends with the length field agrees with its marked part but for the last word.
  lemma FieldBlock(x: seq<Byte>, t: seq<Byte>, w: Word)
    requires |x| == |t| == 64 && x[..56] == t[..56] && x[56..] == Digits(w, 8)
    requires forall i :: 56 <= i < 64 ==> t[i] == 0
    ensures WordsAt(x, 0) == WordsAt(t, 0)[15 := w]
  {
    assert x[0..56] == t[0..56] && x[56..64] == Digits(w, 8);
    FieldWords(x[56..64], w);
    SliceWord(x, 56, 8, 0);
    SliceWord(x, 56, 8, 4);
    ZeroWord(t, 56);
    forall j | 0 <= j < 14
      ensures WordAt(x, 4 * j) == WordAt(t, 4 * j)
    {
      SliceWord(x, 0, 56, 4 * j);
      SliceWord(t, 0, 56, 4 * j);
    }
  }

  lemma ZeroWord(t: seq<Byte>, at: nat)
    requires at + 4 <= |t| && forall i :: at <= i < at + 4 ==> t[i] == 0
    ensures WordAt(t, at) == 0
  {
    FourBytes(t[at..at + 4]);
  }

  lemma TailLength(length: nat, q: nat, r: nat)
    requires length == 64 * q + r && r < 64
    ensures length + 1 + ZeroCount(length) + 8 == if r < 56 then 64 * q + 64 else 64 * q + 128
  {
    assert length % 64 == r;
  }

  // The blocks of a padded message p: q full blocks of the message, then the marked rest, whose last eight bytes
  // hold the length while they are still free; when they are not, a block of zeros that ends with the length.
  ghost predicate StartsWith(p: seq<Byte>, message: seq<Byte>, q: nat)
    requires 64 * q <= |message|
  {
    64 * q <= |p| && forall i :: 0 <= i < q ==> Block(p, i) == WordsAt(message, 64 * i)
  }

  ghost predicate EndsWith(p: seq<Byte>, q: nat, marked: seq<Word>, room: bool, length: Word, zeros: seq<Word>)
    requires |marked| == |zeros| == 16
  {
    if room then
      |p| == 64 * q + 64 && Block(p, q) == marked[15 := length]
    else
      |p| == 64 * q + 128 && Block(p, q) == marked && Block(p, q + 1) == zeros[15 := length]
  }

  lemma ShortPadIsPadded(message: seq<Byte>, q: nat, zeros: seq<Word>)
    requires |zeros| == 16 && 64 * q <= |message| < 64 * q + 64 && forall j :: 0 <= j < 16 ==> zeros[j] == 0
    ensures StartsWith(ShortPad(message), message, q)
    ensures EndsWith(ShortPad(message), q, WordsAt(Marked(message[64 * q..]), 0), |message| - 64 * q < 56,
                     LastWord(message), zeros)
  {
    var p := ShortPad(message);
    var rest := message[64 * q..];
    TailLength(|message|, q, |rest|);
    forall i | 0 <= i < q
      ensures 64 * i + 64 <= |p| && Block(p, i) == WordsAt(message, 64 * i)
    {
      assert p[64 * i..64 * i + 64] == message[64 * i..64 * i + 64];
      SliceWords(p, 64 * i);
      SliceWords(message, 64 * i);
    }
    SliceWords(p, 64 * q);
    if |rest| < 56 {
      ShortEnd(message, q, rest);
    } else {
      SliceWords(p, 64 * (q + 1));
      LongEnd(message, q, rest, zeros);
    }
  }

  lemma ShortEnd(message: seq<Byte>, q: nat, rest: seq<Byte>)
    requires 64 * q <= |message| && rest == message[64 * q..] && |rest| < 56
    requires |ShortPad(message)| == 64 * q + 64
    ensures WordsAt(ShortPad(message)[64 * q..64 * q + 64], 0) == WordsAt(Marked(rest), 0)[15 := LastWord(message)]
  {
    var x := ShortPad(message)[64 * q..64 * q + 64];
    assert x[..56] == Marked(rest)[..56];
    assert x[56..] == Digits(LastWord(message), 8);
    FieldBlock(x, Marked(rest), LastWord(message));
  }

  lemma LongEnd(message: seq<Byte>, q: nat, rest: seq<Byte>, zeros: seq<Word>)
    requires 64 * q <= |message| && rest == message[64 * q..] && 56 <= |rest| < 64
    requires |zeros| == 16 && forall j :: 0 <= j < 16 ==> zeros[j] == 0
    requires |ShortPad(message)| == 64 * q + 128
    ensures WordsAt(ShortPad(message)[64 * q..64 * q + 64], 0) == WordsAt(Marked(rest), 0)
    ensures WordsAt(ShortPad(message)[64 * q + 64..64 * q + 128], 0) == zeros[15 := LastWord(message)]
  {
    var p := ShortPad(message);
    var (x, y, t) := (p[64 * q..64 * q + 64], p[64 * q + 64..64 * q + 128], Zeros(64));
    assert x == Marked(rest);
    assert y[..56] == t[..56];
    assert y[56..] == Digits(LastWord(message), 8);
    FieldBlock(y, t, LastWord(message));
    forall j | 0 <= j < 16
      ensures WordAt(t, 4 * j) == zeros[j]
    {
      ZeroWord(t, 4 * j);
    }
    assert WordsAt(t, 0) == zeros;
  }
}
