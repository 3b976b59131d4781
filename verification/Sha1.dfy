/** hashSha1: the block loop, the tail, the length word and the bytes of the digest. */
module Sha1 {
  import opened Words
  import opened BigEndian
  import opened Sha1Spec
  import opened Sha1Loop
  import opened Sha1Padding
  import opened Sha1Rounds

  function Weight(k: nat): (p: nat)
    requires k < 4
    ensures p == Pow2((3 - k) * 8)
  {
    Pow2Values();
    assert Pow2(0) == 1;
    match k
    case 0 => 0x100_0000
    case 1 => 0x1_0000
    case 2 => 0x100
    case _ => 1
  }

  // Or-ing a byte into place k of a word, counted from the top: the places so far are the digits of h.
  method OrByte(w: Word, b: Byte, k: nat, ghost h: nat) returns (word: Word)
    requires k < 4 && w == h * (0x100 * Weight(k))
    ensures word == w + b * Weight(k)
  {
    ghost var p := Weight(k);
    assert 0x100 * p == Pow2((4 - k) * 8) by { Pow2Values(); }
    ShiftedByte(b);
    OrBelow(h, (4 - k) * 8, 0x100 * p, b * p);
    word := WordOr(w, Shl(b, (3 - k) * 8));
  }

  method ReadWord(buf: seq<Byte>, block: nat) returns (w: Word)
    requires block + 4 <= |buf|
    ensures w == WordAt(buf, block)
  {
    w := LoadWord(buf[block], buf[block + 1], buf[block + 2], buf[block + 3]);
    LoadWordMatches(buf[block], buf[block + 1], buf[block + 2], buf[block + 3]);
    FourBytes(buf[block..block + 4]);
  }

  // The inner loop. If the end of the block has wrapped to zero it loads nothing.
  method LoadBlock(buf: seq<Byte>, start: Word, end: Word, temp: array<Word>) returns (block: Word)
    requires end == Plus(start, 64) && end <= |buf| && temp.Length == 80
    modifies temp
    ensures block == Turned(start)
    ensures temp[..16] == if start < end then WordsAt(buf, start) else old(temp[..16])
  {
    var i := 0;
    block := start;
    PlusWraps(start, 64);
    while block < end
      invariant i <= 16 && block == start + 4 * i && (start < end || i == 0)
      invariant forall j :: 0 <= j < i ==> temp[j] == WordAt(buf, start + 4 * j)
      invariant i == 0 ==> temp[..16] == old(temp[..16])
    {
      temp[i] := ReadWord(buf, block);
      i := i + 1;
      PlusWraps(block, 4);
      block := Plus(block, 4);
    }
  }

  method ClearBlock(temp: array<Word>)
    requires temp.Length == 80
    modifies temp
    ensures forall j :: 0 <= j < 16 ==> temp[j] == 0
  {
    forall j | 0 <= j < 16 {
      temp[j] := 0;
    }
  }

  // One byte more in a block that is zero from there on.
  lemma PlaceInBlock(t: seq<Byte>, j: nat, k: nat, b: Byte)
    requires |t| == 64 && j < 16 && k < 4 && (forall i :: 4 * j + k <= i < 64 ==> t[i] == 0)
    ensures WordAt(t[4 * j + k := b], 4 * j) == WordAt(t, 4 * j) + b * Weight(k)
    ensures WordAt(t, 4 * j) == Placed(t, j, k) * (0x100 * Weight(k))
  {
    hide Value;
    var (p, q) := (t[4 * j..4 * j + 4], t[4 * j + k := b][4 * j..4 * j + 4]);
    FourBytes(p);
    FourBytes(q);
    assert forall i :: 0 <= i < 4 ==> q[i] == if i == k then b else p[i];
    assert forall i :: k <= i < 4 ==> p[i] == 0;
  }

  function Placed(t: seq<Byte>, j: nat, k: nat): nat
    requires |t| == 64 && j < 16 && k < 4
  {
    match k
    case 0 => 0
    case 1 => t[4 * j]
    case 2 => t[4 * j] as nat * 0x100 + t[4 * j + 1]
    case _ => t[4 * j] as nat * 0x1_0000 + t[4 * j + 1] as nat * 0x100 + t[4 * j + 2]
  }

  lemma OtherWords(t: seq<Byte>, at: nat, b: Byte, words: seq<Word>, word: Word)
    requires |t| == 64 && at < 64 && words == WordsAt(t, 0) && word == WordAt(t[at := b], 4 * (at / 4))
    ensures words[at / 4 := word] == WordsAt(t[at := b], 0)
  {
    forall i | 0 <= i < 16 && i != at / 4
      ensures WordAt(t[at := b], 4 * i) == WordAt(t, 4 * i)
    {
      assert t[at := b][4 * i..4 * i + 4] == t[4 * i..4 * i + 4];
    }
  }

  method StoreTailByte(temp: array<Word>, last: nat, b: Byte, ghost t: seq<Byte>)
    requires temp.Length == 80 && |t| == 64 && last < 64 && (forall i :: last <= i < 64 ==> t[i] == 0)
    requires temp[..16] == WordsAt(t, 0)
    modifies temp
    ensures temp[..16] == WordsAt(t[last := b], 0)
  {
    ghost var words := temp[..16];
    var j, k := last / 4, last % 4;
    assert last == 4 * j + k;
    PlaceInBlock(t, j, k, b);
    assert temp[j] == words[j] == WordAt(t, 4 * j);
    var word := OrByte(temp[j], b, k, Placed(t, j, k));
    OtherWords(t, last, b, words, word);
    temp[j] := word;
    assert temp[..16] == words[j := word];
  }

  function Tail(rest: seq<Byte>, last: nat): (t: seq<Byte>)
    requires last <= |rest| < 64
    ensures |t| == 64 && forall i :: last <= i < 64 ==> t[i] == 0
  {
    rest[..last] + Zeros(64 - last)
  }

  lemma TailGrows(rest: seq<Byte>, last: nat)
    requires last <= |rest| < 64
    ensures last < |rest| ==> Tail(rest, last)[last := rest[last]] == Tail(rest, last + 1)
    ensures last == |rest| ==> Tail(rest, last)[last := 0x80] == Marked(rest)
  {
  }

  lemma ZeroWords(words: seq<Word>, rest: seq<Byte>)
    requires |rest| < 64 && |words| == 16 && forall j :: 0 <= j < 16 ==> words[j] == 0
    ensures words == WordsAt(Tail(rest, 0), 0)
  {
    forall j | 0 <= j < 16
      ensures WordAt(Tail(rest, 0), 4 * j) == 0
    {
      ZeroWord(Tail(rest, 0), 4 * j);
    }
  }

  // The bytes left over after the full blocks, then the one bit, then zeros.
  method LoadTail(buf: seq<Byte>, block: nat, temp: array<Word>)
    requires block <= |buf| < block + 64 && temp.Length == 80
    modifies temp
    ensures temp[..16] == WordsAt(Marked(buf[block..]), 0)
  {
    var end := |buf| - block;
    ghost var rest := buf[block..];
    ClearBlock(temp);
    ZeroWords(temp[..16], rest);
    var last := 0;
    while last < end
      invariant last <= end && temp[..16] == WordsAt(Tail(rest, last), 0)
    {
      TailGrows(rest, last);
      StoreTailByte(temp, last, buf[last + block], Tail(rest, last));
      last := last + 1;
    }
    TailGrows(rest, last);
    StoreTailByte(temp, last, 0x80, Tail(rest, last));
  }

  function LengthWord(len: Word): (w: Word)
    ensures w == 8 * len % 0x1_0000_0000
  {
    assert Pow2(3) == 8;
    Shl(len, 3)
  }

  // Block n of the padded message p into the running hash.
  method HashBlock(sha: array<Word>, temp: array<Word>, ghost p: seq<Byte>, ghost n: nat)
    requires sha.Length == 5 && temp.Length == 80 && sha != temp
    requires 64 * n + 64 <= |p| && temp[..16] == Block(p, n) && AsState(sha[..]) == HashBlocks(p, n)
    modifies sha, temp
    ensures AsState(sha[..]) == HashBlocks(p, n + 1)
  {
    PartHash(sha, temp);
  }

  method HashLast(len: Word, sha: array<Word>, temp: array<Word>, ghost p: seq<Byte>, ghost n: nat)
    requires sha.Length == 5 && temp.Length == 80 && sha != temp
    requires |p| == 64 * n + 64 && Block(p, n) == temp[..16][15 := LengthWord(len)]
    requires AsState(sha[..]) == HashBlocks(p, n)
    modifies sha, temp
    ensures AsState(sha[..]) == HashBlocks(p, n + 1)
  {
    ghost var words := temp[..16];
    temp[15] := LengthWord(len);
    assert temp[..16] == words[15 := LengthWord(len)];
    HashBlock(sha, temp, p, n);
  }

  // The tail leaves no room for the length: hash it and start the extra block.
  method HashFullTail(sha: array<Word>, temp: array<Word>, ghost p: seq<Byte>, ghost n: nat, ghost zeros: seq<Word>)
    requires sha.Length == 5 && temp.Length == 80 && sha != temp
    requires |zeros| == 16 && forall j :: 0 <= j < 16 ==> zeros[j] == 0
    requires 64 * n + 64 <= |p| && temp[..16] == Block(p, n) && AsState(sha[..]) == HashBlocks(p, n)
    modifies sha, temp
    ensures AsState(sha[..]) == HashBlocks(p, n + 1) && temp[..16] == zeros
  {
    HashBlock(sha, temp, p, n);
    ClearBlock(temp);
    assert temp[..16] == zeros;
  }

  method HashLongTail(len: Word, sha: array<Word>, temp: array<Word>, ghost p: seq<Byte>, ghost q: nat,
                      ghost zeros: seq<Word>)
    requires sha.Length == 5 && temp.Length == 80 && sha != temp
    requires |zeros| == 16 && forall j :: 0 <= j < 16 ==> zeros[j] == 0
    requires |p| == 64 * q + 128 && Block(p, q) == temp[..16] && Block(p, q + 1) == zeros[15 := LengthWord(len)]
    requires AsState(sha[..]) == HashBlocks(p, q)
    modifies sha, temp
    ensures AsState(sha[..]) == HashBlocks(p, q + 2)
  {
    HashFullTail(sha, temp, p, q, zeros);
    HashLast(len, sha, temp, p, q + 1);
  }

  // The blocks after the q full ones: the tail, of `end` bytes, is in the buffer.
  method HashTail(len: Word, end: nat, sha: array<Word>, temp: array<Word>,
                  ghost p: seq<Byte>, ghost q: nat, ghost zeros: seq<Word>)
    requires sha.Length == 5 && temp.Length == 80 && sha != temp
    requires |zeros| == 16 && forall j :: 0 <= j < 16 ==> zeros[j] == 0
    requires EndsWith(p, q, temp[..16], end < 56, LengthWord(len), zeros)
    requires AsState(sha[..]) == HashBlocks(p, q)
    modifies sha, temp
    ensures AsState(sha[..]) == HashBlocks(p, if end < 56 then q + 1 else q + 2)
  {
    if end >= 56 {
      HashLongTail(len, sha, temp, p, q, zeros);
    } else {
      HashLast(len, sha, temp, p, q);
    }
  }

  function DigestByte(w: Word, i: nat): Byte {
    StoreByte(w, (3 - i) % 4)
  }

  lemma FourDigits(w: Word)
    ensures Digits(w, 4) == [w / 0x100_0000, w / 0x1_0000 % 0x100, w / 0x100 % 0x100, w % 0x100]
  {
    var (w1, w2, w3) := (w / 0x100, w / 0x1_0000, w / 0x100_0000);
    assert w2 == w1 / 0x100 && w3 == w2 / 0x100;
    assert Digits(w3, 1) == [w3];
    assert Digits(w2, 2) == [w3, w2 % 0x100];
    assert Digits(w1, 3) == [w3, w2 % 0x100, w1 % 0x100];
  }

  lemma DigestBytes(w: Word, i: nat)
    ensures DigestByte(w, i) == Digits(w, 4)[i % 4]
  {
    hide Digits, StoreByte, Shr;
    var k := (3 - i) % 4;
    assert k == 3 - i % 4;
    FourDigits(w);
    ShiftedWord(w);
    if k == 0 {
      assert StoreByte(w, k) == Shr(w, 0) % 0x100;
    } else if k == 1 {
      assert StoreByte(w, k) == Shr(w, 8) % 0x100;
    } else if k == 2 {
      assert StoreByte(w, k) == Shr(w, 16) % 0x100;
    } else {
      assert StoreByte(w, k) == Shr(w, 24) % 0x100;
      TopByte(w);
    }
  }

  lemma TopByte(w: Word)
    ensures w / 0x100_0000 % 0x100 == w / 0x100_0000
  {
  }

  method StoreDigest(sha: array<Word>, dest: array<Byte>)
    requires sha.Length == 5 && 20 <= dest.Length
    modifies dest
    ensures dest[..20] == Output(AsState(sha[..])) && dest[20..] == old(dest[20..])
  {
    var i := 19;
    while i >= 0
      invariant -1 <= i <= 19 && dest[20..] == old(dest[20..])
      invariant forall k :: i < k < 20 ==> dest[k] == DigestByte(sha[k / 4], k)
    {
      dest[i] := DigestByte(sha[i / 4], i);
      i := i - 1;
    }
    OutputBytes(sha[..], dest[..20]);
  }

  lemma OutputBytes(sha: seq<Word>, d: seq<Byte>)
    requires |sha| == 5 && |d| == 20 && forall k :: 0 <= k < 20 ==> d[k] == DigestByte(sha[k / 4], k)
    ensures d == Output(AsState(sha))
  {
    OutputWord(sha, d, 0);
    OutputWord(sha, d, 1);
    OutputWord(sha, d, 2);
    OutputWord(sha, d, 3);
    OutputWord(sha, d, 4);
    assert d == d[0..4] + d[4..8] + d[8..12] + d[12..16] + d[16..20];
  }

  lemma OutputWord(sha: seq<Word>, d: seq<Byte>, j: nat)
    requires |sha| == 5 && |d| == 20 && j < 5 && forall k :: 0 <= k < 20 ==> d[k] == DigestByte(sha[k / 4], k)
    ensures d[4 * j..4 * j + 4] == Digits(sha[j], 4)
  {
    forall n | 0 <= n < 4
      ensures d[4 * j + n] == Digits(sha[j], 4)[n]
    {
      assert (4 * j + n) / 4 == j && (4 * j + n) % 4 == n;
      DigestBytes(sha[j], 4 * j + n);
    }
  }

  // A block loaded from `start` on is hashed as block n of p.
  method HashDataBlock(data: seq<Byte>, start: Word, sha: array<Word>, temp: array<Word>, ghost p: seq<Byte>,
                       ghost n: nat)
      returns (block: Word)
    requires sha.Length == 5 && temp.Length == 80 && sha != temp && Plus(start, 64) == start + 64 <= |data|
    requires 64 * n + 64 <= |p| && Block(p, n) == WordsAt(data, start) && AsState(sha[..]) == HashBlocks(p, n)
    modifies sha, temp
    ensures block == Turned(start) && AsState(sha[..]) == HashBlocks(p, n + 1)
  {
    block := LoadBlock(data, start, Plus(start, 64), temp);
    HashBlock(sha, temp, p, n);
  }

  lemma NothingHashed(p: seq<Byte>)
    ensures HashBlocks(p, 0) == INITIAL
  {
  }

  // The full blocks. The position and the end of the block are 32-bit, and stay behind the turns taken.
  method HashFullBlocks(data: seq<Byte>, len: Word, sha: array<Word>, temp: array<Word>, ghost p: seq<Byte>,
                        ghost q: nat)
      returns (block: Word)
    requires 64 * q <= len == |data| < 64 * q + 64 && len < 0xFFFF_FFC0 && StartsWith(p, data, q)
    requires sha.Length == 5 && temp.Length == 80 && sha != temp && AsState(sha[..]) == INITIAL
    modifies sha, temp
    ensures block == At(q) == 64 * q && !GoesOn(len, q) && AsState(sha[..]) == HashBlocks(p, q)
  {
    hide WordsAt, HashBlocks;
    NothingHashed(p);
    block := 0;
    ghost var n := 0;
    while Plus(block, 64) <= len
      invariant block == At(n) == 64 * n && n <= q
      invariant AsState(sha[..]) == HashBlocks(p, n)
      decreases q - n
    {
      PlusWraps(block, 64);
      block := HashDataBlock(data, block, sha, temp, p, n);
      n := n + 1;
    }
    PlusWraps(block, 64);
  }

  method HashRest(data: seq<Byte>, len: Word, block: nat, sha: array<Word>, temp: array<Word>,
                  ghost p: seq<Byte>, ghost q: nat, ghost zeros: seq<Word>)
    requires block == 64 * q <= len == |data| < 64 * q + 64 && sha.Length == 5 && temp.Length == 80 && sha != temp
    requires |zeros| == 16 && forall j :: 0 <= j < 16 ==> zeros[j] == 0
    requires EndsWith(p, q, WordsAt(Marked(data[block..]), 0), len - block < 56, LengthWord(len), zeros)
    requires AsState(sha[..]) == HashBlocks(p, q)
    modifies sha, temp
    ensures AsState(sha[..]) == HashBlocks(p, if len - block < 56 then q + 1 else q + 2)
  {
    LoadTail(data, block, temp);
    HashTail(len, len - block, sha, temp, p, q, zeros);
  }

  method HashAll(data: seq<Byte>, sha: array<Word>, ghost p: seq<Byte>, ghost q: nat, ghost zeros: seq<Word>)
    requires 64 * q <= |data| < 64 * q + 64 && |data| < 0xFFFF_FFC0 && sha.Length == 5 && AsState(sha[..]) == INITIAL
    requires |zeros| == 16 && forall j :: 0 <= j < 16 ==> zeros[j] == 0
    requires StartsWith(p, data, q)
    requires EndsWith(p, q, WordsAt(Marked(data[64 * q..]), 0), |data| - 64 * q < 56, LengthWord(|data|), zeros)
    modifies sha
    ensures AsState(sha[..]) == HashBlocks(p, |p| / 64)
  {
    var len: Word := |data|;
    var temp := new Word[80];
    var block := HashFullBlocks(data, len, sha, temp, p, q);
    HashRest(data, len, block, sha, temp, p, q, zeros);
    assert |p| / 64 == if len - block < 56 then q + 1 else q + 2;
  }

  method HashSha1(data: seq<Byte>, dest: array<Byte>)
    requires |data| < 0x1_0000_0000 && Ends(|data|) && 20 <= dest.Length
    modifies dest
    ensures dest[..20] == ShortDigest(data)
    ensures |data| < 0x2000_0000 ==> dest[..20] == Digest(data)
    ensures dest[20..] == old(dest[20..])
  {
    var sha := new Word[5] [0x67452301, 0xefcdab89, 0x98badcfe, 0x10325476, 0xc3d2e1f0];
    ghost var q, zeros := |data| / 64, seq(16, i => 0);
    EndsIffShort(|data|);
    ShortPadIsPadded(data, q, zeros);
    HashAll(data, sha, ShortPad(data), q, zeros);
    StoreDigest(sha, dest);
    ShortPadIsPad(data);
  }
}
