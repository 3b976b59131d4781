/** The 64-bit list hash that the client and the server compare instead of whole lists. */
module ListHash {
  import opened Words
  import opened XorAlgebra

  const MODULUS: nat := 0x1_0000_0000_0000_0000

  type Word64 = x: nat | x < MODULUS

  // The xor-shift steps of HashUpdate, and the steps that undo them.
  function Mix(x: nat): nat {
    FoldRight(FoldLeft(FoldRight(x, 21), 35, 64), 4)
  }

  function Unmix(y: nat): nat {
    UnfoldRight(FoldLeft(UnfoldRight(y, 4), 35, 64), 21)
  }

  lemma {:induction false} FoldsFit(x: nat, n: nat, width: nat)
    requires x < Pow2(width)
    ensures FoldRight(x, n) < Pow2(width) && FoldLeft(x, n, width) < Pow2(width)
  {
    XorFits(x, Right(x, n), width);
    XorFits(x, Low(Left(x, n), width), width);
  }

  lemma {:induction false} UnfoldFits(y: nat, n: nat, width: nat)
    requires y < Pow2(width) && n > 0
    ensures UnfoldRight(y, n) < Pow2(width)
  {
    if y != 0 {
      UnfoldFits(Right(y, n), n, width);
      XorFits(y, UnfoldRight(Right(y, n), n), width);
    }
  }

  lemma Pow64()
    ensures Pow2(64) == MODULUS
  {
    Pow2Values();
    assert Pow2(36) == 0x10_0000_0000;
    assert Pow2(48) == 0x1_0000_0000_0000;
    assert Pow2(60) == 0x1000_0000_0000_0000;
  }

  lemma MixIsBijective(x: Word64)
    ensures Mix(x) < MODULUS && Unmix(Mix(x)) == x
    ensures Unmix(x) < MODULUS && Mix(Unmix(x)) == x
  {
    Pow64();
    var a := FoldRight(x, 21);
    FoldsFit(x, 21, 64);
    FoldedLeftTwice(a, 35, 64);
    FoldsFit(a, 35, 64);
    UnfoldedRight(FoldLeft(a, 35, 64), 4);
    UnfoldedRight(x, 21);
    FoldsFit(FoldLeft(a, 35, 64), 4, 64);

    var b := UnfoldRight(x, 4);
    UnfoldFits(x, 4, 64);
    FoldedRight(FoldLeft(b, 35, 64), 21);
    FoldedLeftTwice(b, 35, 64);
    FoldsFit(b, 35, 64);
    FoldedRight(x, 4);
    UnfoldFits(FoldLeft(b, 35, 64), 21, 64);
  }

  // Machine addition and subtraction
  function Sum(x: Word64, y: Word64): Word64 {
    if x + y < MODULUS then x + y else x + y - MODULUS
  }

  function Minus(x: Word64, y: Word64): Word64 {
    if y <= x then x - y else x + MODULUS - y
  }

  lemma SumWraps(x: Word64, y: Word64)
    ensures Sum(x, y) == (x + y) % MODULUS
  {
  }

  // The value of HashUpdate: addition of machine words wraps.
  function Update(already: Word64, value: Word64): Word64 {
    MixIsBijective(already);
    Sum(Mix(already), value)
  }

  // For a fixed value the update is a bijection of the state, undone by Before; for a fixed state it is a bijection
  // of the value, undone by Needed.
  function Before(h: Word64, value: Word64): Word64 {
    MixIsBijective(Minus(h, value));
    Unmix(Minus(h, value))
  }

  function Needed(already: Word64, h: Word64): Word64 {
    MixIsBijective(already);
    Minus(h, Mix(already))
  }

  lemma SumUndone(m: Word64, v: Word64, h: Word64)
    ensures Sum(m, v) == h <==> m == Minus(h, v)
    ensures Sum(m, v) == h <==> v == Minus(h, m)
  {
  }

  lemma UpdateIsBijective(already: Word64, value: Word64, h: Word64)
    ensures Update(already, value) == h <==> already == Before(h, value)
    ensures Update(already, value) == h <==> value == Needed(already, h)
  {
    MixIsBijective(already);
    SumUndone(Mix(already), value, h);
    StateFound(already, Minus(h, value));
    BeforeIsUnmix(h, value);
  }

  lemma BeforeIsUnmix(h: Word64, value: Word64)
    ensures Before(h, value) == Unmix(Minus(h, value))
  {
  }

  lemma StateFound(x: Word64, y: Word64)
    ensures Mix(x) == y <==> x == Unmix(y)
  {
    MixIsBijective(x);
    MixIsBijective(y);
  }

  // CountHash started from any state.
  function HashFrom(start: Word64, values: seq<Word64>): Word64 {
    if values == [] then start
    else Update(HashFrom(start, values[..|values| - 1]), values[|values| - 1])
  }

  function Hash(values: seq<Word64>): Word64 {
    HashFrom(0, values)
  }

  // The state that leads to h over these values.
  function Rewind(h: Word64, values: seq<Word64>): Word64
    decreases |values|
  {
    if values == [] then h
    else Rewind(Before(h, values[|values| - 1]), values[..|values| - 1])
  }

  lemma {:induction false} HashConcat(start: Word64, a: seq<Word64>, b: seq<Word64>)
    ensures HashFrom(start, a + b) == HashFrom(HashFrom(start, a), b)
  {
    if b == [] {
      assert a + b == a;
    } else {
      HashConcat(start, a, b[..|b| - 1]);
      assert (a + b)[..|a + b| - 1] == a + b[..|b| - 1];
    }
  }

  // Whatever the list, hashing over it is a bijection of the state.
  lemma {:induction false} HashRewinds(start: Word64, values: seq<Word64>, h: Word64)
    ensures HashFrom(start, values) == h <==> start == Rewind(h, values)
    decreases |values|
  {
    if values != [] {
      var front, last := values[..|values| - 1], values[|values| - 1];
      UpdateIsBijective(HashFrom(start, front), last, h);
      HashRewinds(start, front, Before(h, last));
    }
  }

  // A common suffix can be cancelled, and never hides a difference.
  lemma CommonSuffix(a: seq<Word64>, b: seq<Word64>, suffix: seq<Word64>)
    ensures Hash(a + suffix) == Hash(b + suffix) <==> Hash(a) == Hash(b)
  {
    HashConcat(0, a, suffix);
    HashConcat(0, b, suffix);
    HashRewinds(Hash(a), suffix, Hash(b + suffix));
    HashRewinds(Hash(b), suffix, Hash(b + suffix));
  }

  // In any place of any list exactly one value gives a wanted hash.
  lemma OneValueFits(prefix: seq<Word64>, x: Word64, suffix: seq<Word64>, h: Word64)
    ensures Hash(prefix + [x] + suffix) == h <==> x == Needed(Hash(prefix), Rewind(h, suffix))
  {
    HashConcat(0, prefix + [x], suffix);
    HashRewinds(Hash(prefix + [x]), suffix, h);
    assert (prefix + [x])[..|prefix|] == prefix;
    UpdateIsBijective(Hash(prefix), x, Rewind(h, suffix));
  }

  // Lists of equal length that differ in exactly one place have different hashes.
  lemma OneDifference(a: seq<Word64>, b: seq<Word64>, i: nat)
    requires |a| == |b| && i < |a| && a[i] != b[i] && forall j :: 0 <= j < |a| && j != i ==> a[j] == b[j]
    ensures Hash(a) != Hash(b)
  {
    assert a == a[..i] + [a[i]] + a[i + 1..];
    assert b == a[..i] + [b[i]] + a[i + 1..];
    OneValueFits(a[..i], a[i], a[i + 1..], Hash(b));
    OneValueFits(a[..i], b[i], a[i + 1..], Hash(b));
  }

  // Machine shifts: a shift to the left loses what does not fit in 64 bits.
  lemma LeftShift(x: nat, n: nat)
    ensures x * Pow2(n) % MODULUS == Low(Left(x, n), 64)
  {
    hide Low, Left, Pow2;
    Pow64();
    LeftIsProduct(x, n);
    LowIsRemainder(Left(x, n), 64);
  }

  method HashUpdate(already: Word64, value: Word64) returns (next: Word64)
    ensures next == Update(already, value)
  {
    hide Xor, Right, Left, Low, Sum, Unmix, Pow2;
    var x: nat := already;
    RightIsQuotient(x, 21);
    x := Xor(x, x / Pow2(21));
    LeftShift(x, 35);
    x := Xor(x, x * Pow2(35) % MODULUS);
    RightIsQuotient(x, 4);
    x := Xor(x, x / Pow2(4));
    MixIsBijective(already);
    SumWraps(x, value);
    next := (x + value) % MODULUS;
  }

  // One step of a loop that hashes a list.
  method HashAppend(already: Word64, value: Word64, ghost list: seq<Word64>) returns (next: Word64)
    requires already == Hash(list)
    ensures next == Hash(list + [value])
  {
    next := HashUpdate(already, value);
    assert (list + [value])[..|list|] == list;
  }

  method CountHash(range: seq<Word64>) returns (result: Word64)
    ensures result == Hash(range)
  {
    result := 0;
    for i := 0 to |range|
      invariant result == Hash(range[..i])
    {
      assert range[..i + 1] == range[..i] + [range[i]];
      result := HashAppend(result, range[i], range[..i]);
    }
    assert range[..|range|] == range;
  }
}
