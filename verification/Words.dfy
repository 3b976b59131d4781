/** Unsigned 32-bit words as numbers: addition wraps, the bitwise operators are defined digit by digit. */
module Words {

  type Byte = x: nat | x < 0x100

  type Word = x: nat | x < 0x1_0000_0000

  function Pow2(n: nat): (p: nat)
    ensures p > 0
  {
    if n == 0 then 1 else 2 * Pow2(n - 1)
  }

  function Pow256(n: nat): (p: nat)
    ensures p > 0
  {
    if n == 0 then 1 else 0x100 * Pow256(n - 1)
  }

  function Plus(x: Word, y: Word): Word {
    (x + y) % 0x1_0000_0000
  }

  function And(x: nat, y: nat): (z: nat)
    ensures z <= x && z <= y
  {
    if x == 0 || y == 0 then 0 else 2 * And(x / 2, y / 2) + (if x % 2 == 1 && y % 2 == 1 then 1 else 0)
  }

  function Or(x: nat, y: nat): nat
    decreases x + y
  {
    if x == 0 && y == 0 then 0 else 2 * Or(x / 2, y / 2) + (if x % 2 == 1 || y % 2 == 1 then 1 else 0)
  }

  function Xor(x: nat, y: nat): nat
    decreases x + y
  {
    if x == 0 && y == 0 then 0 else 2 * Xor(x / 2, y / 2) + (if x % 2 != y % 2 then 1 else 0)
  }

  lemma BitDigits(x: nat, y: nat)
    ensures And(x, y) / 2 == And(x / 2, y / 2) && And(x, y) % 2 == (if x % 2 == 1 && y % 2 == 1 then 1 else 0)
    ensures Or(x, y) / 2 == Or(x / 2, y / 2) && Or(x, y) % 2 == (if x % 2 == 1 || y % 2 == 1 then 1 else 0)
    ensures Xor(x, y) / 2 == Xor(x / 2, y / 2) && Xor(x, y) % 2 == (if x % 2 != y % 2 then 1 else 0)
  {
  }

  lemma Pow2Values()
    ensures Pow2(2) == 4 && Pow2(5) == 0x20 && Pow2(8) == 0x100 && Pow2(16) == 0x1_0000 && Pow2(24) == 0x100_0000
    ensures Pow2(27) == 0x800_0000 && Pow2(31) == 0x8000_0000 && Pow2(32) == 0x1_0000_0000
  {
    assert Pow2(5) == 0x20;
    assert Pow2(8) == 0x100;
    assert Pow2(12) == 0x1000;
    assert Pow2(16) == 0x1_0000;
    assert Pow2(20) == 0x10_0000;
    assert Pow2(24) == 0x100_0000;
    assert Pow2(27) == 0x800_0000;
    assert Pow2(31) == 0x8000_0000;
  }

  function Not(x: Word): Word {
    0xFFFF_FFFF - x
  }

  function Shl(x: Word, n: nat): Word {
    (x * Pow2(n)) % 0x1_0000_0000
  }

  function Shr(x: Word, n: nat): Word {
    QuotientFits(x, Pow2(n));
    x / Pow2(n)
  }

  lemma QuotientFits(x: nat, d: nat)
    requires d > 0
    ensures 0 <= x / d <= x
  {
    ProductGrows(x / d, d);
  }

  lemma ProductGrows(q: nat, d: nat)
    requires d > 0
    ensures q <= d * q
  {
  }

  lemma {:induction false} OrFits(x: nat, y: nat, n: nat)
    requires x < Pow2(n) && y < Pow2(n)
    ensures Or(x, y) < Pow2(n)
  {
    if n != 0 {
      OrFits(x / 2, y / 2, n - 1);
    }
  }

  lemma {:induction false} XorFits(x: nat, y: nat, n: nat)
    requires x < Pow2(n) && y < Pow2(n)
    ensures Xor(x, y) < Pow2(n)
  {
    if n != 0 {
      XorFits(x / 2, y / 2, n - 1);
    }
  }

  function WordAnd(x: Word, y: Word): Word { And(x, y) }

  function WordOr(x: Word, y: Word): Word {
    Pow2Values();
    OrFits(x, y, 32);
    Or(x, y)
  }

  function WordXor(x: Word, y: Word): Word {
    Pow2Values();
    XorFits(x, y, 32);
    Xor(x, y)
  }

  lemma {:induction false} DisjointOrIsXor(x: nat, y: nat)
    requires And(x, y) == 0
    ensures Or(x, y) == Xor(x, y)
    decreases x + y
  {
    if x != 0 || y != 0 {
      BitDigits(x, y);
      DisjointOrIsXor(x / 2, y / 2);
    }
  }

  lemma {:induction false} ChoiceIsDisjoint(x: nat, c: nat, y: nat, z: nat, n: nat)
    requires x + c == Pow2(n) - 1
    ensures And(And(x, y), And(c, z)) == 0
    decreases n
  {
    if n != 0 {
      hide And;
      var p, q := And(x, y), And(c, z);
      BitDigits(x, y);
      BitDigits(c, z);
      BitDigits(p, q);
      assert x + c == 2 * Pow2(n - 1) - 1;
      Halves(x, c, Pow2(n - 1));
      ChoiceIsDisjoint(x / 2, c / 2, y / 2, z / 2, n - 1);
      assert And(p, q) % 2 == 0;
    }
  }

  lemma Halves(x: nat, c: nat, m: nat)
    requires x + c == 2 * m - 1
    ensures x / 2 + c / 2 == m - 1 && x % 2 != c % 2
  {
    assert x == 2 * (x / 2) + x % 2 && c == 2 * (c / 2) + c % 2;
  }

  lemma {:induction false} MajorityOrIsXor(x: nat, y: nat, z: nat)
    ensures Or(Or(And(x, y), And(x, z)), And(y, z)) == Xor(Xor(And(x, y), And(x, z)), And(y, z))
    decreases x + y + z
  {
    if x != 0 || y != 0 || z != 0 {
      var p, q, r := And(x, y), And(x, z), And(y, z);
      BitDigits(x, y);
      BitDigits(x, z);
      BitDigits(y, z);
      BitDigits(p, q);
      BitDigits(Or(p, q), r);
      BitDigits(Xor(p, q), r);
      MajorityOrIsXor(x / 2, y / 2, z / 2);
    }
  }

  // Placing a shorter number below a shifted one needs no carry.
  lemma {:induction false} OrBelow(h: nat, n: nat, p: nat, y: nat)
    requires p == Pow2(n) && y < p
    ensures Or(h * p, y) == h * p + y == Or(y, h * p)
  {
    if n == 0 {
      OrZero(h);
    } else {
      var m := h * Pow2(n - 1);
      assert h * p == 2 * m;
      BitDigits(2 * m, y);
      BitDigits(y, 2 * m);
      OrBelow(h, n - 1, Pow2(n - 1), y / 2);
    }
  }

  lemma {:induction false} OrZero(x: nat)
    ensures Or(x, 0) == x == Or(0, x)
  {
    if x != 0 {
      OrZero(x / 2);
    }
  }

  lemma {:induction false} MaskIsModulo(x: nat, n: nat)
    ensures And(x, Pow2(n) - 1) == x % Pow2(n)
  {
    if x != 0 && n != 0 {
      MaskIsModulo(x / 2, n - 1);
      HalfOfModulo(x, Pow2(n - 1));
    }
  }

  lemma HalfOfModulo(x: nat, p: nat)
    requires p > 0
    ensures x % (2 * p) == 2 * ((x / 2) % p) + x % 2
  {
    var q, r := (x / 2) / p, (x / 2) % p;
    assert x == (2 * p) * q + (2 * r + x % 2);
    assert 0 <= 2 * r + x % 2 < 2 * p;
    ModuloUnique(x, 2 * p, q, 2 * r + x % 2);
  }

  lemma ModuloUnique(x: int, d: int, q: int, r: int)
    requires d > 0 && x == d * q + r && 0 <= r < d
    ensures x % d == r && x / d == q
  {
    var k := x / d - q;
    assert d * k == r - x % d;
    assert k > 0 ==> d * k >= d;
    assert k < 0 ==> d * k <= -d;
  }

  function StoreByte(w: Word, k: nat): (b: Byte)
    requires k < 4
    ensures b == Shr(w, k * 8) % 0x100
  {
    Pow2Values();
    MaskIsModulo(Shr(w, k * 8), 8);
    And(Shr(w, k * 8), 0xFF)
  }

  lemma ShiftedWord(w: Word)
    ensures Shr(w, 24) == w / 0x100_0000 && Shr(w, 16) == w / 0x1_0000 && Shr(w, 8) == w / 0x100 && Shr(w, 0) == w
  {
    Pow2Values();
    assert Pow2(0) == 1;
  }

  lemma ShiftedByte(b: Byte)
    ensures Shl(b, 0) == b && Shl(b, 8) == b * 0x100 && Shl(b, 16) == b * 0x1_0000 && Shl(b, 24) == b * 0x100_0000
  {
    Pow2Values();
    assert Pow2(0) == 1;
  }

  function LoadWord(b0: Byte, b1: Byte, b2: Byte, b3: Byte): Word {
    WordOr(WordOr(WordOr(b3, Shl(b2, 8)), Shl(b1, 16)), Shl(b0, 24))
  }

  lemma LoadWordMatches(b0: Byte, b1: Byte, b2: Byte, b3: Byte)
    ensures LoadWord(b0, b1, b2, b3) == b0 as nat * 0x100_0000 + b1 as nat * 0x1_0000 + b2 as nat * 0x100 + b3
  {
    hide Or, Shl;
    var c0: nat, c1: nat, c2: nat, c3: nat := b0, b1, b2, b3;
    ShiftedByte(b0);
    ShiftedByte(b1);
    ShiftedByte(b2);
    Pow2Values();
    OrBelow(c2, 8, 0x100, c3);
    OrBelow(c1, 16, 0x1_0000, c2 * 0x100 + c3);
    OrBelow(c0, 24, 0x100_0000, c1 * 0x1_0000 + c2 * 0x100 + c3);
  }
}
