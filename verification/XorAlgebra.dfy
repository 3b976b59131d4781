/** Laws of exclusive or on numbers: it undoes itself, and shifts distribute over it. */
module XorAlgebra {
  import opened Words

  lemma {:induction false} XorZero(x: nat)
    ensures Xor(x, 0) == x
  {
    if x != 0 {
      XorZero(x / 2);
    }
  }

  // Exclusive or with the same number twice changes nothing.
  lemma {:induction false} XorTwice(x: nat, y: nat)
    ensures Xor(Xor(x, y), y) == x
    decreases x + y
  {
    if x != 0 || y != 0 {
      BitDigits(x, y);
      BitDigits(Xor(x, y), y);
      XorTwice(x / 2, y / 2);
    }
  }

  lemma {:induction false} XorVanishes(x: nat, y: nat)
    ensures Xor(x, y) == 0 <==> x == y
    decreases x + y
  {
    if x != 0 || y != 0 {
      BitDigits(x, y);
      XorVanishes(x / 2, y / 2);
    }
  }

  // The number without its n lowest binary digits, with n zeros below it, and its n lowest digits alone.
  function Right(x: nat, n: nat): (q: nat)
    ensures q <= x && (x > 0 && n > 0 ==> q < x)
  {
    if n == 0 then x else Right(x / 2, n - 1)
  }

  function Left(x: nat, n: nat): nat {
    if n == 0 then x else 2 * Left(x, n - 1)
  }

  function Low(x: nat, n: nat): (r: nat)
    ensures r < Pow2(n)
  {
    if n == 0 then 0 else 2 * Low(x / 2, n - 1) + x % 2
  }

  lemma {:induction false} RightIsQuotient(x: nat, n: nat)
    ensures Right(x, n) == x / Pow2(n)
  {
    if n != 0 {
      RightIsQuotient(x / 2, n - 1);
      QuotientOfQuotient(x, Pow2(n - 1));
    }
  }

  lemma QuotientOfQuotient(x: nat, p: nat)
    requires p > 0
    ensures x / 2 / p == x / (2 * p)
  {
    var q, r := (x / 2) / p, (x / 2) % p;
    assert x == (2 * p) * q + (2 * r + x % 2);
    ModuloUnique(x, 2 * p, q, 2 * r + x % 2);
  }

  lemma {:induction false} LeftIsProduct(x: nat, n: nat)
    ensures Left(x, n) == x * Pow2(n)
  {
    if n != 0 {
      LeftIsProduct(x, n - 1);
    }
  }

  lemma {:induction false} LowIsRemainder(x: nat, n: nat)
    ensures Low(x, n) == x % Pow2(n)
  {
    if n != 0 {
      LowIsRemainder(x / 2, n - 1);
      HalfOfModulo(x, Pow2(n - 1));
    }
  }

  lemma {:induction false} XorOfRights(x: nat, y: nat, n: nat)
    ensures Right(Xor(x, y), n) == Xor(Right(x, n), Right(y, n))
  {
    if n != 0 {
      BitDigits(x, y);
      XorOfRights(x / 2, y / 2, n - 1);
    }
  }

  lemma {:induction false} XorOfLefts(x: nat, y: nat, n: nat)
    ensures Left(Xor(x, y), n) == Xor(Left(x, n), Left(y, n))
  {
    if n != 0 {
      XorOfLefts(x, y, n - 1);
      BitDigits(Left(x, n), Left(y, n));
    }
  }

  lemma {:induction false} XorOfLows(x: nat, y: nat, n: nat)
    ensures Low(Xor(x, y), n) == Xor(Low(x, n), Low(y, n))
  {
    if n != 0 {
      BitDigits(x, y);
      var p, q := Low(x, n), Low(y, n);
      assert p / 2 == Low(x / 2, n - 1) && p % 2 == x % 2;
      assert q / 2 == Low(y / 2, n - 1) && q % 2 == y % 2;
      BitDigits(p, q);
      XorOfLows(x / 2, y / 2, n - 1);
    }
  }

  // Folding a number onto itself to the right by n places, and undoing it from the top digits down.
  function FoldRight(x: nat, n: nat): nat {
    Xor(x, Right(x, n))
  }

  function UnfoldRight(y: nat, n: nat): nat
    requires n > 0
  {
    if y == 0 then 0 else Xor(y, UnfoldRight(Right(y, n), n))
  }

  lemma {:induction false} UnfoldedRight(x: nat, n: nat)
    requires n > 0
    ensures UnfoldRight(FoldRight(x, n), n) == x
  {
    if x != 0 {
      var q := Right(x, n);
      XorOfRights(x, q, n);
      UnfoldedRight(q, n);
      XorTwice(x, q);
      XorVanishes(x, q);
    }
  }

  lemma {:induction false} RightUnfolds(y: nat, n: nat)
    requires n > 0
    ensures Right(UnfoldRight(y, n), n) == UnfoldRight(Right(y, n), n)
  {
    if y != 0 {
      var q := Right(y, n);
      RightUnfolds(q, n);
      XorOfRights(y, UnfoldRight(q, n), n);
    }
  }

  lemma FoldedRight(y: nat, n: nat)
    requires n > 0
    ensures FoldRight(UnfoldRight(y, n), n) == y
  {
    RightUnfolds(y, n);
    if y != 0 {
      XorTwice(y, UnfoldRight(Right(y, n), n));
    }
  }

  // Folding to the left within `width` digits, by at least half of them, undoes itself.
  function FoldLeft(x: nat, n: nat, width: nat): nat {
    Xor(x, Low(Left(x, n), width))
  }

  lemma FoldedLeftTwice(x: nat, n: nat, width: nat)
    requires x < Pow2(width) && n <= width <= 2 * n
    ensures FoldLeft(FoldLeft(x, n, width), n, width) == x
  {
    var s := Low(Left(x, n), width);
    XorOfLefts(x, s, n);
    XorOfLows(Left(x, n), Left(s, n), width);
    LeftTwiceVanishes(x, n, width);
    XorZero(s);
    XorTwice(x, s);
  }

  lemma LeftTwiceVanishes(x: nat, n: nat, width: nat)
    requires n <= width <= 2 * n
    ensures Low(Left(Low(Left(x, n), width), n), width) == 0
  {
    LowOfLeft(x, n, width);
    LowOfLeft(Low(Left(x, n), width), n, width);
    LowOfLeft(Low(x, width - n), n, width - n);
    LeftOfZero(n);
  }

  lemma {:induction false} LeftOfZero(n: nat)
    ensures Left(0, n) == 0
  {
    if n != 0 {
      LeftOfZero(n - 1);
    }
  }

  lemma {:induction false} LowOfLeft(x: nat, n: nat, width: nat)
    ensures Low(Left(x, n), width) == if width <= n then 0 else Left(Low(x, width - n), n)
  {
    if n != 0 && width != 0 {
      LowOfLeft(x, n - 1, width - 1);
    }
  }
}
