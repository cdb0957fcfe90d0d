/** Powers of two and remainders: the arithmetic behind the u32 indices. */
module Arith {
  /** 2 to the power k. */
  function Pow2(k: nat): (p: nat)
    ensures p >= 1
  {
    if k == 0 then 1 else 2 * Pow2(k - 1)
  }

  /** A quotient and remainder in range are the quotient and remainder. */
  lemma DivModUnique(x: int, q: int, r: int, m: int)
    requires 0 <= r < m && x == q * m + r
    ensures x / m == q && x % m == r
  {
    var d := x / m - q;
    assert d * m == r - x % m;
    assert d > 0 ==> d * m >= m;
    assert d < 0 ==> d * m <= -m;
  }

  lemma MultipleMod(q: int, m: int)
    requires m > 0
    ensures (q * m) % m == 0
  {
    DivModUnique(q * m, q, 0, m);
  }

  lemma AddMultipleMod(x: int, q: int, m: int)
    requires m > 0
    ensures (q * m + x) % m == x % m
  {
    assert q * m + x == (q + x / m) * m + x % m;
    DivModUnique(q * m + x, q + x / m, x % m, m);
  }

  /** Reducing modulo a multiple of m first changes nothing modulo m. */
  lemma ModMod(x: int, m: int, big: int)
    requires m > 0 && big > 0 && big % m == 0
    ensures (x % big) % m == x % m
  {
    var q, c := x / big, big / m;
    assert big == c * m;
    assert x == q * big + x % big == (q * c) * m + x % big by {
      assert q * (c * m) == (q * c) * m;
    }
    AddMultipleMod(x % big, q * c, m);
  }

  lemma EqualModDivides(a: int, b: int, m: int)
    requires m > 0 && a % m == b % m
    ensures (b - a) % m == 0
  {
    assert b - a == (b / m - a / m) * m;
    MultipleMod(b / m - a / m, m);
  }

  lemma {:induction false} PowSplit(k: nat, n: nat)
    requires k <= n
    ensures Pow2(n) == Pow2(n - k) * Pow2(k)
  {
    if k < n {
      PowSplit(k, n - 1);
      assert Pow2(n) == 2 * (Pow2(n - 1 - k) * Pow2(k));
    }
  }

  lemma {:induction false} PowMonotone(k: nat, n: nat)
    requires k <= n
    ensures Pow2(k) <= Pow2(n)
  {
    if k < n { PowMonotone(k, n - 1); }
  }

  lemma PowDivides(k: nat, n: nat)
    requires k <= n
    ensures Pow2(n) % Pow2(k) == 0
  {
    PowSplit(k, n);
    MultipleMod(Pow2(n - k), Pow2(k));
  }

  lemma Pow32()
    ensures Pow2(32) == 0x1_0000_0000
  {
    PowSplit(16, 32);
    PowSplit(8, 16);
    var q := Pow2(8);
    assert q == 0x100;
    assert Pow2(16) == q * q;
  }

  /** An odd factor cannot contribute to divisibility by a power of two. */
  lemma {:induction false} OddCancels(a: nat, b: nat, n: nat)
    requires a % 2 == 1 && (a * b) % Pow2(n) == 0
    ensures b % Pow2(n) == 0
  {
    if n > 0 {
      var q := a * b / Pow2(n);
      var half := Pow2(n - 1);
      assert Pow2(n) == 2 * half;
      assert a * b == 2 * (q * half);
      var c := b / 2;
      OddTimesOdd(a, b);
      assert b == 2 * c;
      assert a * b == 2 * (a * c);
      MultipleMod(q, half);
      OddCancels(a, c, n - 1);
      var r := c / half;
      assert b == r * Pow2(n);
      MultipleMod(r, Pow2(n));
    }
  }

  lemma OddTimesOdd(a: nat, b: nat)
    requires a % 2 == 1 && (a * b) % 2 == 0
    ensures b % 2 == 0
  {
    if b % 2 == 1 { OddProduct(a, b); }
  }

  lemma OddProduct(a: nat, b: nat)
    requires a % 2 == 1 && b % 2 == 1
    ensures (a * b) % 2 == 1
  {
    var x, y := a / 2, b / 2;
    assert (2 * x + 1) * (2 * y + 1) == 2 * (2 * (x * y) + x + y) + 1;
    DivModUnique(a * b, 2 * (x * y) + x + y, 1, 2);
  }

  lemma NotMultiple(x: nat, m: nat)
    requires 0 < x < m
    ensures x % m != 0
  {
    DivModUnique(x, 0, x, m);
  }

  /** A product of an odd and an even number, both positive and below 2^k, is
      not a multiple of 2^k. */
  lemma OddEvenProduct(a: nat, b: nat, k: nat)
    requires 0 < a < Pow2(k) && 0 < b < Pow2(k) && a % 2 != b % 2
    ensures (a * b) % Pow2(k) != 0
  {
    NotMultiple(a, Pow2(k));
    NotMultiple(b, Pow2(k));
    if (a * b) % Pow2(k) == 0 {
      if a % 2 == 1 {
        OddCancels(a, b, k);
      } else {
        MulCommutes(a, b);
        OddCancels(b, a, k);
      }
    }
  }

  lemma MulCommutes(a: int, b: int)
    ensures a * b == b * a
  {
  }
}
