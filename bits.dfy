/**
 * Natural numbers as little-endian bit strings: the arithmetic behind the
 * comparator circuit's bit decomposition and its most-significant-bit-first walk.
 */
module Bits {

  /** 2 to the power n. */
  function Pow2(n: nat): (r: nat)
    ensures r >= 1
  {
    if n == 0 then 1 else 2 * Pow2(n - 1)
  }

  /** The number left after dropping the k low bits of x (`x >> k`). */
  function Shr(x: nat, k: nat): nat
  {
    if k == 0 then x else Shr(x, k - 1) / 2
  }

  /** Bit k of x, counting from the least significant bit 0. */
  function Bit(x: nat, k: nat): nat
  {
    Shr(x, k) % 2
  }

  /** The number spelled by the n low bits of x: the sum of Bit(x, j) * 2^j for j < n. */
  function Low(x: nat, n: nat): nat
  {
    if n == 0 then 0 else Low(x, n - 1) + Bit(x, n - 1) * Pow2(n - 1)
  }

  lemma {:induction false} Pow2Add(a: nat, b: nat)
    ensures Pow2(a + b) == Pow2(a) * Pow2(b)
  {
    if a > 0 {
      Pow2Add(a - 1, b);
      assert Pow2(a + b) == 2 * Pow2(a - 1 + b);
    }
  }

  lemma Pow2Of4()
    ensures Pow2(4) == 16
  {
    assert Pow2(1) == 2;
    assert Pow2(2) == 4;
    assert Pow2(3) == 8;
  }

  lemma Pow2Of8()
    ensures Pow2(8) == 0x100
  {
    Pow2Of4();
    Pow2Add(4, 4);
  }

  lemma Pow2Of16()
    ensures Pow2(16) == 0x1_0000
  {
    Pow2Of8();
    Pow2Add(8, 8);
  }

  lemma Pow2Of32()
    ensures Pow2(32) == 0x1_0000_0000
  {
    Pow2Of16();
    Pow2Add(16, 16);
  }

  /** 2^64, the bound of a u64. */
  lemma Pow2Of64()
    ensures Pow2(64) == 0x1_0000_0000_0000_0000
  {
    Pow2Of32();
    Pow2Add(32, 32);
  }

  /** (2h + b) * p == b * p + h * (2 * p), isolated from the recursive definitions. */
  lemma RegroupDigit(h: nat, b: nat, p: nat)
    ensures (2 * h + b) * p == b * p + h * (2 * p)
  {
  }

  /** Every number is its n low bits plus the rest shifted back into place. */
  lemma {:induction false} LowPlusHigh(x: nat, n: nat)
    ensures x == Low(x, n) + Shr(x, n) * Pow2(n)
  {
    if n > 0 {
      LowPlusHigh(x, n - 1);
      var p, h, b := Pow2(n - 1), Shr(x, n), Bit(x, n - 1);
      assert Shr(x, n - 1) == 2 * h + b;
      RegroupDigit(h, b, p);
      assert Low(x, n) == Low(x, n - 1) + b * p;
      assert Pow2(n) == 2 * p;
    }
  }

  /** n bits spell a number below 2^n. */
  lemma {:induction false} LowBound(x: nat, n: nat)
    ensures Low(x, n) < Pow2(n)
  {
    if n > 0 {
      LowBound(x, n - 1);
      assert Bit(x, n - 1) <= 1;
      assert Bit(x, n - 1) * Pow2(n - 1) <= Pow2(n - 1);
    }
  }

  lemma MulAtLeast(a: nat, p: nat)
    requires a >= 1
    ensures a * p >= p
  {
  }

  /**
   * Splitting into n little-endian bits is exact precisely for the numbers below 2^n:
   * x is the sum of its bits weighted by powers of two if and only if x < 2^n.
   */
  lemma SplitExact(x: nat, n: nat)
    ensures Low(x, n) == x <==> x < Pow2(n)
    ensures x < Pow2(n) ==> Shr(x, n) == 0
  {
    LowPlusHigh(x, n);
    LowBound(x, n);
    if x < Pow2(n) && Shr(x, n) != 0 {
      MulAtLeast(Shr(x, n), Pow2(n));
    }
  }

  /**
   * One step of the most-significant-bit-first walk: x >> k compares with y >> k as
   * x >> (k+1) compares with y >> (k+1), with bit k breaking a tie.
   */
  lemma CompareStep(x: nat, y: nat, k: nat)
    ensures Shr(x, k) > Shr(y, k) <==>
              Shr(x, k + 1) > Shr(y, k + 1) || (Shr(x, k + 1) == Shr(y, k + 1) && Bit(x, k) == 1 && Bit(y, k) == 0)
    ensures Shr(x, k) == Shr(y, k) <==> Shr(x, k + 1) == Shr(y, k + 1) && Bit(x, k) == Bit(y, k)
  {
    assert Shr(x, k) == 2 * Shr(x, k + 1) + Bit(x, k);
    assert Shr(y, k) == 2 * Shr(y, k + 1) + Bit(y, k);
  }

  /**
   * For numbers below 2^n, x >> k and y >> k agree exactly when x and y agree on
   * every bit from k up to n - 1.
   */
  lemma {:induction false} HighEqualIffBitsAgree(x: nat, y: nat, k: nat, n: nat)
    requires x < Pow2(n) && y < Pow2(n) && k <= n
    ensures Shr(x, k) == Shr(y, k) <==> forall i :: k <= i < n ==> Bit(x, i) == Bit(y, i)
    decreases n - k
  {
    if k == n {
      SplitExact(x, n);
      SplitExact(y, n);
    } else {
      HighEqualIffBitsAgree(x, y, k + 1, n);
      CompareStep(x, y, k);
    }
  }
}
