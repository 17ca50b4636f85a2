/** Shifts and base-2 logarithms. */
module Powers {
  /** 2 to the n. */
  function Pow2(n: nat): (p: nat)
    ensures p >= 1
  {
    if n == 0 then 1 else 2 * Pow2(n - 1)
  }

  /** i >> d */
  function Shr(i: nat, d: nat): nat {
    if d == 0 then i else Shr(i / 2, d - 1)
  }

  /** a << d */
  function Shl(a: nat, d: nat): nat {
    if d == 0 then a else 2 * Shl(a, d - 1)
  }

  /** n halved d times, rounding up. */
  function Halves(n: nat, d: nat): nat {
    if d == 0 then n else Halves((n + 1) / 2, d - 1)
  }

  /** The integer part of the base-2 logarithm. */
  function Log2(n: nat): nat
    requires n >= 1
  {
    if n == 1 then 0 else 1 + Log2(n / 2)
  }

  /** The base-2 logarithm rounded up. */
  function CeilLog2(n: nat): nat
    requires n >= 1
  {
    if n == 1 then 0 else 1 + CeilLog2((n + 1) / 2)
  }

  lemma {:induction false} Log2Is(n: nat, j: nat)
    requires n >= 1
    ensures Log2(n) == j <==> Pow2(j) <= n < 2 * Pow2(j)
  {
    if n > 1 && j > 0 {
      Log2Is(n / 2, j - 1);
    }
  }

  lemma {:induction false} Pow2Grows(a: nat, b: nat)
    requires a <= b
    ensures Pow2(a) <= Pow2(b)
  {
    if a < b {
      Pow2Grows(a, b - 1);
    }
  }

  lemma Log2AtLeast(n: nat, j: nat)
    requires 1 <= n && Pow2(j) <= n
    ensures j <= Log2(n)
  {
    Log2Is(n, Log2(n));
    if Log2(n) < j {
      Pow2Grows(Log2(n) + 1, j);
    }
  }

  /** CeilLog2 is the least power of two that reaches n. */
  lemma {:induction false} CeilLog2Is(n: nat, k: nat)
    requires n >= 1
    ensures CeilLog2(n) == k <==> n <= Pow2(k) && (k == 0 || Pow2(k - 1) < n)
  {
    if n > 1 && k > 0 {
      CeilLog2Is((n + 1) / 2, k - 1);
    }
  }

  lemma {:induction false} Shifted(i: nat, d: nat)
    ensures Shl(Shr(i, d), d) <= i < Shl(Shr(i, d) + 1, d)
  {
    if d > 0 {
      Shifted(i / 2, d - 1);
    }
  }

  lemma {:induction false} ShlAdds(a: nat, b: nat, d: nat)
    ensures Shl(a + b, d) == Shl(a, d) + Shl(b, d)
  {
    if d > 0 {
      ShlAdds(a, b, d - 1);
    }
  }

  lemma {:induction false} ShlOne(d: nat)
    ensures Shl(1, d) == Pow2(d)
  {
    if d > 0 {
      ShlOne(d - 1);
    }
  }

  /** Halving n counts the segments of length 1 << d that cover n. */
  lemma {:induction false} HalvesIs(n: nat, d: nat, c: nat)
    ensures Halves(n, d) <= c <==> n <= Shl(c, d)
  {
    if d > 0 {
      HalvesIs((n + 1) / 2, d - 1, c);
    }
  }

  lemma {:induction false} HalvesOfShl(c: nat, d: nat)
    ensures Halves(Shl(c, d), d) == c && Shr(Shl(c, d), d) == c
  {
    if d > 0 {
      HalvesOfShl(c, d - 1);
    }
  }

  lemma {:induction false} ShrBelow(i: nat, n: nat, d: nat)
    requires i < n
    ensures Shr(i, d) < Halves(n, d)
  {
    if d > 0 {
      ShrBelow(i / 2, (n + 1) / 2, d - 1);
    }
  }

  lemma {:induction false} HalvesPositive(n: nat, d: nat)
    ensures Halves(n, d) >= 1 <==> n >= 1
  {
    if d > 0 {
      HalvesPositive((n + 1) / 2, d - 1);
    }
  }

  lemma {:induction false} HalvedToOne(n: nat, d: nat)
    requires n >= 1
    ensures Halves(n, d) == 1 <==> CeilLog2(n) <= d
  {
    if d > 0 {
      HalvedToOne((n + 1) / 2, d - 1);
    }
  }

  lemma {:induction false} CeilLog2Splits(n: nat, d: nat)
    requires n >= 1 && d <= CeilLog2(n)
    ensures Halves(n, d) >= 1 && CeilLog2(n) == d + CeilLog2(Halves(n, d))
  {
    if d > 0 {
      CeilLog2Splits((n + 1) / 2, d - 1);
    }
  }

  lemma {:induction false} CeilLog2Bounds(n: nat, d: nat)
    requires n >= 1
    ensures n <= Shl(1, d) <==> CeilLog2(n) <= d
    ensures Shl(1, d) <= n ==> d <= CeilLog2(n)
  {
    if d > 0 && n > 1 {
      CeilLog2Bounds((n + 1) / 2, d - 1);
    } else {
      ShlOne(d);
    }
  }

  lemma {:induction false} ShlZero(d: nat)
    ensures Shl(0, d) == 0 && Shr(0, d) == 0
  {
    if d > 0 {
      ShlZero(d - 1);
    }
  }
}
