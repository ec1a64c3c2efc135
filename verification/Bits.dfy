/** Bitwise operations on numbers, and what they mean by powers of two. */
module Bits {
  import opened Basics

  /** The bitwise and of two numbers. */
  function BitAnd(a: nat, b: nat): nat {
    if a == 0 || b == 0 then 0 else 2 * BitAnd(a / 2, b / 2) + (a % 2) * (b % 2)
  }

  /** Masking with a power of two less one is taking the remainder. */
  lemma {:induction false} MaskIsMod(h: nat, k: nat)
    ensures Pow2(k) > 0 && BitAnd(h, Pow2(k) - 1) == h % Pow2(k)
  {
    if k > 0 {
      var m := Pow2(k - 1);
      assert Pow2(k) == 2 * m;
      MaskIsMod(h / 2, k - 1);
      MaskDouble(h, m);
    }
  }

  lemma MaskDouble(h: nat, m: nat)
    requires m > 0 && BitAnd(h / 2, m - 1) == (h / 2) % m
    ensures BitAnd(h, 2 * m - 1) == h % (2 * m)
  {
    MaskHalf(h, m);
    HalfMod(h, m);
  }

  lemma MaskHalf(h: nat, m: nat)
    requires m > 0
    ensures BitAnd(h, 2 * m - 1) == 2 * BitAnd(h / 2, m - 1) + h % 2
  {
    if h > 0 {
      assert (2 * m - 1) / 2 == m - 1 && (2 * m - 1) % 2 == 1;
    }
  }

  lemma HalfMod(h: nat, n: nat)
    requires n > 0
    ensures h % (2 * n) == 2 * ((h / 2) % n) + h % 2
  {
    var q, r := (h / 2) / n, (h / 2) % n;
    assert h == 2 * (n * q + r) + h % 2;
    assert h == (2 * n) * q + (2 * r + h % 2);
    ModIs(h, 2 * n, q, 2 * r + h % 2);
  }

  lemma ModIs(h: nat, m: nat, q: nat, r: nat)
    requires m > 0 && h == m * q + r && r < m
    ensures h % m == r
  {
    DivIs(h, m, q, r);
  }

  lemma DivIs(h: nat, m: nat, q: nat, r: nat)
    requires m > 0 && h == m * q + r && r < m
    ensures h / m == q
  {
    if q > h / m {
      MulLess(m, h / m, q);
    } else if q < h / m {
      MulLess(m, q, h / m);
    }
  }

  lemma MulLess(m: nat, a: nat, b: nat)
    requires a < b
    ensures m * a + m <= m * b
  {
    assert m * b == m * a + m * (b - a);
    assert m * (b - a) == m * (b - a - 1) + m;
  }

  /** Shifting to the right. */
  function Shr(h: nat, k: nat): nat {
    if k == 0 then h else Shr(h / 2, k - 1)
  }

  lemma {:induction false} ShrIsDiv(h: nat, k: nat)
    ensures Pow2(k) > 0 && Shr(h, k) == h / Pow2(k)
  {
    if k > 0 {
      ShrIsDiv(h / 2, k - 1);
      HalfDiv(h, Pow2(k - 1));
    }
  }

  lemma HalfDiv(h: nat, n: nat)
    requires n > 0
    ensures (h / 2) / n == h / (2 * n)
  {
    HalfMod(h, n);
    var q := (h / 2) / n;
    assert h == (2 * n) * q + h % (2 * n);
    DivIs(h, 2 * n, q, h % (2 * n));
  }
}
