/** The growing deletion bitmap: a byte buffer that acts as a finite set of numbers. */
module Bitmaps {
  import opened Basics
  import opened Bits

  const PREALLOC: nat := 128

  function Align(n: nat): (r: nat)
    ensures r % PREALLOC == 0 && n <= r < n + PREALLOC
  {
    var q := (n + PREALLOC - 1) / PREALLOC;
    assert n + PREALLOC - 1 == PREALLOC * q + (n + PREALLOC - 1) % PREALLOC;
    ModIs(q * PREALLOC, PREALLOC, q, 0);
    q * PREALLOC
  }

  function Dig(p: nat): nat { p / 8 }

  function Mod(p: nat): nat { p % 8 }

  lemma AlignMonotone(a: nat, b: nat)
    requires a <= b
    ensures Align(a) <= Align(b)
  {
  }

  /** The byte index is a shift and the bit index a mask. */
  lemma DigAndMod(p: nat)
    ensures Dig(p) == Shr(p, 3) && Mod(p) == BitAnd(p, 7) && p == 8 * Dig(p) + Mod(p)
  {
    assert Pow2(3) == 2 * Pow2(2) == 4 * Pow2(1) == 8;
    ShrIsDiv(p, 3);
    MaskIsMod(p, 3);
  }

  /** Aligning clears the low bits of n + 127: the result is the least multiple of 128 that
      is not below n. */
  lemma AlignIsMask(n: nat, r: nat)
    ensures Align(n) == n + 127 - BitAnd(n + 127, 127)
    ensures r % PREALLOC == 0 && r >= n ==> Align(n) <= r
  {
    MaskSeven(n + 127);
    if r % 128 == 0 && r >= n {
      AlignIsLeast(n, r);
    }
  }

  lemma MaskSeven(n: nat)
    ensures BitAnd(n, 127) == n % 128
  {
    assert Pow2(7) == 2 * Pow2(6) == 4 * Pow2(5) == 8 * Pow2(4) == 16 * Pow2(3) == 128;
    MaskIsMod(n, 7);
  }

  lemma AlignIsLeast(n: nat, r: nat)
    requires r % 128 == 0 && r >= n
    ensures Align(n) <= r
  {
    assert r == 128 * (r / 128);
  }

  function Mask(m: nat): bv8
    requires m < 8
  {
    if m == 0 then 1 << 0 else if m == 1 then 1 << 1 else if m == 2 then 1 << 2 else if m == 3 then 1 << 3
    else if m == 4 then 1 << 4 else if m == 5 then 1 << 5 else if m == 6 then 1 << 6 else 1 << 7
  }

  predicate ByteHas(b: bv8, m: nat)
    requires m < 8
  {
    (if m == 0 then b >> 0 else if m == 1 then b >> 1 else if m == 2 then b >> 2 else if m == 3 then b >> 3
     else if m == 4 then b >> 4 else if m == 5 then b >> 5 else if m == 6 then b >> 6 else b >> 7) & 1 != 0
  }

  lemma SetByte(b: bv8, m: nat, k: nat)
    requires m < 8 && k < 8
    ensures ByteHas(b | Mask(m), k) <==> k == m || ByteHas(b, k)
    ensures ByteHas(b & !Mask(m), k) <==> k != m && ByteHas(b, k)
    ensures !ByteHas(0, k)
  {
  }

  /** The numbers whose bit is one. */
  ghost function BitsOf(c: seq<bv8>): set<nat> {
    set p | 0 <= p < 8 * |c| && ByteHas(c[Dig(p)], Mod(p))
  }

  lemma SameBit(p: nat, q: nat)
    ensures Dig(p) == Dig(q) && Mod(p) == Mod(q) ==> p == q
  {
  }

  lemma SetBits(c: seq<bv8>, p: nat)
    requires Dig(p) < |c|
    ensures BitsOf(c[Dig(p) := c[Dig(p)] | Mask(Mod(p))]) == BitsOf(c) + {p}
  {
    var c' := c[Dig(p) := c[Dig(p)] | Mask(Mod(p))];
    forall q
      ensures q in BitsOf(c') <==> q in BitsOf(c) + {p}
    {
      if 0 <= q < 8 * |c| {
        SetByte(c[Dig(p)], Mod(p), Mod(q));
        SameBit(p, q);
      }
    }
  }

  lemma UnsetBits(c: seq<bv8>, p: nat)
    requires Dig(p) < |c|
    ensures BitsOf(c[Dig(p) := c[Dig(p)] & !Mask(Mod(p))]) == BitsOf(c) - {p}
  {
    var c' := c[Dig(p) := c[Dig(p)] & !Mask(Mod(p))];
    forall q
      ensures q in BitsOf(c') <==> q in BitsOf(c) - {p}
    {
      if 0 <= q < 8 * |c| {
        SetByte(c[Dig(p)], Mod(p), Mod(q));
        SameBit(p, q);
      }
    }
  }

  lemma GrowBits(c: seq<bv8>, n: nat)
    ensures BitsOf(c + seq(n, _ => 0)) == BitsOf(c)
  {
    var c' := c + seq(n, _ => 0);
    forall q
      ensures q in BitsOf(c') <==> q in BitsOf(c)
    {
      if 8 * |c| <= q < 8 * |c'| {
        SetByte(0, 0, Mod(q));
      }
    }
  }

  class Bitmap {
    var c: seq<bv8>

    /** The buffer only ever has aligned lengths. */
    ghost predicate Valid()
      reads `c
    {
      |c| % PREALLOC == 0
    }

    ghost function Bits(): set<nat>
      reads `c
    {
      BitsOf(c)
    }

    /** No longer than numbers up to m can make it. */
    ghost predicate Fits(m: nat)
      reads `c
    {
      |c| <= Align(Dig(m) + 1)
    }

    constructor ()
      ensures Valid() && Bits() == {} && c == []
    {
      c := [];
    }

    /** A copy of its own, which later changes to the source do not reach. */
    constructor Clone(src: Bitmap)
      requires src.Valid()
      ensures Valid() && c == src.c && Bits() == src.Bits()
    {
      c := src.c;
    }

    method Reserve(n: nat)
      requires Valid()
      modifies `c
      ensures Valid() && Bits() == old(Bits())
      ensures |c| == if n > old(|c|) then Align(n) else old(|c|)
    {
      if n > |c| {
        GrowBits(c, Align(n) - |c|);
        c := c + seq(Align(n) - |c|, _ => 0);
      }
    }

    method Set(p: nat)
      requires Valid()
      modifies `c
      ensures Valid() && Bits() == old(Bits()) + {p}
      ensures |c| == if Dig(p) + 1 > old(|c|) then Align(Dig(p) + 1) else old(|c|)
      ensures forall m | p <= m && old(Fits(m)) :: Fits(m)
    {
      Reserve(Dig(p) + 1);
      SetBits(c, p);
      forall m | p <= m
        ensures Align(Dig(p) + 1) <= Align(Dig(m) + 1)
      {
        AlignMonotone(Dig(p) + 1, Dig(m) + 1);
      }
      c := c[Dig(p) := c[Dig(p)] | Mask(Mod(p))];
    }

    method Unset(p: nat)
      requires Valid()
      modifies `c
      ensures Valid() && Bits() == old(Bits()) - {p} && |c| == old(|c|)
    {
      if Dig(p) < |c| {
        UnsetBits(c, p);
        c := c[Dig(p) := c[Dig(p)] & !Mask(Mod(p))];
      }
    }

    predicate Get(p: nat)
      reads `c
      ensures Get(p) <==> p in Bits()
    {
      if Dig(p) >= |c| then false else ByteHas(c[Dig(p)], Mod(p))
    }
  }

  /** A bitmap that holds only ids of a full segment stays within 12544 bytes. */
  lemma FullSegmentBytes(p: nat)
    requires p <= 100_000
    ensures Align(Dig(p) + 1) <= 12_544
  {
  }
}
