/** The hash table under every index: items in one doubly linked list in the order in
    which the application added them, and again in doubly linked chains, one a bucket. */
module UtHash {
  import opened Basics
  import opened Bits

  const HASH_INITIAL_NUM_BUCKETS: nat := 32
  const HASH_INITIAL_NUM_BUCKETS_LOG2: nat := 5
  const HASH_BKT_CAPACITY_THRESH: nat := 10

  type Key = string

  // ----- buckets as arithmetic -----

  /** Doubling the buckets splits each of them in two. */
  lemma SplitsInTwo(h: nat, n: nat)
    requires n > 0
    ensures h % (2 * n) == h % n || h % (2 * n) == h % n + n
  {
    var q, r := h / n, h % n;
    assert h == n * q + r;
    if q % 2 == 0 {
      assert h == (2 * n) * (q / 2) + r;
      ModIs(h, 2 * n, q / 2, r);
    } else {
      assert q == 2 * (q / 2) + 1;
      assert h == (2 * n) * (q / 2) + (r + n);
      ModIs(h, 2 * n, q / 2, r + n);
    }
  }

  /** The bucket of a hash value among n. */
  ghost function Slot(h: nat, n: nat): nat
    requires n > 0
  {
    if h < n then h else Slot(h - n, n)
  }

  lemma {:induction false} SlotIsMod(h: nat, n: nat)
    requires n > 0
    ensures Slot(h, n) == h % n
  {
    if h >= n {
      SlotIsMod(h - n, n);
      var q, r := (h - n) / n, (h - n) % n;
      assert h == n * (q + 1) + r;
      ModIs(h, n, q + 1, r);
    } else {
      ModIs(h, n, 0, h);
    }
  }

  /** What the mask selects is the bucket. */
  lemma MaskIsSlot(h: nat, k: nat)
    ensures Pow2(k) > 0 && BitAnd(h, Pow2(k) - 1) == Slot(h, Pow2(k)) == h % Pow2(k) < Pow2(k)
  {
    MaskIsMod(h, k);
    SlotIsMod(h, Pow2(k));
  }

  // ----- items and chains -----

  /** An element with its hash handle.  Its hash value is that of its key. */
  class Item {
    const key: Key
    const hashv: nat
    var prev: Item?
    var next: Item?
    var hhPrev: Item?
    var hhNext: Item?

    constructor (key: Key, hashv: nat)
      ensures this.key == key && this.hashv == hashv
    {
      this.key, this.hashv := key, hashv;
      prev, next, hhPrev, hhNext := null, null, null, null;
    }
  }

  datatype Bucket = Bucket(hhHead: Item?, count: nat, expandMult: nat)

  const EMPTY_BUCKET := Bucket(null, 0, 0)

  /** The items of a sequence that belong into bucket b out of n. */
  ghost function Chosen(order: seq<Item>, n: nat, b: nat): seq<Item>
    requires n > 0
  {
    if order == [] then []
    else
      var rest := Chosen(order[..|order| - 1], n, b);
      if Slot(order[|order| - 1].hashv, n) == b then rest + [order[|order| - 1]] else rest
  }

  lemma ChosenSnoc(order: seq<Item>, x: Item, n: nat, b: nat)
    requires n > 0
    ensures Chosen(order + [x], n, b) == Chosen(order, n, b) + if Slot(x.hashv, n) == b then [x] else []
  {
    assert (order + [x])[..|order|] == order;
  }

  lemma {:induction false} ChosenAt(order: seq<Item>, n: nat, b: nat)
    requires n > 0
    ensures var c := Chosen(order, n, b);
      && (forall i :: 0 <= i < |c| ==> c[i] in order && Slot(c[i].hashv, n) == b)
      && (forall x | x in c :: x in order && Slot(x.hashv, n) == b)
  {
    if order != [] {
      var m := |order| - 1;
      ChosenAt(order[..m], n, b);
      assert order == order[..m] + [order[m]];
      forall x | x in Chosen(order, n, b)
        ensures x in order && Slot(x.hashv, n) == b
      {
        assert x in Chosen(order[..m], n, b) || x == order[m];
      }
    }
    var c := Chosen(order, n, b);
    assert forall i :: 0 <= i < |c| ==> c[i] in c;
  }

  lemma {:induction false} ChosenHas(order: seq<Item>, n: nat, b: nat, x: Item)
    requires n > 0 && x in order && Slot(x.hashv, n) == b
    ensures x in Chosen(order, n, b)
  {
    if x != order[|order| - 1] {
      ElemsSnoc(order);
      assert x in Elems(order);
      ChosenHas(order[..|order| - 1], n, b, x);
    }
  }

  lemma {:induction false} ChosenDistinct(order: seq<Item>, n: nat, b: nat)
    requires n > 0 && Distinct(order)
    ensures Distinct(Chosen(order, n, b))
  {
    if order != [] {
      ElemsSnoc(order);
      ChosenAt(order[..|order| - 1], n, b);
      ChosenDistinct(order[..|order| - 1], n, b);
    }
  }

  lemma {:induction false} ChosenWithout(order: seq<Item>, x: Item, n: nat, b: nat)
    requires n > 0
    ensures Chosen(Without(order, x), n, b) == Without(Chosen(order, n, b), x)
  {
    if order != [] {
      var m := |order| - 1;
      ChosenWithout(order[..m], x, n, b);
      var y := order[m];
      if y != x {
        ChosenSnoc(Without(order[..m], x), y, n, b);
      }
      if Slot(y.hashv, n) == b {
        assert (Chosen(order[..m], n, b) + [y])[..|Chosen(order[..m], n, b)|] == Chosen(order[..m], n, b);
      }
    }
  }

  ghost function Head(c: seq<Item>): Item? {
    if c == [] then null else c[|c| - 1]
  }

  ghost predicate Within(c: seq<Item>, all: set<Item>) {
    forall i :: 0 <= i < |c| ==> c[i] in all
  }

  /** The items of a chain are linked from the last one to the first: new ones are put in
      front.  A chain is made of some of all the items. */
  ghost predicate NextLinks(c: seq<Item>, all: set<Item>)
    requires Within(c, all)
    reads all`hhNext
  {
    && (forall i, j :: 0 <= i && j == i + 1 < |c| ==> c[j].hhNext == c[i])
    && (c != [] ==> c[0].hhNext == null)
  }

  ghost predicate PrevLinks(c: seq<Item>, all: set<Item>)
    requires Within(c, all)
    reads all`hhPrev
  {
    && (forall i, j :: 0 <= i && j == i + 1 < |c| ==> c[i].hhPrev == c[j])
    && (c != [] ==> c[|c| - 1].hhPrev == null)
  }

  ghost predicate ChainOk(bkt: Bucket, c: seq<Item>, all: set<Item>)
    reads all`hhNext, all`hhPrev
  {
    Within(c, all) && bkt.count == |c| && bkt.hhHead == Head(c) && NextLinks(c, all) && PrevLinks(c, all) && Distinct(c)
  }

  /** Every bucket holds the chain of the items that belong into it.  Closed. */
  ghost predicate BucketsOk(buckets: seq<Bucket>, order: seq<Item>, all: set<Item>)
    reads all`hhNext, all`hhPrev
  {
    |buckets| > 0 && forall n :: Unlocked(BucketLock, n) ==>
      forall b | 0 <= b < |buckets| :: ChainOk(buckets[b], Chosen(order, |buckets|, b), all)
  }

  /** The chain of one bucket. */
  lemma ChainAt(buckets: seq<Bucket>, order: seq<Item>, all: set<Item>, b: nat)
    requires BucketsOk(buckets, order, all) && b < |buckets|
    ensures ChainOk(buckets[b], Chosen(order, |buckets|, b), all)
  {
    assert Unlocked(BucketLock, 0);
  }

  /** Puts an item in front of a chain. */
  method AddToBkt(bkt: Bucket, x: Item, ghost c: seq<Item>, ghost all: set<Item>) returns (r: Bucket)
    requires ChainOk(bkt, c, all) && x !in c && x in all
    modifies x`hhNext, x`hhPrev, (if c == [] then {} else {c[|c| - 1]})`hhPrev
    ensures ChainOk(r, c + [x], all) && r.expandMult == bkt.expandMult && r.count == bkt.count + 1
  {
    r := bkt.(count := bkt.count + 1);
    x.hhNext := bkt.hhHead;
    x.hhPrev := null;
    if bkt.hhHead != null {
      bkt.hhHead.hhPrev := x;
    }
    r := r.(hhHead := x);
  }

  /** The neighbours of a position are in a set. */
  ghost predicate Around(near: set<Item>, c: seq<Item>, k: nat) {
    (0 < k <= |c| ==> c[k - 1] in near) && (k + 1 < |c| ==> c[k + 1] in near)
  }

  lemma Neighbours(order: seq<Item>, n: nat, b: nat, k: nat, all: set<Item>) returns (near: set<Item>)
    requires n > 0 && Within(Chosen(order, n, b), all)
    ensures Around(near, Chosen(order, n, b), k) && forall y | y in near :: y in order && y in all && Slot(y.hashv, n) == b
  {
    var c := Chosen(order, n, b);
    ChosenAt(order, n, b);
    near := (if 0 < k <= |c| then {c[k - 1]} else {}) + (if k + 1 < |c| then {c[k + 1]} else {});
  }

  /** Takes the item at position k out of a chain. */
  method DelInBkt(bkt: Bucket, x: Item, ghost c: seq<Item>, ghost k: nat, ghost near: set<Item>, ghost all: set<Item>)
    returns (r: Bucket)
    requires ChainOk(bkt, c, all) && k < |c| && c[k] == x && Around(near, c, k)
    modifies near`hhNext, near`hhPrev
    ensures ChainOk(r, c[..k] + c[k + 1..], all) && r.expandMult == bkt.expandMult
  {
    r := bkt.(count := bkt.count - 1);
    assert k > 0 ==> x.hhNext == c[k - 1];
    assert k + 1 < |c| ==> x.hhPrev == c[k + 1];
    if r.hhHead == x {
      r := r.(hhHead := x.hhNext);
    }
    if x.hhPrev != null {
      x.hhPrev.hhNext := x.hhNext;
    }
    if x.hhNext != null {
      x.hhNext.hhPrev := x.hhPrev;
    }
  }

  // ----- all buckets -----

  lemma MoreItems(buckets: seq<Bucket>, order: seq<Item>, all: set<Item>, more: set<Item>)
    requires BucketsOk(buckets, order, all) && all <= more
    ensures BucketsOk(buckets, order, more)
  {
    assert Unlocked(BucketLock, 0);
    forall b | 0 <= b < |buckets|
      ensures ChainOk(buckets[b], Chosen(order, |buckets|, b), more)
    {
      assert ChainOk(buckets[b], Chosen(order, |buckets|, b), all);
    }
  }

  /** Puts an item into the bucket that its hash value names. */
  method AddToBuckets(buckets: array<Bucket>, x: Item, ghost log2: nat, ghost order: seq<Item>, ghost all: set<Item>)
    returns (b: nat)
    requires buckets.Length == Pow2(log2) && BucketsOk(buckets[..], order, all) && x in all && x !in order
    modifies buckets, x`hhNext, x`hhPrev, (set y | y in all && y in order)`hhPrev
    ensures BucketsOk(buckets[..], order + [x], all) && b == Slot(x.hashv, buckets.Length)
    ensures b < buckets.Length && forall d | 0 <= d < buckets.Length && d != b :: buckets[d] == old(buckets[d])
    ensures buckets[b].expandMult == old(buckets[b].expandMult) && buckets[b].count == old(buckets[b].count) + 1
  {
    MaskIsSlot(x.hashv, log2);
    b := BitAnd(x.hashv, buckets.Length - 1);
    ghost var n := buckets.Length;
    ghost var c := Chosen(order, n, b);
    ChosenAt(order, n, b);
    assert Unlocked(BucketLock, 0) && ChainOk(buckets[..][b], c, all);
    var r := AddToBkt(buckets[b], x, c, all);
    buckets[b] := r;
    forall d | 0 <= d < n
      ensures ChainOk(buckets[..][d], Chosen(order + [x], n, d), all)
    {
      ChosenSnoc(order, x, n, d);
      if d != b {
        ghost var c' := Chosen(order, n, d);
        assert old(ChainOk(buckets[..][d], c', all));
        ChosenAt(order, n, d);
        assert c' + [] == c';
      }
    }
  }

  /** Takes an item out of the bucket that its hash value names. */
  method DelInBuckets(buckets: array<Bucket>, x: Item, ghost log2: nat, ghost order: seq<Item>, ghost all: set<Item>)
    requires buckets.Length == Pow2(log2) && BucketsOk(buckets[..], order, all) && Distinct(order) && x in order
    modifies buckets, (set y | y in all && y in order)`hhNext, (set y | y in all && y in order)`hhPrev
    ensures BucketsOk(buckets[..], Without(order, x), all)
  {
    MaskIsSlot(x.hashv, log2);
    var b := BitAnd(x.hashv, buckets.Length - 1);
    ghost var c := Chosen(order, buckets.Length, b);
    ChosenHas(order, buckets.Length, b, x);
    ghost var k :| 0 <= k < |c| && c[k] == x;
    DelInOne(buckets, x, b, k, order, all);
    WithoutChains(buckets[..], order, x, b, k, all);
  }

  method DelInOne(buckets: array<Bucket>, x: Item, b: nat, ghost k: nat, ghost order: seq<Item>, ghost all: set<Item>)
    requires BucketsOk(buckets[..], order, all) && b < buckets.Length
    requires var c := Chosen(order, buckets.Length, b); k < |c| && c[k] == x
    modifies buckets, (set y | y in all && y in order)`hhNext, (set y | y in all && y in order)`hhPrev
    ensures ChainOk(buckets[b], var c := Chosen(order, buckets.Length, b); c[..k] + c[k + 1..], all)
    ensures forall d | 0 <= d < buckets.Length && d != b :: ChainOk(buckets[d], Chosen(order, buckets.Length, d), all)
  {
    ghost var n := buckets.Length;
    ghost var c := Chosen(order, n, b);
    assert Unlocked(BucketLock, 0) && ChainOk(buckets[..][b], c, all);
    ghost var near := Neighbours(order, n, b, k, all);
    var r := DelInBkt(buckets[b], x, c, k, near, all);
    buckets[b] := r;
    forall d | 0 <= d < n && d != b
      ensures ChainOk(buckets[d], Chosen(order, n, d), all)
    {
      ghost var c' := Chosen(order, n, d);
      assert old(ChainOk(buckets[..][d], c', all));
      ChosenAt(order, n, d);
    }
  }

  lemma WithoutChains(buckets: seq<Bucket>, order: seq<Item>, x: Item, b: nat, k: nat, all: set<Item>)
    requires b < |buckets| && Distinct(order)
    requires var c := Chosen(order, |buckets|, b); k < |c| && c[k] == x && ChainOk(buckets[b], c[..k] + c[k + 1..], all)
    requires forall d | 0 <= d < |buckets| && d != b :: ChainOk(buckets[d], Chosen(order, |buckets|, d), all)
    ensures BucketsOk(buckets, Without(order, x), all)
  {
    var n := |buckets|;
    ChosenDistinct(order, n, b);
    ChosenAt(order, n, b);
    WithoutAt(Chosen(order, n, b), k);
    forall d | 0 <= d < n
      ensures ChainOk(buckets[d], Chosen(Without(order, x), n, d), all)
    {
      ChosenWithout(order, x, n, d);
      if d != b {
        ChosenAt(order, n, d);
        WithoutNothing(Chosen(order, n, d), x);
      }
    }
  }

  // ----- doubling the buckets -----

  /** By how much a bucket's limit is stretched after it has received c items. */
  ghost function Mult(c: nat, ideal: nat): nat {
    if c == 0 then 0
    else
      var m := Mult(c - 1, ideal);
      if c > ideal && c > m * ideal then m + 1 else m
  }

  /** How many items have more items behind them in their chain than is ideal. */
  ghost function Excess(moved: seq<Item>, n: nat, ideal: nat): nat
    requires n > 0
  {
    if moved == [] then 0
    else
      Excess(moved[..|moved| - 1], n, ideal) +
      if |Chosen(moved, n, Slot(moved[|moved| - 1].hashv, n))| > ideal then 1 else 0
  }

  /** By how much the first m chains are longer than ideal, taken together. */
  ghost function Surplus(order: seq<Item>, n: nat, ideal: nat, m: nat): nat
    requires n > 0
  {
    if m == 0 then 0
    else
      var length := |Chosen(order, n, m - 1)|;
      Surplus(order, n, ideal, m - 1) + if length > ideal then length - ideal else 0
  }

  lemma {:induction false} SurplusSnoc(order: seq<Item>, x: Item, n: nat, ideal: nat, m: nat)
    requires n > 0
    ensures var b := Slot(x.hashv, n);
      Surplus(order + [x], n, ideal, m) ==
      Surplus(order, n, ideal, m) + if b < m && |Chosen(order + [x], n, b)| > ideal then 1 else 0
  {
    if m > 0 {
      SurplusSnoc(order, x, n, ideal, m - 1);
      ChosenSnoc(order, x, n, m - 1);
    }
  }

  /** The items counted one by one while they are moved are the surplus of all chains. */
  lemma {:induction false} ExcessIsSurplus(moved: seq<Item>, n: nat, ideal: nat)
    requires n > 0
    ensures Excess(moved, n, ideal) == Surplus(moved, n, ideal, n)
  {
    if moved == [] {
      NoSurplus(n, ideal, n);
    } else {
      var k := |moved| - 1;
      ExcessIsSurplus(moved[..k], n, ideal);
      assert moved == moved[..k] + [moved[k]];
      SurplusSnoc(moved[..k], moved[k], n, ideal, n);
      SlotIsMod(moved[k].hashv, n);
    }
  }

  lemma {:induction false} NoSurplus(n: nat, ideal: nat, m: nat)
    requires n > 0
    ensures Surplus([], n, ideal, m) == 0
  {
    if m > 0 {
      NoSurplus(n, ideal, m - 1);
    }
  }

  /** The stretched limit covers the chain, and is not larger than that calls for. */
  lemma {:induction false} MultCovers(c: nat, ideal: nat)
    ensures c <= ideal ==> Mult(c, ideal) == 0
    ensures ideal > 0 ==> c <= (Mult(c, ideal) + 1) * ideal
    ensures Mult(c, ideal) > 0 ==> (Mult(c, ideal) - 1) * ideal < c
  {
    if c > 0 {
      MultCovers(c - 1, ideal);
    }
  }

  ghost predicate Stretched(buckets: seq<Bucket>, ideal: nat) {
    forall b | 0 <= b < |buckets| :: buckets[b].expandMult == Mult(buckets[b].count, ideal)
  }

  /** The limit of a bucket covers its chain, and is not larger than that calls for. */
  ghost predicate Covers(bkt: Bucket, ideal: nat) {
    && (bkt.count <= ideal ==> bkt.expandMult == 0)
    && (ideal > 0 ==> bkt.count <= (bkt.expandMult + 1) * ideal)
    && (bkt.expandMult > 0 ==> (bkt.expandMult - 1) * ideal < bkt.count)
  }

  ghost predicate AllCover(buckets: seq<Bucket>, ideal: nat) {
    forall b | 0 <= b < |buckets| :: Covers(buckets[b], ideal)
  }

  lemma StretchedCovers(buckets: seq<Bucket>, ideal: nat)
    requires Stretched(buckets, ideal)
    ensures AllCover(buckets, ideal)
  {
    forall b | 0 <= b < |buckets|
      ensures Covers(buckets[b], ideal)
    {
      MultCovers(buckets[b].count, ideal);
    }
  }

  ghost predicate StretchedMore(a: Bucket, b: Bucket, ideal: nat) {
    && b.count == a.count + 1
    && b.expandMult == if b.count > ideal && b.count > a.expandMult * ideal then a.expandMult + 1 else a.expandMult
  }

  lemma StretchedNext(a: seq<Bucket>, k: nat, b: Bucket, ideal: nat)
    requires Stretched(a, ideal) && k < |a| && StretchedMore(a[k], b, ideal)
    ensures Stretched(a[k := b], ideal)
  {
  }

  /** Moves one item into the new buckets. */
  method MoveItem(newBuckets: array<Bucket>, x: Item, ideal: nat, nonideal: nat,
                  ghost log2: nat, ghost moved: seq<Item>, ghost all: set<Item>)
    returns (nonideal': nat)
    requires newBuckets.Length == Pow2(log2) && BucketsOk(newBuckets[..], moved, all) && x in all && x !in moved
    requires Stretched(newBuckets[..], ideal) && nonideal == Excess(moved, newBuckets.Length, ideal)
    modifies newBuckets, x`hhNext, x`hhPrev, (set y | y in all && y in moved)`hhPrev
    ensures BucketsOk(newBuckets[..], moved + [x], all)
    ensures Stretched(newBuckets[..], ideal) && nonideal' == Excess(moved + [x], newBuckets.Length, ideal)
  {
    ghost var n := newBuckets.Length;
    ghost var start := newBuckets[..];
    var b := AddToBuckets(newBuckets, x, log2, moved, all);
    ChainAt(newBuckets[..], moved + [x], all, b);
    assert (moved + [x])[..|moved|] == moved;
    nonideal' := nonideal;
    var r := newBuckets[b];
    if r.count > ideal {
      nonideal' := nonideal' + 1;
      if r.count > r.expandMult * ideal {
        r := r.(expandMult := r.expandMult + 1);
      }
    }
    ghost var before := newBuckets[..];
    StretchOk(before, moved + [x], all, b, r.expandMult);
    newBuckets[b] := r;
    StretchedNext(start, b, r, ideal);
    assert newBuckets[..] == before[b := r] == start[b := r];
    assert BucketsOk(newBuckets[..], moved + [x], all);
  }

  /** The limit of a bucket does not concern its links. */
  lemma StretchOk(buckets: seq<Bucket>, order: seq<Item>, all: set<Item>, b: nat, mult: nat)
    requires BucketsOk(buckets, order, all) && b < |buckets|
    ensures BucketsOk(buckets[b := buckets[b].(expandMult := mult)], order, all)
  {
    assert Unlocked(BucketLock, 0);
    var buckets' := buckets[b := buckets[b].(expandMult := mult)];
    forall d | 0 <= d < |buckets|
      ensures ChainOk(buckets'[d], Chosen(order, |buckets|, d), all)
    {
      assert ChainOk(buckets[d], Chosen(order, |buckets|, d), all);
    }
  }

  /** An old chain that is still to be moved: only its forward links count. */
  ghost predicate ToMove(bkt: Bucket, c: seq<Item>, all: set<Item>)
    reads all`hhNext
  {
    Within(c, all) && bkt.hhHead == Head(c) && NextLinks(c, all) && Distinct(c)
  }

  /** Moves the items of one chain, first to last. */
  method MoveChain(bkt: Bucket, newBuckets: array<Bucket>, ideal: nat, nonideal: nat,
                   ghost c: seq<Item>, ghost log2: nat, ghost moved: seq<Item>, ghost all: set<Item>)
    returns (nonideal': nat, ghost moved': seq<Item>)
    requires ToMove(bkt, c, all) && newBuckets.Length == Pow2(log2) && BucketsOk(newBuckets[..], moved, all)
    requires Stretched(newBuckets[..], ideal) && nonideal == Excess(moved, newBuckets.Length, ideal)
    requires Distinct(moved) && Elems(moved) !! Elems(c)
    modifies newBuckets, (set y | y in all && y in c)`hhNext, all`hhPrev
    ensures BucketsOk(newBuckets[..], moved', all) && Stretched(newBuckets[..], ideal)
    ensures nonideal' == Excess(moved', newBuckets.Length, ideal)
    ensures Distinct(moved') && Elems(moved') == Elems(moved) + Elems(c)
  {
    nonideal', moved' := nonideal, moved;
    var thh := bkt.hhHead;
    ghost var k := |c|;
    while thh != null
      invariant 0 <= k <= |c| && thh == Head(c[..k]) && Within(c[..k], all) && NextLinks(c[..k], all)
      invariant BucketsOk(newBuckets[..], moved', all) && Stretched(newBuckets[..], ideal)
      invariant nonideal' == Excess(moved', newBuckets.Length, ideal)
      invariant Distinct(moved') && Elems(moved') == Elems(moved) + Elems(c[k..])
      decreases k
    {
      k := k - 1;
      StillToMove(c, k, moved, moved', all);
      assert c[..k + 1][..k] == c[..k];
      assert thh == c[k] && thh.hhNext == Head(c[..k]);
      var nxt := thh.hhNext;
      assert NextLinks(c[..k], all);
      nonideal' := MoveItem(newBuckets, thh, ideal, nonideal', log2, moved', all);
      moved' := moved' + [thh];
      thh := nxt;
    }
    assert c[k..] == c;
  }

  lemma StillToMove(c: seq<Item>, k: nat, moved: seq<Item>, moved': seq<Item>, all: set<Item>)
    requires k < |c| && Distinct(c) && Within(c, all) && Elems(moved) !! Elems(c)
    requires Distinct(moved') && Elems(moved') == Elems(moved) + Elems(c[k + 1..])
    ensures c[k] in all && c[k] !in moved' && c[k] !in c[..k]
    ensures Distinct(moved' + [c[k]]) && Elems(moved' + [c[k]]) == Elems(moved) + Elems(c[k..])
  {
    assert c[k] in Elems(c) && c[k] !in Elems(moved);
    assert c[k] !in c[k + 1..];
    assert c[k] !in Elems(moved');
    assert c[k..] == [c[k]] + c[k + 1..];
    ElemsPush(moved', c[k]);
  }

  /** The old chains from bucket i on are still to be moved.  Closed. */
  ghost predicate Remaining(buckets: seq<Bucket>, order: seq<Item>, i: nat, all: set<Item>)
    reads all`hhNext
  {
    |buckets| > 0 && forall n :: Unlocked(BucketLock, n) ==>
      forall b | i <= b < |buckets| :: ToMove(buckets[b], Chosen(order, |buckets|, b), all)
  }

  lemma AllRemains(buckets: seq<Bucket>, order: seq<Item>, all: set<Item>)
    requires BucketsOk(buckets, order, all)
    ensures Remaining(buckets, order, 0, all)
  {
    assert Unlocked(BucketLock, 0);
    forall b | 0 <= b < |buckets|
      ensures ToMove(buckets[b], Chosen(order, |buckets|, b), all)
    {
      assert ChainOk(buckets[b], Chosen(order, |buckets|, b), all);
    }
  }

  /** The items of the buckets before i. */
  ghost function Before(order: seq<Item>, n: nat, i: nat): set<Item>
    requires n > 0
  {
    set x | x in order && Slot(x.hashv, n) < i
  }

  lemma BeforeNext(order: seq<Item>, n: nat, i: nat)
    requires i < n
    ensures Before(order, n, i + 1) == Before(order, n, i) + Elems(Chosen(order, n, i))
    ensures Before(order, n, i) !! Elems(Chosen(order, n, i))
  {
    ChosenAt(order, n, i);
    forall x | x in order && Slot(x.hashv, n) == i
      ensures x in Chosen(order, n, i)
    {
      ChosenHas(order, n, i, x);
    }
  }

  lemma BeforeAll(order: seq<Item>, n: nat)
    requires n > 0
    ensures Before(order, n, n) == Elems(order)
  {
    forall x | x in order
      ensures Slot(x.hashv, n) < n
    {
      SlotIsMod(x.hashv, n);
    }
  }

  /** Moves the chain of one old bucket; the chains of the later ones are as before. */
  method MoveBucket(buckets: array<Bucket>, i: nat, newBuckets: array<Bucket>, ideal: nat, nonideal: nat,
                    ghost order: seq<Item>, ghost log2: nat, ghost moved: seq<Item>, ghost all: set<Item>)
    returns (nonideal': nat, ghost moved': seq<Item>)
    requires i < buckets.Length && Remaining(buckets[..], order, i, all) && buckets != newBuckets
    requires newBuckets.Length == Pow2(log2) && BucketsOk(newBuckets[..], moved, all)
    requires Stretched(newBuckets[..], ideal) && nonideal == Excess(moved, newBuckets.Length, ideal)
    requires Distinct(moved) && Elems(moved) == Before(order, buckets.Length, i)
    modifies newBuckets, all`hhNext, all`hhPrev
    ensures Remaining(buckets[..], order, i + 1, all)
    ensures BucketsOk(newBuckets[..], moved', all) && Stretched(newBuckets[..], ideal)
    ensures nonideal' == Excess(moved', newBuckets.Length, ideal)
    ensures Distinct(moved') && Elems(moved') == Before(order, buckets.Length, i + 1)
  {
    ghost var n := buckets.Length;
    ghost var c := Chosen(order, n, i);
    assert ToMove(buckets[..][i], c, all) by { assert Unlocked(BucketLock, 0); }
    ChosenAt(order, n, i);
    BeforeNext(order, n, i);
    nonideal', moved' := MoveChain(buckets[i], newBuckets, ideal, nonideal, c, log2, moved, all);
    forall b | i + 1 <= b < n
      ensures ToMove(buckets[..][b], Chosen(order, n, b), all)
    {
      assert old(ToMove(buckets[..][b], Chosen(order, n, b), all)) by { assert Unlocked(BucketLock, 0); }
      ChosenAt(order, n, b);
    }
  }

  /** The chain length when all chains are equally long: items by buckets, rounded up. */
  ghost predicate IsIdeal(ideal: nat, items: nat, n: nat) {
    items <= ideal * n && (ideal > 0 ==> (ideal - 1) * n < items)
  }

  lemma IdealIs(items: nat, k: nat)
    ensures Pow2(k) > 0
    ensures IsIdeal(Shr(items, k) + if BitAnd(items, Pow2(k) - 1) != 0 then 1 else 0, items, Pow2(k))
  {
    ShrIsDiv(items, k);
    MaskIsMod(items, k);
    RoundedUp(items, Pow2(k));
  }

  lemma RoundedUp(items: nat, n: nat)
    requires n > 0
    ensures IsIdeal(items / n + if items % n != 0 then 1 else 0, items, n)
  {
    var q, r := items / n, items % n;
    assert items == n * q + r;
    assert (q + 1) * n == n * q + n;
    assert q > 0 ==> (q - 1) * n == n * q - n;
  }

  /** Twice as many buckets, into which the items of the old ones are distributed. */
  method ExpandBuckets(buckets: array<Bucket>, numItems: nat, log2: nat, ghost order: seq<Item>, ghost all: set<Item>)
    returns (newBuckets: array<Bucket>, ideal: nat, nonideal: nat, ghost moved: seq<Item>)
    requires buckets.Length == Pow2(log2) && BucketsOk(buckets[..], order, all)
    modifies all`hhNext, all`hhPrev
    ensures fresh(newBuckets) && newBuckets.Length == 2 * buckets.Length == Pow2(log2 + 1)
    ensures BucketsOk(newBuckets[..], moved, all) && Distinct(moved) && Elems(moved) == Elems(order)
    ensures IsIdeal(ideal, numItems, newBuckets.Length) && Stretched(newBuckets[..], ideal)
    ensures nonideal == Excess(moved, newBuckets.Length, ideal)
  {
    var n := buckets.Length;
    newBuckets := new Bucket[2 * n](_ => EMPTY_BUCKET);
    IdealIs(numItems, log2 + 1);
    ideal := Shr(numItems, log2 + 1) + if BitAnd(numItems, 2 * n - 1) != 0 then 1 else 0;
    nonideal, moved := 0, [];
    NoneMoved(newBuckets[..], ideal, all);
    AllRemains(buckets[..], order, all);
    var i := 0;
    while i < n
      invariant 0 <= i <= n && Remaining(buckets[..], order, i, all)
      invariant BucketsOk(newBuckets[..], moved, all) && Stretched(newBuckets[..], ideal)
      invariant nonideal == Excess(moved, newBuckets.Length, ideal)
      invariant Distinct(moved) && Elems(moved) == Before(order, n, i)
    {
      nonideal, moved := MoveBucket(buckets, i, newBuckets, ideal, nonideal, order, log2 + 1, moved, all);
      i := i + 1;
    }
    BeforeAll(order, n);
  }

  lemma NoneMoved(buckets: seq<Bucket>, ideal: nat, all: set<Item>)
    requires |buckets| > 0 && forall b | 0 <= b < |buckets| :: buckets[b] == EMPTY_BUCKET
    ensures BucketsOk(buckets, [], all) && Stretched(buckets, ideal) && Excess([], |buckets|, ideal) == 0
  {
  }

  // ----- finding -----

  /** Searches a chain from its head. */
  method FindInBkt(bkt: Bucket, key: Key, hashv: nat, ghost c: seq<Item>, ghost all: set<Item>) returns (out: Item?)
    requires ToMove(bkt, c, all) && forall i :: 0 <= i < |c| && c[i].key == key ==> c[i].hashv == hashv
    ensures if out == null then forall i :: 0 <= i < |c| ==> c[i].key != key else out in c && out.key == key
  {
    out := bkt.hhHead;
    ghost var k := |c|;
    while out != null
      invariant 0 <= k <= |c| && out == Head(c[..k])
      invariant forall i :: k <= i < |c| ==> c[i].key != key
      decreases k
    {
      k := k - 1;
      assert out == c[k] && out in c;
      if out.hashv == hashv && out.key == key {
        return;
      }
      assert out.hhNext == Head(c[..k]) by {
        assert k > 0 ==> c[k].hhNext == c[k - 1];
      }
      out := out.hhNext;
    }
  }

  // ----- the written invariant -----

  /** The links from each item of a chain to the one in front of it, from position k on. */
  ghost predicate PrevFrom(c: seq<Item>, k: nat)
    reads c`hhPrev
  {
    forall i: nat :: k <= i < |c| ==> c[i].hhPrev == Behind(c, i)
  }

  ghost function Behind(c: seq<Item>, i: nat): Item? {
    if i + 1 < |c| then c[i + 1] else null
  }

  ghost function InFront(items: seq<Item>, i: nat): Item? {
    if 0 < i <= |items| then items[i - 1] else null
  }

  lemma PrevOne(c: seq<Item>, k: nat)
    requires k < |c|
    ensures PrevFrom(c, k) <==> PrevFrom(c, k + 1) && c[k].hhPrev == Behind(c, k)
  {
  }

  lemma BackwardOne(items: seq<Item>, k: nat)
    requires k < |items|
    ensures Backward(items, k + 1) <==> Backward(items, k) && items[k].prev == InFront(items, k)
  {
  }

  /** Walks a chain, checks its backward links and counts it. */
  method FsckBucket(bkt: Bucket, ghost c: seq<Item>, ghost all: set<Item>) returns (ok: bool, count: nat)
    requires ToMove(bkt, c, all)
    ensures count == |c| && (ok <==> PrevFrom(c, 0) && bkt.count == |c|)
  {
    ok, count := true, 0;
    var prev: Item? := null;
    var thh := bkt.hhHead;
    ghost var k := |c|;
    while thh != null
      invariant 0 <= k <= |c| && count == |c| - k && thh == Head(c[..k]) && (ok <==> PrevFrom(c, k))
      invariant k > 0 ==> prev == Behind(c, k - 1)
      decreases k
    {
      k := k - 1;
      assert thh == c[k];
      assert k > 0 ==> c[k].hhNext == c[k - 1];
      PrevOne(c, k);
      if prev != thh.hhPrev {
        ok := false;
      }
      count := count + 1;
      prev := thh;
      thh := thh.hhNext;
    }
    if bkt.count != count {
      ok := false;
    }
  }

  /** The list can be walked forwards. */
  ghost predicate Forward(items: seq<Item>)
    reads items`next
  {
    && (forall i, j :: 0 <= i && j == i + 1 < |items| ==> items[i].next == items[j])
    && (items != [] ==> items[|items| - 1].next == null)
    && Distinct(items)
  }

  /** The links from each of the first k items to the one before it. */
  ghost predicate Backward(items: seq<Item>, k: nat)
    requires k <= |items|
    reads items`prev
  {
    forall i: nat :: i < k ==> items[i].prev == InFront(items, i)
  }

  /** Walks the list, checks its backward links and counts it. */
  method FsckList(head: Item?, ghost items: seq<Item>) returns (ok: bool, count: nat)
    requires Forward(items) && items != [] && head == items[0]
    ensures count == |items| && (ok <==> Backward(items, |items|))
  {
    ok, count := true, 0;
    var prev: Item? := null;
    var thh := head;
    while thh != null
      invariant 0 <= count <= |items| && (ok <==> Backward(items, count))
      invariant thh == if count == |items| then null else items[count]
      invariant prev == InFront(items, count)
      decreases |items| - count
    {
      assert count + 1 < |items| ==> items[count].next == items[count + 1];
      BackwardOne(items, count);
      if prev != thh.prev {
        ok := false;
      }
      count := count + 1;
      prev := thh;
      thh := thh.next;
    }
  }

  /** The first n chains are as long as their buckets say, and linked backwards. */
  ghost predicate ChainsChecked(buckets: seq<Bucket>, order: seq<Item>, n: nat)
    requires n <= |buckets|
    reads order`hhPrev
  {
    forall b | 0 <= b < n :: BucketChecked(buckets[b], order, |buckets|, b)
  }

  ghost predicate BucketChecked(bkt: Bucket, order: seq<Item>, n: nat, b: nat)
    requires n > 0
    reads order`hhPrev
  {
    ChosenAt(order, n, b);
    PrevFrom(Chosen(order, n, b), 0) && bkt.count == |Chosen(order, n, b)|
  }

  lemma BeforeCount(order: seq<Item>, n: nat, i: nat)
    requires i < n && Distinct(order)
    ensures |Before(order, n, i + 1)| == |Before(order, n, i)| + |Chosen(order, n, i)|
  {
    BeforeNext(order, n, i);
    ChosenDistinct(order, n, i);
    DistinctSize(Chosen(order, n, i));
  }

  // ----- the list in application order -----

  ghost predicate AppLinks(items: seq<Item>)
    reads items`prev, items`next
  {
    && (forall i, j :: 0 <= i && j == i + 1 < |items| ==> items[i].next == items[j] && items[j].prev == items[i])
    && (items != [] ==> items[0].prev == null && items[|items| - 1].next == null)
    && Distinct(items)
  }

  /** Appends an item to a list that is not empty. */
  method AppendList(tail: Item, x: Item, ghost items: seq<Item>)
    requires AppLinks(items) && items != [] && tail == items[|items| - 1] && x !in items
    modifies x`next, x`prev, tail`next
    ensures AppLinks(items + [x])
  {
    x.next := null;
    x.prev := tail;
    tail.next := x;
  }

  /** Links the neighbours of the item at position k to each other. */
  method UnlinkApp(x: Item, ghost items: seq<Item>, ghost k: nat)
    requires AppLinks(items) && k < |items| && items[k] == x
    modifies items`prev, items`next
    ensures AppLinks(items[..k] + items[k + 1..])
  {
    assert k > 0 ==> x.prev == items[k - 1];
    assert k + 1 < |items| ==> x.next == items[k + 1];
    if x.prev != null {
      x.prev.next := x.next;
    }
    if x.next != null {
      x.next.prev := x.prev;
    }
    ghost var rest := items[..k] + items[k + 1..];
    forall i, j | 0 <= i && j == i + 1 < |rest|
      ensures rest[i].next == rest[j] && rest[j].prev == rest[i]
    {
      if j < k {
        assert rest[i] == items[i] && rest[j] == items[j];
      } else if i < k {
        assert rest[i] == items[k - 1] && rest[j] == items[k + 1];
      } else {
        assert rest[i] == items[i + 1] && rest[j] == items[j + 1];
      }
    }
  }

  // ----- the table -----

  ghost predicate UniqueKeys(items: seq<Item>) {
    forall x, y | x in items && y in items && x.key == y.key :: x == y
  }

  /** The first item of the list with a key: what a linear scan finds. */
  ghost function Scan(items: seq<Item>, key: Key): Item? {
    if items == [] then null else if items[0].key == key then items[0] else Scan(items[1..], key)
  }

  lemma {:induction false} ScanFinds(items: seq<Item>, key: Key)
    ensures var r := Scan(items, key); if r == null then forall x | x in items :: x.key != key else r in items && r.key == key
  {
    if items != [] {
      ScanFinds(items[1..], key);
      assert items == [items[0]] + items[1..];
    }
  }

  class Table {
    const hash: Key -> nat
    var head: Item?
    var tail: Item?
    var buckets: array<Bucket>
    var log2: nat
    var numItems: nat
    var idealChainMaxlen: nat
    var nonidealItems: nat
    var ineffExpands: nat
    var noexpand: bool
    ghost var items: seq<Item>     // in the order of the application
    ghost var order: seq<Item>     // in the order of the chains

    /** The links and counters are those of the list, and every item is in its bucket. */
    ghost predicate Valid()
      reads this, buckets, items`prev, items`next, Elems(items)`hhNext, Elems(items)`hhPrev
    {
      && (head == null <==> items == [])
      && (forall x | x in items :: x.hashv == hash(x.key))
      && (items != [] ==> Linked() && Hashed())
    }

    ghost predicate Linked()
      reads this, items`prev, items`next
    {
      items != [] && head == items[0] && tail == items[|items| - 1] && AppLinks(items) && numItems == |items|
    }

    ghost predicate Hashed()
      reads this, buckets, Elems(items)`hhNext, Elems(items)`hhPrev
    {
      && buckets.Length == Pow2(log2)
      && Distinct(order) && Elems(order) == Elems(items)
      && BucketsOk(buckets[..], order, Elems(items))
    }

    constructor (hash: Key -> nat)
      ensures Valid() && items == [] && this.hash == hash
    {
      this.hash := hash;
      head, tail, buckets := null, null, new Bucket[0];
      log2, numItems, idealChainMaxlen, nonidealItems, ineffExpands, noexpand := 0, 0, 0, 0, 0, false;
      items, order := [], [];
    }

    /** Doubles the buckets, unless that has twice been of no use. */
    method Expand()
      requires Hashed()
      modifies this`buckets, this`log2, this`idealChainMaxlen, this`nonidealItems, this`ineffExpands, this`noexpand, this`order
      modifies Elems(items)`hhNext, Elems(items)`hhPrev
      ensures Hashed() && fresh(buckets) && buckets.Length == 2 * old(buckets.Length)
      ensures IsIdeal(idealChainMaxlen, numItems, buckets.Length) && Stretched(buckets[..], idealChainMaxlen)
      ensures AllCover(buckets[..], idealChainMaxlen)
      ensures nonidealItems == Surplus(order, buckets.Length, idealChainMaxlen, buckets.Length)
      ensures ineffExpands == if nonidealItems > numItems / 2 then old(ineffExpands) + 1 else 0
      ensures noexpand == (old(noexpand) || ineffExpands > 1)
    {
      Distribute();
      StretchedCovers(buckets[..], idealChainMaxlen);
      ExcessIsSurplus(order, buckets.Length, idealChainMaxlen);
      ShrIsDiv(numItems, 1);
      ineffExpands := if nonidealItems > Shr(numItems, 1) then ineffExpands + 1 else 0;
      if ineffExpands > 1 {
        noexpand := true;
      }
    }

    method Distribute()
      requires Hashed()
      modifies this`buckets, this`log2, this`idealChainMaxlen, this`nonidealItems, this`order
      modifies Elems(items)`hhNext, Elems(items)`hhPrev
      ensures Hashed() && fresh(buckets) && buckets.Length == 2 * old(buckets.Length)
      ensures IsIdeal(idealChainMaxlen, numItems, buckets.Length) && Stretched(buckets[..], idealChainMaxlen)
      ensures nonidealItems == Excess(order, buckets.Length, idealChainMaxlen)
    {
      buckets, idealChainMaxlen, nonidealItems, order := ExpandBuckets(buckets, numItems, log2, order, Elems(items));
      log2 := log2 + 1;
    }

    /** Adds an item: last in the list, first in its chain. */
    method Add(x: Item)
      requires Valid() && x !in items && x.hashv == hash(x.key)
      modifies this, buckets, items, x
      ensures Valid() && items == old(items) + [x]
      ensures old(items) == [] ==> buckets.Length == 32 && !noexpand
      ensures old(items) != [] ==> var b := Slot(x.hashv, old(buckets.Length));
        && b < old(buckets.Length)
        && buckets.Length == if !old(noexpand) && old(buckets[b].count) + 1 >= (old(buckets[b].expandMult) + 1) * 10
             then 2 * old(buckets.Length) else old(buckets.Length)
    {
      Enlist(x);
      AddToTable(x);
    }

    /** Puts an item into the list, of a new table when there is none. */
    method Enlist(x: Item)
      requires Valid() && x !in items
      modifies this, x`prev, x`next, items`next
      ensures items == old(items) + [x] && head == items[0] && tail == x && AppLinks(items) && numItems == |items| - 1
      ensures if old(items) == [] then fresh(buckets) && buckets.Length == 32 && !noexpand else buckets == old(buckets) && noexpand == old(noexpand)
      ensures old(items) == [] ==> forall b | 0 <= b < buckets.Length :: buckets[b] == EMPTY_BUCKET
      ensures x !in order && Distinct(order) && Elems(items) == Elems(order) + {x}
      ensures buckets.Length == Pow2(log2) && BucketsOk(buckets[..], order, Elems(items))
    {
      if head == null {
        MakeTable(x);
        assert Elems([x]) == {x};
      } else {
        Append(x);
      }
    }

    /** A table for a first item, which is not in a bucket yet. */
    method MakeTable(x: Item)
      requires items == []
      modifies this, x`prev, x`next
      ensures head == tail == x && items == [x] && AppLinks(items) && numItems == 0 && order == []
      ensures fresh(buckets) && buckets.Length == Pow2(log2) && BucketsOk(buckets[..], order, Elems(items))
      ensures buckets.Length == 32 && !noexpand && forall b | 0 <= b < buckets.Length :: buckets[b] == EMPTY_BUCKET
    {
      x.next, x.prev := null, null;
      tail, head := x, x;
      buckets := new Bucket[HASH_INITIAL_NUM_BUCKETS](_ => EMPTY_BUCKET);
      log2 := HASH_INITIAL_NUM_BUCKETS_LOG2;
      numItems, idealChainMaxlen, nonidealItems, ineffExpands, noexpand := 0, 0, 0, 0, false;
      items, order := [x], [];
      NoneMoved(buckets[..], 0, Elems(items));
      assert Pow2(5) == 2 * Pow2(4) == 4 * Pow2(3) == 8 * Pow2(2);
    }

    /** Appends an item to the list; it is not in a bucket yet. */
    method Append(x: Item)
      requires Linked() && Hashed() && x !in items
      modifies this`tail, this`items, x`next, x`prev, tail`next
      ensures items == old(items) + [x] && head == old(head) && tail == x && AppLinks(items)
      ensures BucketsOk(buckets[..], order, Elems(items)) && Elems(items) == Elems(order) + {x} && x !in order
    {
      AppendList(tail, x, items);
      tail := x;
      ElemsPush(items, x);
      MoreItems(buckets[..], order, Elems(items), Elems(items) + {x});
      assert x in order ==> x in Elems(order);
      items := items + [x];
    }

    /** Puts an item of the list into its bucket, and doubles the buckets when that one is
        full. */
    method AddToTable(x: Item)
      requires x !in order && Distinct(order) && Elems(items) == Elems(order) + {x}
      requires buckets.Length == Pow2(log2) && BucketsOk(buckets[..], order, Elems(items))
      modifies this`numItems, this`order, buckets, Elems(items)`hhNext, Elems(items)`hhPrev
      modifies this`buckets, this`log2, this`idealChainMaxlen, this`nonidealItems, this`ineffExpands, this`noexpand
      ensures Hashed() && numItems == old(numItems) + 1
      ensures var b := Slot(x.hashv, old(buckets.Length));
        b < old(buckets.Length) && buckets.Length == if !old(noexpand) && old(buckets[b].count) + 1 >= (old(buckets[b].expandMult) + 1) * 10
          then 2 * old(buckets.Length) else old(buckets.Length)
      ensures buckets.Length == old(buckets.Length) ==> noexpand == old(noexpand)
    {
      numItems := numItems + 1;
      var b := AddToBuckets(buckets, x, log2, order, Elems(items));
      ElemsPush(order, x);
      order := order + [x];
      if buckets[b].count >= (buckets[b].expandMult + 1) * HASH_BKT_CAPACITY_THRESH && !noexpand {
        Expand();
      }
    }

    /** Takes an item out of the list and out of its bucket. */
    method Delete(x: Item)
      requires Valid() && x in items
      modifies this, buckets, items
      ensures Valid() && items == Without(old(items), x)
      ensures items == [] ==> head == null && buckets.Length == 0
    {
      ghost var k :| 0 <= k < |items| && items[k] == x;
      WithoutAt(items, k);
      if x.prev == null && x.next == null {
        OnlyItem(items, k);
        head := null;
        buckets := new Bucket[0];
        items, order := [], [];
      } else {
        DeleteFromTable(x, k);
      }
    }

    method DeleteFromTable(x: Item, ghost k: nat)
      requires Linked() && Hashed() && k < |items| && items[k] == x && !(x.prev == null && x.next == null)
      modifies this`head, this`tail, this`numItems, this`items, this`order, items`prev, items`next, Elems(items)`hhNext, Elems(items)`hhPrev, buckets
      ensures Linked() && Hashed() && items == Without(old(items), x)
    {
      WithoutAt(items, k);
      assert x in Elems(items) && x in Elems(order);
      ghost var rest := Without(items, x);
      DeleteFromList(x, k);
      assert AppLinks(rest) && Hashed();
      DropItem(x);
      assert AppLinks(rest);
    }

    /** Takes an item out of its bucket, and forgets it. */
    method DropItem(x: Item)
      requires Hashed() && x in items && x in order && numItems == |items| && Distinct(items)
      modifies this`numItems, this`items, this`order, Elems(items)`hhNext, Elems(items)`hhPrev, buckets
      ensures Hashed() && items == Without(old(items), x) && numItems == |items|
    {
      DelInBuckets(buckets, x, log2, order, Elems(items));
      Forget(x);
    }

    /** Takes an item out of the list. */
    method DeleteFromList(x: Item, ghost k: nat)
      requires Linked() && k < |items| && items[k] == x && !(x.prev == null && x.next == null)
      modifies this`head, this`tail, items`prev, items`next
      ensures var rest := items[..k] + items[k + 1..];
        rest != [] && head == rest[0] && tail == rest[|rest| - 1] && AppLinks(rest)
    {
      assert k > 0 ==> x.prev == items[k - 1];
      assert k + 1 < |items| ==> x.next == items[k + 1];
      if x == tail {
        tail := x.prev;
      }
      if x.prev == null {
        head := x.next;
      }
      UnlinkApp(x, items, k);
    }

    /** The counter follows, and the item is forgotten. */
    method Forget(x: Item)
      requires x in items && buckets.Length == Pow2(log2) && Distinct(order) && Elems(order) == Elems(items)
      requires numItems == |items| && Distinct(items)
      requires BucketsOk(buckets[..], Without(order, x), Elems(items))
      modifies this`numItems, this`items, this`order
      ensures items == Without(old(items), x) && Hashed() && numItems == |items|
    {
      FewerItems(buckets[..], Without(order, x), Elems(items), Elems(Without(items, x)));
      DistinctSize(items);
      DistinctSize(Without(items, x));
      assert x in Elems(items);
      numItems := numItems - 1;
      items, order := Without(items, x), Without(order, x);
    }

    /** Looks a key up.  With unique keys, this is what a linear scan of the list finds. */
    method Find(key: Key) returns (out: Item?)
      requires Valid()
      ensures if out == null then forall x | x in items :: x.key != key else out in items && out.key == key
      ensures UniqueKeys(items) ==> out == Scan(items, key)
    {
      ScanFinds(items, key);
      out := null;
      if head != null {
        out := FindInTable(key);
      }
    }

    method FindInTable(key: Key) returns (out: Item?)
      requires Hashed() && forall x | x in items :: x.hashv == hash(x.key)
      ensures if out == null then forall x | x in items :: x.key != key else out in items && out.key == key
    {
      var hashv := hash(key);
      MaskIsSlot(hashv, log2);
      var b := BitAnd(hashv, buckets.Length - 1);
      ghost var c := Chosen(order, buckets.Length, b);
      ChainAt(buckets[..], order, Elems(items), b);
      ChosenAt(order, buckets.Length, b);
      assert forall x :: x in order <==> x in Elems(order);
      out := FindInBkt(buckets[b], key, hashv, c, Elems(items));
      if out == null {
        forall x | x in items
          ensures x.key != key
        {
          assert x in Elems(items);
          if x.key == key { ChosenHas(order, buckets.Length, b, x); }
        }
      } else {
        assert out in Elems(order) && out in Elems(items);
      }
    }

    /** The list and the chains can be walked forwards; nothing else need be right. */
    ghost predicate Walkable()
      reads this, buckets, items`next, Elems(items)`hhNext
    {
      && (head == null <==> items == [])
      && (items != [] ==> head == items[0] && Forward(items))
      && (items != [] ==> Distinct(order) && Remaining(buckets[..], order, 0, Elems(items)))
    }

    /** What the check is for: backward links and counters. */
    ghost predicate Checked()
      reads this, buckets, items`prev, order`hhPrev
    {
      items == [] ||
      (ChainsChecked(buckets[..], order, buckets.Length) && |order| == numItems && Backward(items, |items|) && |items| == numItems)
    }

    /** The check of the whole table succeeds if and only if backward links and counters are
        right. */
    method Fsck() returns (ok: bool)
      requires Walkable()
      ensures ok <==> Checked()
    {
      ok := true;
      if head != null {
        var count := 0;
        var i := 0;
        while i < buckets.Length
          invariant 0 <= i <= buckets.Length && count == |Before(order, buckets.Length, i)|
          invariant ok <==> ChainsChecked(buckets[..], order, i)
        {
          ToMoveAt(buckets[..], order, i, Elems(items));
          BeforeCount(order, buckets.Length, i);
          var fine, n := FsckBucket(buckets[i], Chosen(order, buckets.Length, i), Elems(items));
          assert fine <==> BucketChecked(buckets[..][i], order, buckets.Length, i);
          ok := ok && fine;
          count := count + n;
          i := i + 1;
        }
        BeforeAll(order, buckets.Length);
        DistinctSize(order);
        if count != numItems {
          ok := false;
        }
        var fine, n := FsckList(head, items);
        ok := ok && fine && n == numItems;
      }
    }

    /** On a valid table it never fails. */
    lemma ValidIsChecked()
      requires Valid()
      ensures Walkable() && Checked()
    {
      if items != [] {
        AllRemains(buckets[..], order, Elems(items));
        DistinctSize(items);
        DistinctSize(order);
        forall b | 0 <= b < buckets.Length
          ensures BucketChecked(buckets[..][b], order, buckets.Length, b)
        {
          ChainAt(buckets[..], order, Elems(items), b);
        }
      }
    }
  }

  lemma ToMoveAt(buckets: seq<Bucket>, order: seq<Item>, i: nat, all: set<Item>)
    requires Remaining(buckets, order, 0, all) && i < |buckets|
    ensures ToMove(buckets[i], Chosen(order, |buckets|, i), all)
  {
    assert Unlocked(BucketLock, 0);
  }

  lemma OnlyItem(items: seq<Item>, k: nat)
    requires AppLinks(items) && k < |items| && items[k].prev == null && items[k].next == null
    ensures items[..k] + items[k + 1..] == []
  {
    NeighboursAre(items, k);
  }

  ghost function At(items: seq<Item>, k: int): Item? {
    if 0 <= k < |items| then items[k] else null
  }

  lemma NeighboursAre(items: seq<Item>, k: nat)
    requires AppLinks(items) && k < |items|
    ensures items[k].prev == At(items, k - 1) && items[k].next == At(items, k + 1)
  {
  }

  lemma FewerItems(buckets: seq<Bucket>, order: seq<Item>, all: set<Item>, less: set<Item>)
    requires BucketsOk(buckets, order, all) && Elems(order) <= less
    ensures BucketsOk(buckets, order, less)
  {
    assert Unlocked(BucketLock, 0);
    forall b | 0 <= b < |buckets|
      ensures ChainOk(buckets[b], Chosen(order, |buckets|, b), less)
    {
      ChosenAt(order, |buckets|, b);
      var c := Chosen(order, |buckets|, b);
      forall i | 0 <= i < |c|
        ensures c[i] in less
      {
        assert c[i] in Elems(order);
      }
      assert ChainOk(buckets[b], c, all);
    }
  }
}
