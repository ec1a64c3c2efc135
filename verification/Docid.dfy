/** Docid containers: a chain of buckets, each twice as large as the one before, that
    refines an append-only sequence of documents. */
module Docids {
  import opened Basics
  import opened Documents

  const BUCKET_SIZE: nat := 8

  /** Hands out ids 1, 2, ... and wraps as a 32-bit counter does. */
  class Generator {
    var start: nat

    constructor ()
      ensures start == 1
    {
      start := 1;
    }

    method Incr() returns (id: nat)
      modifies this
      ensures id == old(start) && start == (old(start) + 1) % UINT32
    {
      id := start;
      start := (start + 1) % UINT32;
    }
  }

  /** A bucket: its size, how many of its slots are in use, and the slots. */
  datatype Bucket = Bucket(size: nat, offset: nat, slots: seq<Document?>)

  function NewBucket(size: nat): Bucket {
    Bucket(size, 0, seq(size, _ => null))
  }

  /** The size of bucket k of any chain. */
  ghost function Size(k: nat): (r: nat)
    ensures r >= BUCKET_SIZE
  {
    if k == 0 then BUCKET_SIZE else 2 * Size(k - 1)
  }

  /** The number of slots before bucket k of any chain. */
  ghost function Start(k: nat): nat {
    if k == 0 then 0 else Start(k - 1) + Size(k - 1)
  }

  /** Bucket k has its size, and its used slots hold the contents from Start(k) on. */
  ghost predicate BucketHolds(b: Bucket, k: nat, contents: seq<Document>) {
    && b.offset <= b.size == |b.slots| == Size(k)
    && Start(k) + b.offset <= |contents|
    && forall o :: 0 <= o < b.offset ==> b.slots[o] == contents[Start(k) + o]
  }

  /** The chain holds the contents, and every bucket but the last is full. */
  ghost predicate BucketsHold(buckets: seq<Bucket>, contents: seq<Document>) {
    && buckets != []
    && (forall k :: 0 <= k < |buckets| ==> BucketHolds(buckets[k], k, contents))
    && (forall k :: 0 <= k < |buckets| - 1 ==> buckets[k].offset == buckets[k].size)
    && |contents| == Start(|buckets| - 1) + buckets[|buckets| - 1].offset
  }

  /** The fields of a container.  The source embeds them in the entries of its tables and
      keeps them in local variables; the buckets stand head first, and their order is what
      the links say. */
  datatype Chain = Chain(buckets: seq<Bucket>, allocSize: nat, len: nat, total: nat)

  const EMPTY_CHAIN := Chain([NewBucket(BUCKET_SIZE)], BUCKET_SIZE, 1, 0)

  /** The chain holds the contents.  How it does so stays closed: most users need only the
      contents. */
  ghost predicate Holds(c: Chain, contents: seq<Document>) {
    && c.total == |contents|
    && forall n :: Unlocked(ChainLock, n) ==> Settled(c) && BucketsHold(c.buckets, contents)
  }

  /** Counters agree with the chain, and the last of several buckets is never empty. */
  ghost predicate Settled(c: Chain) {
    && c.len == |c.buckets| >= 1 && c.allocSize == Size(c.len - 1)
    && (c.len > 1 ==> c.buckets[c.len - 1].offset > 0)
  }

  lemma EmptyHolds()
    ensures Holds(EMPTY_CHAIN, [])
  {
  }

  /** Links a bucket of twice the size when the last one is full. */
  method Reserve(c: Chain, ghost contents: seq<Document>) returns (r: Chain)
    requires c.len == |c.buckets| >= 1 && c.allocSize == Size(c.len - 1) && BucketsHold(c.buckets, contents)
    ensures r.len == |r.buckets| >= 1 && r.allocSize == Size(r.len - 1) && BucketsHold(r.buckets, contents) && r.total == c.total
    ensures r.buckets[r.len - 1].offset < r.buckets[r.len - 1].size
    ensures r == c || (r.len == c.len + 1 && r.buckets == c.buckets + [NewBucket(2 * c.allocSize)])
  {
    r := c;
    if c.buckets[c.len - 1].size - c.buckets[c.len - 1].offset > 0 {
      return;
    }
    r := r.(allocSize := c.allocSize * 2);
    r := r.(buckets := r.buckets + [NewBucket(r.allocSize)], len := r.len + 1);
  }

  /** Writes the next free slot of the last bucket, then counts it. */
  method Append(c: Chain, doc: Document, ghost contents: seq<Document>) returns (r: Chain)
    requires Holds(c, contents)
    ensures Holds(r, contents + [doc])
  {
    assert Unlocked(ChainLock, 0);
    r := Reserve(c, contents);
    var k := r.len - 1;
    var tail := r.buckets[k];
    tail := tail.(slots := tail.slots[tail.offset := doc]);
    tail := tail.(offset := tail.offset + 1);
    StoreHolds(r.buckets, contents, doc, tail);
    r := r.(buckets := r.buckets[k := tail], total := r.total + 1);
  }

  /** The two nested loops of a walk over the chain. */
  method Foreach(c: Chain, ghost contents: seq<Document>) returns (ids: seq<Document>)
    requires Holds(c, contents)
    ensures ids == contents
  {
    assert Unlocked(ChainLock, 0);
    ids := [];
    var k := 0;
    while k < c.len
      invariant 0 <= k <= c.len && (k < c.len ==> Start(k) <= |contents|)
      invariant ids == if k < c.len then contents[..Start(k)] else contents
    {
      assert BucketHolds(c.buckets[k], k, contents);
      var o := 0;
      while o < c.buckets[k].offset
        invariant 0 <= o <= c.buckets[k].offset && ids == contents[..Start(k) + o]
      {
        ids := ids + [c.buckets[k].slots[o]];
        o := o + 1;
      }
      assert k + 1 < c.len ==> BucketHolds(c.buckets[k + 1], k + 1, contents);
      k := k + 1;
    }
  }

  /** Filling the next free slot appends to the contents. */
  lemma StoreHolds(buckets: seq<Bucket>, contents: seq<Document>, doc: Document, tail: Bucket)
    requires BucketsHold(buckets, contents)
    requires var last := buckets[|buckets| - 1];
      && last.offset < last.size
      && tail == Bucket(last.size, last.offset + 1, last.slots[last.offset := doc])
    ensures BucketsHold(buckets[|buckets| - 1 := tail], contents + [doc])
  {
    var buckets' := buckets[|buckets| - 1 := tail];
    forall k | 0 <= k < |buckets'|
      ensures BucketHolds(buckets'[k], k, contents + [doc])
    {
      assert BucketHolds(buckets[k], k, contents);
    }
  }

  /** The iterator over a container: a bucket and a slot in it.  A bucket index at the end
      of the chain is the null bucket. */
  datatype Iterator = Iterator(bkt: nat, offset: nat)

  /** The iterator has yielded the first n documents. */
  ghost predicate Stands(it: Iterator, c: Chain, contents: seq<Document>, n: nat) {
    && it.bkt <= |c.buckets| && n <= |contents|
    && n == (if it.bkt == |c.buckets| then |contents| else Start(it.bkt) + it.offset)
    && (it.bkt < |c.buckets| ==> it.offset <= c.buckets[it.bkt].offset)
  }

  method Begin(c: Chain, ghost contents: seq<Document>) returns (it: Iterator)
    requires Holds(c, contents)
    ensures Stands(it, c, contents, 0)
  {
    assert Unlocked(ChainLock, 0);
    it := Iterator(0, 0);
  }

  /** The next document, or null once all have been yielded. */
  method Next(c: Chain, it: Iterator, ghost contents: seq<Document>, ghost n: nat) returns (r: Document?, next: Iterator)
    requires Holds(c, contents) && Stands(it, c, contents, n)
    ensures if n < |contents| then r == contents[n] && Stands(next, c, contents, n + 1)
            else r == null && Stands(next, c, contents, n)
  {
    assert Unlocked(ChainLock, 0);
    next := it;
    if next.bkt < |c.buckets| && next.offset >= c.buckets[next.bkt].offset {
      assert BucketHolds(c.buckets[next.bkt], next.bkt, contents);
      next := Iterator(next.bkt + 1, 0);
    }
    if next.bkt == |c.buckets| {
      r := null;
    } else {
      assert BucketHolds(c.buckets[next.bkt], next.bkt, contents);
      r := c.buckets[next.bkt].slots[next.offset];
      next := next.(offset := next.offset + 1);
    }
  }

  /** A container that others refer to: a result being filled, a buffer, or the container
      of a table entry while a query reads it. */
  class Container {
    var chain: Chain
    ghost var Contents: seq<Document>

    ghost predicate Valid()
      reads this
    {
      Holds(chain, Contents)
    }

    constructor ()
      ensures Valid() && Contents == []
    {
      chain, Contents := EMPTY_CHAIN, [];
    }

    constructor Of(c: Chain, ghost contents: seq<Document>)
      requires Holds(c, contents)
      ensures Valid() && Contents == contents
    {
      chain, Contents := c, contents;
    }

    /** Starts over with an empty chain. */
    method Reset()
      modifies this
      ensures Valid() && Contents == []
    {
      chain, Contents := EMPTY_CHAIN, [];
    }

    method Add(doc: Document)
      requires Valid()
      modifies this
      ensures Valid() && Contents == old(Contents) + [doc]
    {
      chain := Append(chain, doc, Contents);
      Contents := Contents + [doc];
    }

    /** Adds every document of another container, in order. */
    method CopyFrom(src: Container)
      requires Valid() && src.Valid() && src != this
      modifies this
      ensures Valid() && Contents == old(Contents) + src.Contents
    {
      var ids := Foreach(src.chain, src.Contents);
      var i := 0;
      while i < |ids|
        invariant 0 <= i <= |ids|
        invariant Valid() && Contents == old(Contents) + ids[..i]
      {
        Add(ids[i]);
        i := i + 1;
      }
    }
  }

  // ----- sizes in closed form -----

  /** Bucket k has 8 * 2^k slots and starts after 8 * (2^k - 1) of them. */
  lemma {:induction false} BucketGeometry(k: nat)
    ensures Size(k) == BUCKET_SIZE * Pow2(k) && Start(k) == BUCKET_SIZE * (Pow2(k) - 1)
  {
    if k > 0 {
      BucketGeometry(k - 1);
    }
  }

  /** The chain has just as many buckets as its contents need: all the slots before the
      last bucket are in use and the whole chain has room for 8 * (2^len - 1).  So its
      length is logarithmic and its allocation size is at most the total plus eight. */
  lemma ChainIsLogarithmic(c: Chain, contents: seq<Document>)
    requires Holds(c, contents)
    ensures c.len >= 1
    ensures BUCKET_SIZE * (Pow2(c.len - 1) - 1) <= |contents| <= BUCKET_SIZE * (Pow2(c.len) - 1)
    ensures c.len > 1 ==> BUCKET_SIZE * (Pow2(c.len - 1) - 1) < |contents|
    ensures c.allocSize == BUCKET_SIZE * Pow2(c.len - 1) <= |contents| + BUCKET_SIZE
  {
    assert Unlocked(ChainLock, 0);
    BucketGeometry(c.len - 1);
    assert BucketHolds(c.buckets[c.len - 1], c.len - 1, contents);
  }
}
