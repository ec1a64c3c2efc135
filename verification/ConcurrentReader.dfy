/** A posting list that one thread appends to while any number of others walk over it
    without a lock: an append is split into its writes, a walk into its reads. */
module ConcurrentReader {
  import opened Basics
  import opened Documents
  import opened Docids

  /** How far the one writer is with an append. */
  datatype Writer =
    | Resting
    | Reserved(doc: Document)     // there is a free slot
    | Written(doc: Document)      // the slot holds the document, the offset does not count it
    | Published                   // the offset counts it, the total does not

  /** Where a reader is in its two loops.  The link to the next bucket is read before the
      slots of a bucket are. */
  datatype Pc =
    | AtBucket(b: nat)
    | InBucket(b: nat, next: Option<nat>, o: nat)
    | Ended

  datatype Reader = Reader(pc: Pc, yielded: seq<Document>, ghost started: nat)

  type Id = nat

  /** The contents are the documents that offsets count. */
  datatype State = State(chain: Chain, ghost contents: seq<Document>, writer: Writer, readers: map<Id, Reader>)

  ghost const INITIAL := State(EMPTY_CHAIN, [], Resting, map[])

  // ----- steps -----

  datatype Label = Write(doc: Document) | StartRead(r: Id) | Read(r: Id)

  ghost predicate Enabled(s: State, l: Label) {
    match l
    case Write(_) => |s.chain.buckets| > 0
    case StartRead(_) => true
    case Read(r) => r in s.readers && ReadEnabled(s.readers[r], s.chain.buckets)
  }

  ghost predicate ReadEnabled(r: Reader, buckets: seq<Bucket>) {
    match r.pc
    case AtBucket(b) => b < |buckets|
    case InBucket(b, _, o) => b < |buckets| && (o < buckets[b].offset ==> o < |buckets[b].slots| && buckets[b].slots[o] != null)
    case Ended => false
  }

  ghost function Last(c: Chain): Bucket
    requires |c.buckets| > 0
  {
    c.buckets[|c.buckets| - 1]
  }

  ghost function SetLast(c: Chain, b: Bucket): Chain
    requires |c.buckets| > 0
  {
    c.(buckets := c.buckets[|c.buckets| - 1 := b])
  }

  /** Links a bucket only when the last one is full. */
  ghost function Link(c: Chain): Chain
    requires |c.buckets| > 0
  {
    if Last(c).size > Last(c).offset then c
    else c.(allocSize := 2 * c.allocSize, buckets := c.buckets + [NewBucket(2 * c.allocSize)], len := c.len + 1)
  }

  ghost function WriteStep(s: State, doc: Document): State
    requires |s.chain.buckets| > 0
  {
    var b := Last(s.chain);
    match s.writer
    case Resting => s.(chain := Link(s.chain), writer := Reserved(doc))
    case Reserved(d) =>
      if b.offset < |b.slots| then s.(chain := SetLast(s.chain, b.(slots := b.slots[b.offset := d])), writer := Written(d)) else s
    case Written(d) =>
      s.(chain := SetLast(s.chain, b.(offset := b.offset + 1)), contents := s.contents + [d], writer := Published)
    case Published => s.(chain := s.chain.(total := s.chain.total + 1), writer := Resting)
  }

  ghost function ReadStep(r: Reader, buckets: seq<Bucket>): Reader
    requires ReadEnabled(r, buckets)
  {
    match r.pc
    case AtBucket(b) => r.(pc := InBucket(b, if b + 1 < |buckets| then Some(b + 1) else None, 0))
    case InBucket(b, next, o) =>
      if o < buckets[b].offset then r.(pc := InBucket(b, next, o + 1), yielded := r.yielded + [buckets[b].slots[o]])
      else if next.Some? then r.(pc := AtBucket(next.value))
      else r.(pc := Ended)
  }

  ghost function Step(s: State, l: Label): State
    requires Enabled(s, l)
  {
    match l
    case Write(doc) => WriteStep(s, doc)
    case StartRead(r) => s.(readers := s.readers[r := Reader(AtBucket(0), [], |s.contents|)])
    case Read(r) => s.(readers := s.readers[r := ReadStep(s.readers[r], s.chain.buckets)])
  }

  // ----- what every step keeps -----

  ghost predicate WriterOk(s: State)
    requires |s.chain.buckets| > 0
  {
    var b := Last(s.chain);
    && s.chain.len == |s.chain.buckets| && s.chain.allocSize == Size(s.chain.len - 1)
    && s.chain.total + (if s.writer.Published? then 1 else 0) == |s.contents|
    && (s.writer.Reserved? || s.writer.Written? ==> b.offset < b.size)
    && (s.writer.Written? ==> b.offset < |b.slots| && b.slots[b.offset] == s.writer.doc)
  }

  /** A reader has yielded just what lies before its position.  One that has seen no next
      bucket is in the bucket that was the last when it started, or in a later one. */
  ghost predicate ReaderOk(r: Reader, buckets: seq<Bucket>, contents: seq<Document>) {
    && r.started <= |contents|
    && match r.pc
       case AtBucket(b) => b < |buckets| && Start(b) <= |contents| && r.yielded == contents[..Start(b)]
       case InBucket(b, next, o) =>
         && b < |buckets| && o <= buckets[b].offset
         && Start(b) + o <= |contents| && r.yielded == contents[..Start(b) + o]
         && (next.Some? ==> next.value == b + 1 < |buckets|)
         && (next.None? ==> r.started <= Start(b) + buckets[b].offset)
       case Ended => r.yielded <= contents && r.started <= |r.yielded|
  }

  ghost predicate Inv(s: State) {
    && BucketsHold(s.chain.buckets, s.contents)
    && WriterOk(s)
    && forall r | r in s.readers :: ReaderOk(s.readers[r], s.chain.buckets, s.contents)
  }

  /** The chain has grown: buckets were linked or filled, nothing that counts has changed. */
  ghost predicate Grown(a: seq<Bucket>, x: seq<Document>, b: seq<Bucket>, y: seq<Document>) {
    && |a| <= |b| && x <= y
    && forall k :: 0 <= k < |a| ==> a[k].offset <= b[k].offset
  }

  lemma WriteKeeps(s: State, doc: Document)
    requires BucketsHold(s.chain.buckets, s.contents) && WriterOk(s)
    ensures var t := WriteStep(s, doc);
      && BucketsHold(t.chain.buckets, t.contents) && WriterOk(t)
      && Grown(s.chain.buckets, s.contents, t.chain.buckets, t.contents) && t.readers == s.readers
  {
    match s.writer
    case Resting => SlotReserved(s, doc);
    case Reserved(d) => SlotWritten(s, doc);
    case Written(d) => SlotCounted(s, doc);
    case Published => TotalCounted(s, doc);
  }

  lemma SlotReserved(s: State, doc: Document)
    requires BucketsHold(s.chain.buckets, s.contents) && WriterOk(s) && s.writer.Resting?
    ensures var t := WriteStep(s, doc);
      && BucketsHold(t.chain.buckets, t.contents) && WriterOk(t)
      && Grown(s.chain.buckets, s.contents, t.chain.buckets, t.contents)
  {
    LinkKeeps(s.chain, s.contents);
  }

  lemma TotalCounted(s: State, doc: Document)
    requires BucketsHold(s.chain.buckets, s.contents) && WriterOk(s) && s.writer.Published?
    ensures var t := WriteStep(s, doc);
      && BucketsHold(t.chain.buckets, t.contents) && WriterOk(t)
      && Grown(s.chain.buckets, s.contents, t.chain.buckets, t.contents)
  {
  }

  lemma SlotWritten(s: State, doc: Document)
    requires BucketsHold(s.chain.buckets, s.contents) && WriterOk(s) && s.writer.Reserved?
    ensures var t := WriteStep(s, doc);
      && BucketsHold(t.chain.buckets, t.contents) && WriterOk(t)
      && Grown(s.chain.buckets, s.contents, t.chain.buckets, t.contents)
  {
    SlotKeeps(s.chain, s.contents, s.writer.doc);
  }

  lemma SlotCounted(s: State, doc: Document)
    requires BucketsHold(s.chain.buckets, s.contents) && WriterOk(s) && s.writer.Written?
    ensures var t := WriteStep(s, doc);
      && BucketsHold(t.chain.buckets, t.contents) && WriterOk(t)
      && Grown(s.chain.buckets, s.contents, t.chain.buckets, t.contents)
  {
    BumpKeeps(s.chain, s.contents, s.writer.doc);
  }

  /** A slot that the offset does not count can be written. */
  lemma SlotKeeps(c: Chain, contents: seq<Document>, doc: Document)
    requires BucketsHold(c.buckets, contents) && Last(c).offset < Last(c).size
    ensures Last(c).offset < |Last(c).slots|
    ensures var b := Last(c); var d := SetLast(c, b.(slots := b.slots[b.offset := doc]));
      BucketsHold(d.buckets, contents) && Grown(c.buckets, contents, d.buckets, contents)
  {
    var n := |c.buckets| - 1;
    var b := Last(c);
    assert BucketHolds(b, n, contents);
    assert BucketHolds(b.(slots := b.slots[b.offset := doc]), n, contents);
  }

  /** Counting a slot that has been written appends to the contents. */
  lemma BumpKeeps(c: Chain, contents: seq<Document>, doc: Document)
    requires BucketsHold(c.buckets, contents) && Last(c).offset < Last(c).size
    requires Last(c).offset < |Last(c).slots| && Last(c).slots[Last(c).offset] == doc
    ensures var d := SetLast(c, Last(c).(offset := Last(c).offset + 1));
      BucketsHold(d.buckets, contents + [doc]) && Grown(c.buckets, contents, d.buckets, contents + [doc])
  {
    var b := Last(c);
    assert b.slots[b.offset := doc] == b.slots;
    StoreHolds(c.buckets, contents, doc, b.(offset := b.offset + 1));
  }

  lemma LinkKeeps(c: Chain, contents: seq<Document>)
    requires BucketsHold(c.buckets, contents) && c.len == |c.buckets| && c.allocSize == Size(c.len - 1)
    ensures var d := Link(c);
      && BucketsHold(d.buckets, contents) && d.len == |d.buckets| && d.allocSize == Size(d.len - 1) && d.total == c.total
      && Last(d).offset < Last(d).size && Grown(c.buckets, contents, d.buckets, contents)
  {
    var n := |c.buckets| - 1;
    assert BucketHolds(c.buckets[n], n, contents);
  }

  /** Growth does not disturb a reader. */
  lemma GrownReader(r: Reader, a: seq<Bucket>, x: seq<Document>, b: seq<Bucket>, y: seq<Document>)
    requires ReaderOk(r, a, x) && Grown(a, x, b, y)
    ensures ReaderOk(r, b, y)
  {
  }

  /** A reader's step is possible and keeps its condition: a next bucket seen before the
      slots are read means that the bucket is full. */
  lemma ReadKeeps(r: Reader, buckets: seq<Bucket>, contents: seq<Document>)
    requires BucketsHold(buckets, contents) && ReaderOk(r, buckets, contents) && !r.pc.Ended?
    ensures ReadEnabled(r, buckets) && ReaderOk(ReadStep(r, buckets), buckets, contents)
  {
    if r.pc.AtBucket? {
      EntryKeeps(r, buckets, contents);
    } else {
      SlotReadKeeps(r, buckets, contents);
    }
  }

  lemma EntryKeeps(r: Reader, buckets: seq<Bucket>, contents: seq<Document>)
    requires BucketsHold(buckets, contents) && ReaderOk(r, buckets, contents) && r.pc.AtBucket?
    ensures ReadEnabled(r, buckets) && ReaderOk(ReadStep(r, buckets), buckets, contents)
  {
    var b := r.pc.b;
    assert BucketHolds(buckets[b], b, contents);
    assert b + 1 < |buckets| || |contents| == Start(b) + buckets[b].offset;
  }

  lemma SlotReadKeeps(r: Reader, buckets: seq<Bucket>, contents: seq<Document>)
    requires BucketsHold(buckets, contents) && ReaderOk(r, buckets, contents) && r.pc.InBucket?
    ensures ReadEnabled(r, buckets) && ReaderOk(ReadStep(r, buckets), buckets, contents)
  {
    var b := r.pc.b;
    assert BucketHolds(buckets[b], b, contents);
    if r.pc.o < buckets[b].offset {
      assert contents[..Start(b) + r.pc.o + 1] == contents[..Start(b) + r.pc.o] + [contents[Start(b) + r.pc.o]];
    } else if r.pc.next.Some? {
      NextStarts(buckets, contents, b);
    }
  }

  /** How far a reader has to go in a list as it is. */
  ghost function Ahead(r: Reader, buckets: seq<Bucket>, contents: seq<Document>): int {
    match r.pc
    case AtBucket(b) => 3 * (|buckets| - b) + |contents| - Start(b)
    case InBucket(b, _, o) => 3 * (|buckets| - b) - 1 + |contents| - Start(b) - o
    case Ended => 0
  }

  /** Every step of a reader brings it closer to the end: as long as nothing is appended, it
      is there after so many steps. */
  lemma ReadAhead(r: Reader, buckets: seq<Bucket>, contents: seq<Document>)
    requires BucketsHold(buckets, contents) && ReaderOk(r, buckets, contents) && !r.pc.Ended?
    ensures ReadEnabled(r, buckets) && 0 <= Ahead(ReadStep(r, buckets), buckets, contents) < Ahead(r, buckets, contents)
  {
    ReadKeeps(r, buckets, contents);
    var b := r.pc.b;
    assert BucketHolds(buckets[b], b, contents);
    if r.pc.InBucket? && r.pc.o == buckets[b].offset && r.pc.next.Some? {
      NextStarts(buckets, contents, b);
    }
  }

  lemma NextStarts(buckets: seq<Bucket>, contents: seq<Document>, b: nat)
    requires BucketsHold(buckets, contents) && b + 1 < |buckets|
    ensures Start(b + 1) == Start(b) + buckets[b].offset <= |contents|
  {
    assert buckets[b].offset == buckets[b].size && BucketHolds(buckets[b], b, contents);
    assert BucketHolds(buckets[b + 1], b + 1, contents);
  }

  /** Every step keeps the invariant. */
  lemma StepInv(s: State, l: Label)
    requires Inv(s) && Enabled(s, l)
    ensures Inv(Step(s, l)) && s.contents <= Step(s, l).contents
  {
    var t := Step(s, l);
    match l
    case Write(doc) =>
      WriteKeeps(s, doc);
      forall r | r in t.readers
        ensures ReaderOk(t.readers[r], t.chain.buckets, t.contents)
      {
        GrownReader(s.readers[r], s.chain.buckets, s.contents, t.chain.buckets, t.contents);
      }
    case StartRead(r) =>
    case Read(r) => ReadKeeps(s.readers[r], s.chain.buckets, s.contents);
  }

  /** The writer and the readers that have not ended are never stuck. */
  lemma NeverStuck(s: State, r: Id, doc: Document)
    requires Inv(s) && r in s.readers && !s.readers[r].pc.Ended?
    ensures Enabled(s, Write(doc)) && WriteStep(s, doc).writer != s.writer && Enabled(s, Read(r))
  {
    ReadKeeps(s.readers[r], s.chain.buckets, s.contents);
    var n := |s.chain.buckets| - 1;
    assert BucketHolds(s.chain.buckets[n], n, s.contents);
  }

  // ----- whole runs -----

  ghost predicate RunEnabled(s: State, ls: seq<Label>)
    decreases |ls|
  {
    ls == [] || (Enabled(s, ls[0]) && RunEnabled(Step(s, ls[0]), ls[1..]))
  }

  ghost function Run(s: State, ls: seq<Label>): State
    requires RunEnabled(s, ls)
    decreases |ls|
  {
    if ls == [] then s else Run(Step(s, ls[0]), ls[1..])
  }

  lemma {:induction false} RunInv(s: State, ls: seq<Label>)
    requires Inv(s) && RunEnabled(s, ls)
    ensures Inv(Run(s, ls)) && s.contents <= Run(s, ls).contents
    decreases |ls|
  {
    if ls != [] {
      StepInv(s, ls[0]);
      RunInv(Step(s, ls[0]), ls[1..]);
    }
  }

  /** No step of the run starts this reader anew. */
  predicate OneWalk(ls: seq<Label>, r: Id) {
    StartRead(r) !in ls
  }

  lemma {:induction false} StartedStays(s: State, ls: seq<Label>, r: Id)
    requires RunEnabled(s, ls) && r in s.readers && OneWalk(ls, r)
    ensures r in Run(s, ls).readers && Run(s, ls).readers[r].started == s.readers[r].started
    decreases |ls|
  {
    if ls != [] {
      assert ls[0] in ls;
      var t := Step(s, ls[0]);
      assert r in t.readers && t.readers[r].started == s.readers[r].started;
      StartedStays(t, ls[1..], r);
    }
  }

  /** However the steps are interleaved: all that a reader has yielded, at any time, is a
      prefix of the list as it is then and as it will ever be; and a walk that has ended
      has yielded at least all that was published when it started. */
  lemma ReaderSeesPrefix(s: State, r: Id, walk: seq<Label>, later: seq<Label>)
    requires Inv(s) && OneWalk(walk, r) && RunEnabled(Step(s, StartRead(r)), walk)
    requires RunEnabled(Run(Step(s, StartRead(r)), walk), later)
    ensures var t := Run(Step(s, StartRead(r)), walk);
      && r in t.readers
      && t.readers[r].yielded <= t.contents <= Run(t, later).contents
      && (t.readers[r].pc.Ended? ==> s.contents <= t.readers[r].yielded)
  {
    StepInv(s, StartRead(r));
    var u := Step(s, StartRead(r));
    RunInv(u, walk);
    StartedStays(u, walk, r);
    RunInv(Run(u, walk), later);
  }

  /** So in every list from its beginning on, with any number of other readers. */
  lemma ListSeesPrefix(before: seq<Label>, r: Id, walk: seq<Label>, later: seq<Label>)
    requires RunEnabled(INITIAL, before) && OneWalk(walk, r)
    requires RunEnabled(Step(Run(INITIAL, before), StartRead(r)), walk)
    requires RunEnabled(Run(Step(Run(INITIAL, before), StartRead(r)), walk), later)
    ensures var s := Run(INITIAL, before);
      var t := Run(Step(s, StartRead(r)), walk);
      && r in t.readers
      && t.readers[r].yielded <= t.contents <= Run(t, later).contents
      && (t.readers[r].pc.Ended? ==> s.contents <= t.readers[r].yielded)
  {
    InitialInv();
    RunInv(INITIAL, before);
    ReaderSeesPrefix(Run(INITIAL, before), r, walk, later);
  }

  // ----- what has been appended -----

  /** The documents whose append begins in a run, in order: a writer that rests takes the
      next one. */
  ghost function Appended(s: State, ls: seq<Label>): seq<Document>
    requires RunEnabled(s, ls)
    decreases |ls|
  {
    if ls == [] then []
    else (if ls[0].Write? && s.writer.Resting? then [ls[0].doc] else []) + Appended(Step(s, ls[0]), ls[1..])
  }

  /** The document that the writer has begun to append and not published. */
  ghost function InHand(w: Writer): seq<Document> {
    match w
    case Reserved(doc) => [doc]
    case Written(doc) => [doc]
    case _ => []
  }

  lemma StepAppends(s: State, l: Label)
    requires Inv(s) && Enabled(s, l)
    ensures var t := Step(s, l);
      t.contents + InHand(t.writer) == s.contents + InHand(s.writer) + if l.Write? && s.writer.Resting? then [l.doc] else []
  {
    var n := |s.chain.buckets| - 1;
    assert BucketHolds(s.chain.buckets[n], n, s.contents);
  }

  lemma {:induction false} RunAppends(s: State, ls: seq<Label>)
    requires Inv(s) && RunEnabled(s, ls)
    ensures var t := Run(s, ls); t.contents + InHand(t.writer) == s.contents + InHand(s.writer) + Appended(s, ls)
    decreases |ls|
  {
    if ls != [] {
      var t := Step(s, ls[0]);
      StepInv(s, ls[0]);
      StepAppends(s, ls[0]);
      RunAppends(t, ls[1..]);
      AppendTwice(s.contents + InHand(s.writer), if ls[0].Write? && s.writer.Resting? then [ls[0].doc] else [], Appended(t, ls[1..]));
    }
  }

  /** From one rest of the writer to another, whatever readers do in between: exactly the
      documents whose appends have begun are added, each once and in their order, and the
      total counts them. */
  lemma AppendsAdd(s: State, ls: seq<Label>)
    requires Inv(s) && RunEnabled(s, ls) && s.writer.Resting? && Run(s, ls).writer.Resting?
    ensures var t := Run(s, ls); t.contents == s.contents + Appended(s, ls) && t.chain.total == |t.contents|
  {
    RunAppends(s, ls);
    RunInv(s, ls);
    assert Run(s, ls).contents + [] == Run(s, ls).contents && s.contents + [] == s.contents;
  }

  /** Four steps of the writer make an append. */
  lemma AppendEnds(s: State, doc: Document, d1: Document, d2: Document, d3: Document) returns (t: State)
    requires Inv(s) && s.writer.Resting?
    ensures t == WriteStep(WriteStep(WriteStep(WriteStep(s, doc), d1), d2), d3)
    ensures Inv(t) && t.writer.Resting? && t.contents == s.contents + [doc] && t.readers == s.readers
  {
    StepInv(s, Write(doc));
    StepAppends(s, Write(doc));
    t := WriteStep(s, doc);
    ReservedWrites(t, d1);
    StepInv(t, Write(d1));
    t := WriteStep(t, d1);
    StepInv(t, Write(d2));
    StepAppends(t, Write(d2));
    t := WriteStep(t, d2);
    StepInv(t, Write(d3));
    t := WriteStep(t, d3);
  }

  lemma ReservedWrites(s: State, doc: Document)
    requires Inv(s) && s.writer.Reserved?
    ensures Step(s, Write(doc)).writer == Written(s.writer.doc)
  {
    var n := |s.chain.buckets| - 1;
    assert BucketHolds(s.chain.buckets[n], n, s.contents);
  }

  /** So a reader of a list that has been appended to from its beginning, who starts when the
      writer rests and ends, has yielded all that was appended until then. */
  lemma ListIsRead(before: seq<Label>, r: Id, walk: seq<Label>)
    requires RunEnabled(INITIAL, before) && Run(INITIAL, before).writer.Resting? && OneWalk(walk, r)
    requires RunEnabled(Step(Run(INITIAL, before), StartRead(r)), walk)
    ensures var t := Run(Step(Run(INITIAL, before), StartRead(r)), walk);
      r in t.readers && (t.readers[r].pc.Ended? ==> Appended(INITIAL, before) <= t.readers[r].yielded)
  {
    var t := Run(Step(Run(INITIAL, before), StartRead(r)), walk);
    InitialInv();
    AppendsAdd(INITIAL, before);
    assert [] + Appended(INITIAL, before) == Appended(INITIAL, before);
    assert RunEnabled(t, []);
    ListSeesPrefix(before, r, walk, []);
  }

  lemma InitialInv()
    ensures Inv(INITIAL)
  {
    EmptyHolds();
    assert Unlocked(ChainLock, 0);
  }
}
