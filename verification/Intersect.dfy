/** Intersection of posting lists that are sorted by document id. */
module Intersect {
  import opened Basics
  import opened Documents
  import opened Docids
  import opened Bitmaps

  ghost predicate Increasing(ids: Ids, s: seq<Document>)
  {
    forall i, j :: 0 <= i < j < |s| ==> IdOf(ids, s[i]) < IdOf(ids, s[j])
  }

  ghost predicate InIds(ids: Ids, d: Document, s: seq<Document>)
  {
    exists k :: 0 <= k < |s| && IdOf(ids, s[k]) == IdOf(ids, d)
  }

  /** The documents of a whose id occurs in b and is not deleted, in the order of a. */
  ghost function Common(ids: Ids, a: seq<Document>, b: seq<Document>, deleted: set<nat>): seq<Document> {
    if a == [] then []
    else
      var n := |a| - 1;
      var rest := Common(ids, a[..n], b, deleted);
      if InIds(ids, a[n], b) && IdOf(ids, a[n]) !in deleted then rest + [a[n]] else rest
  }

  lemma {:induction false} CommonElems(ids: Ids, a: seq<Document>, b: seq<Document>, deleted: set<nat>)
    ensures forall d | d in Common(ids, a, b, deleted) :: d in a && InIds(ids, d, b) && IdOf(ids, d) !in deleted
    ensures forall d | d in a && InIds(ids, d, b) && IdOf(ids, d) !in deleted :: d in Common(ids, a, b, deleted)
  {
    if a != [] {
      CommonElems(ids, a[..|a| - 1], b, deleted);
      assert a == a[..|a| - 1] + [a[|a| - 1]];
    }
  }

  lemma CommonSnoc(ids: Ids, a: seq<Document>, d: Document, b: seq<Document>, deleted: set<nat>)
    ensures Common(ids, a + [d], b, deleted) ==
            Common(ids, a, b, deleted) + if InIds(ids, d, b) && IdOf(ids, d) !in deleted then [d] else []
  {
    assert (a + [d])[..|a|] == a;
  }

  lemma {:induction false} CommonIncreasing(ids: Ids, a: seq<Document>, b: seq<Document>, deleted: set<nat>)
    requires Increasing(ids, a)
    ensures Increasing(ids, Common(ids, a, b, deleted))
  {
    if a != [] {
      var n := |a| - 1;
      CommonIncreasing(ids, a[..n], b, deleted);
      CommonElems(ids, a[..n], b, deleted);
      assert forall d | d in a[..n] :: IdOf(ids, d) < IdOf(ids, a[n]);
    }
  }

  /** A tail without partners in b adds nothing. */
  lemma {:induction false} CommonTail(ids: Ids, a: seq<Document>, n: nat, b: seq<Document>, deleted: set<nat>)
    requires n <= |a| && forall k :: n <= k < |a| ==> !InIds(ids, a[k], b)
    ensures Common(ids, a, b, deleted) == Common(ids, a[..n], b, deleted)
    decreases |a|
  {
    if n < |a| {
      var m := |a| - 1;
      CommonTail(ids, a[..m], n, b, deleted);
      assert a[..m][..n] == a[..n];
    } else {
      assert a[..n] == a;
    }
  }

  /** What the third container holds at the end of a walk over both lists that stands at
      positions i and j when the container holds out. */
  ghost function Walked(ids: Ids, a: seq<Document>, b: seq<Document>, i: nat, j: nat, deleted: set<nat>,
                        out: seq<Document>): seq<Document>
    requires i <= |a| && j <= |b|
    decreases |a| - i + |b| - j
  {
    if i == |a| || j == |b| then out
    else if IdOf(ids, a[i]) < IdOf(ids, b[j]) then Walked(ids, a, b, i + 1, j, deleted, out)
    else if IdOf(ids, a[i]) > IdOf(ids, b[j]) then Walked(ids, a, b, i, j + 1, deleted, out)
    else Walked(ids, a, b, i + 1, j + 1, deleted, if IdOf(ids, a[i]) in deleted then out else out + [a[i]])
  }

  /** On increasing lists, what lies before either position is smaller than what lies at
      the other. */
  ghost predicate Abreast(ids: Ids, a: seq<Document>, b: seq<Document>, i: nat, j: nat) {
    && i <= |a| && j <= |b|
    && (i < |a| ==> forall k :: 0 <= k < j ==> IdOf(ids, b[k]) < IdOf(ids, a[i]))
    && (j < |b| ==> forall k :: 0 <= k < i ==> IdOf(ids, a[k]) < IdOf(ids, b[j]))
  }

  lemma {:induction false} CommonHead(ids: Ids, a: seq<Document>, b: seq<Document>, deleted: set<nat>)
    requires a != []
    ensures Common(ids, a, b, deleted) ==
            (if InIds(ids, a[0], b) && IdOf(ids, a[0]) !in deleted then [a[0]] else []) + Common(ids, a[1..], b, deleted)
  {
    var n := |a| - 1;
    if n > 0 {
      var x, rest := a[n], a[1..n];
      CommonHead(ids, a[..n], b, deleted);
      assert a[..n][1..] == rest;
      assert a[1..] == rest + [x];
      CommonSnoc(ids, rest, x, b, deleted);
    } else {
      assert a[1..] == [];
    }
  }

  /** The document at i, given how it compares with the one at j. */
  lemma Compared(ids: Ids, a: seq<Document>, b: seq<Document>, i: nat, j: nat)
    requires Increasing(ids, a) && Increasing(ids, b) && Abreast(ids, a, b, i, j) && i < |a| && j < |b|
    ensures IdOf(ids, a[i]) < IdOf(ids, b[j]) ==> Abreast(ids, a, b, i + 1, j) && !InIds(ids, a[i], b)
    ensures IdOf(ids, a[i]) > IdOf(ids, b[j]) ==> Abreast(ids, a, b, i, j + 1)
    ensures IdOf(ids, a[i]) == IdOf(ids, b[j]) ==> Abreast(ids, a, b, i + 1, j + 1) && InIds(ids, a[i], b)
  {
  }

  lemma WalkEnd(ids: Ids, a: seq<Document>, b: seq<Document>, i: nat, j: nat, deleted: set<nat>)
    requires Increasing(ids, a) && Abreast(ids, a, b, i, j) && (i == |a| || j == |b|)
    ensures Common(ids, a[i..], b, deleted) == []
  {
    if i < |a| {
      forall k | i <= k < |a|
        ensures !InIds(ids, a[k], b)
      {
        assert IdOf(ids, a[i]) <= IdOf(ids, a[k]);
      }
      CommonTail(ids, a[i..], 0, b, deleted);
    }
  }

  /** How the common documents from position i on start. */
  lemma CommonFrom(ids: Ids, a: seq<Document>, b: seq<Document>, i: nat, deleted: set<nat>, out: seq<Document>)
    requires i < |a|
    ensures !InIds(ids, a[i], b) || IdOf(ids, a[i]) in deleted ==>
              out + Common(ids, a[i..], b, deleted) == out + Common(ids, a[i + 1..], b, deleted)
    ensures InIds(ids, a[i], b) && IdOf(ids, a[i]) !in deleted ==>
              out + Common(ids, a[i..], b, deleted) == out + [a[i]] + Common(ids, a[i + 1..], b, deleted)
  {
    CommonHead(ids, a[i..], b, deleted);
    assert a[i..][1..] == a[i + 1..];
  }

  /** Where the walk stands after one comparison. */
  ghost function NextPair(ids: Ids, a: seq<Document>, b: seq<Document>, i: nat, j: nat): (nat, nat)
    requires i < |a| && j < |b|
  {
    if IdOf(ids, a[i]) < IdOf(ids, b[j]) then (i + 1, j)
    else if IdOf(ids, a[i]) > IdOf(ids, b[j]) then (i, j + 1)
    else (i + 1, j + 1)
  }

  lemma WalkStep(ids: Ids, a: seq<Document>, b: seq<Document>, i: nat, j: nat, deleted: set<nat>, out: seq<Document>)
    returns (out': seq<Document>)
    requires Increasing(ids, a) && Increasing(ids, b) && Abreast(ids, a, b, i, j) && i < |a| && j < |b|
    ensures var (i', j') := NextPair(ids, a, b, i, j);
      && Abreast(ids, a, b, i', j')
      && Walked(ids, a, b, i, j, deleted, out) == Walked(ids, a, b, i', j', deleted, out')
      && out + Common(ids, a[i..], b, deleted) == out' + Common(ids, a[i'..], b, deleted)
  {
    Compared(ids, a, b, i, j);
    CommonFrom(ids, a, b, i, deleted, out);
    out' := if IdOf(ids, a[i]) == IdOf(ids, b[j]) && IdOf(ids, a[i]) !in deleted then out + [a[i]] else out;
  }

  lemma {:induction false} WalkedIs(ids: Ids, a: seq<Document>, b: seq<Document>, i: nat, j: nat, deleted: set<nat>,
                                    out: seq<Document>)
    requires Increasing(ids, a) && Increasing(ids, b) && Abreast(ids, a, b, i, j)
    ensures Walked(ids, a, b, i, j, deleted, out) == out + Common(ids, a[i..], b, deleted)
    decreases |a| - i + |b| - j
  {
    if i == |a| || j == |b| {
      WalkEnd(ids, a, b, i, j, deleted);
      assert out + [] == out;
    } else {
      var out' := WalkStep(ids, a, b, i, j, deleted, out);
      var (i', j') := NextPair(ids, a, b, i, j);
      WalkedIs(ids, a, b, i', j', deleted, out');
    }
  }

  /** What LinearIntersect appends is the common documents, whatever the bucket boundaries. */
  lemma WalkIsCommon(ids: Ids, a: seq<Document>, b: seq<Document>, deleted: set<nat>, out: seq<Document>)
    requires Increasing(ids, a) && Increasing(ids, b)
    ensures Walked(ids, a, b, 0, 0, deleted, out) == out + Common(ids, a, b, deleted)
  {
    assert a[0..] == a;
    WalkedIs(ids, a, b, 0, 0, deleted, out);
  }

  /** A cursor of a walk: an iterator and the document it has just yielded. */
  datatype Cursor = Cursor(it: Iterator, id: Document?)

  /** The cursor is at position n of the contents, or past the end. */
  ghost predicate At(c: Chain, contents: seq<Document>, cur: Cursor, n: nat) {
    && Holds(c, contents) && n <= |contents|
    && if n < |contents| then cur.id == contents[n] && Stands(cur.it, c, contents, n + 1)
       else cur.id == null && Stands(cur.it, c, contents, n)
  }

  method First(c: Chain, ghost contents: seq<Document>) returns (cur: Cursor)
    requires Holds(c, contents)
    ensures At(c, contents, cur, 0)
  {
    var it := Begin(c, contents);
    var id;
    id, it := Next(c, it, contents, 0);
    cur := Cursor(it, id);
  }

  method Advance(c: Chain, cur: Cursor, ghost contents: seq<Document>, ghost n: nat) returns (next: Cursor)
    requires n < |contents| && At(c, contents, cur, n)
    ensures At(c, contents, next, n + 1)
  {
    var id, it := Next(c, cur.it, contents, n + 1);
    next := Cursor(it, id);
  }

  /** One comparison: moves past the smaller document, or past both after appending the
      common one unless it is deleted. */
  method Compare(input1: Chain, input2: Chain, cur1: Cursor, cur2: Cursor, deletion: Bitmap, out: Container,
                 ghost a: seq<Document>, ghost b: seq<Document>, ghost ids: Ids, ghost i: nat, ghost j: nat)
    returns (next1: Cursor, next2: Cursor, ghost i': nat, ghost j': nat)
    requires out.Valid()
    requires i < |a| && At(input1, a, cur1, i) && IdOf(ids, cur1.id) == cur1.id.docId
    requires j < |b| && At(input2, b, cur2, j) && IdOf(ids, cur2.id) == cur2.id.docId
    modifies out
    ensures out.Valid() && At(input1, a, next1, i') && At(input2, b, next2, j') && i + j < i' + j'
    ensures Walked(ids, a, b, i', j', deletion.Bits(), out.Contents) ==
            Walked(ids, a, b, i, j, deletion.Bits(), old(out.Contents))
  {
    next1, next2, i', j' := cur1, cur2, i, j;
    if cur1.id.docId < cur2.id.docId {
      next1 := Advance(input1, cur1, a, i);
      i' := i + 1;
    } else if cur1.id.docId > cur2.id.docId {
      next2 := Advance(input2, cur2, b, j);
      j' := j + 1;
    } else {
      if !deletion.Get(cur1.id.docId) {
        out.Add(cur1.id);
      }
      next1 := Advance(input1, cur1, a, i);
      next2 := Advance(input2, cur2, b, j);
      i', j' := i + 1, j + 1;
    }
  }

  /** Walks both lists at once and appends the common documents to a third container. */
  method LinearIntersect(input1: Container, input2: Container, deletion: Bitmap, out: Container, ghost ids: Ids)
    requires input1.Valid() && input2.Valid() && out.Valid() && out != input1 && out != input2
    requires Carry(input1.Contents, ids) && Carry(input2.Contents, ids)
    modifies out
    ensures out.Valid()
    ensures out.Contents == Walked(ids, input1.Contents, input2.Contents, 0, 0, deletion.Bits(), old(out.Contents))
    ensures Increasing(ids, input1.Contents) && Increasing(ids, input2.Contents) ==>
              out.Contents == old(out.Contents) + Common(ids, input1.Contents, input2.Contents, deletion.Bits())
  {
    if Increasing(ids, input1.Contents) && Increasing(ids, input2.Contents) {
      WalkIsCommon(ids, input1.Contents, input2.Contents, deletion.Bits(), out.Contents);
    }
    if input1.chain.total == 0 || input2.chain.total == 0 {
      return;
    }
    WalkBoth(input1, input2, deletion, out, ids);
  }

  method WalkBoth(input1: Container, input2: Container, deletion: Bitmap, out: Container, ghost ids: Ids)
    requires input1.Valid() && input2.Valid() && out.Valid() && out != input1 && out != input2
    requires Carry(input1.Contents, ids) && Carry(input2.Contents, ids)
    modifies out
    ensures out.Valid()
    ensures out.Contents == Walked(ids, input1.Contents, input2.Contents, 0, 0, deletion.Bits(), old(out.Contents))
  {
    ghost var a, b, deleted := input1.Contents, input2.Contents, deletion.Bits();
    ghost var whole := Walked(ids, a, b, 0, 0, deleted, out.Contents);
    ghost var i, j := 0, 0;
    var cur1 := First(input1.chain, a);
    var cur2 := First(input2.chain, b);
    while cur1.id != null && cur2.id != null
      invariant out.Valid() && Carry(a, ids) && Carry(b, ids)
      invariant At(input1.chain, a, cur1, i) && At(input2.chain, b, cur2, j)
      invariant Walked(ids, a, b, i, j, deleted, out.Contents) == whole
      decreases |a| - i + |b| - j
    {
      assert cur1.id in a && cur2.id in b;
      cur1, cur2, i, j := Compare(input1.chain, input2.chain, cur1, cur2, deletion, out, a, b, ids, i, j);
    }
  }

  // ----- any number of lists -----

  /** The fold of intersections over the first n lists. */
  ghost function Seek(ids: Ids, posts: seq<seq<Document>>, n: nat, deleted: set<nat>): seq<Document>
    requires 0 < n <= |posts|
  {
    if n == 1 then posts[0] else Common(ids, Seek(ids, posts, n - 1, deleted), posts[n - 1], deleted)
  }

  /** The same fold as the code computes it on lists in any order: while documents are
      being renumbered, posting lists need not be sorted by id. */
  ghost function Folded(ids: Ids, posts: seq<seq<Document>>, n: nat, deleted: set<nat>): seq<Document>
    requires 0 < n <= |posts|
  {
    if n == 1 then posts[0] else Walked(ids, Folded(ids, posts, n - 1, deleted), posts[n - 1], 0, 0, deleted, [])
  }

  lemma {:induction false} WalkedWithin(ids: Ids, a: seq<Document>, b: seq<Document>, i: nat, j: nat, deleted: set<nat>,
                                        out: seq<Document>)
    requires i <= |a| && j <= |b|
    ensures forall d | d in Walked(ids, a, b, i, j, deleted, out) :: d in out || d in a
    decreases |a| - i + |b| - j
  {
    if i < |a| && j < |b| {
      if IdOf(ids, a[i]) < IdOf(ids, b[j]) {
        WalkedWithin(ids, a, b, i + 1, j, deleted, out);
      } else if IdOf(ids, a[i]) > IdOf(ids, b[j]) {
        WalkedWithin(ids, a, b, i, j + 1, deleted, out);
      } else {
        WalkedWithin(ids, a, b, i + 1, j + 1, deleted, if IdOf(ids, a[i]) in deleted then out else out + [a[i]]);
      }
    }
  }

  lemma {:induction false} FoldedWithin(ids: Ids, posts: seq<seq<Document>>, n: nat, deleted: set<nat>)
    requires 0 < n <= |posts|
    ensures forall d | d in Folded(ids, posts, n, deleted) :: d in posts[0]
  {
    if n > 1 {
      FoldedWithin(ids, posts, n - 1, deleted);
      WalkedWithin(ids, Folded(ids, posts, n - 1, deleted), posts[n - 1], 0, 0, deleted, []);
    }
  }

  /** On lists sorted by id the fold is that of the intersections. */
  lemma {:induction false} FoldedIsSeek(ids: Ids, posts: seq<seq<Document>>, n: nat, deleted: set<nat>)
    requires 0 < n <= |posts| && Sorted(ids, posts)
    ensures Folded(ids, posts, n, deleted) == Seek(ids, posts, n, deleted)
  {
    if n > 1 {
      FoldedIsSeek(ids, posts, n - 1, deleted);
      SeekIs(ids, posts, n - 1, deleted);
      WalkIsCommon(ids, Seek(ids, posts, n - 1, deleted), posts[n - 1], deleted, []);
    }
  }

  ghost predicate Sorted(ids: Ids, posts: seq<seq<Document>>) {
    forall k :: 0 <= k < |posts| ==> Increasing(ids, posts[k])
  }

  lemma {:induction false} SeekIs(ids: Ids, posts: seq<seq<Document>>, n: nat, deleted: set<nat>)
    requires 0 < n <= |posts| && Sorted(ids, posts)
    ensures Increasing(ids, Seek(ids, posts, n, deleted))
    ensures forall d | d in Seek(ids, posts, n, deleted) :: d in posts[0]
  {
    if n > 1 {
      var before := Seek(ids, posts, n - 1, deleted);
      SeekIs(ids, posts, n - 1, deleted);
      CommonIncreasing(ids, before, posts[n - 1], deleted);
      CommonElems(ids, before, posts[n - 1], deleted);
    }
  }

  /** Once the fold is empty it stays so. */
  lemma {:induction false} FoldedStaysEmpty(ids: Ids, posts: seq<seq<Document>>, k: nat, n: nat, deleted: set<nat>)
    requires 0 < k <= n <= |posts| && Folded(ids, posts, k, deleted) == []
    ensures Folded(ids, posts, n, deleted) == []
  {
    if k < n {
      FoldedStaysEmpty(ids, posts, k, n - 1, deleted);
    }
  }

  lemma StopWhenEmpty(ids: Ids, posts: seq<seq<Document>>, k: nat, deleted: set<nat>)
    requires 0 < k <= |posts|
    ensures Folded(ids, posts, k, deleted) == [] ==> Folded(ids, posts, |posts|, deleted) == []
  {
    if Folded(ids, posts, k, deleted) == [] {
      FoldedStaysEmpty(ids, posts, k, |posts|, deleted);
    }
  }

  /** One round: empties a buffer and intersects two other containers into it. */
  method Round(p: Container, q: Container, deletion: Bitmap, c: Container, ghost ids: Ids)
    requires p.Valid() && q.Valid() && c != p && c != q
    requires Carry(p.Contents, ids) && Carry(q.Contents, ids)
    modifies c
    ensures c.Valid() && c.Contents == Walked(ids, p.Contents, q.Contents, 0, 0, deletion.Bits(), [])
  {
    c.Reset();
    LinearIntersect(p, q, deletion, c, ids);
  }

  /** Copies a prefix of at least one document and reports the full size. */
  method CopyPrefix(p: Container, out: Container, copiedLen: nat)
    requires p.Valid() && out.Valid() && p != out
    modifies out
    ensures out.Valid() && out.Contents == old(out.Contents) + Take(p.Contents, if copiedLen == 0 then 1 else copiedLen)
  {
    var docs := Foreach(p.chain, p.Contents);
    var copied := 0;
    while copied < |docs|
      invariant 0 <= copied <= |docs| && (copied == 0 || copied < copiedLen)
      invariant out.Valid() && out.Contents == old(out.Contents) + docs[..copied]
    {
      out.Add(docs[copied]);
      copied := copied + 1;
      if copied >= copiedLen {
        return;
      }
    }
  }

  /** The containers hold the lists, all of whose documents are among docs. */
  ghost predicate Lists(lists: seq<Container>, posts: seq<seq<Document>>, docs: set<Document>)
    reads lists
  {
    && |lists| == |posts|
    && forall k :: 0 <= k < |posts| ==> lists[k].Valid() && lists[k].Contents == posts[k] && Elems(posts[k]) <= docs
  }

  ghost predicate Snapshot(docs: set<Document>, ids: Ids)
    reads docs
  {
    forall d | d in docs :: d.docId == IdOf(ids, d)
  }

  /** Intersects more than one list, using two buffers in turn; the buffer written is
      never the one read.  The total is assigned only when the result is not empty. */
  method SeekIntersect(lists: seq<Container>, deletion: Bitmap, out: Container, copiedLen: nat, oldTotal: nat,
                       ghost posts: seq<seq<Document>>, ghost docs: set<Document>, ghost ids: Ids)
    returns (total: nat)
    requires |lists| > 1 && Lists(lists, posts, docs) && Snapshot(docs, ids)
    requires out.Valid() && out !in lists
    modifies out
    ensures out.Valid()
    ensures Sorted(ids, posts) ==> Folded(ids, posts, |posts|, deletion.Bits()) == Seek(ids, posts, |posts|, deletion.Bits())
    ensures var r := Folded(ids, posts, |posts|, deletion.Bits());
      if r == [] then out.Contents == old(out.Contents) && total == oldTotal
      else out.Contents == old(out.Contents) + Take(r, if copiedLen == 0 then 1 else copiedLen) && total == |r|
  {
    if Sorted(ids, posts) {
      FoldedIsSeek(ids, posts, |posts|, deletion.Bits());
    }
    total := oldTotal;
    var p := FoldLists(lists, deletion, posts, docs, ids);
    if p.chain.total > 0 {
      total := p.chain.total;
      CopyPrefix(p, out, copiedLen);
    }
  }

  /** The running intersection of the first i lists. */
  ghost predicate Running(p: Container, posts: seq<seq<Document>>, i: nat, deleted: set<nat>, ids: Ids)
    reads p
  {
    0 < i <= |posts| && p.Valid() && p.Contents == Folded(ids, posts, i, deleted)
  }

  /** The fold itself; it stops at the first empty intersection. */
  method FoldLists(lists: seq<Container>, deletion: Bitmap,
                   ghost posts: seq<seq<Document>>, ghost docs: set<Document>, ghost ids: Ids)
    returns (p: Container)
    requires |lists| > 1 && Lists(lists, posts, docs) && Snapshot(docs, ids)
    ensures p.Valid() && p.Contents == Folded(ids, posts, |posts|, deletion.Bits()) && (p in lists || fresh(p))
  {
    var c0 := new Container();
    var c1 := new Container();
    p := lists[0];
    var i := 1;
    while i < |lists|
      invariant 1 <= i <= |lists| && Lists(lists, posts, docs) && Snapshot(docs, ids)
      invariant c0 != c1 && fresh(c0) && fresh(c1)
      invariant Running(p, posts, i, deletion.Bits(), ids)
      invariant p in lists || p == c0 || p == c1
      invariant p == c0 ==> i % 2 == 1
      invariant p == c1 ==> i % 2 == 0
    {
      p := FoldOnce(p, lists, i, deletion, if i % 2 == 0 then c0 else c1, posts, docs, ids);
      i := i + 1;
      if p.chain.total == 0 {
        break;
      }
    }
    StopWhenEmpty(ids, posts, i, deletion.Bits());
  }

  method FoldOnce(p: Container, lists: seq<Container>, i: nat, deletion: Bitmap, c: Container,
                  ghost posts: seq<seq<Document>>, ghost docs: set<Document>, ghost ids: Ids)
    returns (r: Container)
    requires Lists(lists, posts, docs) && Snapshot(docs, ids)
    requires Running(p, posts, i, deletion.Bits(), ids) && i < |posts| && c != p && c !in lists
    modifies c
    ensures r == c && Running(c, posts, i + 1, deletion.Bits(), ids)
  {
    FoldedAmong(ids, posts, i, docs, deletion.Bits());
    Round(p, lists[i], deletion, c, ids);
    r := c;
  }

  lemma FoldedAmong(ids: Ids, posts: seq<seq<Document>>, i: nat, docs: set<Document>, deleted: set<nat>)
    requires 0 < i < |posts| && Elems(posts[0]) <= docs && Elems(posts[i]) <= docs
    ensures forall d | d in Folded(ids, posts, i, deleted) :: d in docs
    ensures forall d | d in posts[i] :: d in docs
  {
    FoldedWithin(ids, posts, i, deleted);
  }
}
