/** What a query means: the naive scan over the documents of a segment. */
module LookupSpec {
  import opened Basics
  import opened Documents
  import opened SegmentValues
  import opened Intersect

  ghost predicate HasAll(d: Document, terms: seq<string>) {
    forall t | t in terms :: Indexed(d.fields, t)
  }

  /** The documents, in insertion order, that are not deleted and have every term as an
      indexable field. */
  ghost function Matches(v: SegV, ids: Ids, terms: seq<string>): seq<Document> {
    Filter(v.docs, set d | d in v.docs && IdOf(ids, d) !in v.deleted && HasAll(d, terms))
  }

  ghost function Postings(docs: seq<Document>, terms: seq<string>): (r: seq<seq<Document>>)
    ensures |r| == |terms|
    ensures forall k :: 0 <= k < |terms| ==> r[k] == Posting(docs, Term(terms[k]))
  {
    if terms == [] then [] else Postings(docs, terms[..|terms| - 1]) + [Posting(docs, Term(terms[|terms| - 1]))]
  }

  lemma {:induction false} PostingIncreasing(ids: Ids, docs: seq<Document>, k: Key)
    requires Increasing(ids, docs)
    ensures Increasing(ids, Posting(docs, k))
  {
    if docs != [] {
      var n := |docs| - 1;
      PostingIncreasing(ids, docs[..n], k);
      assert forall d | d in docs[..n] :: IdOf(ids, d) < IdOf(ids, docs[n]);
    }
  }

  lemma {:induction false} FilterIncreasing(ids: Ids, docs: seq<Document>, keep: set<Document>)
    requires Increasing(ids, docs)
    ensures Increasing(ids, Filter(docs, keep))
  {
    if docs != [] {
      var n := |docs| - 1;
      FilterIncreasing(ids, docs[..n], keep);
      assert forall d | d in docs[..n] :: IdOf(ids, d) < IdOf(ids, docs[n]);
    }
  }

  /** Lists sorted by id are equal as soon as they have the same elements. */
  lemma {:induction false} IncreasingUnique(ids: Ids, a: seq<Document>, b: seq<Document>)
    requires Increasing(ids, a) && Increasing(ids, b) && Subset(a, b) && Subset(b, a)
    ensures a == b
  {
    HeadInElems(a);
    HeadInElems(b);
    if a != [] && b != [] {
      var a', b', x := a[..|a| - 1], b[..|b| - 1], a[|a| - 1];
      LastIsSame(ids, a, b);
      assert a == a' + [x] && b == b' + [x];
      InitIsSubset(ids, a', b', x);
      InitIsSubset(ids, b', a', x);
      IncreasingUnique(ids, a', b');
    }
  }

  ghost predicate Subset(a: seq<Document>, b: seq<Document>) {
    forall d | d in a :: d in b
  }

  lemma InitIsSubset(ids: Ids, a: seq<Document>, b: seq<Document>, x: Document)
    requires Increasing(ids, a + [x]) && Subset(a + [x], b + [x])
    ensures Subset(a, b)
  {
    forall d | d in a
      ensures d in b
    {
      var i :| 0 <= i < |a| && a[i] == d;
      assert (a + [x])[i] == d && (a + [x])[|a|] == x;
      assert d in a + [x] && d in b + [x];
    }
  }

  lemma LastIsSame(ids: Ids, a: seq<Document>, b: seq<Document>)
    requires Increasing(ids, a) && Increasing(ids, b) && a != [] && b != [] && Subset(a, b) && Subset(b, a)
    ensures a[|a| - 1] == b[|b| - 1]
  {
    assert a[|a| - 1] in b && b[|b| - 1] in a;
  }

  // ----- the fold of intersections, element by element -----

  /** The document is in the first n lists. */
  ghost predicate InFirst(posts: seq<seq<Document>>, n: nat, d: Document)
    requires n <= |posts|
  {
    n == 0 || (d in posts[n - 1] && InFirst(posts, n - 1, d))
  }

  /** Among documents with increasing ids, one shares its id with a document of a list only
      if it is in that list itself. */
  lemma InIdsIsIn(ids: Ids, all: seq<Document>, list: seq<Document>, d: Document)
    requires Increasing(ids, all) && d in all && forall e | e in list :: e in all
    ensures InIds(ids, d, list) <==> d in list
  {
    if i :| 0 <= i < |list| && IdOf(ids, list[i]) == IdOf(ids, d) {
      assert list[i] in list;
      assert list[i] == d;
    }
  }

  lemma CommonHits(ids: Ids, all: seq<Document>, a: seq<Document>, b: seq<Document>, deleted: set<nat>, d: Document)
    requires Increasing(ids, all) && (forall e | e in a :: e in all) && (forall e | e in b :: e in all)
    ensures d in Common(ids, a, b, deleted) <==> d in a && d in b && IdOf(ids, d) !in deleted
  {
    CommonElems(ids, a, b, deleted);
    if d in a {
      InIdsIsIn(ids, all, b, d);
    }
  }

  ghost predicate Among(all: seq<Document>, posts: seq<seq<Document>>) {
    forall k :: 0 <= k < |posts| ==> forall e | e in posts[k] :: e in all
  }

  lemma {:induction false} SeekElems(ids: Ids, all: seq<Document>, posts: seq<seq<Document>>, n: nat, deleted: set<nat>, d: Document)
    requires Increasing(ids, all) && Among(all, posts) && 2 <= n <= |posts| && Sorted(ids, posts)
    ensures d in Seek(ids, posts, n, deleted) <==> InFirst(posts, n, d) && IdOf(ids, d) !in deleted
  {
    var before := Seek(ids, posts, n - 1, deleted);
    SeekIs(ids, posts, n - 1, deleted);
    CommonHits(ids, all, before, posts[n - 1], deleted, d);
    assert Seek(ids, posts, n, deleted) == Common(ids, before, posts[n - 1], deleted);
    if n > 2 {
      SeekElems(ids, all, posts, n - 1, deleted, d);
    } else {
      assert InFirst(posts, 1, d) <==> d in posts[0];
    }
  }

  lemma HasAllSnoc(d: Document, terms: seq<string>, n: nat)
    requires 0 < n <= |terms|
    ensures HasAll(d, terms[..n]) <==> HasAll(d, terms[..n - 1]) && Indexed(d.fields, terms[n - 1])
  {
    assert terms[..n] == terms[..n - 1] + [terms[n - 1]];
  }

  lemma {:induction false} InFirstIs(docs: seq<Document>, terms: seq<string>, n: nat, d: Document)
    requires 0 < n <= |terms|
    ensures InFirst(Postings(docs, terms), n, d) <==> d in docs && HasAll(d, terms[..n])
  {
    HasAllSnoc(d, terms, n);
    assert d in Postings(docs, terms)[n - 1] <==> d in docs && Indexed(d.fields, terms[n - 1]);
    if n > 1 {
      InFirstIs(docs, terms, n - 1, d);
    }
  }

  lemma PostingsSorted(ids: Ids, docs: seq<Document>, terms: seq<string>)
    requires Increasing(ids, docs)
    ensures Sorted(ids, Postings(docs, terms)) && Among(docs, Postings(docs, terms))
  {
    forall k | 0 <= k < |terms|
      ensures Increasing(ids, Postings(docs, terms)[k])
    {
      PostingIncreasing(ids, docs, Term(terms[k]));
    }
  }

  lemma MatchesElems(v: SegV, ids: Ids, terms: seq<string>, d: Document)
    requires Increasing(ids, v.docs) && |terms| >= 2
    ensures d in Seek(ids, Postings(v.docs, terms), |terms|, v.deleted) <==> d in Matches(v, ids, terms)
  {
    PostingsSorted(ids, v.docs, terms);
    SeekElems(ids, v.docs, Postings(v.docs, terms), |terms|, v.deleted, d);
    InFirstIs(v.docs, terms, |terms|, d);
    assert terms[..|terms|] == terms;
  }

  /** The fold of intersections over the posting lists of two or more terms is the naive
      scan. */
  lemma SeekIsMatches(v: SegV, ids: Ids, terms: seq<string>)
    requires Increasing(ids, v.docs) && |terms| >= 2
    ensures Sorted(ids, Postings(v.docs, terms))
    ensures Seek(ids, Postings(v.docs, terms), |terms|, v.deleted) == Matches(v, ids, terms)
  {
    var posts := Postings(v.docs, terms);
    PostingsSorted(ids, v.docs, terms);
    SeekIs(ids, posts, |terms|, v.deleted);
    FilterIncreasing(ids, v.docs, set d | d in v.docs && IdOf(ids, d) !in v.deleted && HasAll(d, terms));
    forall d
      ensures d in Seek(ids, posts, |terms|, v.deleted) <==> d in Matches(v, ids, terms)
    {
      MatchesElems(v, ids, terms, d);
    }
    IncreasingUnique(ids, Seek(ids, posts, |terms|, v.deleted), Matches(v, ids, terms));
  }

  /** A term without documents leaves nothing to match. */
  lemma MissingTerm(v: SegV, ids: Ids, terms: seq<string>, t: string)
    requires t in terms && Posting(v.docs, Term(t)) == []
    ensures Matches(v, ids, terms) == []
  {
    forall d | d in v.docs
      ensures !HasAll(d, terms)
    {
      assert Indexed(d.fields, t) ==> d in Posting(v.docs, Term(t));
    }
    FilterNone(v.docs, set d | d in v.docs && IdOf(ids, d) !in v.deleted && HasAll(d, terms));
  }

  // ----- the outcome of a query on one segment -----

  /** Nothing is looked at when no result is wanted, nothing is stored or all is deleted. */
  ghost predicate Skipped(v: SegV, limit: nat) {
    limit < 1 || v.docs == [] || |v.docs| == |v.deleted|
  }

  ghost predicate SomeMissing(v: SegV, terms: seq<string>) {
    exists t :: t in terms && Posting(v.docs, Term(t)) == []
  }

  /** What several terms have in common, as the fold over their posting lists computes it
      by whatever ids the documents carry at the time. */
  ghost function Sought(v: SegV, ids: Ids, terms: seq<string>): seq<Document> {
    if terms == [] || SomeMissing(v, terms) then [] else Folded(ids, Postings(v.docs, terms), |terms|, v.deleted)
  }

  /** By the ids that the segment gave them, these are the documents of the naive scan. */
  lemma SoughtIsMatches(v: SegV, ids: Ids, terms: seq<string>)
    requires Numbered(v, ids) && |terms| >= 2
    ensures Sought(v, ids, terms) == Matches(v, ids, terms)
  {
    if t :| t in terms && Posting(v.docs, Term(t)) == [] {
      MissingTerm(v, ids, terms, t);
    } else {
      NumberedIncreasing(v, ids);
      SeekIsMatches(v, ids, terms);
      FoldedIsSeek(ids, Postings(v.docs, terms), |terms|, v.deleted);
    }
  }

  /** The documents that a query appends to its result.  A query for one term takes a
      prefix of the posting list as it is; any other leaves out deleted documents. */
  ghost function Found(v: SegV, ids: Ids, terms: seq<string>, limit: nat): seq<Document> {
    if Skipped(v, limit) then []
    else if terms == [] then Take(Survivors(v, ids), limit)
    else if |terms| == 1 then Take(Posting(v.docs, Term(terms[0])), limit)
    else Take(Sought(v, ids, terms), limit)
  }

  /** The total that a query reports, which on some paths is what was there before.  The
      difference is one of 32-bit unsigned numbers. */
  ghost function TotalOf(v: SegV, ids: Ids, terms: seq<string>, limit: nat, before: nat): nat {
    if Skipped(v, limit) then before
    else if terms == [] then Unsigned(|v.docs| - |v.deleted|)
    else if SomeMissing(v, terms) then 0
    else if |terms| == 1 then |Posting(v.docs, Term(terms[0]))|
    else if Sought(v, ids, terms) == [] then before
    else |Sought(v, ids, terms)|
  }

  lemma NumberedIncreasing(v: SegV, ids: Ids)
    requires Numbered(v, ids)
    ensures Increasing(ids, v.docs)
  {
  }
}
