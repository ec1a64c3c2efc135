/** What a lookup over all segments of the engine answers. */
module Answers {
  import opened Basics
  import opened Documents
  import opened SegmentValues
  import opened Intersect
  import opened LookupSpec
  import opened Protocol
  import opened ProtocolSafety
  import opened ProtocolRuns

  // ----- one segment -----

  /** All that a query would find in a segment if it were not limited. */
  ghost function Hits(v: SegV, ids: Ids, terms: seq<string>): seq<Document> {
    if |v.docs| == |v.deleted| then []
    else if terms == [] then Survivors(v, ids)
    else if |terms| == 1 then Posting(v.docs, Term(terms[0]))
    else Sought(v, ids, terms)
  }

  /** When as many ids are deleted as there are documents, nothing is live: the short cut
      for such a segment loses nothing. */
  lemma AllDeleted(v: SegV, ids: Ids)
    requires Numbered(v, ids) && |v.docs| == |v.deleted|
    ensures LiveDocs(v, ids) == {}
  {
    RangeSize(v.deleted, |v.docs|);
  }

  /** The document with id x, when ids are 1, 2, ... in order. */
  ghost function Nth(docs: seq<Document>, x: nat): Document
    requires 1 <= x <= |docs|
  {
    docs[x - 1]
  }

  ghost function Nths(docs: seq<Document>, xs: set<nat>): set<Document>
    requires forall x | x in xs :: 1 <= x <= |docs|
  {
    set x | x in xs :: Nth(docs, x)
  }

  lemma NthsOther(docs: seq<Document>, xs: set<nat>, x: nat)
    requires Distinct(docs) && x in xs && forall y | y in xs :: 1 <= y <= |docs|
    ensures Nths(docs, xs) == Nths(docs, xs - {x}) + {Nth(docs, x)} && Nth(docs, x) !in Nths(docs, xs - {x})
  {
    forall y | y in xs - {x}
      ensures Nth(docs, y) != Nth(docs, x)
    {
    }
  }

  lemma {:induction false} NthsSize(docs: seq<Document>, xs: set<nat>)
    requires Distinct(docs) && forall x | x in xs :: 1 <= x <= |docs|
    ensures |Nths(docs, xs)| == |xs|
  {
    if xs != {} {
      var x :| x in xs;
      var rest := xs - {x};
      NthsSize(docs, rest);
      NthsOther(docs, xs, x);
    }
  }

  /** The counters of a segment give the number of its live documents. */
  lemma LiveCount(v: SegV, ids: Ids)
    requires Numbered(v, ids)
    ensures |LiveDocs(v, ids)| == |v.docs| - |v.deleted|
  {
    NumberedDistinct(v, ids);
    DistinctSize(v.docs);
    NthsSize(v.docs, v.deleted);
    var gone := Nths(v.docs, v.deleted);
    forall d | d in v.docs && IdOf(ids, d) in v.deleted
      ensures d in gone
    {
      assert Nth(v.docs, IdOf(ids, d)) == d;
    }
    Split(LiveDocs(v, ids), gone, Elems(v.docs));
  }

  lemma Split(a: set<Document>, b: set<Document>, all: set<Document>)
    requires a <= all && b <= all && a !! b && forall d | d in all :: d in a || d in b
    ensures |a| == |all| - |b|
  {
    assert all == a + b;
  }

  /** The total of a query without terms is the number of what there is to find. */
  lemma TotalIsLive(v: SegV, ids: Ids, limit: nat, before: nat)
    requires Numbered(v, ids) && !Skipped(v, limit) && |v.docs| < UINT32
    ensures TotalOf(v, ids, [], limit, before) == |Hits(v, ids, [])| == |LiveDocs(v, ids)|
  {
    LiveCount(v, ids);
    SurvivorCount(v, ids);
    assert Unsigned(|v.docs| - |v.deleted|) == |LiveDocs(v, ids)|;
  }

  lemma SurvivorCount(v: SegV, ids: Ids)
    requires Numbered(v, ids)
    ensures |Survivors(v, ids)| == |LiveDocs(v, ids)|
  {
    MigrationSplits(v, ids);
    DistinctSize(Survivors(v, ids));
  }

  /** A limited query finds the first of what there is to find, whatever ids the documents
      carry. */
  lemma FoundIsTake(v: SegV, ids: Ids, terms: seq<string>, limit: nat)
    ensures Found(v, ids, terms, limit) == Take(Hits(v, ids, terms), limit)
  {
    if v.docs == [] {
      NothingStored(v, ids, terms);
    }
  }

  lemma NothingStored(v: SegV, ids: Ids, terms: seq<string>)
    requires v.docs == []
    ensures Hits(v, ids, terms) == []
  {
    if terms == [] {
      assert Walk(v.docs) == [];
    } else {
      assert terms[0] in terms && Posting(v.docs, Term(terms[0])) == [];
    }
  }

  /** Except for one term, a query finds exactly the live documents that have all terms,
      none of them twice. */
  lemma HitsAre(v: SegV, ids: Ids, terms: seq<string>)
    requires Numbered(v, ids) && |terms| != 1
    ensures Elems(Hits(v, ids, terms)) == set d | d in LiveDocs(v, ids) && HasAll(d, terms)
    ensures Distinct(Hits(v, ids, terms))
  {
    NumberedDistinct(v, ids);
    if |v.docs| == |v.deleted| {
      AllDeleted(v, ids);
    } else if terms == [] {
      MigrationSplits(v, ids);
    } else {
      SoughtIsMatches(v, ids, terms);
      FilterDistinct(v.docs, set d | d in v.docs && IdOf(ids, d) !in v.deleted && HasAll(d, terms));
    }
  }

  /** A query for one term finds all documents that have it, deleted ones included, in the
      order of their ids and none twice. */
  lemma OneTermHits(v: SegV, ids: Ids, t: string)
    requires Numbered(v, ids) && |v.docs| != |v.deleted|
    ensures Elems(Hits(v, ids, [t])) == set d | d in v.docs && Indexed(d.fields, t)
    ensures Distinct(Hits(v, ids, [t])) && Increasing(ids, Hits(v, ids, [t]))
  {
    NumberedDistinct(v, ids);
    NumberedIncreasing(v, ids);
    PostingDistinct(v.docs, Term(t));
    PostingIncreasing(ids, v.docs, Term(t));
    PostingHas(v.docs, t);
  }

  lemma PostingHas(docs: seq<Document>, t: string)
    ensures Elems(Posting(docs, Term(t))) == set d | d in docs && Indexed(d.fields, t)
  {
    forall d | d in docs && Indexed(d.fields, t)
      ensures d in Posting(docs, Term(t))
    {
      assert Has(d, Term(t));
    }
  }

  /** What the total of a query is, case by case. */
  lemma TotalCases(v: SegV, ids: Ids, terms: seq<string>, limit: nat, before: nat)
    requires Numbered(v, ids) && |v.docs| < UINT32
    ensures var total, skip := TotalOf(v, ids, terms, limit, before), limit == 0 || v.docs == [] || |v.deleted| == |v.docs|;
      var missing := exists t :: t in terms && forall d | d in v.docs :: !Indexed(d.fields, t);
      && (skip ==> total == before)
      && (!skip && terms == [] ==> total == |LiveDocs(v, ids)|)
      && (!skip && missing ==> total == 0)
      && (!skip && !missing && |terms| == 1 ==> total == |set d | d in v.docs && Indexed(d.fields, terms[0])|)
      && (!skip && !missing && |terms| > 1 ==>
            var n := |set d | d in LiveDocs(v, ids) && HasAll(d, terms)|; total == if n == 0 then before else n)
  {
    if limit > 0 && v.docs != [] && |v.deleted| != |v.docs| {
      if terms == [] {
        TotalIsLive(v, ids, limit, before);
      } else {
        MissingIs(v, terms);
        TotalOfTerms(v, ids, terms, limit, before);
      }
    }
  }

  lemma MissingIs(v: SegV, terms: seq<string>)
    ensures SomeMissing(v, terms) <==> exists t :: t in terms && forall d | d in v.docs :: !Indexed(d.fields, t)
  {
    forall t
      ensures Posting(v.docs, Term(t)) == [] <==> forall d | d in v.docs :: !Indexed(d.fields, t)
    {
      PostingHas(v.docs, t);
      HeadInElems(Posting(v.docs, Term(t)));
      assert forall d | d in v.docs && Indexed(d.fields, t) :: d in Elems(Posting(v.docs, Term(t)));
    }
  }

  lemma TotalOfTerms(v: SegV, ids: Ids, terms: seq<string>, limit: nat, before: nat)
    requires Numbered(v, ids) && terms != [] && !Skipped(v, limit)
    ensures SomeMissing(v, terms) ==> TotalOf(v, ids, terms, limit, before) == 0
    ensures !SomeMissing(v, terms) && |terms| == 1 ==>
      TotalOf(v, ids, terms, limit, before) == |set d | d in v.docs && Indexed(d.fields, terms[0])|
    ensures !SomeMissing(v, terms) && |terms| > 1 ==>
      var n := |set d | d in LiveDocs(v, ids) && HasAll(d, terms)|;
      TotalOf(v, ids, terms, limit, before) == if n == 0 then before else n
  {
    if !SomeMissing(v, terms) {
      if |terms| == 1 {
        assert terms == [terms[0]];
        OneTermHits(v, ids, terms[0]);
        DistinctSize(Hits(v, ids, terms));
      } else {
        HitsAre(v, ids, terms);
        DistinctSize(Hits(v, ids, terms));
      }
    }
  }

  // ----- all segments -----

  ghost function AllHits<S>(segs: map<S, SegV>, list: seq<S>, ids: Ids, terms: seq<string>): seq<Document> {
    if list == [] then []
    else
      var g := list[|list| - 1];
      AllHits(segs, list[..|list| - 1], ids, terms) + if g in segs then Hits(segs[g], ids, terms) else []
  }

  /** What comes from the remaining segments. */
  lemma {:induction false} AllHitsConcat<S>(segs: map<S, SegV>, a: seq<S>, b: seq<S>, ids: Ids, terms: seq<string>)
    ensures AllHits(segs, a + b, ids, terms) == AllHits(segs, a, ids, terms) + AllHits(segs, b, ids, terms)
  {
    if b == [] {
      assert a + b == a;
    } else {
      var n := |b| - 1;
      AllHitsConcat(segs, a, b[..n], ids, terms);
      assert (a + b)[..|a| + n] == a + b[..n];
    }
  }

  /** What has been found after i segments.  Closed. */
  ghost predicate Answered<S>(segs: map<S, SegV>, list: seq<S>, ids: Ids, terms: seq<string>, limit: nat, i: nat, got: seq<Document>) {
    |got| <= limit && forall n :: Unlocked(AnsweredLock, n) ==> i <= |list| && got == Take(AllHits(segs, list[..i], ids, terms), limit)
  }

  lemma AnsweredNone<S>(segs: map<S, SegV>, list: seq<S>, ids: Ids, terms: seq<string>, limit: nat)
    ensures Answered(segs, list, ids, terms, limit, 0, [])
  {
  }

  /** The next segment is asked for what is still wanted. */
  lemma AnsweredNext<S>(segs: map<S, SegV>, list: seq<S>, ids: Ids, terms: seq<string>, limit: nat, i: nat, got: seq<Document>)
    requires i < |list| && list[i] in segs
    requires Answered(segs, list, ids, terms, limit, i, got)
    ensures Answered(segs, list, ids, terms, limit, i + 1, got + Found(segs[list[i]], ids, terms, limit - |got|))
  {
    assert Unlocked(AnsweredLock, 0);
    assert list[..i + 1][..i] == list[..i];
    FoundIsTake(segs[list[i]], ids, terms, limit - |got|);
    TakeMore(AllHits(segs, list[..i], ids, terms), Hits(segs[list[i]], ids, terms), limit, got);
  }

  /** What a query finds.  Closed. */
  ghost predicate Finds(v: SegV, ids: Ids, terms: seq<string>, limit: nat, more: seq<Document>) {
    forall n :: Unlocked(TotalLock, n) ==> more == Found(v, ids, terms, limit)
  }

  lemma AnsweredMore<S>(segs: map<S, SegV>, list: seq<S>, ids: Ids, terms: seq<string>, limit: nat, i: nat, got: seq<Document>, next: seq<Document>)
    requires i < |list| && list[i] in segs && Answered(segs, list, ids, terms, limit, i, got)
    requires got <= next && Finds(segs[list[i]], ids, terms, limit - |got|, next[|got|..])
    ensures Answered(segs, list, ids, terms, limit, i + 1, next)
  {
    assert Unlocked(TotalLock, 0);
    AnsweredNext(segs, list, ids, terms, limit, i, got);
    assert next == got + next[|got|..];
  }

  /** Stopping early loses nothing. */
  lemma AnsweredAll<S>(segs: map<S, SegV>, list: seq<S>, ids: Ids, terms: seq<string>, limit: nat, i: nat, got: seq<Document>)
    requires Answered(segs, list, ids, terms, limit, i, got) && (i == |list| || |got| >= limit)
    ensures got == Take(AllHits(segs, list, ids, terms), limit)
  {
    assert Unlocked(AnsweredLock, 0);
    assert list == list[..i] + list[i..];
    AllHitsConcat(segs, list[..i], list[i..], ids, terms);
    TakeConcat(AllHits(segs, list[..i], ids, terms), AllHits(segs, list[i..], ids, terms), limit);
    if i == |list| {
      assert list[..i] == list;
    }
  }

  // ----- the sum of totals -----

  /** A query leaves the total alone that it finds.  Closed. */
  ghost predicate Leaves(v: SegV, ids: Ids, terms: seq<string>) {
    forall n :: Unlocked(LeavesLock, n) ==>
      || v.docs == [] || |v.docs| == |v.deleted|
      || (|terms| >= 2 && !SomeMissing(v, terms) && Sought(v, ids, terms) == [])
  }

  /** The total after a query.  Closed. */
  ghost predicate Reports(v: SegV, ids: Ids, terms: seq<string>, limit: nat, before: nat, total: nat) {
    forall n :: Unlocked(TotalLock, n) ==> total == TotalOf(v, ids, terms, limit, before)
  }

  /** Whether a query leaves the total alone, and how much there is to find.  Closed. */
  ghost predicate Counts(v: SegV, ids: Ids, terms: seq<string>, leaves: bool, more: nat) {
    forall n :: Unlocked(TotalLock, n) ==> leaves == Leaves(v, ids, terms) && more == |Hits(v, ids, terms)|
  }

  /** Any other query reports what there is to find. */
  lemma TotalIsHits(v: SegV, ids: Ids, terms: seq<string>, limit: nat, before: nat) returns (leaves: bool, more: nat)
    requires Numbered(v, ids) && limit >= 1 && |v.docs| < UINT32
    ensures Counts(v, ids, terms, leaves, more) && (leaves ==> more == 0)
    ensures Reports(v, ids, terms, limit, before, if leaves then before else more)
  {
    assert Unlocked(LeavesLock, 0);
    leaves, more := Leaves(v, ids, terms), |Hits(v, ids, terms)|;
    if v.docs == [] {
      NothingStored(v, ids, terms);
    } else if |v.docs| != |v.deleted| && terms == [] {
      TotalIsLive(v, ids, limit, before);
    }
  }

  /** The variable for the total of one segment, which starts with whatever memory holds,
      and the sum, after the given segments. */
  ghost function Totals<S>(segs: map<S, SegV>, list: seq<S>, ids: Ids, terms: seq<string>, limit: nat, garbage: nat): (nat, nat) {
    if list == [] then (garbage, 0)
    else
      var n := |list| - 1;
      var (last, sum) := Totals(segs, list[..n], ids, terms, limit, garbage);
      if list[n] !in segs then (last, sum)
      else
        var found := Take(AllHits(segs, list[..n], ids, terms), limit);
        var total := TotalOf(segs[list[n]], ids, terms, limit - |found|, last);
        (total, sum + total)
  }

  /** Before the last of the first k segments, there was not enough.  Closed. */
  ghost predicate NotEnough<S>(segs: map<S, SegV>, list: seq<S>, ids: Ids, terms: seq<string>, limit: nat, k: nat) {
    k <= |list| && forall n :: Unlocked(AnsweredLock, n) ==>
      forall j :: 0 < j < k ==> |AllHits(segs, list[..j], ids, terms)| < limit
  }

  lemma EnoughNext<S>(segs: map<S, SegV>, list: seq<S>, ids: Ids, terms: seq<string>, limit: nat, i: nat, before: nat)
    requires i < |list| && NotEnough(segs, list, ids, terms, limit, i)
    requires IsSize(segs, list, ids, terms, i, before) && (i > 0 ==> before < limit)
    ensures NotEnough(segs, list, ids, terms, limit, i + 1)
  {
    assert Unlocked(AnsweredLock, 0) && Unlocked(SizeLock, 0);
  }

  lemma EnoughBefore<S>(segs: map<S, SegV>, list: seq<S>, ids: Ids, terms: seq<string>, limit: nat, k: nat)
    requires k > 0 && NotEnough(segs, list, ids, terms, limit, k)
    ensures NotEnough(segs, list, ids, terms, limit, k - 1)
  {
    assert Unlocked(AnsweredLock, 0);
  }

  lemma EnoughAt<S>(segs: map<S, SegV>, list: seq<S>, ids: Ids, terms: seq<string>, limit: nat, k: nat, size: nat)
    requires 0 < k && NotEnough(segs, list, ids, terms, limit, k) && limit >= 1 && IsSize(segs, list, ids, terms, k - 1, size)
    ensures size < limit
  {
    assert Unlocked(AnsweredLock, 0) && Unlocked(SizeLock, 0);
    assert list[..0] == [];
  }

  /** A lookup visits the first k segments: until there is enough. */
  ghost predicate Visits<S>(segs: map<S, SegV>, list: seq<S>, ids: Ids, terms: seq<string>, limit: nat, k: nat) {
    && k <= |list| && (k == |list| || (k > 0 && |AllHits(segs, list[..k], ids, terms)| >= limit))
    && NotEnough(segs, list, ids, terms, limit, k)
  }

  /** The sum over the visited segments. */
  ghost predicate IsTotal<S>(segs: map<S, SegV>, list: seq<S>, ids: Ids, terms: seq<string>, limit: nat, garbage: nat, sum: nat) {
    exists k: nat :: Visits(segs, list, ids, terms, limit, k) && sum == Unsigned(Totals(segs, list[..k], ids, terms, limit, garbage).1)
  }

  /** What a lookup has got after i segments. */
  datatype Got = Got(found: seq<Document>, total: nat, sum: nat)

  /** What the next segment adds to it. */
  ghost predicate IsMore(got: Got, next: Got, v: SegV, ids: Ids, terms: seq<string>, limit: nat)
    requires |got.found| <= limit
  {
    && got.found <= next.found && Finds(v, ids, terms, limit - |got.found|, next.found[|got.found|..])
    && Reports(v, ids, terms, limit - |got.found|, got.total, next.total)
    && next.sum == Unsigned(got.sum + next.total)
  }

  /** The total and the sum after i segments, none of which was enough but perhaps the last.
      Closed. */
  ghost predicate Summed<S>(segs: map<S, SegV>, list: seq<S>, ids: Ids, terms: seq<string>, limit: nat, garbage: nat,
                            i: nat, got: Got)
  {
    forall n :: Unlocked(AnsweredLock, n) ==>
      && i <= |list| && got.total == Totals(segs, list[..i], ids, terms, limit, garbage).0
      && got.sum == Unsigned(Totals(segs, list[..i], ids, terms, limit, garbage).1)
      && NotEnough(segs, list, ids, terms, limit, i)
  }

  lemma SummedNone<S>(segs: map<S, SegV>, list: seq<S>, ids: Ids, terms: seq<string>, limit: nat, garbage: nat)
    ensures Summed(segs, list, ids, terms, limit, garbage, 0, Got([], garbage, 0))
  {
  }

  lemma SummedNext<S>(segs: map<S, SegV>, list: seq<S>, ids: Ids, terms: seq<string>, limit: nat, garbage: nat,
                      i: nat, got: Got, next: Got)
    requires i < |list| && list[i] in segs && (i > 0 ==> |got.found| < limit)
    requires Answered(segs, list, ids, terms, limit, i, got.found) && Summed(segs, list, ids, terms, limit, garbage, i, got)
    requires IsMore(got, next, segs[list[i]], ids, terms, limit)
    ensures Summed(segs, list, ids, terms, limit, garbage, i + 1, next)
  {
    var before := HitsBefore(segs, list, ids, terms, limit, i, got.found);
    var sum := SumBefore(segs, list, ids, terms, limit, garbage, i, got);
    TotalsSnoc(segs, list, ids, terms, limit, garbage, i, before, limit - |got.found|, got.total, sum, next.total, sum + next.total);
    EnoughNext(segs, list, ids, terms, limit, i, before);
    UnsignedSum(sum, next.total);
    SummedIs(segs, list, ids, terms, limit, garbage, i + 1, next, sum + next.total);
  }

  lemma HitsBefore<S>(segs: map<S, SegV>, list: seq<S>, ids: Ids, terms: seq<string>, limit: nat, i: nat, got: seq<Document>)
    returns (before: nat)
    requires Answered(segs, list, ids, terms, limit, i, got) && i <= |list|
    ensures IsSize(segs, list, ids, terms, i, before) && |got| == if before <= limit then before else limit
  {
    assert Unlocked(AnsweredLock, 0) && Unlocked(SizeLock, 0);
    before := |AllHits(segs, list[..i], ids, terms)|;
  }

  lemma SumBefore<S>(segs: map<S, SegV>, list: seq<S>, ids: Ids, terms: seq<string>, limit: nat, garbage: nat, i: nat, got: Got)
    returns (sum: nat)
    requires Summed(segs, list, ids, terms, limit, garbage, i, got)
    ensures i <= |list| && NotEnough(segs, list, ids, terms, limit, i) && got.sum == Unsigned(sum)
    ensures AreTotals(segs, list, ids, terms, limit, garbage, i, got.total, sum)
  {
    assert Unlocked(AnsweredLock, 0) && Unlocked(SumLock, 0);
    sum := Totals(segs, list[..i], ids, terms, limit, garbage).1;
  }

  lemma SummedIs<S>(segs: map<S, SegV>, list: seq<S>, ids: Ids, terms: seq<string>, limit: nat, garbage: nat, i: nat, got: Got, sum: nat)
    requires i <= |list| && NotEnough(segs, list, ids, terms, limit, i) && got.sum == Unsigned(sum)
    requires AreTotals(segs, list, ids, terms, limit, garbage, i, got.total, sum)
    ensures Summed(segs, list, ids, terms, limit, garbage, i, got)
  {
    assert Unlocked(SumLock, 0);
  }

  /** The number of hits in the first i segments.  Closed. */
  ghost predicate IsSize<S>(segs: map<S, SegV>, list: seq<S>, ids: Ids, terms: seq<string>, i: nat, size: nat) {
    forall n :: Unlocked(SizeLock, n) ==> i <= |list| && size == |AllHits(segs, list[..i], ids, terms)|
  }

  /** The total and the sum after the first i segments.  Closed. */
  ghost predicate AreTotals<S>(segs: map<S, SegV>, list: seq<S>, ids: Ids, terms: seq<string>, limit: nat, garbage: nat,
                               i: nat, total: nat, sum: nat)
  {
    forall n :: Unlocked(SumLock, n) ==> i <= |list| && (total, sum) == Totals(segs, list[..i], ids, terms, limit, garbage)
  }

  lemma TotalsSnoc<S>(segs: map<S, SegV>, list: seq<S>, ids: Ids, terms: seq<string>, limit: nat, garbage: nat,
                      i: nat, before: nat, left: nat, last: nat, sum: nat, total: nat, sum': nat)
    requires i < |list| && list[i] in segs && AreTotals(segs, list, ids, terms, limit, garbage, i, last, sum)
    requires IsSize(segs, list, ids, terms, i, before) && left == if before <= limit then limit - before else 0
    requires Reports(segs[list[i]], ids, terms, left, last, total) && sum' == sum + total
    ensures AreTotals(segs, list, ids, terms, limit, garbage, i + 1, total, sum')
  {
    assert Unlocked(TotalLock, 0) && Unlocked(SumLock, 0) && Unlocked(SizeLock, 0);
    assert list[..i + 1][..i] == list[..i];
  }

  /** What is stale, and what the variable is left at.  Closed. */
  ghost predicate AreStale<S>(segs: map<S, SegV>, list: seq<S>, ids: Ids, terms: seq<string>, garbage: nat, i: nat, stale: nat, last: nat) {
    forall n :: Unlocked(StaleLock, n) ==>
      i <= |list| && stale == Stale(segs, list[..i], ids, terms, garbage) && last == LeftAt(segs, list[..i], ids, terms, garbage)
  }

  lemma StaleSnoc<S>(segs: map<S, SegV>, list: seq<S>, ids: Ids, terms: seq<string>, garbage: nat,
                     i: nat, stale: nat, last: nat, leaves: bool, more: nat, stale': nat, last': nat)
    requires i < |list| && list[i] in segs && Counts(segs[list[i]], ids, terms, leaves, more)
    requires AreStale(segs, list, ids, terms, garbage, i, stale, last)
    requires stale' == stale + (if leaves then last else 0) && last' == if leaves then last else more
    ensures AreStale(segs, list, ids, terms, garbage, i + 1, stale', last')
  {
    assert Unlocked(StaleLock, 0);
    CountsAre(segs[list[i]], ids, terms, leaves, more);
    StaleStep(segs, list, ids, terms, garbage, i);
    LeftStep(segs, list, ids, terms, garbage, i);
  }

  lemma CountsAre(v: SegV, ids: Ids, terms: seq<string>, leaves: bool, more: nat)
    requires Counts(v, ids, terms, leaves, more)
    ensures leaves == Leaves(v, ids, terms) && more == |Hits(v, ids, terms)|
  {
    assert Unlocked(TotalLock, 0);
  }

  lemma StaleStep<S>(segs: map<S, SegV>, list: seq<S>, ids: Ids, terms: seq<string>, garbage: nat, i: nat)
    requires i < |list| && list[i] in segs
    ensures Stale(segs, list[..i + 1], ids, terms, garbage) == Stale(segs, list[..i], ids, terms, garbage) +
      if Leaves(segs[list[i]], ids, terms) then LeftAt(segs, list[..i], ids, terms, garbage) else 0
  {
    assert list[..i + 1][..i] == list[..i];
  }

  lemma LeftStep<S>(segs: map<S, SegV>, list: seq<S>, ids: Ids, terms: seq<string>, garbage: nat, i: nat)
    requires i < |list| && list[i] in segs
    ensures LeftAt(segs, list[..i + 1], ids, terms, garbage) ==
      if Leaves(segs[list[i]], ids, terms) then LeftAt(segs, list[..i], ids, terms, garbage) else |Hits(segs[list[i]], ids, terms)|
  {
    assert list[..i + 1][..i] == list[..i];
  }

  lemma SizeSnoc<S>(segs: map<S, SegV>, list: seq<S>, ids: Ids, terms: seq<string>, i: nat, before: nat, leaves: bool, more: nat, size: nat)
    requires i < |list| && list[i] in segs && Counts(segs[list[i]], ids, terms, leaves, more)
    requires IsSize(segs, list, ids, terms, i, before) && size == before + more
    ensures IsSize(segs, list, ids, terms, i + 1, size)
  {
    assert Unlocked(TotalLock, 0) && Unlocked(SizeLock, 0);
    assert list[..i + 1][..i] == list[..i];
  }

  lemma UnsignedSum(x: nat, y: nat)
    ensures Unsigned(Unsigned(x) + y) == Unsigned(x + y)
  {
  }

  lemma SummedAll<S>(segs: map<S, SegV>, list: seq<S>, ids: Ids, terms: seq<string>, limit: nat, garbage: nat,
                     i: nat, got: Got)
    requires Answered(segs, list, ids, terms, limit, i, got.found) && Summed(segs, list, ids, terms, limit, garbage, i, got)
    requires i == |list| || (i > 0 && |got.found| >= limit)
    ensures IsTotal(segs, list, ids, terms, limit, garbage, got.sum)
  {
    assert Unlocked(AnsweredLock, 0);
    assert Visits(segs, list, ids, terms, limit, i);
  }

  /** Closed. */
  ghost predicate Asked<S>(segs: map<S, SegV>, list: seq<S>, ids: Ids, terms: seq<string>, limit: nat, garbage: nat, i: nat, got: Got) {
    |got.found| <= limit && forall n :: Unlocked(AskedLock, n) ==>
      && Answered(segs, list, ids, terms, limit, i, got.found)
      && Summed(segs, list, ids, terms, limit, garbage, i, got)
  }

  lemma AskedNone<S>(segs: map<S, SegV>, list: seq<S>, ids: Ids, terms: seq<string>, limit: nat, garbage: nat)
    ensures Asked(segs, list, ids, terms, limit, garbage, 0, Got([], garbage, 0))
  {
    AnsweredNone(segs, list, ids, terms, limit);
    SummedNone(segs, list, ids, terms, limit, garbage);
  }

  lemma AskedIs<S>(segs: map<S, SegV>, list: seq<S>, ids: Ids, terms: seq<string>, limit: nat, garbage: nat, i: nat, got: Got)
    requires Answered(segs, list, ids, terms, limit, i, got.found)
    requires Summed(segs, list, ids, terms, limit, garbage, i, got)
    ensures Asked(segs, list, ids, terms, limit, garbage, i, got)
  {
  }

  lemma AskedNext<S>(segs: map<S, SegV>, list: seq<S>, ids: Ids, terms: seq<string>, limit: nat, garbage: nat,
                     i: nat, got: Got, next: Got)
    requires i < |list| && list[i] in segs && (i > 0 ==> |got.found| < limit) && Asked(segs, list, ids, terms, limit, garbage, i, got)
    requires IsMore(got, next, segs[list[i]], ids, terms, limit)
    ensures Asked(segs, list, ids, terms, limit, garbage, i + 1, next)
  {
    assert Answered(segs, list, ids, terms, limit, i, got.found) && Summed(segs, list, ids, terms, limit, garbage, i, got) by {
      assert Unlocked(AskedLock, 0);
    }
    AnsweredMore(segs, list, ids, terms, limit, i, got.found, next.found);
    SummedNext(segs, list, ids, terms, limit, garbage, i, got, next);
    AskedIs(segs, list, ids, terms, limit, garbage, i + 1, next);
  }

  lemma AskedAll<S>(segs: map<S, SegV>, list: seq<S>, ids: Ids, terms: seq<string>, limit: nat, garbage: nat, i: nat, got: Got)
    requires Asked(segs, list, ids, terms, limit, garbage, i, got) && (i == |list| || (i > 0 && |got.found| >= limit))
    ensures got.found == Take(AllHits(segs, list, ids, terms), limit) && IsTotal(segs, list, ids, terms, limit, garbage, got.sum)
  {
    assert Unlocked(AskedLock, 0);
    AnsweredAll(segs, list, ids, terms, limit, i, got.found);
    SummedAll(segs, list, ids, terms, limit, garbage, i, got);
  }

  /** In a new engine nothing writes to the variable: garbage is reported. */
  lemma TotalOfNew<S>(cap: nat, first: S, terms: seq<string>, limit: nat, garbage: nat)
    ensures var s := Initial(cap, first);
      IsTotal(s.segs, s.list, s.ids, terms, limit, garbage, Unsigned(garbage)) && AllHits(s.segs, s.list, s.ids, terms) == []
  {
    var s := Initial(cap, first);
    assert s.list[..1] == s.list && s.list[..0] == [];
    assert Totals(s.segs, s.list, s.ids, terms, limit, garbage) == (garbage, garbage);
    assert Visits(s.segs, s.list, s.ids, terms, limit, 1);
    NothingStored(EMPTY_SEG, s.ids, terms);
  }

  /** What the segments that leave the total alone add to the sum: what the variable was
      left at by the ones before. */
  ghost function Stale<S>(segs: map<S, SegV>, list: seq<S>, ids: Ids, terms: seq<string>, garbage: nat): nat {
    if list == [] then 0
    else
      var n := |list| - 1;
      var before := Stale(segs, list[..n], ids, terms, garbage);
      if list[n] in segs && Leaves(segs[list[n]], ids, terms) then before + LeftAt(segs, list[..n], ids, terms, garbage) else before
  }

  ghost function LeftAt<S>(segs: map<S, SegV>, list: seq<S>, ids: Ids, terms: seq<string>, garbage: nat): nat {
    if list == [] then garbage
    else
      var n := |list| - 1;
      if list[n] !in segs || Leaves(segs[list[n]], ids, terms) then LeftAt(segs, list[..n], ids, terms, garbage)
      else |Hits(segs[list[n]], ids, terms)|
  }

  /** The documents of each segment carry the ids that it gave them.  Closed. */
  ghost predicate Counted<S>(segs: map<S, SegV>, list: seq<S>, ids: Ids) {
    forall n :: Unlocked(TotalLock, n) ==>
      forall i :: 0 <= i < |list| ==> list[i] in segs && Numbered(segs[list[i]], ids) && |segs[list[i]].docs| < UINT32
  }

  lemma CountedAt<S>(segs: map<S, SegV>, list: seq<S>, ids: Ids, i: nat)
    requires Counted(segs, list, ids) && i < |list|
    ensures list[i] in segs && Numbered(segs[list[i]], ids) && |segs[list[i]].docs| < UINT32
  {
    assert Unlocked(TotalLock, 0);
  }

  lemma TotalOfNext<S>(segs: map<S, SegV>, list: seq<S>, ids: Ids, terms: seq<string>, limit: nat, n: nat, before: nat)
    returns (leaves: bool, more: nat, total: nat)
    requires Counted(segs, list, ids) && n < |list| && limit >= 1
    ensures list[n] in segs && Counts(segs[list[n]], ids, terms, leaves, more) && (leaves ==> more == 0)
    ensures Reports(segs[list[n]], ids, terms, limit, before, total) && total == if leaves then before else more
  {
    CountedAt(segs, list, ids, n);
    leaves, more := TotalIsHits(segs[list[n]], ids, terms, limit, before);
    total := if leaves then before else more;
  }

  /** The sum is the number of all hits in the first k segments, and what is stale. */
  lemma {:induction false} TotalsAre<S>(segs: map<S, SegV>, list: seq<S>, ids: Ids, terms: seq<string>, limit: nat, garbage: nat, k: nat)
    returns (size: nat, stale: nat, last: nat)
    requires Counted(segs, list, ids) && limit >= 1 && k <= |list| && NotEnough(segs, list, ids, terms, limit, k)
    ensures IsSize(segs, list, ids, terms, k, size) && AreStale(segs, list, ids, terms, garbage, k, stale, last)
    ensures AreTotals(segs, list, ids, terms, limit, garbage, k, last, size + stale)
  {
    if k == 0 {
      size, stale, last := 0, 0, garbage;
      TotalsNone(segs, list, ids, terms, limit, garbage);
    } else {
      EnoughBefore(segs, list, ids, terms, limit, k);
      size, stale, last := TotalsAre(segs, list, ids, terms, limit, garbage, k - 1);
      EnoughAt(segs, list, ids, terms, limit, k, size);
      size, stale, last := TotalsNext(segs, list, ids, terms, limit, garbage, k - 1, size, stale, last);
    }
  }

  lemma TotalsNext<S>(segs: map<S, SegV>, list: seq<S>, ids: Ids, terms: seq<string>, limit: nat, garbage: nat,
                      n: nat, size: nat, stale: nat, last: nat)
    returns (size': nat, stale': nat, last': nat)
    requires n < |list| && Counted(segs, list, ids) && size < limit
    requires IsSize(segs, list, ids, terms, n, size) && AreStale(segs, list, ids, terms, garbage, n, stale, last)
    requires AreTotals(segs, list, ids, terms, limit, garbage, n, last, size + stale)
    ensures IsSize(segs, list, ids, terms, n + 1, size') && AreStale(segs, list, ids, terms, garbage, n + 1, stale', last')
    ensures AreTotals(segs, list, ids, terms, limit, garbage, n + 1, last', size' + stale')
  {
    var left, sum := limit - size, size + stale;
    var leaves, more, total := TotalOfNext(segs, list, ids, terms, left, n, last);
    size', stale', last' := size + more, stale + (if leaves then last else 0), total;
    TotalsSnoc(segs, list, ids, terms, limit, garbage, n, size, left, last, sum, last', size' + stale');
    StaleSnoc(segs, list, ids, terms, garbage, n, stale, last, leaves, more, stale', last');
    SizeSnoc(segs, list, ids, terms, n, size, leaves, more, size');
  }

  lemma TotalsNone<S>(segs: map<S, SegV>, list: seq<S>, ids: Ids, terms: seq<string>, limit: nat, garbage: nat)
    ensures IsSize(segs, list, ids, terms, 0, 0) && AreStale(segs, list, ids, terms, garbage, 0, 0, garbage)
    ensures AreTotals(segs, list, ids, terms, limit, garbage, 0, garbage, 0)
  {
    assert list[..0] == [];
  }

  /** The total that a lookup reports is the number of all hits in the segments it visits if
      and only if what is stale adds nothing. */
  lemma TotalIsExact<S>(s: State<S>, terms: seq<string>, limit: nat, garbage: nat, k: nat)
    requires Core(s) && !s.phase.Migrated? && limit >= 1 && Visits(s.segs, s.list, s.ids, terms, limit, k)
    ensures Unsigned(Totals(s.segs, s.list[..k], s.ids, terms, limit, garbage).1) == Unsigned(|AllHits(s.segs, s.list[..k], s.ids, terms)|)
      <==> Unsigned(Stale(s.segs, s.list[..k], s.ids, terms, garbage)) == 0
  {
    CoreCounted(s);
    ExactTotal(s.segs, s.list, s.ids, terms, limit, garbage, k);
  }

  /** Spelled out for the total of a lookup: it visits one segment at least and goes on only
      while there is not enough. */
  lemma LookupTotal<S>(s: State<S>, terms: seq<string>, limit: nat, garbage: nat, total: nat)
    requires Core(s) && !s.phase.Migrated? && limit >= 1 && IsTotal(s.segs, s.list, s.ids, terms, limit, garbage, total)
    ensures exists k: nat | 0 < k <= |s.list| ::
      && (k == |s.list| || |AllHits(s.segs, s.list[..k], s.ids, terms)| >= limit)
      && (forall j :: 0 < j < k ==> |AllHits(s.segs, s.list[..j], s.ids, terms)| < limit)
      && (total == Unsigned(|AllHits(s.segs, s.list[..k], s.ids, terms)|) <==>
            Unsigned(Stale(s.segs, s.list[..k], s.ids, terms, garbage)) == 0)
  {
    assert Unlocked(AnsweredLock, 0);
    var k: nat :| Visits(s.segs, s.list, s.ids, terms, limit, k) &&
      total == Unsigned(Totals(s.segs, s.list[..k], s.ids, terms, limit, garbage).1);
    TotalIsExact(s, terms, limit, garbage, k);
  }

  lemma CoreCounted<S>(s: State<S>)
    requires Core(s) && !s.phase.Migrated?
    ensures Counted(s.segs, s.list, s.ids)
  {
    forall i | 0 <= i < |s.list|
      ensures s.list[i] in s.segs && Numbered(s.segs[s.list[i]], s.ids) && |s.segs[s.list[i]].docs| < UINT32
    {
      assert s.list[i] in s.list && Sound(s, s.list[i]);
      assert |Docs(s, s.list[i])| <= s.cap;
    }
  }

  lemma ExactTotal<S>(segs: map<S, SegV>, list: seq<S>, ids: Ids, terms: seq<string>, limit: nat, garbage: nat, k: nat)
    requires Counted(segs, list, ids) && limit >= 1 && Visits(segs, list, ids, terms, limit, k)
    ensures Unsigned(Totals(segs, list[..k], ids, terms, limit, garbage).1) == Unsigned(|AllHits(segs, list[..k], ids, terms)|)
      <==> Unsigned(Stale(segs, list[..k], ids, terms, garbage)) == 0
  {
    var size, stale, last := TotalsAre(segs, list, ids, terms, limit, garbage, k);
    assert Unlocked(SizeLock, 0) && Unlocked(SumLock, 0) && Unlocked(StaleLock, 0);
    SumIsExact(size, stale);
  }

  lemma SumIsExact(x: nat, y: nat)
    ensures Unsigned(x + y) == Unsigned(x) <==> Unsigned(y) == 0
  {
  }

  /** Whatever is found was live in one of the segments. */
  ghost predicate FoundIn<S>(s: State<S>, n: nat, terms: seq<string>, d: Document) {
    exists j :: 0 <= j < n <= |s.list| && d in LiveDocs(View(s, s.list[j]), s.ids) && HasAll(d, terms)
  }

  /** All that is found is live in one of the segments. */
  lemma {:induction false} AllHitsFound<S>(s: State<S>, terms: seq<string>, n: nat)
    requires Core(s) && !s.phase.Migrated? && |terms| != 1 && n <= |s.list|
    ensures forall d | d in AllHits(s.segs, s.list[..n], s.ids, terms) :: FoundIn(s, n, terms, d)
  {
    if n > 0 {
      var g := s.list[n - 1];
      AllHitsSnoc(s, terms, n);
      AllHitsFound(s, terms, n - 1);
      HitsAre(s.segs[g], s.ids, terms);
      forall d | d in AllHits(s.segs, s.list[..n], s.ids, terms)
        ensures FoundIn(s, n, terms, d)
      {
        if d in Hits(s.segs[g], s.ids, terms) {
          assert d in Elems(Hits(s.segs[g], s.ids, terms));
        }
      }
    }
  }

  lemma AllHitsSnoc<S>(s: State<S>, terms: seq<string>, n: nat)
    requires Core(s) && !s.phase.Migrated? && 0 < n <= |s.list|
    ensures var g := s.list[n - 1];
      && g in s.segs && Numbered(s.segs[g], s.ids)
      && AllHits(s.segs, s.list[..n], s.ids, terms) == AllHits(s.segs, s.list[..n - 1], s.ids, terms) + Hits(s.segs[g], s.ids, terms)
  {
    var g := s.list[n - 1];
    assert s.list[..n][..n - 1] == s.list[..n - 1] && g in s.list && Sound(s, g);
  }

  /** What one of the segments has to offer is found. */
  lemma {:induction false} IsFound<S>(segs: map<S, SegV>, list: seq<S>, ids: Ids, terms: seq<string>, g: S, d: Document)
    requires g in list && g in segs && d in Hits(segs[g], ids, terms)
    ensures d in AllHits(segs, list, ids, terms)
  {
    var n := |list| - 1;
    if g != list[n] {
      assert list == list[..n] + [list[n]];
      IsFound(segs, list[..n], ids, terms, g, d);
    }
  }

  /** All that is live in one of the segments is found. */
  lemma LiveIsHit<S>(s: State<S>, terms: seq<string>, j: nat, d: Document)
    requires Core(s) && !s.phase.Migrated? && |terms| != 1 && j < |s.list|
    requires d in LiveDocs(View(s, s.list[j]), s.ids) && HasAll(d, terms)
    ensures d in AllHits(s.segs, s.list, s.ids, terms)
  {
    var g := s.list[j];
    assert g in s.list && Sound(s, g);
    HitsAre(s.segs[g], s.ids, terms);
    assert d in Elems(Hits(s.segs[g], s.ids, terms));
    IsFound(s.segs, s.list, s.ids, terms, g, d);
  }

  /** Nothing is found twice. */
  lemma {:induction false} AllHitsDistinct<S>(s: State<S>, terms: seq<string>, n: nat)
    requires Core(s) && !s.phase.Migrated? && |terms| != 1 && n <= |s.list|
    ensures Distinct(AllHits(s.segs, s.list[..n], s.ids, terms))
  {
    if n > 0 {
      AllHitsSnoc(s, terms, n);
      AllHitsDistinct(s, terms, n - 1);
      AllHitsFound(s, terms, n - 1);
      HitsAre(s.segs[s.list[n - 1]], s.ids, terms);
      var before, hits := AllHits(s.segs, s.list[..n - 1], s.ids, terms), Hits(s.segs[s.list[n - 1]], s.ids, terms);
      forall d | d in before
        ensures d !in hits
      {
        NotAgain(s, n - 1, terms, d);
        assert d in hits ==> d in Elems(hits);
      }
      DistinctConcat(before, hits);
    }
  }

  lemma NotAgain<S>(s: State<S>, n: nat, terms: seq<string>, d: Document)
    requires Core(s) && !s.phase.Migrated? && n < |s.list| && FoundIn(s, n, terms, d)
    ensures d !in LiveDocs(View(s, s.list[n]), s.ids) && FoundIn(s, n + 1, terms, d)
  {
    var j :| 0 <= j < n <= |s.list| && d in LiveDocs(View(s, s.list[j]), s.ids) && HasAll(d, terms);
    assert Sound(s, s.list[j]) && Sound(s, s.list[n]) && d in Docs(s, s.list[j]);
  }

  // ----- the whole engine -----

  /** The answers that the map from primary keys to documents calls for. */
  ghost function Wanted(m: map<nat, Document>, terms: seq<string>): set<Document> {
    set k | k in m && HasAll(m[k], terms) :: m[k]
  }

  /** Outside the stages of a merge in which removals are still to be caught up with, a
      lookup for anything but one single term answers from the map: no document twice, all
      of them when they fit into the limit, and otherwise as many as the limit says. */
  lemma LookupAnswers<S>(s: State<S>, m: map<nat, Document>, terms: seq<string>, limit: nat)
    requires Core(s) && (s.phase.Idle? || s.phase.Chosen? || s.phase.Done?)
    requires Represents(s, m) && |terms| != 1
    ensures var r := Take(AllHits(s.segs, s.list, s.ids, terms), limit);
      && Distinct(r) && Elems(r) <= Wanted(m, terms)
      && |r| == (if |Wanted(m, terms)| <= limit then |Wanted(m, terms)| else limit)
  {
    var all := AllHits(s.segs, s.list, s.ids, terms);
    var r := Take(all, limit);
    AllAreWanted(s, m, terms);
    DistinctSize(all);
    forall d | d in r
      ensures d in all
    {
    }
    assert Elems(r) <= Elems(all);
  }

  lemma AllAreWanted<S>(s: State<S>, m: map<nat, Document>, terms: seq<string>)
    requires Core(s) && (s.phase.Idle? || s.phase.Chosen? || s.phase.Done?)
    requires Represents(s, m) && |terms| != 1
    ensures Distinct(AllHits(s.segs, s.list, s.ids, terms))
    ensures Elems(AllHits(s.segs, s.list, s.ids, terms)) == Wanted(m, terms)
  {
    AllAreLive(s, terms);
    assert Live(s) == m.Values;
    WantedValues(m, terms);
  }

  lemma WantedValues(m: map<nat, Document>, terms: seq<string>)
    ensures Wanted(m, terms) == set d | d in m.Values && HasAll(d, terms)
  {
    forall d | d in m.Values && HasAll(d, terms)
      ensures d in Wanted(m, terms)
    {
      var k :| k in m && m[k] == d;
    }
  }

  /** Whenever no replacement is pending, the listed segments answer with exactly the
      live documents, whether or not they wait for redeletion. */
  lemma AllAreLive<S>(s: State<S>, terms: seq<string>)
    requires Core(s) && !s.phase.Migrated? && |terms| != 1
    ensures Distinct(AllHits(s.segs, s.list, s.ids, terms))
    ensures Elems(AllHits(s.segs, s.list, s.ids, terms)) == set d | d in Live(s) && HasAll(d, terms)
  {
    var all := AllHits(s.segs, s.list, s.ids, terms);
    assert s.list[..|s.list|] == s.list;
    AllHitsDistinct(s, terms, |s.list|);
    AllHitsFound(s, terms, |s.list|);
    forall d | d in all
      ensures d in Live(s) && HasAll(d, terms)
    {
      FoundIsLive(s, terms, d);
    }
    forall d | d in Live(s) && HasAll(d, terms)
      ensures d in all
    {
      var j := LiveIsFound(s, d);
      LiveIsHit(s, terms, j, d);
    }
  }

  // ----- one term -----

  lemma {:induction false} HitSomewhere<S>(segs: map<S, SegV>, list: seq<S>, ids: Ids, terms: seq<string>, d: Document)
    requires d in AllHits(segs, list, ids, terms)
    ensures exists g :: g in list && g in segs && d in Hits(segs[g], ids, terms)
  {
    var n := |list| - 1;
    assert list == list[..n] + [list[n]];
    if d in AllHits(segs, list[..n], ids, terms) {
      HitSomewhere(segs, list[..n], ids, terms, d);
    }
  }

  lemma {:induction false} HitsApart<S>(segs: map<S, SegV>, list: seq<S>, ids: Ids, terms: seq<string>)
    requires Distinct(list) && forall g | g in list :: g in segs && Distinct(Hits(segs[g], ids, terms))
    requires forall g, h, d | g in list && h in list && d in Hits(segs[g], ids, terms) && d in Hits(segs[h], ids, terms) :: g == h
    ensures Distinct(AllHits(segs, list, ids, terms))
  {
    if list != [] {
      var n := |list| - 1;
      var g := list[n];
      ElemsSnoc(list);
      assert list == list[..n] + [g];
      HitsApart(segs, list[..n], ids, terms);
      forall d | d in AllHits(segs, list[..n], ids, terms)
        ensures d !in Hits(segs[g], ids, terms)
      {
        HitSomewhere(segs, list[..n], ids, terms, d);
      }
      DistinctConcat(AllHits(segs, list[..n], ids, terms), Hits(segs[g], ids, terms));
    }
  }

  /** The documents with a term in the listed segments that are not fully deleted. */
  ghost function WithTerm<S>(s: State<S>, t: string): set<Document> {
    set g, d | g in s.list && LiveDocs(View(s, g), s.ids) != {} && d in Docs(s, g) && Indexed(d.fields, t) :: d
  }

  lemma OneTermOf<S>(s: State<S>, t: string, g: S)
    requires Core(s) && !s.phase.Migrated? && g in s.list
    ensures g in s.segs && Distinct(Hits(s.segs[g], s.ids, [t]))
    ensures forall d :: d in Hits(s.segs[g], s.ids, [t]) <==>
      LiveDocs(View(s, g), s.ids) != {} && d in Docs(s, g) && Indexed(d.fields, t)
  {
    assert Sound(s, g);
    var v := s.segs[g];
    LiveCount(v, s.ids);
    if |v.docs| != |v.deleted| {
      OneTermHits(v, s.ids, t);
      assert forall d :: d in Hits(v, s.ids, [t]) <==> d in Elems(Hits(v, s.ids, [t]));
    }
  }

  lemma OneTermDistinct<S>(s: State<S>, t: string)
    requires Core(s) && !s.phase.Migrated?
    ensures Distinct(AllHits(s.segs, s.list, s.ids, [t]))
  {
    forall g | g in s.list
      ensures g in s.segs && Distinct(Hits(s.segs[g], s.ids, [t])) && forall d | d in Hits(s.segs[g], s.ids, [t]) :: d in Docs(s, g)
    {
      OneTermOf(s, t, g);
    }
    forall g, h, d | g in s.list && h in s.list && d in Hits(s.segs[g], s.ids, [t]) && d in Hits(s.segs[h], s.ids, [t])
      ensures g == h
    {
      assert Sound(s, g) && Sound(s, h) && d in Docs(s, g) && d in Docs(s, h);
    }
    HitsApart(s.segs, s.list, s.ids, [t]);
  }

  lemma OneTermElem<S>(s: State<S>, t: string, d: Document)
    requires Core(s) && !s.phase.Migrated?
    ensures d in AllHits(s.segs, s.list, s.ids, [t]) <==> d in WithTerm(s, t)
  {
    if d in AllHits(s.segs, s.list, s.ids, [t]) {
      HitSomewhere(s.segs, s.list, s.ids, [t], d);
      var g :| g in s.list && g in s.segs && d in Hits(s.segs[g], s.ids, [t]);
      OneTermOf(s, t, g);
    }
    if d in WithTerm(s, t) {
      var g :| g in s.list && LiveDocs(View(s, g), s.ids) != {} && d in Docs(s, g) && Indexed(d.fields, t);
      OneTermOf(s, t, g);
      IsFound(s.segs, s.list, s.ids, [t], g, d);
    }
  }

  /** A lookup for one term finds these documents, none twice. */
  lemma OneTermAll<S>(s: State<S>, t: string)
    requires Core(s) && !s.phase.Migrated?
    ensures Distinct(AllHits(s.segs, s.list, s.ids, [t]))
    ensures Elems(AllHits(s.segs, s.list, s.ids, [t])) == WithTerm(s, t)
  {
    var all := AllHits(s.segs, s.list, s.ids, [t]);
    OneTermDistinct(s, t);
    forall d | d in all
      ensures d in WithTerm(s, t)
    {
      OneTermElem(s, t, d);
    }
    forall d | d in WithTerm(s, t)
      ensures d in all
    {
      OneTermElem(s, t, d);
    }
  }

  /** So it answers from the map if and only if no deleted document that has the term is in a
      listed segment in which anything is live. */
  lemma OneTermAnswers<S>(s: State<S>, m: map<nat, Document>, t: string)
    requires Core(s) && (s.phase.Idle? || s.phase.Chosen? || s.phase.Done?) && Represents(s, m)
    ensures Elems(AllHits(s.segs, s.list, s.ids, [t])) == Wanted(m, [t]) <==>
      forall g, d | g in s.list && LiveDocs(View(s, g), s.ids) != {} && d in Docs(s, g) && Indexed(d.fields, t) ::
        d in LiveDocs(View(s, g), s.ids)
  {
    OneTermAll(s, t);
    assert Live(s) == m.Values;
    WantedValues(m, [t]);
    forall d
      ensures d in Wanted(m, [t]) <==> exists g :: g in s.list && d in LiveDocs(View(s, g), s.ids) && Indexed(d.fields, t)
    {
      assert t in [t] && (HasAll(d, [t]) <==> Indexed(d.fields, t));
      if d in Live(s) { var g := LiveHome(s, d); }
    }
    OnlyLive(s, t, Wanted(m, [t]));
  }

  lemma OnlyLive<S>(s: State<S>, t: string, wanted: set<Document>)
    requires Core(s) && !s.phase.Migrated?
    requires forall d :: d in wanted <==> exists g :: g in s.list && d in LiveDocs(View(s, g), s.ids) && Indexed(d.fields, t)
    ensures WithTerm(s, t) == wanted <==>
      forall g, d | g in s.list && LiveDocs(View(s, g), s.ids) != {} && d in Docs(s, g) && Indexed(d.fields, t) ::
        d in LiveDocs(View(s, g), s.ids)
  {
    forall d | d in wanted
      ensures d in WithTerm(s, t)
    {
      var g :| g in s.list && d in LiveDocs(View(s, g), s.ids) && Indexed(d.fields, t);
      assert d in Docs(s, g);
    }
    forall g, d | g in s.list && LiveDocs(View(s, g), s.ids) != {} && d in Docs(s, g) && Indexed(d.fields, t)
      ensures d in WithTerm(s, t) && (d in wanted <==> d in LiveDocs(View(s, g), s.ids))
    {
      assert Sound(s, g);
    }
  }

  lemma FoundIsLive<S>(s: State<S>, terms: seq<string>, d: Document)
    requires Core(s) && !s.phase.Migrated? && FoundIn(s, |s.list|, terms, d)
    ensures d in Live(s) && HasAll(d, terms)
  {
    var j :| 0 <= j < |s.list| && d in LiveDocs(View(s, s.list[j]), s.ids) && HasAll(d, terms);
    assert s.list[j] in s.list && Sound(s, s.list[j]);
  }

  lemma LiveIsFound<S>(s: State<S>, d: Document) returns (j: nat)
    requires Core(s) && !s.phase.Migrated? && d in Live(s)
    ensures j < |s.list| && d in LiveDocs(View(s, s.list[j]), s.ids)
  {
    var g := LiveHome(s, d);
    j :| 0 <= j < |s.list| && s.list[j] == g;
  }

  /** After any run of adds, removals and merges without a harmful step, a lookup answers
      from the map that the adds and removals alone have built. */
  lemma RunAnswers<S>(cap: nat, first: S, ls: seq<Label<S>>, terms: seq<string>, limit: nat)
    requires 1 <= cap < UINT32 - 1 && RunEnabled(Initial(cap, first), ls) && Harmless(Initial(cap, first), ls)
    requires var p := Run(Initial(cap, first), ls).phase; p.Idle? || p.Chosen? || p.Done?
    requires |terms| != 1
    ensures var s, m := Run(Initial(cap, first), ls), SpecRun(Initial(cap, first), ls, map[]);
      var r := Take(AllHits(s.segs, s.list, s.ids, terms), limit);
      && Distinct(r) && Elems(r) <= Wanted(m, terms)
      && |r| == (if |Wanted(m, terms)| <= limit then |Wanted(m, terms)| else limit)
  {
    var s0 := Initial(cap, first);
    InitialInv(cap, first);
    RunInv(s0, ls);
    MergeIsInvisible(s0, ls, map[]);
    LookupAnswers(Run(s0, ls), SpecRun(s0, ls, map[]), terms, limit);
  }
}
