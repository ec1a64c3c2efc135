/** Documents, and the sequence functions that say what an index over documents means. */
module Documents {
  import opened Basics

  /** Ids are 32-bit unsigned integers. */
  const UINT32: nat := 0x1_0000_0000

  /** A number as a 32-bit unsigned integer holds it. */
  function Unsigned(x: int): nat {
    if 0 <= x < UINT32 then x else x % UINT32
  }

  /** A field of a document.  Only its name and its index flag matter to the index. */
  datatype Field = Field(name: string, indexable: bool)

  /** A document.  The id is the one part the engine overwrites: a segment numbers the
      document when it is added, and a merge numbers it again in place. */
  class Document {
    const pk: nat
    const fields: seq<Field>
    var docId: nat

    constructor (pk: nat, fields: seq<Field>)
      ensures this.pk == pk && this.fields == fields
    {
      this.pk, this.fields := pk, fields;
      docId := 0;
    }

    /** The check made before a document is accepted. */
    predicate Checked() {
      pk != 0 && fields != []
    }
  }

  /** Ids as a value: what the documents of interest carry in some state. */
  type Ids = map<Document, nat>

  ghost function IdOf(ids: Ids, d: Document): nat {
    if d in ids then ids[d] else 0
  }

  ghost predicate Carry(docs: seq<Document>, ids: Ids)
    reads docs`docId
  {
    forall d | d in docs :: d.docId == IdOf(ids, d)
  }

  /** Field names are unique within a document. */
  ghost predicate UniqueNames(fields: seq<Field>) {
    forall i, j :: 0 <= i < j < |fields| ==> fields[i].name != fields[j].name
  }

  /** The two indexes of a segment share one shape: a key selects documents. */
  datatype Key = Term(term: string) | Pk(pk: nat)

  ghost predicate Indexed(fields: seq<Field>, term: string) {
    Field(term, true) in fields
  }

  lemma IndexedIs(fields: seq<Field>, term: string)
    ensures Indexed(fields, term) <==> exists i :: 0 <= i < |fields| && fields[i].name == term && fields[i].indexable
  {
    if i :| 0 <= i < |fields| && fields[i].name == term && fields[i].indexable {
      assert fields[i] == Field(term, true);
    }
  }

  ghost predicate Has(d: Document, k: Key) {
    match k
    case Term(t) => Indexed(d.fields, t)
    case Pk(p) => d.pk == p
  }

  /** The documents selected by a key, in insertion order: the naive scan. */
  ghost function Posting(docs: seq<Document>, k: Key): (r: seq<Document>)
    ensures forall d | d in r :: d in docs && Has(d, k)
    ensures forall d | d in docs && Has(d, k) :: d in r
    ensures |r| <= |docs|
  {
    if docs == [] then []
    else
      var rest := Posting(docs[..|docs| - 1], k);
      if Has(docs[|docs| - 1], k) then rest + [docs[|docs| - 1]] else rest
  }

  /** The documents of a sequence that are in a set, in order. */
  ghost function Filter(docs: seq<Document>, keep: set<Document>): (r: seq<Document>)
    ensures forall d | d in r :: d in docs && d in keep
    ensures forall d | d in docs && d in keep :: d in r
    ensures |r| <= |docs|
  {
    if docs == [] then []
    else
      var rest := Filter(docs[..|docs| - 1], keep);
      if docs[|docs| - 1] in keep then rest + [docs[|docs| - 1]] else rest
  }

  /** Primary keys in the order in which they first occur: the application order of
      the pk hash table. */
  ghost function PkOrder(docs: seq<Document>): (r: seq<nat>)
    ensures forall p :: p in r <==> exists d :: d in docs && d.pk == p
    ensures Distinct(r)
  {
    if docs == [] then []
    else
      var d := docs[|docs| - 1];
      var rest := PkOrder(docs[..|docs| - 1]);
      assert docs == docs[..|docs| - 1] + [d];
      if d.pk in rest then rest else rest + [d.pk]
  }

  /** Documents listed pk by pk, as the walk over the pk hash table meets them. */
  ghost function Grouped(order: seq<nat>, docs: seq<Document>): (r: seq<Document>)
    ensures forall d | d in r :: d in docs && d.pk in order
    ensures forall d | d in docs && d.pk in order :: d in r
  {
    if order == [] then []
    else Grouped(order[..|order| - 1], docs) + Posting(docs, Pk(order[|order| - 1]))
  }

  /** Posting lists keep the order of insertion. */
  lemma {:induction false} PostingInOrder(docs: seq<Document>, k: Key, i: nat, j: nat) returns (x: nat, y: nat)
    requires i < j < |Posting(docs, k)|
    ensures x < y < |docs| && docs[x] == Posting(docs, k)[i] && docs[y] == Posting(docs, k)[j]
  {
    var n := |docs| - 1;
    var rest := Posting(docs[..n], k);
    if j < |rest| {
      x, y := PostingInOrder(docs[..n], k, i, j);
    } else {
      assert rest[i] in rest && rest[i] in docs[..n];
      x :| 0 <= x < n && docs[x] == rest[i];
      y := n;
    }
  }

  /** Of two pks in their order, the first one occurs before any occurrence of the second. */
  lemma {:induction false} PkOrderIsFirst(docs: seq<Document>, i: nat, j: nat) returns (x: nat)
    requires i < j < |PkOrder(docs)|
    ensures x < |docs| && docs[x].pk == PkOrder(docs)[i] && forall y | 0 <= y <= x :: docs[y].pk != PkOrder(docs)[j]
  {
    var n := |docs| - 1;
    var rest := PkOrder(docs[..n]);
    if j < |rest| {
      x := PkOrderIsFirst(docs[..n], i, j);
    } else {
      assert rest[i] in rest;
      var d :| d in docs[..n] && d.pk == rest[i];
      x :| 0 <= x < n && docs[x] == d;
      forall y | 0 <= y <= x
        ensures docs[y].pk != docs[n].pk
      {
        assert docs[y] in docs[..n];
      }
    }
  }

  /** A walk over the pks meets them in their order, and the documents of one pk in the order
      of insertion. */
  lemma {:induction false} GroupedInOrder(order: seq<nat>, docs: seq<Document>, i: nat, j: nat) returns (x: nat, y: nat)
    requires i < j < |Grouped(order, docs)|
    ensures var a, b := Grouped(order, docs)[i], Grouped(order, docs)[j];
      || (x < y < |order| && order[x] == a.pk && order[y] == b.pk)
      || (x < y < |docs| && docs[x] == a && docs[y] == b && a.pk == b.pk)
  {
    var n := |order| - 1;
    var before, last := Grouped(order[..n], docs), Posting(docs, Pk(order[n]));
    if j < |before| {
      x, y := GroupedInOrder(order[..n], docs, i, j);
    } else if i < |before| {
      assert before[i] in before && last[j - |before|] in last;
      x :| 0 <= x < n && order[x] == before[i].pk;
      y := n;
    } else {
      assert last[i - |before|] in last && last[j - |before|] in last;
      x, y := PostingInOrder(docs, Pk(order[n]), i - |before|, j - |before|);
    }
  }

  /** So iterating over the pk table meets pks in the order of their first documents, and the
      documents of one pk in the order in which they were added. */
  lemma WalkInOrder(docs: seq<Document>, i: nat, j: nat)
    requires i < j < |Grouped(PkOrder(docs), docs)|
    ensures var a, b := Grouped(PkOrder(docs), docs)[i], Grouped(PkOrder(docs), docs)[j];
      if a.pk == b.pk then exists x, y :: 0 <= x < y < |docs| && docs[x] == a && docs[y] == b
      else exists x :: 0 <= x < |docs| && docs[x].pk == a.pk && forall y | 0 <= y <= x :: docs[y].pk != b.pk
  {
    var x, y := GroupedInOrder(PkOrder(docs), docs, i, j);
    if Grouped(PkOrder(docs), docs)[i].pk != Grouped(PkOrder(docs), docs)[j].pk {
      var z := PkOrderIsFirst(docs, x, y);
    }
  }

  lemma PostingSnoc(docs: seq<Document>, d: Document, k: Key)
    ensures Posting(docs + [d], k) == if Has(d, k) then Posting(docs, k) + [d] else Posting(docs, k)
  {
    assert (docs + [d])[..|docs|] == docs;
  }

  lemma PkOrderSnoc(docs: seq<Document>, d: Document)
    ensures PkOrder(docs + [d]) == if d.pk in PkOrder(docs) then PkOrder(docs) else PkOrder(docs) + [d.pk]
  {
    assert (docs + [d])[..|docs|] == docs;
  }

  lemma FilterSnoc(docs: seq<Document>, d: Document, keep: set<Document>)
    ensures Filter(docs + [d], keep) == if d in keep then Filter(docs, keep) + [d] else Filter(docs, keep)
  {
    assert (docs + [d])[..|docs|] == docs;
  }

  lemma {:induction false} FilterConcat(a: seq<Document>, b: seq<Document>, keep: set<Document>)
    ensures Filter(a + b, keep) == Filter(a, keep) + Filter(b, keep)
  {
    if b == [] {
      assert a + b == a;
    } else {
      var n := |b| - 1;
      assert a + b == (a + b[..n]) + [b[n]];
      FilterSnoc(a + b[..n], b[n], keep);
      FilterConcat(a, b[..n], keep);
    }
  }

  lemma {:induction false} FilterNone(docs: seq<Document>, keep: set<Document>)
    requires forall d | d in docs :: d !in keep
    ensures Filter(docs, keep) == []
  {
    if docs != [] {
      FilterNone(docs[..|docs| - 1], keep);
    }
  }

  lemma GroupedSnoc(order: seq<nat>, docs: seq<Document>, i: nat)
    requires i < |order|
    ensures Grouped(order[..i + 1], docs) == Grouped(order[..i], docs) + Posting(docs, Pk(order[i]))
  {
    assert order[..i + 1][..i] == order[..i];
  }

  /** The documents that a walk over the pks meets from position i on. */
  ghost function GroupedFrom(order: seq<nat>, docs: seq<Document>, i: nat): seq<Document>
    requires i <= |order|
    decreases |order| - i
  {
    if i == |order| then [] else Posting(docs, Pk(order[i])) + GroupedFrom(order, docs, i + 1)
  }

  lemma {:induction false} GroupedSplit(order: seq<nat>, docs: seq<Document>, i: nat)
    requires i <= |order|
    ensures Grouped(order, docs) == Grouped(order[..i], docs) + GroupedFrom(order, docs, i)
    decreases |order| - i
  {
    if i == |order| {
      assert order[..i] == order;
    } else {
      GroupedSplit(order, docs, i + 1);
      GroupedSnoc(order, docs, i);
      AppendTwice(Grouped(order[..i], docs), Posting(docs, Pk(order[i])), GroupedFrom(order, docs, i + 1));
    }
  }

  lemma TakeFilter(a: seq<Document>, b: seq<Document>, keep: set<Document>, n: nat)
    ensures Take(Filter(a + b, keep), n) == Take(Filter(a, keep), n) + Take(Filter(b, keep), n - |Take(Filter(a, keep), n)|)
  {
    FilterConcat(a, b, keep);
    TakeConcat(Filter(a, keep), Filter(b, keep), n);
  }

  /** A posting list repeats no document when the documents are distinct. */
  lemma {:induction false} PostingDistinct(docs: seq<Document>, k: Key)
    requires Distinct(docs)
    ensures Distinct(Posting(docs, k))
  {
    if docs != [] {
      var n := |docs| - 1;
      PostingDistinct(docs[..n], k);
      assert docs[n] !in docs[..n];
    }
  }

  lemma {:induction false} FilterDistinct(docs: seq<Document>, keep: set<Document>)
    requires Distinct(docs)
    ensures Distinct(Filter(docs, keep))
  {
    if docs != [] {
      var n := |docs| - 1;
      FilterDistinct(docs[..n], keep);
      assert docs[n] !in docs[..n];
    }
  }

  lemma {:induction false} GroupedDistinct(order: seq<nat>, docs: seq<Document>)
    requires Distinct(docs) && Distinct(order)
    ensures Distinct(Grouped(order, docs))
  {
    if order != [] {
      var n := |order| - 1;
      GroupedDistinct(order[..n], docs);
      PostingDistinct(docs, Pk(order[n]));
      assert order[n] !in order[..n];
      DistinctConcat(Grouped(order[..n], docs), Posting(docs, Pk(order[n])));
    }
  }

  /** Walking the pk table meets every document exactly once. */
  lemma WalkIsPermutation(docs: seq<Document>)
    requires Distinct(docs)
    ensures Distinct(Grouped(PkOrder(docs), docs))
    ensures Elems(Grouped(PkOrder(docs), docs)) == Elems(docs)
    ensures |Grouped(PkOrder(docs), docs)| == |docs|
  {
    var g := Grouped(PkOrder(docs), docs);
    GroupedDistinct(PkOrder(docs), docs);
    assert forall d :: d in docs ==> d.pk in PkOrder(docs);
    assert Elems(g) == Elems(docs);
    DistinctSize(g);
    DistinctSize(docs);
  }
}
