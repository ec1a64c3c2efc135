/** What a segment amounts to: its documents in insertion order and the ids it has marked
    as deleted. */
module SegmentValues {
  import opened Basics
  import opened Documents

  const STATE_ACTIVE: nat := 0

  datatype SegV = SegV(docs: seq<Document>, deleted: set<nat>, state: nat, nextId: nat)

  const EMPTY_SEG := SegV([], {}, STATE_ACTIVE, 1)

  ghost function LiveDocs(v: SegV, ids: Ids): set<Document> {
    set d | d in v.docs && IdOf(ids, d) !in v.deleted
  }

  /** Marks every document with this pk, by whatever id the document has now. */
  ghost function RemoveV(v: SegV, ids: Ids, pk: nat): SegV {
    v.(deleted := v.deleted + set d | d in v.docs && d.pk == pk :: IdOf(ids, d))
  }

  ghost function AddV(v: SegV, doc: Document): SegV {
    v.(docs := v.docs + [doc], nextId := (v.nextId + 1) % UINT32)
  }

  /** Ids are exactly 1 .. |docs| in insertion order, and only such ids are deleted. */
  ghost predicate Numbered(v: SegV, ids: Ids) {
    && (forall i :: 0 <= i < |v.docs| ==> v.docs[i] in ids && ids[v.docs[i]] == i + 1)
    && v.nextId == |v.docs| + 1
    && (forall x :: x in v.deleted ==> 1 <= x <= |v.docs|)
  }

  /** Integer division, as the source has it: 0 or 1 on every reachable segment. */
  ghost function DeletedRatio(v: SegV): nat {
    if v.docs == [] then 0 else |v.deleted| / |v.docs|
  }

  /** The documents of a segment in the order in which a migration meets them. */
  ghost function Walk(docs: seq<Document>): seq<Document> {
    Grouped(PkOrder(docs), docs)
  }

  /** New ids 1, 2, ... for the given documents, overwriting their old ids. */
  ghost function Renumber(ids: Ids, docs: seq<Document>): Ids {
    if docs == [] then ids else Renumber(ids, docs[..|docs| - 1])[docs[|docs| - 1] := |docs|]
  }

  ghost function Survivors(v: SegV, ids: Ids): seq<Document> {
    Filter(Walk(v.docs), LiveDocs(v, ids))
  }

  ghost function Casualties(v: SegV, ids: Ids): seq<Document> {
    Filter(Walk(v.docs), Elems(v.docs) - LiveDocs(v, ids))
  }

  lemma {:induction false} RangeSize(xs: set<nat>, n: nat)
    requires forall x :: x in xs ==> 1 <= x <= n
    ensures |xs| <= n
    ensures |xs| == n ==> forall x :: 1 <= x <= n ==> x in xs
  {
    if n == 0 {
      assert xs == {};
    } else {
      RangeSize(xs - {n}, n - 1);
      if n in xs {
        assert |xs| == |xs - {n}| + 1;
      } else {
        assert xs - {n} == xs;
      }
    }
  }

  // ----- adding documents one after the other -----

  /** The new contents of a segment and the new ids after documents have been added. */
  ghost function AddAll(v: SegV, ids: Ids, docs: seq<Document>): (SegV, Ids) {
    if docs == [] then (v, ids)
    else
      var (w, m) := AddAll(v, ids, docs[..|docs| - 1]);
      var d := docs[|docs| - 1];
      (AddV(w, d), m[d := w.nextId])
  }

  lemma AddAllSnoc(v: SegV, ids: Ids, docs: seq<Document>, d: Document)
    ensures var (w, m) := AddAll(v, ids, docs); AddAll(v, ids, docs + [d]) == (AddV(w, d), m[d := w.nextId])
  {
    assert (docs + [d])[..|docs|] == docs;
  }

  /** Adding documents renumbers those documents and no others. */
  lemma {:induction false} AddAllKeeps(v: SegV, ids: Ids, docs: seq<Document>, d: Document)
    requires d !in docs
    ensures IdOf(AddAll(v, ids, docs).1, d) == IdOf(ids, d)
    ensures d in AddAll(v, ids, docs).1 <==> d in ids
  {
    if docs != [] {
      AddAllKeeps(v, ids, docs[..|docs| - 1], d);
    }
  }

  /** Into an empty segment they go as a whole, numbered from 1. */
  lemma {:induction false} AddAllToEmpty(ids: Ids, docs: seq<Document>)
    requires |docs| < UINT32 - 1
    ensures AddAll(EMPTY_SEG, ids, docs) == (SegV(docs, {}, STATE_ACTIVE, |docs| + 1), Renumber(ids, docs))
  {
    if docs != [] {
      var n := |docs| - 1;
      AddAllToEmpty(ids, docs[..n]);
      assert docs == docs[..n] + [docs[n]];
    }
  }

  lemma {:induction false} AddAllConcat(v: SegV, ids: Ids, a: seq<Document>, b: seq<Document>)
    ensures var (w, m) := AddAll(v, ids, a); AddAll(v, ids, a + b) == AddAll(w, m, b)
  {
    if b == [] {
      assert a + b == a;
    } else {
      var n := |b| - 1;
      AddAllConcat(v, ids, a, b[..n]);
      assert (a + b)[..|a| + n] == a + b[..n];
    }
  }
}
