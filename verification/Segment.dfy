/** A segment: posting lists by term, documents by primary key, a deletion bitmap. */
module Segments {
  import opened Basics
  import opened Documents
  import opened SegmentValues
  import opened Docids
  import opened Bitmaps
  import opened Intersect
  import opened LookupSpec

  /** The posting list of a term, with its own counter. */
  datatype Inverted = Inverted(term: string, docIds: Chain, numTotal: nat)

  /** The entry of a term lists exactly the documents that a naive scan finds, and then
      `extra`, in insertion order. */
  ghost predicate EntryHolds(e: Inverted, t: string, all: seq<Document>, extra: seq<Document>) {
    && e.term == t
    && Holds(e.docIds, Posting(all, Term(t)) + extra)
    && e.numTotal == |Posting(all, Term(t)) + extra| > 0
  }

  /** The term table while a document with the given fields is being added: terms among
      these fields already list it. */
  ghost predicate TermsAdding(docs: map<string, Inverted>, all: seq<Document>, doc: Document, done: seq<Field>) {
    && (forall t | t in docs :: EntryHolds(docs[t], t, all, if Indexed(done, t) then [doc] else []))
    && (forall d, t | d in all && Indexed(d.fields, t) :: t in docs)
    && (forall t | Indexed(done, t) :: t in docs)
  }

  /** The term table of a segment with these documents. */
  ghost predicate Terms(docs: map<string, Inverted>, all: seq<Document>) {
    && (forall t | t in docs :: EntryHolds(docs[t], t, all, []))
    && (forall d, t | d in all && Indexed(d.fields, t) :: t in docs)
  }

  /** The pk table of a segment with these documents, and the order in which it is walked. */
  ghost predicate Pks(mapping: map<nat, Chain>, order: seq<nat>, all: seq<Document>) {
    && order == PkOrder(all)
    && (forall p | p in mapping :: p in order && Holds(mapping[p], Posting(all, Pk(p))))
    && (forall p | p in order :: p in mapping)
  }

  /** Both tables describe these documents.  Closed. */
  ghost predicate Tables(docs: map<string, Inverted>, mapping: map<nat, Chain>, order: seq<nat>, all: seq<Document>) {
    forall n :: Unlocked(TableLock, n) ==> Terms(docs, all) && Pks(mapping, order, all)
  }

  // ----- adding to the tables -----

  lemma PostingEmpty(all: seq<Document>, k: Key)
    requires forall d | d in all :: !Has(d, k)
    ensures Posting(all, k) == []
  {
    if all != [] {
      PostingEmpty(all[..|all| - 1], k);
    }
  }

  /** Finds or makes the entry of a term and appends the document to it; a new entry is
      counted. */
  method AddToTerm(docs: map<string, Inverted>, count: nat, name: string, doc: Document,
                   ghost all: seq<Document>, ghost done: seq<Field>) returns (r: map<string, Inverted>, count': nat)
    requires TermsAdding(docs, all, doc, done) && !Indexed(done, name) && count == |docs|
    ensures TermsAdding(r, all, doc, done + [Field(name, true)]) && count' == |r|
  {
    count' := count;
    var entry;
    if name in docs {
      entry := docs[name];
      assert EntryHolds(entry, name, all, []);
    } else {
      entry := Inverted(name, EMPTY_CHAIN, 0);
      count' := count' + 1;
      PostingEmpty(all, Term(name));
      EmptyHolds();
    }
    ghost var before := Posting(all, Term(name)) + [];
    assert before == Posting(all, Term(name));
    var ids := Append(entry.docIds, doc, before);
    entry := entry.(docIds := ids, numTotal := entry.numTotal + 1);
    r := docs[name := entry];
    IndexedSnoc(done, Field(name, true));
  }

  lemma IndexedSnoc(done: seq<Field>, f: Field)
    ensures forall t :: Indexed(done + [f], t) <==> f == Field(t, true) || Indexed(done, t)
  {
  }

  lemma TermsBegin(docs: map<string, Inverted>, all: seq<Document>, doc: Document)
    requires Terms(docs, all)
    ensures TermsAdding(docs, all, doc, [])
  {
  }

  lemma TermsEnd(docs: map<string, Inverted>, all: seq<Document>, doc: Document)
    requires TermsAdding(docs, all, doc, doc.fields)
    ensures Terms(docs, all + [doc])
  {
    forall t | t in docs
      ensures EntryHolds(docs[t], t, all + [doc], [])
    {
      PostingSnoc(all, doc, Term(t));
      assert Posting(all + [doc], Term(t)) + [] == Posting(all, Term(t)) + if Indexed(doc.fields, t) then [doc] else [];
    }
    forall d, t | d in all + [doc] && Indexed(d.fields, t)
      ensures t in docs
    {
      assert d in all || d == doc;
    }
  }

  /** The loop over the fields of a document. */
  method AddToTerms(docs: map<string, Inverted>, count: nat, doc: Document, ghost all: seq<Document>)
    returns (r: map<string, Inverted>, count': nat)
    requires Terms(docs, all) && UniqueNames(doc.fields) && count == |docs|
    ensures Terms(r, all + [doc]) && count' == |r|
  {
    r, count' := docs, count;
    var i := 0;
    TermsBegin(docs, all, doc);
    while i < |doc.fields|
      invariant 0 <= i <= |doc.fields|
      invariant TermsAdding(r, all, doc, doc.fields[..i]) && count' == |r|
    {
      var f := doc.fields[i];
      assert doc.fields[..i + 1] == doc.fields[..i] + [f];
      IndexedSnoc(doc.fields[..i], f);
      if f.indexable {
        r, count' := AddToTerm(r, count', f.name, doc, all, doc.fields[..i]);
      }
      i := i + 1;
    }
    assert doc.fields[..i] == doc.fields;
    TermsEnd(r, all, doc);
  }

  /** Finds or makes the entry of a pk and appends the document to it. */
  method AddToPk(mapping: map<nat, Chain>, order: seq<nat>, doc: Document, ghost all: seq<Document>)
    returns (r: map<nat, Chain>, order': seq<nat>)
    requires Pks(mapping, order, all)
    ensures Pks(r, order', all + [doc])
  {
    order' := order;
    var c;
    if doc.pk in mapping {
      c := mapping[doc.pk];
    } else {
      c := EMPTY_CHAIN;
      order' := order' + [doc.pk];
      PostingEmpty(all, Pk(doc.pk));
      EmptyHolds();
    }
    c := Append(c, doc, Posting(all, Pk(doc.pk)));
    r := mapping[doc.pk := c];
    PkOrderSnoc(all, doc);
    forall p | p in r
      ensures Holds(r[p], Posting(all + [doc], Pk(p)))
    {
      PostingSnoc(all, doc, Pk(p));
    }
  }

  method AddToBoth(docs: map<string, Inverted>, count: nat, mapping: map<nat, Chain>, order: seq<nat>, doc: Document,
                   ghost all: seq<Document>)
    returns (docs': map<string, Inverted>, count': nat, mapping': map<nat, Chain>, order': seq<nat>)
    requires Tables(docs, mapping, order, all) && UniqueNames(doc.fields) && count == |docs|
    ensures Tables(docs', mapping', order', all + [doc]) && count' == |docs'|
  {
    assert Unlocked(TableLock, 0);
    docs', count' := AddToTerms(docs, count, doc, all);
    mapping', order' := AddToPk(mapping, order, doc, all);
  }

  class Segment {
    var docs: map<string, Inverted>
    var pkMapping: map<nat, Chain>
    var pkOrder: seq<nat>              // the order in which the pk table is walked
    const deletion: Bitmap
    const generator: Generator
    var numTotalDocs: nat
    var numTotalDeleted: nat
    var numTotalInverted: nat
    var state: nat
    ghost var Docs: seq<Document>      // in insertion order

    /** Tables and counters describe the documents, whatever ids these carry. */
    ghost predicate Valid()
      reads this, deletion`c
    {
      && deletion.Valid()
      && Tables(docs, pkMapping, pkOrder, Docs)
      && numTotalDocs == |Docs| && numTotalDeleted == |deletion.Bits()| && numTotalInverted == |docs|
    }

    ghost function View(): SegV
      reads this, deletion`c, generator`start
    {
      SegV(Docs, deletion.Bits(), state, generator.start)
    }

    constructor ()
      ensures Valid() && fresh(this) && fresh(deletion) && fresh(generator)
      ensures View() == EMPTY_SEG && deletion.c == []
    {
      docs, pkMapping, pkOrder := map[], map[], [];
      deletion := new Bitmap();
      generator := new Generator();
      numTotalDocs, numTotalDeleted, numTotalInverted, state := 0, 0, 0, STATE_ACTIVE;
      Docs := [];
    }

    /** Numbers the document and enters it into both tables.  An unacceptable document
        still uses up an id. */
    method AddDocument(doc: Document) returns (rc: int)
      requires Valid() && UniqueNames(doc.fields)
      modifies this, generator, doc
      ensures Valid() && doc.docId == old(generator.start)
      ensures rc == (if doc.pk == 0 || doc.fields == [] then -1 else 0)
      ensures Docs == if rc == 0 then old(Docs) + [doc] else old(Docs)
      ensures View() == if doc.Checked() then AddV(old(View()), doc) else old(View()).(nextId := generator.start)
      ensures generator.start == (old(generator.start) + 1) % UINT32
    {
      doc.docId := generator.Incr();
      if !doc.Checked() {
        return -1;
      }
      AddToTables(doc);
      rc := 0;
    }

    method AddToTables(doc: Document)
      requires Valid() && UniqueNames(doc.fields)
      modifies `docs, `numTotalInverted, `pkMapping, `pkOrder, `numTotalDocs, `Docs
      ensures Valid() && Docs == old(Docs) + [doc]
    {
      ghost var all := Docs;
      var terms, count, mapping, order := AddToBoth(docs, numTotalInverted, pkMapping, pkOrder, doc, all);
      docs, numTotalInverted, pkMapping, pkOrder := terms, count, mapping, order;
      numTotalDocs := numTotalDocs + 1;
      Docs := all + [doc];
      assert docs == terms && pkMapping == mapping && pkOrder == order && Docs == all + [doc];
    }

    /** Marks one document by the id it has now, and counts it if it was not marked. */
    method Mark(d: Document, ghost m: nat)
      requires deletion.Valid() && numTotalDeleted == |deletion.Bits()|
      requires d.docId <= m && deletion.Fits(m)
      modifies `numTotalDeleted, deletion`c
      ensures deletion.Valid() && numTotalDeleted == |deletion.Bits()| && deletion.Fits(m)
      ensures deletion.Bits() == old(deletion.Bits()) + {d.docId}
    {
      if !deletion.Get(d.docId) {
        deletion.Set(d.docId);
        numTotalDeleted := numTotalDeleted + 1;
      }
    }

    method MarkAll(list: seq<Document>, ghost ids: Ids, ghost m: nat)
      requires deletion.Valid() && numTotalDeleted == |deletion.Bits()| && Carry(list, ids)
      requires deletion.Fits(m) && Bounded(list, ids, m)
      modifies `numTotalDeleted, deletion`c
      ensures deletion.Valid() && numTotalDeleted == |deletion.Bits()| && deletion.Fits(m)
      ensures deletion.Bits() == old(deletion.Bits()) + IdsOf(list, ids)
    {
      ghost var marked: set<nat> := {};
      var i := 0;
      while i < |list|
        invariant 0 <= i <= |list| && Carry(list, ids)
        invariant deletion.Valid() && numTotalDeleted == |deletion.Bits()| && deletion.Fits(m)
        invariant marked == IdsOf(list[..i], ids)
        invariant deletion.Bits() == old(deletion.Bits()) + marked
      {
        assert list[i] in list;
        Mark(list[i], m);
        IdsOfSnoc(list, i, ids);
        UnionTwice(old(deletion.Bits()), marked, IdOf(ids, list[i]));
        marked := marked + {IdOf(ids, list[i])};
        i := i + 1;
      }
      assert list[..i] == list;
    }

    /** Marking leaves the tables as they are. */
    method MarkListed(list: seq<Document>, ghost ids: Ids, ghost m: nat)
      requires Valid() && Carry(list, ids) && deletion.Fits(m) && Bounded(list, ids, m)
      modifies `numTotalDeleted, deletion`c
      ensures Valid() && deletion.Fits(m)
      ensures View() == old(View()).(deleted := old(deletion.Bits()) + IdsOf(list, ids))
    {
      MarkAll(list, ids, m);
    }

    /** Marks every document with this pk that is not marked yet, by the id it has now.
        Keeps the bitmap within the size that its ids call for. */
    method RemoveDocument(pk: nat, ghost ids: Ids, ghost m: nat) returns (rc: int)
      requires Valid() && pk != 0 && Carry(Docs, ids)
      requires deletion.Fits(m) && Bounded(Docs, ids, m)
      modifies `numTotalDeleted, deletion`c
      ensures Valid() && View() == RemoveV(old(View()), ids, pk) && deletion.Fits(m)
      ensures rc == if exists d :: d in Docs && d.pk == pk then 0 else -1
    {
      HeadInElems(Posting(Docs, Pk(pk)));
      RemoveVIs(View(), ids, pk);
      var found, list := PkDocuments(pk);
      if !found {
        return -1;
      }
      MarkListed(list, ids, m);
      rc := 0;
    }

    /** Looks a pk up and lists its documents. */
    method PkDocuments(pk: nat) returns (found: bool, list: seq<Document>)
      requires Valid()
      ensures list == Posting(Docs, Pk(pk)) && (found <==> list != [])
    {
      PkEntry(pkMapping, pkOrder, docs, Docs, pk);
      found := pk in pkMapping;
      if found {
        list := Foreach(pkMapping[pk], Posting(Docs, Pk(pk)));
      } else {
        list := [];
      }
    }

    /** A query.  The deletion bitmap is copied first and the copy is used throughout. */
    method Lookup(terms: seq<string>, limit: nat, ctn: Container, oldTotal: nat, ghost ids: Ids)
      returns (rc: int, total: nat)
      requires Valid() && ctn.Valid() && Carry(Docs, ids)
      modifies ctn
      ensures ctn.Valid() && ctn.Contents == old(ctn.Contents) + Found(View(), ids, terms, limit)
      ensures total == TotalOf(View(), ids, terms, limit, oldTotal)
      ensures rc == if limit < 1 then -1 else 0
    {
      total := oldTotal;
      if limit < 1 {
        return -1, total;
      }
      rc := 0;
      if numTotalDocs == 0 || numTotalDocs == numTotalDeleted {
        return;
      }
      var snapshot := new Bitmap.Clone(deletion);
      if |terms| == 0 {
        PksOf(pkMapping, pkOrder, docs, Docs);
        total := Unsigned(numTotalDocs - numTotalDeleted);
        assert total == TotalOf(View(), ids, terms, limit, oldTotal);
        ghost var v := View();
        CollectLive(pkMapping, pkOrder, snapshot, limit, ctn, v, ids);
        assert View() == v;
      } else {
        TermsOf(pkMapping, pkOrder, docs, Docs);
        ghost var v := View();
        total := Query(docs, terms, snapshot, limit, ctn, oldTotal, v, ids);
        assert View() == v;
      }
    }
  }

  /** Looks all terms up, stopping at one without documents. */
  method Gather(docs: map<string, Inverted>, terms: seq<string>, ghost all: seq<Document>)
    returns (missing: bool, lists: seq<Container>)
    requires Terms(docs, all)
    ensures missing ==> exists t :: t in terms && Posting(all, Term(t)) == []
    ensures !missing ==> Lists(lists, Postings(all, terms), Elems(all)) && forall t | t in terms :: Posting(all, Term(t)) != []
    ensures forall c | c in lists :: fresh(c)
  {
    missing, lists := false, [];
    var i := 0;
    while i < |terms|
      invariant 0 <= i <= |terms| && |lists| == i
      invariant forall k :: 0 <= k < i ==> Entry(lists[k], terms[k], all) && fresh(lists[k])
    {
      TermEntry(docs, all, terms[i]);
      if terms[i] !in docs || docs[terms[i]].docIds.total == 0 {
        return true, lists;
      }
      var c := new Container.Of(docs[terms[i]].docIds, Posting(all, Term(terms[i])));
      lists := lists + [c];
      i := i + 1;
    }
  }

  /** The container of a term, which has documents. */
  ghost predicate Entry(c: Container, t: string, all: seq<Document>)
    reads c
  {
    c.Valid() && c.Contents == Posting(all, Term(t)) != [] && Elems(c.Contents) <= Elems(all)
  }

  lemma TermEntry(docs: map<string, Inverted>, all: seq<Document>, t: string)
    requires Terms(docs, all)
    ensures t in docs ==> Holds(docs[t].docIds, Posting(all, Term(t))) && docs[t].docIds.total == docs[t].numTotal == |Posting(all, Term(t))|
    ensures t !in docs ==> Posting(all, Term(t)) == []
  {
    if t in docs {
      assert EntryHolds(docs[t], t, all, []);
      assert Posting(all, Term(t)) + [] == Posting(all, Term(t));
    } else {
      PostingEmpty(all, Term(t));
    }
  }

  /** A query with terms. */
  method Query(docs: map<string, Inverted>, terms: seq<string>,
               snapshot: Bitmap, limit: nat, ctn: Container, oldTotal: nat, ghost v: SegV, ghost ids: Ids)
    returns (total: nat)
    requires Terms(docs, v.docs) && Carry(v.docs, ids) && snapshot.Bits() == v.deleted
    requires ctn.Valid() && terms != [] && !Skipped(v, limit)
    modifies ctn
    ensures ctn.Valid() && ctn.Contents == old(ctn.Contents) + Found(v, ids, terms, limit)
    ensures total == TotalOf(v, ids, terms, limit, oldTotal)
  {
    var missing, lists := Gather(docs, terms, v.docs);
    if missing {
      return 0;
    }
    assert forall c | c in lists :: c != ctn;
    if |terms| == 1 {
      TermEntry(docs, v.docs, terms[0]);
      total := docs[terms[0]].numTotal;
      assert lists[0] in lists;
      CopyPrefix(lists[0], ctn, limit);
    } else {
      total := QueryAll(lists, terms, snapshot, limit, ctn, oldTotal, v, ids);
    }
  }

  /** A query with two terms or more, all of which have documents. */
  method QueryAll(lists: seq<Container>, terms: seq<string>,
                  snapshot: Bitmap, limit: nat, ctn: Container, oldTotal: nat, ghost v: SegV, ghost ids: Ids)
    returns (total: nat)
    requires Lists(lists, Postings(v.docs, terms), Elems(v.docs)) && ctn !in lists && |terms| > 1
    requires !SomeMissing(v, terms) && Carry(v.docs, ids) && snapshot.Bits() == v.deleted
    requires ctn.Valid() && limit > 0
    modifies ctn
    ensures ctn.Valid() && ctn.Contents == old(ctn.Contents) + Take(Sought(v, ids, terms), limit)
    ensures total == if Sought(v, ids, terms) == [] then oldTotal else |Sought(v, ids, terms)|
  {
    total := SeekIntersect(lists, snapshot, ctn, limit, oldTotal, Postings(v.docs, terms), Elems(v.docs), ids);
  }

  /** What the walk has collected after i pks.  Closed. */
  ghost predicate Collected(order: seq<nat>, all: seq<Document>, live: set<Document>, limit: nat, i: nat, got: seq<Document>) {
    |got| <= limit && forall n :: Unlocked(CollectedLock, n) ==> i <= |order| && got == Take(Filter(Grouped(order[..i], all), live), limit)
  }

  lemma CollectedNone(order: seq<nat>, all: seq<Document>, live: set<Document>, limit: nat)
    ensures Collected(order, all, live, limit, 0, [])
  {
  }

  lemma CollectedNext(order: seq<nat>, all: seq<Document>, live: set<Document>, limit: nat, i: nat, got: seq<Document>)
    requires i < |order| && Collected(order, all, live, limit, i, got)
    ensures Collected(order, all, live, limit, i + 1, got + Take(Filter(Posting(all, Pk(order[i])), live), limit - |got|))
  {
    assert Unlocked(CollectedLock, 0);
    GroupedSnoc(order, all, i);
    FilterConcat(Grouped(order[..i], all), Posting(all, Pk(order[i])), live);
    TakeMore(Filter(Grouped(order[..i], all), live), Filter(Posting(all, Pk(order[i])), live), limit, got);
  }

  lemma CollectedAll(order: seq<nat>, all: seq<Document>, live: set<Document>, limit: nat, i: nat, got: seq<Document>)
    requires Collected(order, all, live, limit, i, got) && (i == |order| || |got| == limit)
    ensures got == Take(Filter(Grouped(order, all), live), limit)
  {
    assert Unlocked(CollectedLock, 0);
    if i == |order| {
      assert order[..i] == order;
    } else {
      GroupedSplit(order, all, i);
      TakeFilter(Grouped(order[..i], all), GroupedFrom(order, all, i), live, limit);
    }
  }

  /** Walks the pk table and collects live documents until there are enough. */
  method CollectLive(mapping: map<nat, Chain>, order: seq<nat>, snapshot: Bitmap, limit: nat, ctn: Container,
                     ghost v: SegV, ghost ids: Ids)
    requires PkWalk(mapping, order, v.docs) && ctn.Valid() && Carry(v.docs, ids) && snapshot.Bits() == v.deleted
    modifies ctn
    ensures ctn.Valid() && ctn.Contents == old(ctn.Contents) + Take(Survivors(v, ids), limit)
  {
    ghost var live := LiveDocs(v, ids);
    ghost var got: seq<Document> := [];
    CollectedNone(order, v.docs, live, limit);
    var count := 0;
    var i := 0;
    while i < |order|
      invariant 0 <= i <= |order| && ctn.Valid()
      invariant Collected(order, v.docs, live, limit, i, got) && count == |got|
      invariant ctn.Contents == old(ctn.Contents) + got
    {
      var list := ListAt(mapping, order, i, v.docs);
      CollectedNext(order, v.docs, live, limit, i, got);
      ListedByBits(v, ids, order[i], list);
      ghost var more := Take(Filter(list, live), limit - count);
      AppendTwice(old(ctn.Contents), got, more);
      got := got + more;
      var full;
      count, full := CollectFrom(list, snapshot, limit, count, ctn, live, ids);
      i := i + 1;
      if full {
        break;
      }
    }
    CollectedAll(order, v.docs, live, limit, i, got);
  }

  /** One round of the walk: collects from one list; full when it had to stop. */
  method CollectFrom(list: seq<Document>, snapshot: Bitmap, limit: nat, count: nat, ctn: Container,
                     ghost live: set<Document>, ghost ids: Ids)
    returns (count': nat, full: bool)
    requires ctn.Valid() && count <= limit && Carry(list, ids) && ByBits(list, live, snapshot.Bits(), ids)
    modifies ctn
    ensures ctn.Valid() && ctn.Contents == old(ctn.Contents) + Take(Filter(list, live), limit - count)
    ensures count' == count + |Take(Filter(list, live), limit - count)| && (full ==> count' == limit)
  {
    count', full := count, false;
    ghost var got: seq<Document> := [];
    PickedNone(list, live);
    var j := 0;
    while j < |list|
      invariant 0 <= j <= |list| && ctn.Valid() && Carry(list, ids) && ByBits(list, live, snapshot.Bits(), ids)
      invariant Picked(list, j, live, got) && count' == count + |got| <= limit
      invariant ctn.Contents == old(ctn.Contents) + got
    {
      if count' >= limit {
        full := true;
        break;
      }
      PickedNext(list, j, live, got);
      assert list[j] in list;
      if !snapshot.Get(list[j].docId) {
        AppendTwice(old(ctn.Contents), got, [list[j]]);
        ctn.Add(list[j]);
        got := got + [list[j]];
        count' := count' + 1;
      }
      j := j + 1;
    }
    PickedAll(list, j, live, got, limit - count);
  }

  /** What has been taken from the first j documents.  Closed. */
  ghost predicate Picked(list: seq<Document>, j: nat, keep: set<Document>, got: seq<Document>) {
    forall n :: Unlocked(PickedLock, n) ==> j <= |list| && got == Filter(list[..j], keep)
  }

  lemma PickedNone(list: seq<Document>, keep: set<Document>)
    ensures Picked(list, 0, keep, [])
  {
  }

  lemma PickedNext(list: seq<Document>, j: nat, keep: set<Document>, got: seq<Document>)
    requires j < |list| && Picked(list, j, keep, got)
    ensures list[j] in keep ==> Picked(list, j + 1, keep, got + [list[j]])
    ensures list[j] !in keep ==> Picked(list, j + 1, keep, got)
  {
    assert Unlocked(PickedLock, 0);
    FilterNext(list, j, keep);
  }

  lemma PickedAll(list: seq<Document>, j: nat, keep: set<Document>, got: seq<Document>, n: nat)
    requires Picked(list, j, keep, got) && (|got| == n || (j == |list| && |got| <= n))
    ensures Take(Filter(list, keep), n) == got
  {
    assert Unlocked(PickedLock, 0);
    TakePrefix(list, j, keep, n);
  }

  lemma FilterNext(list: seq<Document>, j: nat, keep: set<Document>)
    requires j < |list|
    ensures Filter(list[..j + 1], keep) == Filter(list[..j], keep) + if list[j] in keep then [list[j]] else []
  {
    assert list[..j + 1] == list[..j] + [list[j]];
    FilterSnoc(list[..j], list[j], keep);
  }

  lemma TakePrefix(list: seq<Document>, j: nat, keep: set<Document>, n: nat)
    requires j <= |list| && (|Filter(list[..j], keep)| == n || (j == |list| && |Filter(list[..j], keep)| <= n))
    ensures Take(Filter(list, keep), n) == Filter(list[..j], keep)
  {
    assert list == list[..j] + list[j..];
    FilterConcat(list[..j], list[j..], keep);
  }

  /** Whether a document is live can be read off the bitmap. */
  ghost predicate ByBits(list: seq<Document>, live: set<Document>, bits: set<nat>, ids: Ids) {
    forall d | d in list :: d in live <==> IdOf(ids, d) !in bits
  }

  lemma ListedByBits(v: SegV, ids: Ids, pk: nat, list: seq<Document>)
    requires list == Posting(v.docs, Pk(pk)) && Carry(v.docs, ids)
    ensures ByBits(list, LiveDocs(v, ids), v.deleted, ids) && Carry(list, ids)
  {
  }

  /** Walking the pk table in its order meets the posting lists of all pks. */
  ghost predicate PkWalk(mapping: map<nat, Chain>, order: seq<nat>, all: seq<Document>) {
    && order == PkOrder(all)
    && forall n :: Unlocked(PkWalkLock, n) ==> forall i :: 0 <= i < |order| ==>
         order[i] in mapping && Holds(mapping[order[i]], Posting(all, Pk(order[i])))
  }

  /** The documents of the i-th pk of the walk. */
  method ListAt(mapping: map<nat, Chain>, order: seq<nat>, i: nat, ghost docs: seq<Document>) returns (list: seq<Document>)
    requires PkWalk(mapping, order, docs) && i < |order|
    ensures list == Posting(docs, Pk(order[i]))
  {
    assert Unlocked(PkWalkLock, 0);
    list := Foreach(mapping[order[i]], Posting(docs, Pk(order[i])));
  }

  lemma PksOf(mapping: map<nat, Chain>, order: seq<nat>, docs: map<string, Inverted>, all: seq<Document>)
    requires Tables(docs, mapping, order, all)
    ensures PkWalk(mapping, order, all)
  {
    assert Unlocked(TableLock, 0);
  }

  lemma TermsOf(mapping: map<nat, Chain>, order: seq<nat>, docs: map<string, Inverted>, all: seq<Document>)
    requires Tables(docs, mapping, order, all)
    ensures Terms(docs, all)
  {
    assert Unlocked(TableLock, 0);
  }

  ghost predicate Bounded(list: seq<Document>, ids: Ids, m: nat) {
    forall d | d in list :: IdOf(ids, d) <= m
  }

  ghost function IdsOf(list: seq<Document>, ids: Ids): set<nat> {
    set d | d in list :: IdOf(ids, d)
  }

  lemma IdsOfSnoc(list: seq<Document>, i: nat, ids: Ids)
    requires i < |list|
    ensures IdsOf(list[..i + 1], ids) == IdsOf(list[..i], ids) + {IdOf(ids, list[i])}
  {
    assert list[..i + 1] == list[..i] + [list[i]];
  }

  lemma RemoveVIs(v: SegV, ids: Ids, pk: nat)
    ensures var list := Posting(v.docs, Pk(pk));
      && RemoveV(v, ids, pk) == v.(deleted := v.deleted + IdsOf(list, ids))
      && (list == [] ==> RemoveV(v, ids, pk) == v)
  {
    var list := Posting(v.docs, Pk(pk));
    assert IdsOf(list, ids) == set d | d in v.docs && d.pk == pk :: IdOf(ids, d);
  }

  /** The entry of a pk: there is one exactly when some document has the pk. */
  lemma PkEntry(mapping: map<nat, Chain>, order: seq<nat>, docs: map<string, Inverted>, all: seq<Document>, pk: nat)
    requires Tables(docs, mapping, order, all)
    ensures pk in mapping <==> Posting(all, Pk(pk)) != []
    ensures pk in mapping ==> Holds(mapping[pk], Posting(all, Pk(pk)))
  {
    assert Unlocked(TableLock, 0);
    HeadInElems(Posting(all, Pk(pk)));
    if pk in mapping {
      var d :| d in all && d.pk == pk;
      assert d in Posting(all, Pk(pk));
    }
  }
}
