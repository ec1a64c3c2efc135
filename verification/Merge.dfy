/** The merger's work on segments in memory: choosing two of them, and migrating one into
    another while the documents are renumbered in place. */
module Merge {
  import opened Basics
  import opened Documents
  import opened SegmentValues
  import opened Segments
  import opened Docids
  import opened Bitmaps
  import S = Store
  import P = Protocol

  // ----- choosing two segments -----

  /** Memory agrees with the segments of a state of the protocol.  Closed. */
  ghost predicate Listing(list: seq<Segment>, s: P.State<Segment>)
    reads s.segs.Keys, (set g | g in s.segs.Keys :: g.deletion)`c, (set g | g in s.segs.Keys :: g.generator)`start
  {
    s.list == list && forall n :: Unlocked(MemoryLock, n) ==>
      && (forall g | g in s.segs :: S.Segmented(g, s.segs[g]))
      && (forall g | g in list :: g in s.segs && (P.Sealed(s, g) ==> s.segs[g].docs != []))
  }

  /** The deleted ratio, by integer division. */
  method Ratio(g: Segment, ghost v: SegV) returns (r: nat)
    requires S.Segmented(g, v) && v.docs != []
    ensures r == DeletedRatio(v)
  {
    r := g.numTotalDeleted / g.numTotalDocs;
  }

  /** One round of the scan over the segment list. */
  method ScanOne(g: Segment, mseg1: Segment?, mseg2: Segment?, found: bool,
                 list: seq<Segment>, ghost s: P.State<Segment>, ghost sc: P.Scan<Segment>)
    returns (mseg1': Segment?, mseg2': Segment?, found': bool)
    requires Listing(list, s) && g in list && Scanned(mseg1, mseg2, found, list, s, sc)
    ensures Scanned(mseg1', mseg2', found', list, s, P.ScanStep(P.Ratios(s), sc, g))
  {
    mseg1', mseg2', found' := mseg1, mseg2, found;
    assert Unlocked(MemoryLock, 0) && S.Segmented(g, s.segs[g]);
    if g.state == STATE_ACTIVE {
      return;
    }
    if mseg1 == null {
      mseg1' := g;
      return;
    }
    assert S.Segmented(mseg1, s.segs[mseg1]);
    var r := Ratio(g, s.segs[g]);
    var r1 := Ratio(mseg1, s.segs[mseg1]);
    if r >= r1 {
      mseg2', mseg1', found' := mseg1, g, true;
    }
  }

  /** The two pointers and the flag are those of the scan; both pointers are listed and
      sealed. */
  ghost predicate Scanned(mseg1: Segment?, mseg2: Segment?, found: bool, list: seq<Segment>,
                          s: P.State<Segment>, sc: P.Scan<Segment>)
  {
    && found == sc.found
    && (mseg1 == null <==> sc.m1.None?)
    && (mseg2 == null <==> sc.m2.None?)
    && (mseg1 != null ==> sc.m1 == Some(mseg1) && mseg1 in list && mseg1 in s.segs && P.Sealed(s, mseg1))
    && (mseg2 != null ==> sc.m2 == Some(mseg2))
    && (found ==> mseg1 != null && mseg2 != null)
  }

  /** Chooses the segments of the next merge. */
  method GetSegments(list: seq<Segment>, ghost s: P.State<Segment>)
    returns (ok: bool, mseg1: Segment?, mseg2: Segment?)
    requires Listing(list, s)
    ensures ok <==> P.Select(s).Some?
    ensures ok ==> mseg1 != null && mseg2 != null && P.Select(s) == Some((mseg1, mseg2))
  {
    ok, mseg1, mseg2 := false, null, null;
    if |list| < 3 {
      return;
    }
    var found := false;
    var i := 0;
    while i < |list|
      invariant 0 <= i <= |list|
      invariant Scanned(mseg1, mseg2, found, list, s, P.ScanAll(P.Ratios(s), list[..i]))
    {
      assert list[..i + 1][..i] == list[..i];
      mseg1, mseg2, found := ScanOne(list[i], mseg1, mseg2, found, list, s, P.ScanAll(P.Ratios(s), list[..i]));
      i := i + 1;
    }
    assert list[..i] == list;
    if found {
      assert Unlocked(MemoryLock, 0) && S.Segmented(mseg1, s.segs[mseg1]);
      var r := Ratio(mseg1, s.segs[mseg1]);
      ok := r as real >= 0.2;
    }
  }

  // ----- migration -----

  /** A document can be visited: it is complete, and it is live if and only if its bit in
      the copied bitmap is zero. */
  ghost predicate Fit(d: Document, m: Ids, live: set<Document>, bits: set<nat>) {
    d in m && d.Checked() && UniqueNames(d.fields) && (d in live <==> m[d] !in bits)
  }

  ghost predicate AllFit(docs: seq<Document>, m: Ids, live: set<Document>, gone: set<Document>, bits: set<nat>) {
    forall d | d in docs :: Fit(d, m, live, bits) && (d in gone <==> d !in live)
  }

  ghost predicate Within(docs: seq<Document>, all: set<Document>) {
    forall d | d in docs :: d in all
  }

  /** What a visit leaves in memory: a live document goes into g under a new id. */
  ghost function Visit(g: Segment, w: S.Views, m: Ids, d: Document, live: set<Document>): (S.Views, Ids) {
    if d in live && g in w then (w[g := AddV(w[g], d)], m[d := w[g].nextId]) else (w, m)
  }

  ghost function VisitAll(g: Segment, w: S.Views, m: Ids, docs: seq<Document>, live: set<Document>): (S.Views, Ids) {
    if docs == [] then (w, m)
    else
      var (w', m') := VisitAll(g, w, m, docs[..|docs| - 1], live);
      Visit(g, w', m', docs[|docs| - 1], live)
  }

  lemma VisitNext(g: Segment, w: S.Views, m: Ids, docs: seq<Document>, j: nat, live: set<Document>)
    requires j < |docs|
    ensures var (w', m') := VisitAll(g, w, m, docs[..j], live);
      VisitAll(g, w, m, docs[..j + 1], live) == Visit(g, w', m', docs[j], live)
  {
    assert docs[..j + 1][..j] == docs[..j];
  }

  lemma {:induction false} VisitConcat(g: Segment, w: S.Views, m: Ids, a: seq<Document>, b: seq<Document>, live: set<Document>)
    ensures var (w', m') := VisitAll(g, w, m, a, live);
      VisitAll(g, w, m, a + b, live) == VisitAll(g, w', m', b, live)
  {
    if b == [] {
      assert a + b == a;
    } else {
      var n := |b| - 1;
      VisitConcat(g, w, m, a, b[..n], live);
      assert (a + b)[..|a| + n] == a + b[..n];
    }
  }

  /** Visits touch one segment and the ids of the visited documents only. */
  lemma {:induction false} VisitKeeps(g: Segment, w: S.Views, m: Ids, docs: seq<Document>, live: set<Document>)
    ensures VisitAll(g, w, m, docs, live).0.Keys == w.Keys
    ensures forall d | d in m && d !in docs :: d in VisitAll(g, w, m, docs, live).1 && VisitAll(g, w, m, docs, live).1[d] == m[d]
  {
    if docs != [] {
      VisitKeeps(g, w, m, docs[..|docs| - 1], live);
    }
  }

  /** Visiting all documents amounts to adding the live ones. */
  lemma {:induction false} VisitAllAdds(g: Segment, w: S.Views, m: Ids, docs: seq<Document>, live: set<Document>)
    requires g in w
    ensures var (v, m') := AddAll(w[g], m, Filter(docs, live)); VisitAll(g, w, m, docs, live) == (w[g := v], m')
  {
    if docs != [] {
      var n := |docs| - 1;
      VisitAllAdds(g, w, m, docs[..n], live);
      var v := AddAll(w[g], m, Filter(docs[..n], live)).0;
      if docs[n] in live {
        AddAllSnoc(w[g], m, Filter(docs[..n], live), docs[n]);
        assert w[g := v][g := AddV(v, docs[n])] == w[g := AddV(v, docs[n])];
      }
    } else {
      assert w[g := w[g]] == w;
    }
  }

  /** Visits one document: it goes to the list of the dead or, renumbered, into the new
      segment. */
  method MigrateOne(d: Document, snapshot: Bitmap, newseg: Segment, dead: seq<Document>,
                    ghost w: S.Views, ghost m: Ids, ghost live: set<Document>)
    returns (dead': seq<Document>, ghost w': S.Views, ghost m': Ids)
    requires newseg in w && S.Apart(w.Keys) && S.Holds(w, m) && Fit(d, m, live, snapshot.Bits())
    modifies newseg, newseg.generator, d
    ensures (w', m') == Visit(newseg, w, m, d, live) && S.Holds(w', m')
    ensures dead' == dead + if d in live then [] else [d]
  {
    dead', w', m' := dead, w, m;
    assert Unlocked(MemoryLock, 0);
    if snapshot.Get(d.docId) {
      dead' := dead' + [d];
    } else {
      S.AddTo(newseg, d, w, m);
      w', m' := w[newseg := AddV(w[newseg], d)], m[d := w[newseg].nextId];
    }
  }

  /** Visits the documents of one pk. */
  method MigrateList(list: seq<Document>, snapshot: Bitmap, newseg: Segment, dead: seq<Document>,
                     ghost all: set<Document>, ghost w: S.Views, ghost m: Ids, ghost live: set<Document>, ghost gone: set<Document>)
    returns (dead': seq<Document>, ghost w': S.Views, ghost m': Ids)
    requires newseg in w && S.Apart(w.Keys) && S.Holds(w, m) && Distinct(list)
    requires AllFit(list, m, live, gone, snapshot.Bits()) && Within(list, all)
    modifies newseg, newseg.generator, all
    ensures (w', m') == VisitAll(newseg, w, m, list, live) && S.Holds(w', m')
    ensures dead' == dead + Filter(list, gone)
  {
    dead', w', m' := dead, w, m;
    ghost var lost: seq<Document> := [];
    var j := 0;
    while j < |list|
      invariant 0 <= j <= |list|
      invariant (w', m') == VisitAll(newseg, w, m, list[..j], live) && S.Holds(w', m')
      invariant lost == Filter(list[..j], gone) && dead' == dead + lost
    {
      FitNext(newseg, w, m, list, j, live, snapshot.Bits());
      VisitNext(newseg, w, m, list, j, live);
      FilterNext(list, j, gone);
      ghost var last := if list[j] in live then [] else [list[j]];
      AppendTwice(dead, lost, last);
      lost := lost + last;
      assert list[j] in list;
      dead', w', m' := MigrateOne(list[j], snapshot, newseg, dead', w', m', live);
      j := j + 1;
    }
    assert list[..j] == list;
  }

  /** A document not yet visited still carries its old id. */
  lemma FitNext(g: Segment, w: S.Views, m: Ids, list: seq<Document>, j: nat, live: set<Document>, bits: set<nat>)
    requires j < |list| && Distinct(list) && Fit(list[j], m, live, bits)
    ensures var (w', m') := VisitAll(g, w, m, list[..j], live); w'.Keys == w.Keys && Fit(list[j], m', live, bits)
  {
    VisitKeeps(g, w, m, list[..j], live);
    assert list[j] !in list[..j];
  }

  /** What has been done when the documents in `seen` have been visited.  Closed. */
  ghost predicate Done(g: Segment, w: S.Views, m: Ids, seen: seq<Document>, live: set<Document>, gone: set<Document>,
                       w': S.Views, m': Ids, lost: seq<Document>)
  {
    forall n :: Unlocked(MigrationLock, n) ==> (w', m') == VisitAll(g, w, m, seen, live) && lost == Filter(seen, gone)
  }

  /** The documents of one pk, when those of earlier pks have been visited. */
  lemma FitList(g: Segment, w: S.Views, m: Ids, order: seq<nat>, docs: seq<Document>, i: nat,
                live: set<Document>, gone: set<Document>, bits: set<nat>, w': S.Views, m': Ids, lost: seq<Document>, all: set<Document>)
    requires i < |order| && Distinct(order) && Distinct(docs) && Within(docs, all)
    requires AllFit(docs, m, live, gone, bits) && Done(g, w, m, Grouped(order[..i], docs), live, gone, w', m', lost)
    ensures w'.Keys == w.Keys && Distinct(Posting(docs, Pk(order[i]))) && Within(Posting(docs, Pk(order[i])), all)
    ensures AllFit(Posting(docs, Pk(order[i])), m', live, gone, bits)
  {
    assert Unlocked(MigrationLock, 0);
    VisitKeeps(g, w, m, Grouped(order[..i], docs), live);
    PostingDistinct(docs, Pk(order[i]));
    forall d | d in Posting(docs, Pk(order[i]))
      ensures d !in Grouped(order[..i], docs)
    {
      assert Has(d, Pk(order[i])) && order[i] !in order[..i];
    }
  }

  lemma DoneNone(g: Segment, w: S.Views, m: Ids, order: seq<nat>, docs: seq<Document>, live: set<Document>, gone: set<Document>)
    ensures Done(g, w, m, Grouped(order[..0], docs), live, gone, w, m, [])
  {
  }

  lemma DoneAll(g: Segment, w: S.Views, m: Ids, order: seq<nat>, docs: seq<Document>, i: nat,
                live: set<Document>, gone: set<Document>, w': S.Views, m': Ids, lost: seq<Document>)
    requires i == |order| && Done(g, w, m, Grouped(order[..i], docs), live, gone, w', m', lost)
    ensures (w', m') == VisitAll(g, w, m, Grouped(order, docs), live) && lost == Filter(Grouped(order, docs), gone)
  {
    assert Unlocked(MigrationLock, 0) && order[..i] == order;
  }

  lemma DoneNext(g: Segment, w: S.Views, m: Ids, order: seq<nat>, docs: seq<Document>, i: nat,
                 live: set<Document>, gone: set<Document>, w': S.Views, m': Ids, lost: seq<Document>)
    requires i < |order| && Done(g, w, m, Grouped(order[..i], docs), live, gone, w', m', lost)
    ensures var post := Posting(docs, Pk(order[i]));
      var (w2, m2) := VisitAll(g, w', m', post, live);
      Done(g, w, m, Grouped(order[..i + 1], docs), live, gone, w2, m2, lost + Filter(post, gone))
  {
    assert Unlocked(MigrationLock, 0);
    var seen, post := Grouped(order[..i], docs), Posting(docs, Pk(order[i]));
    GroupedSnoc(order, docs, i);
    VisitConcat(g, w, m, seen, post, live);
    FilterConcat(seen, post, gone);
  }

  /** The documents of the i-th pk; memory is only read. */
  method NextList(mapping: map<nat, Chain>, order: seq<nat>, i: nat, ghost docs: seq<Document>, ghost w: S.Views, ghost m: Ids)
    returns (list: seq<Document>)
    requires PkWalk(mapping, order, docs) && i < |order| && S.Holds(w, m)
    ensures list == Posting(docs, Pk(order[i])) && S.Holds(w, m)
  {
    list := ListAt(mapping, order, i, docs);
  }

  /** Visits all documents once, in the order of the pk table. */
  method MigrateWalk(mapping: map<nat, Chain>, order: seq<nat>, snapshot: Bitmap, newseg: Segment, dead: seq<Document>,
                     ghost docs: seq<Document>, ghost all: set<Document>, ghost w: S.Views, ghost m: Ids, ghost live: set<Document>, ghost gone: set<Document>)
    returns (dead': seq<Document>, ghost w': S.Views, ghost m': Ids)
    requires newseg in w && S.Apart(w.Keys) && S.Holds(w, m) && Distinct(docs) && PkWalk(mapping, order, docs)
    requires AllFit(docs, m, live, gone, snapshot.Bits()) && Within(docs, all)
    modifies newseg, newseg.generator, all
    ensures (w', m') == VisitAll(newseg, w, m, Walk(docs), live) && S.Holds(w', m')
    ensures dead' == dead + Filter(Walk(docs), gone)
  {
    dead', w', m' := dead, w, m;
    ghost var lost: seq<Document> := [];
    DoneNone(newseg, w, m, order, docs, live, gone);
    var i := 0;
    while i < |order|
      invariant 0 <= i <= |order| && S.Holds(w', m')
      invariant Done(newseg, w, m, Grouped(order[..i], docs), live, gone, w', m', lost) && dead' == dead + lost
    {
      ghost var post := Posting(docs, Pk(order[i]));
      FitList(newseg, w, m, order, docs, i, live, gone, snapshot.Bits(), w', m', lost, all);
      DoneNext(newseg, w, m, order, docs, i, live, gone, w', m', lost);
      AppendTwice(dead, lost, Filter(post, gone));
      var list := NextList(mapping, order, i, docs, w', m');
      dead', w', m' := MigrateList(list, snapshot, newseg, dead', all, w', m', live, gone);
      lost := lost + Filter(post, gone);
      i := i + 1;
    }
    DoneAll(newseg, w, m, order, docs, i, live, gone, w', m', lost);
  }

  /** Migrates one segment into another. */
  method MigrateSegment(oldseg: Segment, newseg: Segment, dead: seq<Document>,
                        ghost all: set<Document>, ghost views: S.Views, ghost ids: Ids)
    returns (dead': seq<Document>)
    requires newseg in views && oldseg in views && S.Apart(views.Keys) && S.Holds(views, ids)
    requires Distinct(views[oldseg].docs) && Ready(views[oldseg].docs, ids)
    requires Within(views[oldseg].docs, all)
    modifies newseg, newseg.generator, all
    ensures var (v, m) := AddAll(views[newseg], ids, Survivors(views[oldseg], ids)); S.Holds(views[newseg := v], m)
    ensures dead' == dead + Casualties(views[oldseg], ids)
  {
    ghost var v := views[oldseg];
    ghost var live, gone := LiveDocs(v, ids), Elems(v.docs) - LiveDocs(v, ids);
    assert Unlocked(MemoryLock, 0) && S.Segmented(oldseg, v);
    var snapshot := new Bitmap.Clone(oldseg.deletion);
    PksOf(oldseg.pkMapping, oldseg.pkOrder, oldseg.docs, v.docs);
    VisitAllAdds(newseg, views, ids, Walk(v.docs), live);
    ghost var w', m';
    dead', w', m' := MigrateWalk(oldseg.pkMapping, oldseg.pkOrder, snapshot, newseg, dead, v.docs, all, views, ids, live, gone);
  }

  /** Documents that may be moved: complete, and known to the store. */
  ghost predicate Ready(docs: seq<Document>, ids: Ids) {
    forall d | d in docs :: d in ids && d.Checked() && UniqueNames(d.fields)
  }
}
