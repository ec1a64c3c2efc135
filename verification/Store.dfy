/** The segments of an engine and their documents in memory, and the operations on them
    that the input handlers and the merger are made of. */
module Store {
  import opened Basics
  import opened Documents
  import opened SegmentValues
  import opened Segments
  import opened Bitmaps

  const SEGMENT_MAX_DOC: nat := 100_000

  type Views = map<Segment, SegV>

  /** Segments share no parts. */
  ghost predicate Apart(all: set<Segment>) {
    forall g, h | g in all && h in all && g != h :: g.deletion != h.deletion && g.generator != h.generator
  }

  /** Memory holds these segments with these contents, and these documents with these ids.
      Closed. */
  ghost predicate Holds(views: Views, ids: Ids)
    reads views.Keys, (set g | g in views.Keys :: g.deletion)`c, (set g | g in views.Keys :: g.generator)`start, ids.Keys`docId
  {
    forall n :: Unlocked(MemoryLock, n) ==> (forall g | g in views :: Segmented(g, views[g])) && Identified(ids)
  }

  ghost predicate Identified(ids: Ids)
    reads ids.Keys`docId
  {
    forall d | d in ids :: d.docId == ids[d]
  }

  ghost predicate Segmented(g: Segment, v: SegV)
    reads g, g.deletion`c, g.generator`start
  {
    g.Valid() && g.View() == v && g.deletion.Fits(SEGMENT_MAX_DOC)
  }

  /** The documents of a segment have small ids. */
  ghost predicate Known(v: SegV, ids: Ids) {
    forall d | d in v.docs :: d in ids && ids[d] <= SEGMENT_MAX_DOC
  }

  /** One segment has new contents, the others keep theirs. */
  lemma Assemble(g: Segment, views: Views, v: SegV, ids: Ids)
    requires Segmented(g, v) && Identified(ids)
    requires forall h | h in views && h != g :: Segmented(h, views[h])
    ensures Holds(views[g := v], ids)
  {
  }

  /** Some segments are let go. */
  lemma HoldsLess(views: Views, gone: set<Segment>, ids: Ids)
    requires Holds(views, ids) && Apart(views.Keys)
    ensures Holds(views - gone, ids) && Apart((views - gone).Keys)
  {
    assert Unlocked(MemoryLock, 0);
  }

  /** Allocates a segment. */
  method NewSegment(ghost views: Views, ghost ids: Ids) returns (g: Segment)
    requires Holds(views, ids) && Apart(views.Keys)
    ensures fresh(g) && fresh(g.deletion) && fresh(g.generator) && g !in views
    ensures Holds(views[g := EMPTY_SEG], ids) && Apart(views.Keys + {g})
  {
    assert Unlocked(MemoryLock, 0);
    g := new Segment();
    forall h | h in views && h != g
      ensures Segmented(h, views[h])
    {
      assert old(Segmented(h, views[h]));
    }
    Assemble(g, views, EMPTY_SEG, ids);
  }

  /** Removes a pk from one segment. */
  method RemoveOne(g: Segment, pk: nat, ghost v: SegV, ghost ids: Ids)
    requires Segmented(g, v) && Identified(ids) && pk != 0 && Known(v, ids) && Carry(v.docs, ids)
    modifies g`numTotalDeleted, g.deletion`c
    ensures Segmented(g, RemoveV(v, ids, pk)) && Identified(ids)
  {
    var _ := g.RemoveDocument(pk, ids, SEGMENT_MAX_DOC);
  }

  method RemoveFrom(g: Segment, pk: nat, ghost views: Views, ghost ids: Ids)
    requires Holds(views, ids) && Apart(views.Keys) && g in views && pk != 0 && Known(views[g], ids)
    modifies g`numTotalDeleted, g.deletion`c
    ensures Holds(views[g := RemoveV(views[g], ids, pk)], ids)
  {
    assert Unlocked(MemoryLock, 0);
    RemoveOne(g, pk, views[g], ids);
    forall h | h in views && h != g
      ensures Segmented(h, views[h])
    {
      assert old(Segmented(h, views[h]));
    }
    Assemble(g, views, RemoveV(views[g], ids, pk), ids);
  }

  /** The contents after a pk has been removed from each of the listed segments. */
  ghost function RemovedFrom(views: Views, list: seq<Segment>, ids: Ids, pk: nat): Views {
    map g | g in views :: if g in list then RemoveV(views[g], ids, pk) else views[g]
  }

  lemma RemovedFromSnoc(views: Views, list: seq<Segment>, i: nat, ids: Ids, pk: nat)
    requires i < |list| && Distinct(list) && list[i] in views
    ensures RemovedFrom(views, list[..i + 1], ids, pk) ==
            RemovedFrom(views, list[..i], ids, pk)[list[i] := RemoveV(views[list[i]], ids, pk)]
    ensures RemovedFrom(views, list[..i], ids, pk)[list[i]] == views[list[i]]
  {
    assert list[..i + 1] == list[..i] + [list[i]];
    assert list[i] !in list[..i];
  }

  /** The loop of the handlers over the segment list. */
  method RemoveFromAll(list: seq<Segment>, pk: nat, ghost views: Views, ghost ids: Ids, ghost parts: set<Bitmap>)
    requires Holds(views, ids) && Apart(views.Keys) && Distinct(list) && pk != 0
    requires forall g | g in list :: g in views && Known(views[g], ids) && g.deletion in parts
    modifies list`numTotalDeleted, parts`c
    ensures Holds(RemovedFrom(views, list, ids, pk), ids)
  {
    var i := 0;
    assert RemovedFrom(views, list[..0], ids, pk) == views;
    while i < |list|
      invariant 0 <= i <= |list| && Holds(RemovedFrom(views, list[..i], ids, pk), ids)
    {
      RemovedFromSnoc(views, list, i, ids, pk);
      assert list[i] in list;
      RemoveFrom(list[i], pk, RemovedFrom(views, list[..i], ids, pk), ids);
      i := i + 1;
    }
    assert list[..i] == list;
  }

  /** Numbers a document and adds it to one segment. */
  method AddTo(g: Segment, doc: Document, ghost views: Views, ghost ids: Ids)
    requires Holds(views, ids) && Apart(views.Keys) && g in views && doc.Checked() && UniqueNames(doc.fields)
    modifies g, g.generator, doc
    ensures Holds(views[g := AddV(views[g], doc)], ids[doc := views[g].nextId])
  {
    assert Unlocked(MemoryLock, 0);
    var _ := g.AddDocument(doc);
    forall h | h in views && h != g
      ensures Segmented(h, views[h])
    {
      assert old(Segmented(h, views[h]));
    }
    Assemble(g, views, AddV(views[g], doc), ids[doc := views[g].nextId]);
  }

  /** Moves a segment to the next state. */
  method NextState(g: Segment, ghost views: Views, ghost ids: Ids)
    requires Holds(views, ids) && Apart(views.Keys) && g in views
    modifies g`state
    ensures Holds(views[g := views[g].(state := views[g].state + 1)], ids)
  {
    assert Unlocked(MemoryLock, 0);
    g.state := g.state + 1;
    forall h | h in views && h != g
      ensures Segmented(h, views[h])
    {
      assert old(Segmented(h, views[h]));
    }
    Assemble(g, views, views[g].(state := views[g].state + 1), ids);
  }
}
