/** What every run of the engine and its merger keeps. */
module ProtocolSafety {
  import opened Basics
  import opened Documents
  import opened SegmentValues
  import opened Protocol

  // ----- one segment -----

  lemma IdsIdentify(v: SegV, ids: Ids)
    requires Numbered(v, ids)
    ensures forall d, e | d in v.docs && e in v.docs && IdOf(ids, d) == IdOf(ids, e) :: d == e
  {
    forall d, e | d in v.docs && e in v.docs && IdOf(ids, d) == IdOf(ids, e)
      ensures d == e
    {
      assert v.docs[ids[d] - 1] == d && v.docs[ids[e] - 1] == e;
    }
  }

  lemma RemoveOne(v: SegV, ids: Ids, pk: nat)
    requires Numbered(v, ids)
    ensures Numbered(RemoveV(v, ids, pk), ids)
    ensures LiveDocs(RemoveV(v, ids, pk), ids) == set d | d in LiveDocs(v, ids) && d.pk != pk
  {
    IdsIdentify(v, ids);
  }

  lemma NumberedDistinct(v: SegV, ids: Ids)
    requires Numbered(v, ids)
    ensures Distinct(v.docs)
  {
  }

  /** Everything in the invariant but the input queue. */
  ghost predicate Core<S>(s: State<S>) {
    Listed(s) && Sized(s) && Indexing(s) && Owned(s) && Merging(s)
  }

  // ----- unions over segments -----

  /** The sound segment that holds a stored document. */
  ghost function Home<S>(s: State<S>, d: Document): (g: S)
    requires d in Stored(s)
    ensures g in s.segs && Sound(s, g) && d in Docs(s, g)
  {
    var g :| g in s.segs && Sound(s, g) && d in Docs(s, g);
    g
  }

  /** The sound segment in which a document is live. */
  ghost function LiveHome<S>(s: State<S>, d: Document): (g: S)
    requires d in Live(s)
    ensures g in s.segs && Sound(s, g) && d in LiveDocs(s.segs[g], s.ids)
  {
    var g :| g in s.segs && Sound(s, g) && d in LiveDocs(s.segs[g], s.ids);
    g
  }

  // ----- removal from every listed segment -----

  lemma RemoveAllListed<S>(s: State<S>, pk: nat)
    requires Listed(s) && Sized(s)
    ensures Listed(RemoveAll(s, pk)) && Sized(RemoveAll(s, pk))
    ensures forall g :: Docs(RemoveAll(s, pk), g) == Docs(s, g)
    ensures forall g :: Sound(RemoveAll(s, pk), g) == Sound(s, g)
  {
  }

  lemma RemoveAllIndexing<S>(s: State<S>, pk: nat)
    requires Listed(s) && Sized(s) && Indexing(s)
    ensures Indexing(RemoveAll(s, pk))
    ensures forall g | g in s.segs && Sound(s, g) && g in s.list ::
              LiveDocs(RemoveAll(s, pk).segs[g], s.ids) == set d | d in LiveDocs(s.segs[g], s.ids) && d.pk != pk
  {
    var r := RemoveAll(s, pk);
    RemoveAllListed(s, pk);
    forall g | g in s.segs && Sound(s, g) 
      ensures Numbered(View(r, g), s.ids)
      ensures g in s.list ==> LiveDocs(r.segs[g], s.ids) == set d | d in LiveDocs(s.segs[g], s.ids) && d.pk != pk
    {
      RemoveOne(s.segs[g], s.ids, pk);
    }
  }

  lemma RemoveAllCore<S>(s: State<S>, pk: nat)
    requires Core(s)
    ensures Core(RemoveAll(s, pk))
  {
    var r := RemoveAll(s, pk);
    RemoveAllListed(s, pk);
    RemoveAllIndexing(s, pk);
    assert Stored(r) == Stored(s);
    if s.phase.Chosen? {
      assert LiveDocs(View(r, s.phase.m1), s.ids) == {};
    }
  }

  /** Documents that a removal by pk does not reach: those of a segment not yet listed. */
  ghost predicate OutOfReach<S>(s: State<S>, d: Document) {
    s.phase.Migrated? && d in Docs(s, s.phase.newseg)
  }

  lemma RemoveAllVisible<S>(s: State<S>, pk: nat)
    requires Core(s)
    ensures Masked(RemoveAll(s, pk)) == Masked(s)
    ensures Live(RemoveAll(s, pk)) == set d | d in Live(s) && (d.pk != pk || OutOfReach(s, d))
  {
    var r := RemoveAll(s, pk);
    RemoveAllListed(s, pk);
    RemoveAllIndexing(s, pk);
    forall d | d in Live(s) && (d.pk != pk || OutOfReach(s, d))
      ensures d in Live(r)
    {
      var g := LiveHome(s, d);
      assert d in LiveDocs(r.segs[g], r.ids);
    }
    forall d | d in Live(r)
      ensures d in Live(s) && (d.pk != pk || OutOfReach(s, d))
    {
      var g := LiveHome(r, d);
      assert d in LiveDocs(s.segs[g], s.ids);
    }
  }

  // ----- adding -----

  lemma RotateListed<S>(s: State<S>, blank: S)
    requires Listed(s) && Sized(s) && Spare(s, blank)
    ensures var r := Rotate(s, blank);
      && Listed(r) && Sized(r) && |Docs(r, r.active)| < s.cap
      && (forall g | g in s.segs :: g in r.segs && Docs(r, g) == Docs(s, g) && r.segs[g].deleted == s.segs[g].deleted)
      && (forall g | g in r.segs && g !in s.segs :: r.segs[g] == EMPTY_SEG)
  {
  }

  lemma RotateSound<S>(s: State<S>, blank: S)
    requires Listed(s) && Merging(s) && Spare(s, blank)
    ensures forall g :: Sound(Rotate(s, blank), g) <==> Sound(s, g) || (g == blank && Rotate(s, blank).active == blank)
    ensures Merging(Rotate(s, blank))
    ensures Masked(Rotate(s, blank)) == Masked(s)
  {
  }

  lemma RotateCore<S>(s: State<S>, blank: S)
    requires Core(s) && Spare(s, blank)
    ensures var r := Rotate(s, blank);
      && Core(r) && |Docs(r, r.active)| < s.cap && Live(r) == Live(s) && Masked(r) == Masked(s)
  {
    var r := Rotate(s, blank);
    RotateListed(s, blank);
    RotateSound(s, blank);
    assert Stored(r) == Stored(s);
    RotateLive(s, blank);
  }

  lemma RotateLive<S>(s: State<S>, blank: S)
    requires Core(s) && Spare(s, blank)
    ensures Live(Rotate(s, blank)) == Live(s)
  {
    var r := Rotate(s, blank);
    RotateListed(s, blank);
    RotateSound(s, blank);
    forall d
      ensures d in Live(r) <==> d in Live(s)
    {
      if d in Live(r) { var g := LiveHome(r, d); assert d in LiveDocs(s.segs[g], s.ids); }
      if d in Live(s) { var g := LiveHome(s, d); assert d in LiveDocs(r.segs[g], r.ids); }
    }
  }

  /** The active segment can take this document. */
  ghost predicate CanAppend<S>(s: State<S>, doc: Document) {
    |Docs(s, s.active)| < s.cap && doc !in s.ids
  }

  lemma AppendListed<S>(s: State<S>, doc: Document)
    requires Listed(s) && Sized(s) && CanAppend(s, doc)
    ensures Listed(Append(s, doc)) && Sized(Append(s, doc))
    ensures Docs(Append(s, doc), s.active) == Docs(s, s.active) + [doc]
    ensures forall g :: Sound(Append(s, doc), g) == Sound(s, g)
    ensures forall g | g != s.active :: View(Append(s, doc), g) == View(s, g)
  {
  }

  lemma AppendNumbered(v: SegV, ids: Ids, doc: Document)
    requires Numbered(v, ids) && doc !in ids && |v.docs| < UINT32 - 2
    ensures Numbered(AddV(v, doc), ids[doc := v.nextId])
    ensures LiveDocs(AddV(v, doc), ids[doc := v.nextId]) == LiveDocs(v, ids) + {doc}
  {
  }

  lemma AppendElsewhere(v: SegV, ids: Ids, doc: Document, id: nat)
    requires Numbered(v, ids) && doc !in ids
    ensures Numbered(v, ids[doc := id])
    ensures LiveDocs(v, ids[doc := id]) == LiveDocs(v, ids)
  {
  }

  lemma AppendIndexing<S>(s: State<S>, doc: Document)
    requires Listed(s) && Sized(s) && Indexing(s) && Merging(s) && CanAppend(s, doc)
    ensures Sound(s, s.active)
    ensures forall g | g in s.segs && Sound(s, g) :: Numbered(View(Append(s, doc), g), Append(s, doc).ids)
    ensures forall g | g in s.segs && Sound(s, g) ::
              LiveDocs(View(Append(s, doc), g), Append(s, doc).ids) ==
              LiveDocs(s.segs[g], s.ids) + if g == s.active then {doc} else {}
  {
    AppendListed(s, doc);
    var id := View(s, s.active).nextId;
    forall g | g in s.segs && Sound(s, g)
      ensures Numbered(View(Append(s, doc), g), Append(s, doc).ids)
      ensures LiveDocs(View(Append(s, doc), g), Append(s, doc).ids) ==
              LiveDocs(s.segs[g], s.ids) + if g == s.active then {doc} else {}
    {
      if g == s.active {
        AppendNumbered(s.segs[g], s.ids, doc);
      } else {
        AppendElsewhere(s.segs[g], s.ids, doc, id);
      }
    }
  }

  lemma AppendOwned<S>(s: State<S>, doc: Document)
    requires Core(s) && CanAppend(s, doc)
    ensures Stored(Append(s, doc)) == Stored(s) + {doc}
    ensures Indexing(Append(s, doc))
  {
    AppendListed(s, doc);
    AppendIndexing(s, doc);
    AppendStored(s, doc);
    assert forall g | g in s.segs && Sound(s, g) && doc in Docs(s, g) :: doc in Stored(s);
  }

  lemma AppendStored<S>(s: State<S>, doc: Document)
    requires Core(s) && CanAppend(s, doc)
    ensures Stored(Append(s, doc)) == Stored(s) + {doc}
  {
    var r := Append(s, doc);
    AppendListed(s, doc);
    AppendIndexing(s, doc);
    forall d
      ensures d in Stored(r) <==> d in Stored(s) + {doc}
    {
      if d in Stored(r) { var g := Home(r, d); assert d == doc || d in Docs(s, g); }
      if d in Stored(s) { var g := Home(s, d); assert d in Docs(r, g); }
      assert doc in Docs(r, s.active);
    }
  }

  lemma AppendMerging<S>(s: State<S>, doc: Document)
    requires Core(s) && CanAppend(s, doc)
    ensures Merging(Append(s, doc)) && Masked(Append(s, doc)) == Masked(s)
  {
    AppendListed(s, doc);
    AppendIndexing(s, doc);
  }

  lemma AppendLive<S>(s: State<S>, doc: Document)
    requires Core(s) && CanAppend(s, doc)
    ensures Live(Append(s, doc)) == Live(s) + {doc}
  {
    var r := Append(s, doc);
    AppendListed(s, doc);
    AppendIndexing(s, doc);
    forall d
      ensures d in Live(r) <==> d in Live(s) + {doc}
    {
      if d in Live(r) { var g := LiveHome(r, d); assert d == doc || d in LiveDocs(s.segs[g], s.ids); }
      if d in Live(s) { var g := LiveHome(s, d); assert d in LiveDocs(r.segs[g], r.ids); }
      assert doc in LiveDocs(r.segs[s.active], r.ids);
    }
  }

  lemma AppendCore<S>(s: State<S>, doc: Document)
    requires Core(s) && CanAppend(s, doc)
    ensures Core(Append(s, doc))
  {
    AppendListed(s, doc);
    AppendOwned(s, doc);
    AppendMerging(s, doc);
  }

  // ----- input handlers -----

  lemma HandleAddCore<S>(s: State<S>, doc: Document, blank: S)
    requires Core(s) && doc !in s.ids && Spare(s, blank)
    ensures var r := HandleAdd(s, doc, blank);
      && Core(r) && r.queue == s.queue && r.phase == s.phase && r.md == s.md && r.ids.Keys == s.ids.Keys + {doc}
  {
    MakeRoom(s, doc, blank);
    AppendCore(RemoveAll(Rotate(s, blank), doc.pk), doc);
  }

  /** What an add does before it appends. */
  lemma MakeRoom<S>(s: State<S>, doc: Document, blank: S)
    requires Core(s) && doc !in s.ids && Spare(s, blank)
    ensures var u := RemoveAll(Rotate(s, blank), doc.pk);
      && Core(u) && CanAppend(u, doc) && Masked(u) == Masked(s)
      && Live(u) == set d | d in Live(s) && (d.pk != doc.pk || OutOfReach(s, d))
  {
    var t := Rotate(s, blank);
    RotateCore(s, blank);
    RemoveAllCore(t, doc.pk);
    RemoveAllListed(t, doc.pk);
    RemoveAllVisible(t, doc.pk);
    RotateReach(s, blank);
  }

  lemma RotateReach<S>(s: State<S>, blank: S)
    requires Core(s) && Spare(s, blank)
    ensures forall d :: OutOfReach(Rotate(s, blank), d) == OutOfReach(s, d)
  {
    RotateListed(s, blank);
  }

  lemma HandleAddLive<S>(s: State<S>, doc: Document, blank: S)
    requires Core(s) && doc !in s.ids && Spare(s, blank)
    ensures Masked(HandleAdd(s, doc, blank)) == Masked(s)
    ensures Live(HandleAdd(s, doc, blank)) == (set d | d in Live(s) && (d.pk != doc.pk || OutOfReach(s, d))) + {doc}
  {
    var u := RemoveAll(Rotate(s, blank), doc.pk);
    MakeRoom(s, doc, blank);
    AppendMerging(u, doc);
    AppendLive(u, doc);
  }

  lemma MdCore<S>(s: State<S>, md: seq<nat>)
    requires Core(s)
    ensures Core(s.(md := md)) && Live(s.(md := md)) == Live(s)
  {
    var r := s.(md := md);
    assert forall g :: Sound(r, g) == Sound(s, g) && Docs(r, g) == Docs(s, g);
    assert Stored(r) == Stored(s);
  }

  lemma HandleRemoveCore<S>(s: State<S>, pk: nat)
    requires Core(s)
    ensures var r := HandleRemove(s, pk);
      && Core(r) && r.queue == s.queue && r.phase == s.phase && r.ids == s.ids
      && Visible(r) == set d | d in Visible(s) && d.pk != pk
  {
    var r := RemoveAll(s, pk);
    RemoveAllCore(s, pk);
    RemoveAllListed(s, pk);
    if !s.phase.Idle? {
      MdCore(r, s.md + [pk]);
    }
    HandleRemoveVisible(s, pk);
  }

  lemma HandleRemoveVisible<S>(s: State<S>, pk: nat)
    requires Core(s)
    ensures Visible(HandleRemove(s, pk)) == set d | d in Visible(s) && d.pk != pk
  {
    RemoveAllVisible(s, pk);
    RemoveAllListed(s, pk);
    if !s.phase.Idle? {
      MdLive(RemoveAll(s, pk), s.md + [pk]);
    }
  }

  lemma MdLive<S>(s: State<S>, md: seq<nat>)
    ensures Live(s.(md := md)) == Live(s)
  {
    assert forall g :: Sound(s.(md := md), g) == Sound(s, g);
  }

  lemma QueueCore<S>(s: State<S>, q: seq<Task>)
    requires Core(s)
    ensures var r := s.(queue := q); Core(r) && Live(r) == Live(s) && Masked(r) == Masked(s)
  {
    var r := s.(queue := q);
    assert forall g :: Sound(r, g) == Sound(s, g) && Docs(r, g) == Docs(s, g);
    assert Stored(r) == Stored(s);
  }

  lemma ReplaceMembers<S>(list: seq<S>, m1: S, m2: S, n: S)
    requires Distinct(list) && n !in list
    ensures var rest := Without(Without(list, m1), m2);
      && Distinct(rest) && Distinct([n] + rest)
      && (forall g | g in rest :: g in list && g != m1 && g != m2)
      && (forall g | g in list && g != m1 && g != m2 :: g in rest)
  {
    var rest := Without(Without(list, m1), m2);
    forall g | g in rest
      ensures g in list && g != m1 && g != m2
    {
      assert g in Elems(rest);
    }
    forall g | g in list && g != m1 && g != m2
      ensures g in rest
    {
      assert g in Elems(rest);
    }
    assert n !in rest;
  }

  lemma HandleReplaceSame<S>(s: State<S>)
    requires Listed(s) && Merging(s) && s.phase.Migrated?
    ensures var r := HandleReplace(s);
      && Distinct(r.list)
      && (forall g | g in s.list && g != s.phase.m1 && g != s.phase.m2 :: g in r.list)
      && (Docs(s, s.phase.newseg) != [] ==> s.phase.newseg in r.list)
      && (forall g | g in r.list :: (g in s.list && g != s.phase.m1 && g != s.phase.m2) || (g == s.phase.newseg && Docs(s, g) != []))
      && (forall g :: g in r.segs <==> g in s.segs)
      && (forall g :: Docs(r, g) == Docs(s, g) && View(r, g).deleted == View(s, g).deleted && View(r, g).nextId == View(s, g).nextId)
  {
    var n := s.phase.newseg;
    ReplaceMembers(s.list, s.phase.m1, s.phase.m2, n);
    var rest := Without(Without(s.list, s.phase.m1), s.phase.m2);
    assert HandleReplace(s).list == if Docs(s, n) == [] then rest else [n] + rest;
    forall g | g in HandleReplace(s).list
      ensures g in rest || (g == n && Docs(s, g) != [])
    {
      if Docs(s, n) != [] {
        assert g in [n] + rest;
      }
    }
  }

  lemma HandleReplaceListed<S>(s: State<S>)
    requires Listed(s) && Sized(s) && Merging(s) && s.phase.Migrated?
    ensures Listed(HandleReplace(s)) && Sized(HandleReplace(s)) && Merging(HandleReplace(s))
  {
    HandleReplaceSame(s);
  }

  lemma HandleReplaceIndexing<S>(s: State<S>)
    requires Core(s) && s.phase.Migrated?
    ensures Indexing(HandleReplace(s)) && Masked(HandleReplace(s)) == Masked(s)
  {
    HandleReplaceSame(s);
  }

  lemma HandleReplaceUnions<S>(s: State<S>)
    requires Core(s) && s.phase.Migrated?
    ensures Stored(HandleReplace(s)) == Stored(s)
    ensures Live(HandleReplace(s)) == Live(s)
  {
    var r := HandleReplace(s);
    HandleReplaceSame(s);
    forall d
      ensures d in Stored(r) <==> d in Stored(s)
    {
      if d in Stored(r) { var g := Home(r, d); assert d in Docs(s, g); }
      if d in Stored(s) { var g := Home(s, d); assert d in Docs(r, g); }
    }
    forall d
      ensures d in Live(r) <==> d in Live(s)
    {
      if d in Live(r) { var g := LiveHome(r, d); assert d in LiveDocs(s.segs[g], s.ids); }
      if d in Live(s) { var g := LiveHome(s, d); assert d in LiveDocs(r.segs[g], r.ids); }
    }
  }

  lemma HandleReplaceCore<S>(s: State<S>)
    requires Core(s) && s.phase.Migrated?
    ensures Core(HandleReplace(s)) && Visible(HandleReplace(s)) == Visible(s)
  {
    HandleReplaceListed(s);
    HandleReplaceIndexing(s);
    HandleReplaceUnions(s);
  }

  lemma {:induction false} RemoveEachIs(v: SegV, ids: Ids, pks: seq<nat>)
    requires Numbered(v, ids)
    ensures var r := RemoveEach(v, ids, pks);
      && Numbered(r, ids) && r.docs == v.docs && r.state == v.state
      && LiveDocs(r, ids) == set d | d in LiveDocs(v, ids) && d.pk !in pks
  {
    if pks != [] {
      var n := |pks| - 1;
      RemoveEachIs(v, ids, pks[..n]);
      RemoveOne(RemoveEach(v, ids, pks[..n]), ids, pks[n]);
      assert forall p :: p in pks <==> p in pks[..n] || p == pks[n];
    }
  }

  lemma HandleRedeleteCore<S>(s: State<S>)
    requires Core(s) && s.phase.Redeleting?
    ensures Core(HandleRedelete(s)) && Visible(HandleRedelete(s)) == Visible(s)
  {
    var r := HandleRedelete(s);
    var n := s.phase.newseg;
    RemoveEachIs(s.segs[n], s.ids, s.md);
    assert forall g :: Sound(r, g) == Sound(s, g) && Docs(r, g) == Docs(s, g);
    assert Stored(r) == Stored(s);
    RedeleteVisible(s);
  }

  lemma RedeleteVisible<S>(s: State<S>)
    requires Core(s) && s.phase.Redeleting?
    ensures Visible(HandleRedelete(s)) == Visible(s)
  {
    var r := HandleRedelete(s);
    var n := s.phase.newseg;
    RemoveEachIs(s.segs[n], s.ids, s.md);
    assert forall g :: Sound(r, g) == Sound(s, g) && Docs(r, g) == Docs(s, g);
    forall d
      ensures d in Live(r) <==> d in Visible(s)
    {
      if d in Live(r) { var g := LiveHome(r, d); assert d in LiveDocs(s.segs[g], s.ids); }
      if d in Visible(s) { var g := LiveHome(s, d); assert d in LiveDocs(r.segs[g], r.ids); }
    }
  }

  // ----- merge procedures -----

  lemma ReleaseListed<S>(s: State<S>)
    requires Core(s) && s.phase.Replaced?
    ensures var r := Release(s);
      && Listed(r) && Sized(r) && Merging(r)
      && (forall g :: Sound(r, g) == Sound(s, g))
      && (forall g | Sound(s, g) :: g in r.segs && r.segs[g] == s.segs[g])
  {
    assert forall g | g in s.list :: g != s.phase.m1 && g != s.phase.m2 && (g == s.phase.newseg ==> Docs(s, g) != []);
  }

  lemma ReleaseCore<S>(s: State<S>)
    requires Core(s)
    ensures Core(Release(s)) && Live(Release(s)) == Live(s) && Masked(Release(s)) == Masked(s)
  {
    if s.phase.Replaced? {
      var r := Release(s);
      ReleaseListed(s);
      assert Stored(r) == Stored(s);
      assert Live(r) == Live(s);
    }
  }

  // ----- choosing the segments to merge -----

  /** Every document of the segment is deleted. */
  ghost predicate Spent<S>(s: State<S>, g: S) {
    Docs(s, g) != [] && LiveDocs(View(s, g), s.ids) == {}
  }

  lemma {:induction false} FullRange(xs: set<nat>, n: nat)
    requires forall x :: 1 <= x <= n ==> x in xs
    ensures |xs| >= n
  {
    if n > 0 {
      FullRange(xs - {n}, n - 1);
      assert |xs| == |xs - {n}| + 1;
    }
  }

  /** The integer ratio is 1 on a segment without live documents and 0 on any other. */
  lemma RatioIsSpent<S>(s: State<S>, g: S)
    requires Numbered(View(s, g), s.ids) && Docs(s, g) != []
    ensures |View(s, g).deleted| <= |Docs(s, g)|
    ensures DeletedRatio(View(s, g)) == if Spent(s, g) then 1 else 0
  {
    var v := View(s, g);
    RangeSize(v.deleted, |v.docs|);
    if Spent(s, g) {
      forall x | 1 <= x <= |v.docs| 
        ensures x in v.deleted
      {
        assert v.docs[x - 1] in v.docs && v.docs[x - 1] !in LiveDocs(v, s.ids);
      }
      FullRange(v.deleted, |v.docs|);
    } else {
      var d :| d in LiveDocs(v, s.ids);
      assert s.ids[d] !in v.deleted && |v.deleted| < |v.docs|;
      Fraction(|v.deleted|, |v.docs|);
    }
  }

  lemma Fraction(a: nat, b: nat)
    requires a < b
    ensures a / b == 0
  {
  }

  /** Position j holds the first candidate, and it outranks every later one. */
  ghost predicate OnlyFirst<S>(r: map<S, nat>, list: seq<S>, j: int, g: S) {
    && 0 <= j < |list| && list[j] == g && g in r
    && (forall k :: 0 <= k < |list| && k != j && list[k] in r ==> j < k && r[list[k]] < r[g])
  }

  /** Position j is the best candidate, the last of its rank, and position i is the one
      it displaced: what the same rule gives for the candidates before j. */
  ghost predicate Best<S>(r: map<S, nat>, list: seq<S>, i: int, j: int, a: S, b: S) {
    && 0 <= i < j < |list| && list[i] == a && list[j] == b && a in r && b in r && r[a] <= r[b]
    && (forall k :: j < k < |list| && list[k] in r ==> r[list[k]] < r[b])
    && (forall k :: i < k < j && list[k] in r ==> r[list[k]] < r[a])
    && (forall k :: 0 <= k < i && list[k] in r ==> r[list[k]] <= r[a])
  }

  /** What the scan has found when it has seen a prefix of the list. */
  ghost predicate Scanned<S>(r: map<S, nat>, list: seq<S>, sc: Scan<S>) {
    match (sc.m1, sc.m2)
    case (None, None) => !sc.found && forall k :: 0 <= k < |list| ==> list[k] !in r
    case (Some(b), None) => !sc.found && exists j :: OnlyFirst(r, list, j, b)
    case (Some(b), Some(a)) => sc.found && exists i, j :: Best(r, list, i, j, a, b)
    case _ => false
  }

  lemma ScanFindsNext<S>(r: map<S, nat>, list: seq<S>, g: S, sc: Scan<S>)
    requires Scanned(r, list, sc)
    ensures Scanned(r, list + [g], ScanStep(r, sc, g))
  {
    var n := |list|;
    match (sc.m1, sc.m2)
    case (None, None) =>
      if g in r { assert OnlyFirst(r, list + [g], n, g); }
    case (Some(b), None) =>
      var j :| OnlyFirst(r, list, j, b);
      if g in r && r[g] >= r[b] {
        assert Best(r, list + [g], j, n, b, g);
      } else {
        assert OnlyFirst(r, list + [g], j, b);
      }
    case (Some(b), Some(a)) =>
      var i, j :| Best(r, list, i, j, a, b);
      if g in r && r[g] >= r[b] {
        assert Best(r, list + [g], j, n, b, g);
      } else {
        assert Best(r, list + [g], i, j, a, b);
      }
  }

  lemma {:induction false} ScanFinds<S>(r: map<S, nat>, list: seq<S>)
    ensures Scanned(r, list, ScanAll(r, list))
  {
    if list != [] {
      var n := |list| - 1;
      assert list == list[..n] + [list[n]];
      ScanFinds(r, list[..n]);
      ScanFindsNext(r, list[..n], list[n], ScanAll(r, list[..n]));
    }
  }

  /** In every state the merger can check, ratios are 0 or 1, no listed segment that is
      asked for its ratio is empty, and 1 means that nothing in the segment is live. */
  lemma RatiosAreSpent<S>(s: State<S>)
    requires Core(s) && s.phase.Idle?
    ensures forall g | g in s.list :: (g in Ratios(s) <==> g != s.active)
    ensures forall g | g in s.list && g != s.active :: Docs(s, g) != [] && Ratios(s)[g] == if Spent(s, g) then 1 else 0
  {
    forall g | g in s.list && g != s.active
      ensures Docs(s, g) != [] && g in Ratios(s) && Ratios(s)[g] == if Spent(s, g) then 1 else 0
    {
      RatioIsSpent(s, g);
    }
  }

  /** A spent segment that a merge can take: one with a sealed segment before it. */
  ghost predicate Mergeable<S>(s: State<S>, i: int, j: int) {
    0 <= i < j < |s.list| && s.list[i] != s.active && s.list[j] != s.active && Spent(s, s.list[j])
  }

  /** Which segment a successful selection takes at j, and which one it had before at i:
      j is the last spent segment, i the last spent one before j or, without any, the
      sealed one nearest before j. */
  ghost predicate Choice<S>(s: State<S>, i: int, j: int) {
    && Mergeable(s, i, j)
    && (forall k :: j < k < |s.list| && s.list[k] != s.active ==> !Spent(s, s.list[k]))
    && (forall k :: i < k < j && s.list[k] != s.active ==> Spent(s, s.list[i]) && !Spent(s, s.list[k]))
    && (forall k :: 0 <= k < i && s.list[k] != s.active && Spent(s, s.list[k]) ==> Spent(s, s.list[i]))
  }

  lemma ThreeInList<S>(list: seq<S>, g: S, i: int, j: int)
    requires 0 <= i < j < |list| && g in list && g != list[i] && g != list[j]
    ensures |list| >= 3
  {
  }

  lemma SelectedIsChosen<S>(s: State<S>)
    requires Core(s) && s.phase.Idle? && Select(s).Some?
    ensures exists i, j :: Choice(s, i, j) && Select(s).value == (s.list[j], s.list[i])
  {
    var r := Ratios(s);
    var sc := ScanAll(r, s.list);
    RatiosAreSpent(s);
    ScanFinds(r, s.list);
    var i, j :| Best(r, s.list, i, j, sc.m2.value, sc.m1.value);
    assert r[s.list[j]] == 1;
    assert Choice(s, i, j);
  }

  lemma TopIsFound<S>(r: map<S, nat>, list: seq<S>, i: int, j: int)
    requires 0 <= i < j < |list| && list[i] in r && list[j] in r
    requires r[list[j]] >= 1 && forall k :: 0 <= k < |list| && list[k] in r ==> r[list[k]] <= 1
    ensures var sc := ScanAll(r, list);
      sc.found && sc.m1.Some? && sc.m2.Some? && sc.m1.value in list && sc.m1.value in r && r[sc.m1.value] >= 1
  {
    var sc := ScanAll(r, list);
    ScanFinds(r, list);
    assert forall k, g :: !OnlyFirst(r, list, k, g);
    if sc.m2.Some? {
      var a, b :| Best(r, list, a, b, sc.m2.value, sc.m1.value);
      assert r[list[b]] >= r[list[j]];
    }
  }

  lemma MergeableIsSelected<S>(s: State<S>, i: int, j: int)
    requires Core(s) && s.phase.Idle? && Mergeable(s, i, j)
    ensures Select(s).Some?
  {
    RatiosAreSpent(s);
    ThreeInList(s.list, s.active, i, j);
    TopIsFound(Ratios(s), s.list, i, j);
  }

  /** Selection succeeds exactly when a sealed segment other than the first sealed one
      is spent. */
  lemma SelectionIsExact<S>(s: State<S>)
    requires Core(s) && s.phase.Idle?
    ensures Select(s).Some? <==> exists i, j :: Mergeable(s, i, j)
    ensures Select(s).Some? ==> exists i, j :: Choice(s, i, j) && Select(s).value == (s.list[j], s.list[i])
  {
    if Select(s).Some? {
      SelectedIsChosen(s);
    }
    if exists i, j :: Mergeable(s, i, j) {
      var i, j :| Mergeable(s, i, j);
      MergeableIsSelected(s, i, j);
    }
  }

  lemma CheckCore<S>(s: State<S>)
    requires Core(s)
    ensures Core(Check(s)) && Live(Check(s)) == Live(s) && Masked(Check(s)) == Masked(s)
  {
    if s.phase.Idle? && Select(s).Some? {
      SelectedIsChosen(s);
      var i, j :| Choice(s, i, j) && Select(s).value == (s.list[j], s.list[i]);
      ChosenCore(s, s.list[j], s.list[i]);
    }
  }

  lemma ChosenCore<S>(s: State<S>, m1: S, m2: S)
    requires Core(s) && s.phase.Idle? && m1 in s.list && m2 in s.list && m1 != m2 && m1 != s.active && m2 != s.active
    requires LiveDocs(View(s, m1), s.ids) == {}
    ensures var r := s.(phase := Chosen(m1, m2)); Core(r) && Live(r) == Live(s) && Masked(r) == Masked(s)
  {
    var r := s.(phase := Chosen(m1, m2));
    assert forall g :: Sound(r, g) == Sound(s, g) && Docs(r, g) == Docs(s, g);
    assert Stored(r) == Stored(s);
  }

  // ----- migration -----

  /** A walk over the pk table splits the documents into survivors and casualties. */
  lemma MigrationSplits(v: SegV, ids: Ids)
    requires Numbered(v, ids)
    ensures Elems(Survivors(v, ids)) == LiveDocs(v, ids)
    ensures Elems(Casualties(v, ids)) == Elems(v.docs) - LiveDocs(v, ids)
    ensures Distinct(Survivors(v, ids)) && Distinct(Casualties(v, ids))
    ensures |Survivors(v, ids)| <= |v.docs|
  {
    NumberedDistinct(v, ids);
    WalkIsPermutation(v.docs);
    assert forall d | d in v.docs :: d in Elems(Walk(v.docs));
    FilterDistinct(Walk(v.docs), LiveDocs(v, ids));
    FilterDistinct(Walk(v.docs), Elems(v.docs) - LiveDocs(v, ids));
  }

  lemma {:induction false} RenumberIs(ids: Ids, docs: seq<Document>)
    requires Distinct(docs)
    ensures var r := Renumber(ids, docs);
      && r.Keys == ids.Keys + Elems(docs)
      && (forall i :: 0 <= i < |docs| ==> docs[i] in r && r[docs[i]] == i + 1)
      && (forall d | d in ids && d !in docs :: r[d] == ids[d])
  {
    if docs != [] {
      ElemsSnoc(docs);
      RenumberIs(ids, docs[..|docs| - 1]);
      assert forall d | d in docs[..|docs| - 1] :: d in docs;
    }
  }

  /** The two old segments hold these documents. */
  ghost function Olds<S>(s: State<S>): set<Document>
    requires s.phase.Chosen?
  {
    Elems(Docs(s, s.phase.m1)) + Elems(Docs(s, s.phase.m2))
  }

  lemma OldsApart<S>(s: State<S>)
    requires Core(s) && s.phase.Chosen?
    ensures Numbered(View(s, s.phase.m1), s.ids) && Numbered(View(s, s.phase.m2), s.ids)
    ensures |Docs(s, s.phase.m2)| <= s.cap
    ensures forall d | d in Docs(s, s.phase.m1) :: d !in Docs(s, s.phase.m2)
  {
  }

  /** Every document of the two old segments goes to exactly one of the new segment and
      the list of the dead, judged by the ids and deletions from before the merge. */
  ghost predicate Splits<S>(s: State<S>, moved: seq<Document>, dead: seq<Document>)
    requires s.phase.Chosen?
  {
    && Distinct(moved) && Distinct(dead)
    && Elems(moved) == LiveDocs(View(s, s.phase.m1), s.ids) + LiveDocs(View(s, s.phase.m2), s.ids)
    && Elems(dead) == Olds(s) - Elems(moved)
    && |moved| <= s.cap
  }

  /** The moved documents are numbered from 1 and no other id changes. */
  ghost predicate Renumbers<S>(s: State<S>, moved: seq<Document>, ids: Ids) {
    && ids.Keys == s.ids.Keys
    && (forall i :: 0 <= i < |moved| ==> moved[i] in ids && ids[moved[i]] == i + 1)
    && (forall d | d in s.ids && d !in moved :: ids[d] == s.ids[d])
  }

  lemma SplitTwo(v1: SegV, v2: SegV, ids: Ids)
    requires Numbered(v1, ids) && Numbered(v2, ids)
    requires forall d | d in v1.docs :: d !in v2.docs
    ensures var moved, dead := Survivors(v1, ids) + Survivors(v2, ids), Casualties(v1, ids) + Casualties(v2, ids);
      && Distinct(moved) && Distinct(dead)
      && Elems(moved) == LiveDocs(v1, ids) + LiveDocs(v2, ids)
      && Elems(dead) == Elems(v1.docs) + Elems(v2.docs) - Elems(moved)
    ensures LiveDocs(v1, ids) == {} ==> |Survivors(v1, ids) + Survivors(v2, ids)| <= |v2.docs|
  {
    MigrationSplits(v1, ids);
    MigrationSplits(v2, ids);
    HeadInElems(Survivors(v1, ids));
    assert forall d | d in Elems(v1.docs) :: d !in Elems(v2.docs);
    SplitSets(Elems(v1.docs), Elems(v2.docs), LiveDocs(v1, ids), LiveDocs(v2, ids));
    ElemsConcat(Survivors(v1, ids), Survivors(v2, ids));
    ElemsConcat(Casualties(v1, ids), Casualties(v2, ids));
  }

  lemma SplitSets(a: set<Document>, b: set<Document>, c: set<Document>, d: set<Document>)
    requires a !! b && c <= a && d <= b
    ensures c !! d && (a - c) !! (b - d) && (a - c) + (b - d) == a + b - (c + d)
  {
  }

  lemma OldsStored<S>(s: State<S>)
    requires Core(s) && s.phase.Chosen?
    ensures Olds(s) <= Stored(s) && Olds(s) <= s.ids.Keys
  {
    assert Sound(s, s.phase.m1) && Sound(s, s.phase.m2);
  }

  /** A migration is a partition, and the new segment fits because the first of the old
      ones is spent. */
  lemma MigrationPartitions<S>(s: State<S>)
    requires Core(s) && s.phase.Chosen?
    ensures Splits(s, Moved(s), Dead(s))
  {
    OldsApart(s);
    SplitTwo(View(s, s.phase.m1), View(s, s.phase.m2), s.ids);
  }

  lemma MigrationRenumbers<S>(s: State<S>, moved: seq<Document>, dead: seq<Document>)
    requires Core(s) && s.phase.Chosen? && Splits(s, moved, dead)
    ensures Renumbers(s, moved, Renumber(s.ids, moved))
  {
    OldsStored(s);
    MovedAreOld(s, moved, dead);
    RenumberIs(s.ids, moved);
    assert Elems(moved) <= s.ids.Keys;
  }

  lemma MigrateListed<S>(s: State<S>, blank: S, moved: seq<Document>, dead: seq<Document>, ids: Ids)
    requires Core(s) && s.phase.Chosen? && blank !in s.segs && |moved| <= s.cap
    ensures var r := MigrateTo(s, blank, moved, dead, ids);
      && Listed(r) && Sized(r) && Merging(r)
      && (forall g | g in s.segs :: View(r, g) == View(s, g))
      && (forall g :: Sound(r, g) <==> g == blank || (Sound(s, g) && g != s.phase.m1 && g != s.phase.m2))
  {
    OldsStored(s);
    assert forall d | d in Docs(s, s.phase.m1) + Docs(s, s.phase.m2) :: d in Olds(s);
  }

  lemma SameIds(v: SegV, ids: Ids, ids': Ids)
    requires Numbered(v, ids)
    requires forall d | d in v.docs :: d in ids' && ids'[d] == IdOf(ids, d)
    ensures Numbered(v, ids') && LiveDocs(v, ids') == LiveDocs(v, ids)
  {
  }

  lemma NotOld<S>(s: State<S>, g: S)
    requires Core(s) && s.phase.Chosen? && g in s.list && g != s.phase.m1 && g != s.phase.m2
    ensures forall d | d in Docs(s, g) :: d !in Olds(s) && d in s.ids
  {
  }

  lemma MigrateSound<S>(s: State<S>, g: S, moved: seq<Document>, dead: seq<Document>, ids: Ids)
    requires Core(s) && s.phase.Chosen? && g in s.list && g != s.phase.m1 && g != s.phase.m2
    requires Splits(s, moved, dead) && Renumbers(s, moved, ids)
    ensures Numbered(View(s, g), ids) && LiveDocs(View(s, g), ids) == LiveDocs(View(s, g), s.ids)
  {
    NotOld(s, g);
    MovedAreOld(s, moved, dead);
    SameIds(View(s, g), s.ids, ids);
  }

  lemma MovedAreOld<S>(s: State<S>, moved: seq<Document>, dead: seq<Document>)
    requires s.phase.Chosen? && Splits(s, moved, dead)
    ensures forall d | d in moved :: d in Olds(s)
  {
    forall d | d in moved
      ensures d in Olds(s)
    {
      assert d in Elems(moved);
    }
  }

  lemma MigrateIndexing<S>(s: State<S>, blank: S, moved: seq<Document>, dead: seq<Document>, ids: Ids)
    requires Core(s) && s.phase.Chosen? && blank !in s.segs
    requires Splits(s, moved, dead) && Renumbers(s, moved, ids)
    ensures Indexing(MigrateTo(s, blank, moved, dead, ids))
    ensures LiveDocs(View(MigrateTo(s, blank, moved, dead, ids), blank), ids) == Elems(moved)
  {
    var r := MigrateTo(s, blank, moved, dead, ids);
    MigrateListed(s, blank, moved, dead, ids);
    MovedAreOld(s, moved, dead);
    forall g | g in s.list && g != s.phase.m1 && g != s.phase.m2
      ensures Numbered(View(s, g), ids) && forall d | d in Docs(s, g) :: d !in moved
    {
      MigrateSound(s, g, moved, dead, ids);
      NotOld(s, g);
    }
  }

  lemma MigrateStored<S>(s: State<S>, blank: S, moved: seq<Document>, dead: seq<Document>, ids: Ids)
    requires Core(s) && s.phase.Chosen? && blank !in s.segs
    requires Splits(s, moved, dead) && Renumbers(s, moved, ids)
    ensures Stored(MigrateTo(s, blank, moved, dead, ids)) == Stored(s) - Elems(dead)
  {
    var r := MigrateTo(s, blank, moved, dead, ids);
    MigrateListed(s, blank, moved, dead, ids);
    MovedAreOld(s, moved, dead);
    OldsStored(s);
    forall d
      ensures d in Stored(r) <==> d in Stored(s) && d !in Elems(dead)
    {
      if d in Stored(r) {
        var g := Home(r, d);
        if g != blank { NotOld(s, g); }
      }
      if d in Stored(s) && d !in Elems(dead) {
        var g := Home(s, d);
        if d in Elems(moved) { assert d in Docs(r, blank); } else { assert d !in Olds(s); assert d in Docs(r, g); }
      }
    }
  }

  lemma MigrateLive<S>(s: State<S>, blank: S, moved: seq<Document>, dead: seq<Document>, ids: Ids)
    requires Core(s) && s.phase.Chosen? && blank !in s.segs
    requires Splits(s, moved, dead) && Renumbers(s, moved, ids)
    ensures Live(MigrateTo(s, blank, moved, dead, ids)) == Live(s)
  {
    var r := MigrateTo(s, blank, moved, dead, ids);
    MigrateListed(s, blank, moved, dead, ids);
    MigrateIndexing(s, blank, moved, dead, ids);
    forall d
      ensures d in Live(r) <==> d in Live(s)
    {
      if d in Live(r) {
        var g := LiveHome(r, d);
        if g != blank {
          MigrateSound(s, g, moved, dead, ids);
          assert d in LiveDocs(s.segs[g], s.ids);
        } else {
          assert d in LiveDocs(s.segs[s.phase.m1], s.ids) + LiveDocs(s.segs[s.phase.m2], s.ids);
        }
      }
      if d in Live(s) {
        var g := LiveHome(s, d);
        if g == s.phase.m1 || g == s.phase.m2 {
          assert d in LiveDocs(r.segs[blank], r.ids);
        } else {
          MigrateSound(s, g, moved, dead, ids);
          assert d in LiveDocs(r.segs[g], r.ids);
        }
      }
    }
  }

  lemma MigrateToCore<S>(s: State<S>, blank: S, moved: seq<Document>, dead: seq<Document>, ids: Ids)
    requires Core(s) && s.phase.Chosen? && blank !in s.segs
    requires Splits(s, moved, dead) && Renumbers(s, moved, ids)
    ensures Core(MigrateTo(s, blank, moved, dead, ids))
  {
    MigrateListed(s, blank, moved, dead, ids);
    MigrateIndexing(s, blank, moved, dead, ids);
    MigrateStored(s, blank, moved, dead, ids);
    OldsStored(s);
  }

  lemma MigrateCore<S>(s: State<S>, blank: S)
    requires Core(s) && s.phase.Chosen? && blank !in s.segs
    ensures Core(Migrate(s, blank)) && Live(Migrate(s, blank)) == Live(s)
    ensures Masked(Migrate(s, blank)) == set d | d in Moved(s) && d.pk in s.md
  {
    MigrationPartitions(s);
    MigrateCoreTo(s, blank, Moved(s), Dead(s));
  }

  lemma MigrateCoreTo<S>(s: State<S>, blank: S, moved: seq<Document>, dead: seq<Document>)
    requires Core(s) && s.phase.Chosen? && blank !in s.segs && Splits(s, moved, dead)
    ensures var r := MigrateTo(s, blank, moved, dead, Renumber(s.ids, moved));
      && Core(r) && Live(r) == Live(s)
      && Masked(r) == set d | d in moved && d.pk in s.md
  {
    MigrationRenumbers(s, moved, dead);
    MigrateToCore(s, blank, moved, dead, Renumber(s.ids, moved));
    MigrateLive(s, blank, moved, dead, Renumber(s.ids, moved));
  }
}
