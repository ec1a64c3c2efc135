/** Runs of the protocol put together step by step, on segments of any size. */
module Traces {
  import opened Basics
  import opened Documents
  import opened SegmentValues
  import opened Protocol
  import opened ProtocolSafety
  import opened ProtocolRuns
  import Bits

  // ----- runs -----

  /** The run leads from a new engine to this state, and what it adds and removes to this
      map.  Closed. */
  ghost predicate Reaches(cap: nat, ls: seq<Label<nat>>, s: State<nat>, m: map<nat, Document>) {
    forall n :: Unlocked(RunLock, n) ==> IsRun(cap, ls, s, m)
  }

  ghost predicate IsRun(cap: nat, ls: seq<Label<nat>>, s: State<nat>, m: map<nat, Document>) {
    && RunEnabled(Initial(cap, 0), ls)
    && Run(Initial(cap, 0), ls) == s && SpecRun(Initial(cap, 0), ls, map[]) == m
  }

  lemma RunOf(cap: nat, ls: seq<Label<nat>>, s: State<nat>, m: map<nat, Document>)
    requires Reaches(cap, ls, s, m)
    ensures IsRun(cap, ls, s, m)
  {
    assert Unlocked(RunLock, 0);
  }

  lemma NoSteps(cap: nat)
    ensures Reaches(cap, [], Initial(cap, 0), map[])
  {
  }

  lemma {:induction false} RunSnoc(s: State<nat>, ls: seq<Label<nat>>, l: Label<nat>)
    requires RunEnabled(s, ls) && Enabled(Run(s, ls), l)
    ensures RunEnabled(s, ls + [l]) && Run(s, ls + [l]) == Step(Run(s, ls), l)
    decreases |ls|
  {
    if ls == [] {
      assert ls + [l] == [l] && [l][1..] == [];
      assert Run(Step(s, l), []) == Step(s, l);
    } else {
      RunSnoc(Step(s, ls[0]), ls[1..], l);
      assert (ls + [l])[0] == ls[0] && (ls + [l])[1..] == ls[1..] + [l];
    }
  }

  lemma {:induction false} SpecSnoc(s: State<nat>, ls: seq<Label<nat>>, l: Label<nat>, m: map<nat, Document>)
    ensures SpecRun(s, ls + [l], m) == SpecStep(Run(s, ls), l, SpecRun(s, ls, m))
    decreases |ls|
  {
    if ls == [] {
      assert ls + [l] == [l] && [l][1..] == [];
      assert SpecRun(Step(s, l), [], SpecStep(s, l, m)) == SpecStep(s, l, m);
    } else {
      SpecSnoc(Step(s, ls[0]), ls[1..], l, SpecStep(s, ls[0], m));
      assert (ls + [l])[0] == ls[0] && (ls + [l])[1..] == ls[1..] + [l];
    }
  }

  lemma ReachStep(cap: nat, ls: seq<Label<nat>>, s: State<nat>, m: map<nat, Document>, l: Label<nat>)
    requires Reaches(cap, ls, s, m) && Enabled(s, l)
    ensures Reaches(cap, ls + [l], Step(s, l), SpecStep(s, l, m))
  {
    RunOf(cap, ls, s, m);
    RunSnoc(Initial(cap, 0), ls, l);
    SpecSnoc(Initial(cap, 0), ls, l, map[]);
  }

  /** A document is submitted and added at once. */
  lemma ReachAdd(cap: nat, ls: seq<Label<nat>>, s: State<nat>, m: map<nat, Document>, doc: Document, blank: nat)
    returns (ls': seq<Label<nat>>)
    requires Reaches(cap, ls, s, m) && s.queue == [] && doc.Checked() && doc !in s.ids && Spare(s, blank)
    ensures Reaches(cap, ls', HandleAdd(s, doc, blank), m[doc.pk := doc])
  {
    var t := s.(queue := [AddTask(doc)]);
    assert [] + [AddTask(doc)] == [AddTask(doc)] && t.queue[1..] == [];
    assert Step(s, SubmitAdd(doc)) == t && t.(queue := t.queue[1..]) == s;
    ReachStep(cap, ls, s, m, SubmitAdd(doc));
    ReachStep(cap, ls + [SubmitAdd(doc)], t, m, RunInput(blank));
    ls' := ls + [SubmitAdd(doc)] + [RunInput(blank)];
  }

  /** A removal is submitted and carried out at once. */
  lemma ReachRemoval(cap: nat, ls: seq<Label<nat>>, s: State<nat>, m: map<nat, Document>, pk: nat)
    returns (ls': seq<Label<nat>>)
    requires Reaches(cap, ls, s, m) && s.queue == [] && pk != 0
    ensures Reaches(cap, ls', HandleRemove(s, pk), m - {pk})
  {
    var t := s.(queue := [RemoveTask(pk)]);
    assert [] + [RemoveTask(pk)] == [RemoveTask(pk)] && t.queue[1..] == [];
    assert Step(s, SubmitRemove(pk)) == t && t.(queue := t.queue[1..]) == s;
    ReachStep(cap, ls, s, m, SubmitRemove(pk));
    ReachStep(cap, ls + [SubmitRemove(pk)], t, m, RunInput(0));
    ls' := ls + [SubmitRemove(pk)] + [RunInput(0)];
  }

  // ----- segments filled with documents of one pk -----

  ghost function UpTo(n: int): (r: set<nat>)
    ensures forall x :: x in r <==> 1 <= x <= n
  {
    if n <= 0 then {} else UpTo(n - 1) + {n}
  }

  lemma UpToSize(n: nat)
    ensures |UpTo(n)| == n
  {
    RangeSize(UpTo(n), n);
    FullRange(UpTo(n), n);
  }

  /** Several documents with the same pk. */
  ghost predicate Batch(docs: seq<Document>, pk: nat) {
    docs != [] && Distinct(docs) && pk != 0 && forall d | d in docs :: d.Checked() && d.pk == pk
  }

  /** The documents have the ids 1, 2, ... in their order. */
  ghost predicate InOrder(docs: seq<Document>, ids: Ids) {
    forall i :: 0 <= i < |docs| ==> docs[i] in ids && ids[docs[i]] == i + 1
  }

  /** A segment with these documents, of which only the last one is live. */
  ghost function Part(docs: seq<Document>, state: nat): SegV {
    SegV(docs, UpTo(|docs| - 1), state, |docs| + 1)
  }

  /** The same with the last one deleted, too. */
  ghost function Gone(docs: seq<Document>, state: nat): SegV {
    SegV(docs, UpTo(|docs|), state, |docs| + 1)
  }

  lemma PartRatio(docs: seq<Document>, state: nat)
    requires docs != []
    ensures DeletedRatio(Part(docs, state)) == 0 && DeletedRatio(Gone(docs, state)) == 1
  {
    UpToSize(|docs| - 1);
    UpToSize(|docs|);
    DivOne(|docs|);
  }

  lemma DivOne(n: nat)
    requires n > 0
    ensures (n - 1) / n == 0 && n / n == 1
  {
    Bits.DivIs(n - 1, n, 0, n - 1);
    Bits.DivIs(n, n, 1, 0);
  }

  lemma PartLives(docs: seq<Document>, state: nat, ids: Ids)
    requires docs != [] && InOrder(docs, ids)
    ensures Numbered(Part(docs, state), ids) && Numbered(Gone(docs, state), ids)
    ensures LiveDocs(Part(docs, state), ids) == {docs[|docs| - 1]} && LiveDocs(Gone(docs, state), ids) == {}
  {
    forall d | d in docs
      ensures 1 <= IdOf(ids, d) <= |docs| && (IdOf(ids, d) == |docs| <==> d == docs[|docs| - 1])
    {
      var i :| 0 <= i < |docs| && docs[i] == d;
    }
  }

  /** Removing their pk deletes the last one, too. */
  lemma RemovePart(docs: seq<Document>, state: nat, ids: Ids, pk: nat)
    requires Batch(docs, pk) && InOrder(docs, ids)
    ensures RemoveV(Part(docs, state), ids, pk) == Gone(docs, state)
  {
    var v := Part(docs, state);
    var gone := set d | d in v.docs && d.pk == pk :: IdOf(ids, d);
    forall x | x in UpTo(|docs|)
      ensures x in gone
    {
      assert docs[x - 1] in docs && IdOf(ids, docs[x - 1]) == x;
    }
    forall x | x in gone
      ensures x in UpTo(|docs|)
    {
      var d :| d in docs && IdOf(ids, d) == x;
      var i :| 0 <= i < |docs| && docs[i] == d;
    }
    assert v.deleted + gone == UpTo(|docs|);
  }

  /** A removal leaves a segment alone that has no document with the pk. */
  lemma RemoveElsewhere(v: SegV, ids: Ids, pk: nat)
    requires forall d | d in v.docs :: d.pk != pk
    ensures RemoveV(v, ids, pk) == v
  {
    assert (set d | d in v.docs && d.pk == pk :: IdOf(ids, d)) == {};
  }

  /** No segment but g has a document with this pk. */
  ghost predicate OnlyIn(s: State<nat>, pk: nat, g: nat) {
    forall h | h in s.segs && h != g :: forall d | d in s.segs[h].docs :: d.pk != pk
  }

  /** No segment has a document with this pk. */
  ghost predicate Unknown(s: State<nat>, pk: nat) {
    forall h | h in s.segs :: forall d | d in s.segs[h].docs :: d.pk != pk
  }

  lemma RemovesOne(s: State<nat>, pk: nat, g: nat)
    requires g in s.segs && g in s.list && OnlyIn(s, pk, g)
    ensures RemoveAll(s, pk) == s.(segs := s.segs[g := RemoveV(s.segs[g], s.ids, pk)])
  {
    forall h | h in s.segs
      ensures RemoveAll(s, pk).segs[h] == if h == g then RemoveV(s.segs[g], s.ids, pk) else s.segs[h]
    {
      if h != g {
        RemoveElsewhere(s.segs[h], s.ids, pk);
      }
    }
    assert RemoveAll(s, pk).segs == s.segs[g := RemoveV(s.segs[g], s.ids, pk)];
  }

  lemma RemovesNothing(s: State<nat>, pk: nat)
    requires Unknown(s, pk)
    ensures RemoveAll(s, pk) == s
  {
    forall h | h in s.segs
      ensures RemoveAll(s, pk).segs[h] == s.segs[h]
    {
      RemoveElsewhere(s.segs[h], s.ids, pk);
    }
    assert RemoveAll(s, pk).segs == s.segs;
  }

  // ----- filling a segment -----

  /** The active segment holds the first n of the documents, by ids given to them after
      ids0, and no other segment has their pk. */
  ghost predicate Filled(s: State<nat>, docs: seq<Document>, pk: nat, n: nat, ids0: Ids) {
    && Batch(docs, pk) && 1 <= n <= |docs| <= s.cap < UINT32 - 1
    && s.queue == [] && s.active in s.segs && s.active in s.list
    && s.segs[s.active] == Part(docs[..n], STATE_ACTIVE)
    && s.ids == Renumber(ids0, docs[..n]) && (forall d | d in docs :: d !in ids0)
    && OnlyIn(s, pk, s.active)
  }

  ghost function AddedUpTo(s: State<nat>, docs: seq<Document>, n: nat, ids0: Ids): State<nat>
    requires n <= |docs|
  {
    s.(segs := s.segs[s.active := Part(docs[..n], STATE_ACTIVE)], ids := Renumber(ids0, docs[..n]))
  }

  lemma FilledIds(s: State<nat>, docs: seq<Document>, pk: nat, n: nat, ids0: Ids)
    requires Filled(s, docs, pk, n, ids0)
    ensures InOrder(docs[..n], s.ids) && Batch(docs[..n], pk)
    ensures n < |docs| ==> docs[n] !in s.ids && docs[n] in docs
  {
    RenumberIs(ids0, docs[..n]);
    if n < |docs| {
      assert docs[n] in docs && docs[n] !in docs[..n];
      assert docs[n] !in Elems(docs[..n]);
    }
  }

  lemma AddsOneMore(s: State<nat>, docs: seq<Document>, pk: nat, n: nat, ids0: Ids)
    requires Filled(s, docs, pk, n, ids0) && n < |docs|
    ensures HandleAdd(s, docs[n], s.active) == AddedUpTo(s, docs, n + 1, ids0)
  {
    FilledIds(s, docs, pk, n, ids0);
    RemovesOne(s, pk, s.active);
    RemovePart(docs[..n], STATE_ACTIVE, s.ids, pk);
    var t := s.(segs := s.segs[s.active := Gone(docs[..n], STATE_ACTIVE)]);
    assert Rotate(s, s.active) == s && RemoveAll(s, pk) == t;
    assert docs[..n + 1] == docs[..n] + [docs[n]];
    AppendsTo(t, docs[..n], docs[n], ids0);
    assert t.segs[s.active := Part(docs[..n + 1], STATE_ACTIVE)] == s.segs[s.active := Part(docs[..n + 1], STATE_ACTIVE)];
  }

  lemma AppendsTo(t: State<nat>, before: seq<Document>, d: Document, ids0: Ids)
    requires t.active in t.segs && t.segs[t.active] == Gone(before, STATE_ACTIVE) && t.ids == Renumber(ids0, before)
    requires |before| < UINT32 - 2
    ensures Append(t, d) == t.(segs := t.segs[t.active := Part(before + [d], STATE_ACTIVE)], ids := Renumber(ids0, before + [d]))
  {
    assert (before + [d])[..|before|] == before;
    assert AddV(Gone(before, STATE_ACTIVE), d) == Part(before + [d], STATE_ACTIVE);
  }

  /** The rest of the documents, one by one. */
  lemma {:induction false} ReachMore(cap: nat, ls: seq<Label<nat>>, s: State<nat>, m: map<nat, Document>,
                                     docs: seq<Document>, pk: nat, n: nat, ids0: Ids)
    returns (ls': seq<Label<nat>>)
    requires Reaches(cap, ls, s, m) && Filled(s, docs, pk, n, ids0) && pk in m && m[pk] == docs[n - 1]
    ensures Reaches(cap, ls', AddedUpTo(s, docs, |docs|, ids0), m[pk := docs[|docs| - 1]])
    decreases |docs| - n
  {
    if n == |docs| {
      AllAdded(s, m, docs, pk, ids0);
      ls' := ls;
    } else {
      ls' := ReachOneMore(cap, ls, s, m, docs, pk, n, ids0);
      FilledMore(s, docs, pk, n, ids0);
      ls' := ReachMore(cap, ls', AddedUpTo(s, docs, n + 1, ids0), m[pk := docs[n]], docs, pk, n + 1, ids0);
      AddedTwice(s, docs, n + 1, ids0);
      assert m[pk := docs[n]][pk := docs[|docs| - 1]] == m[pk := docs[|docs| - 1]];
    }
  }

  lemma AllAdded(s: State<nat>, m: map<nat, Document>, docs: seq<Document>, pk: nat, ids0: Ids)
    requires Filled(s, docs, pk, |docs|, ids0) && pk in m && m[pk] == docs[|docs| - 1]
    ensures AddedUpTo(s, docs, |docs|, ids0) == s && m[pk := docs[|docs| - 1]] == m
  {
    assert docs[..|docs|] == docs && s.segs[s.active := s.segs[s.active]] == s.segs;
  }

  lemma ReachOneMore(cap: nat, ls: seq<Label<nat>>, s: State<nat>, m: map<nat, Document>,
                     docs: seq<Document>, pk: nat, n: nat, ids0: Ids)
    returns (ls': seq<Label<nat>>)
    requires Reaches(cap, ls, s, m) && Filled(s, docs, pk, n, ids0) && n < |docs|
    ensures Reaches(cap, ls', AddedUpTo(s, docs, n + 1, ids0), m[pk := docs[n]])
  {
    FilledIds(s, docs, pk, n, ids0);
    AddsOneMore(s, docs, pk, n, ids0);
    ls' := ReachAdd(cap, ls, s, m, docs[n], s.active);
  }

  lemma FilledMore(s: State<nat>, docs: seq<Document>, pk: nat, n: nat, ids0: Ids)
    requires Filled(s, docs, pk, n, ids0) && n < |docs|
    ensures Filled(AddedUpTo(s, docs, n + 1, ids0), docs, pk, n + 1, ids0)
  {
  }

  lemma AddedTwice(s: State<nat>, docs: seq<Document>, n: nat, ids0: Ids)
    requires n <= |docs|
    ensures AddedUpTo(AddedUpTo(s, docs, n, ids0), docs, |docs|, ids0) == AddedUpTo(s, docs, |docs|, ids0)
  {
    Replaces(s.segs, s.active, Part(docs[..n], STATE_ACTIVE), Part(docs[..|docs|], STATE_ACTIVE));
  }

  /** The first segment, full of documents with one pk. */
  ghost function First(cap: nat, docs: seq<Document>): State<nat> {
    State(cap, [0], 0, map[0 := Part(docs, STATE_ACTIVE)], Renumber(map[], docs), [], Idle, [], {})
  }

  lemma FirstAdd(cap: nat, d: Document)
    requires 1 <= cap < UINT32 - 1
    ensures HandleAdd(Initial(cap, 0), d, 0) == First(cap, [d])
  {
    var s := Initial(cap, 0);
    assert Unknown(s, d.pk);
    RemovesNothing(s, d.pk);
    assert Rotate(s, 0) == s && View(s, 0) == EMPTY_SEG;
    AddFirst(d);
    assert HandleAdd(s, d, 0) == Append(s, d);
    assert s.segs[0 := Part([d], STATE_ACTIVE)] == map[0 := Part([d], STATE_ACTIVE)];
  }

  lemma AddFirst(d: Document)
    ensures AddV(EMPTY_SEG, d) == Part([d], STATE_ACTIVE) && Renumber(map[], [d]) == map[][d := 1]
  {
    assert [d][..0] == [];
  }

  lemma ReachFirst(cap: nat, docs: seq<Document>, pk: nat) returns (ls: seq<Label<nat>>)
    requires Batch(docs, pk) && |docs| <= cap < UINT32 - 1
    ensures Reaches(cap, ls, First(cap, docs), map[pk := docs[|docs| - 1]])
  {
    var s0 := Initial(cap, 0);
    assert docs[0] in docs && docs[..1] == [docs[0]];
    NoSteps(cap);
    FirstAdd(cap, docs[0]);
    ls := ReachAdd(cap, [], s0, map[], docs[0], 0);
    var s := First(cap, [docs[0]]);
    var m := map[pk := docs[0]];
    assert map[][docs[0].pk := docs[0]] == m;
    FirstFilled(cap, docs, pk);
    ls := ReachMore(cap, ls, s, m, docs, pk, 1, map[]);
    FirstFull(cap, docs);
    assert m[pk := docs[|docs| - 1]] == map[pk := docs[|docs| - 1]];
  }

  lemma FirstFilled(cap: nat, docs: seq<Document>, pk: nat)
    requires Batch(docs, pk) && |docs| <= cap < UINT32 - 1
    ensures Filled(First(cap, [docs[0]]), docs, pk, 1, map[])
  {
    assert docs[..1] == [docs[0]];
  }

  lemma FirstFull(cap: nat, docs: seq<Document>)
    requires docs != []
    ensures AddedUpTo(First(cap, [docs[0]]), docs, |docs|, map[]) == First(cap, docs)
  {
    assert docs[..|docs|] == docs;
    var one: map<nat, SegV> := map[0 := Part([docs[0]], STATE_ACTIVE)];
    assert one[0 := Part(docs, STATE_ACTIVE)] == map[0 := Part(docs, STATE_ACTIVE)];
  }

  /** A full active segment is sealed and the documents fill the next one. */
  ghost function Next(s: State<nat>, docs: seq<Document>, blank: nat): State<nat> {
    s.(segs := s.segs[s.active := View(s, s.active).(state := View(s, s.active).state + 1)][blank := Part(docs, STATE_ACTIVE)],
       list := [blank] + s.list, active := blank, ids := Renumber(s.ids, docs))
  }

  lemma NextAdd(s: State<nat>, d: Document, blank: nat)
    requires s.active in s.segs && |Docs(s, s.active)| >= s.cap && blank !in s.segs && Unknown(s, d.pk)
    ensures HandleAdd(s, d, blank) == Next(s, [d], blank)
  {
    var t := Rotate(s, blank);
    var sealed := s.segs[s.active := View(s, s.active).(state := View(s, s.active).state + 1)];
    assert t == s.(segs := sealed[blank := EMPTY_SEG], list := [blank] + s.list, active := blank);
    UnknownNext(s, sealed, d.pk, blank);
    RemovesNothing(t, d.pk);
    AppendsFirst(t, d);
    Replaces(sealed, blank, EMPTY_SEG, Part([d], STATE_ACTIVE));
  }

  lemma UnknownNext(s: State<nat>, sealed: map<nat, SegV>, pk: nat, blank: nat)
    requires s.active in s.segs && Unknown(s, pk)
    requires sealed == s.segs[s.active := View(s, s.active).(state := View(s, s.active).state + 1)]
    ensures Unknown(s.(segs := sealed[blank := EMPTY_SEG], list := [blank] + s.list, active := blank), pk)
  {
  }

  lemma Replaces(segs: map<nat, SegV>, g: nat, v: SegV, w: SegV)
    ensures segs[g := v][g := w] == segs[g := w]
  {
  }

  lemma AppendsFirst(t: State<nat>, d: Document)
    requires t.active in t.segs && t.segs[t.active] == EMPTY_SEG
    ensures Append(t, d) == t.(segs := t.segs[t.active := Part([d], STATE_ACTIVE)], ids := Renumber(t.ids, [d]))
  {
    AddFirst(d);
    assert [d][..0] == [];
  }

  lemma ReachNext(cap: nat, ls: seq<Label<nat>>, s: State<nat>, m: map<nat, Document>, docs: seq<Document>, pk: nat, blank: nat)
    returns (ls': seq<Label<nat>>)
    requires Reaches(cap, ls, s, m) && s.queue == [] && Batch(docs, pk) && |docs| <= s.cap < UINT32 - 1
    requires s.active in s.segs && |Docs(s, s.active)| >= s.cap && blank !in s.segs && Unknown(s, pk)
    requires forall d | d in docs :: d !in s.ids
    ensures Reaches(cap, ls', Next(s, docs, blank), m[pk := docs[|docs| - 1]])
  {
    assert docs[0] in docs && docs[..1] == [docs[0]];
    NextAdd(s, docs[0], blank);
    ls' := ReachAdd(cap, ls, s, m, docs[0], blank);
    var t := Next(s, [docs[0]], blank);
    NextFilled(s, docs, pk, blank);
    ls' := ReachMore(cap, ls', t, m[pk := docs[0]], docs, pk, 1, s.ids);
    NextMore(s, docs, blank);
    assert m[pk := docs[0]][pk := docs[|docs| - 1]] == m[pk := docs[|docs| - 1]];
  }

  lemma NextFilled(s: State<nat>, docs: seq<Document>, pk: nat, blank: nat)
    requires s.queue == [] && Batch(docs, pk) && |docs| <= s.cap < UINT32 - 1
    requires s.active in s.segs && blank !in s.segs && Unknown(s, pk) && forall d | d in docs :: d !in s.ids
    ensures Filled(Next(s, [docs[0]], blank), docs, pk, 1, s.ids)
  {
    assert docs[..1] == [docs[0]];
  }

  lemma NextMore(s: State<nat>, docs: seq<Document>, blank: nat)
    requires docs != []
    ensures AddedUpTo(Next(s, [docs[0]], blank), docs, |docs|, s.ids) == Next(s, docs, blank)
  {
    assert docs[..|docs|] == docs;
    var segs: map<nat, SegV> := s.segs[s.active := View(s, s.active).(state := View(s, s.active).state + 1)];
    assert segs[blank := Part([docs[0]], STATE_ACTIVE)][blank := Part(docs, STATE_ACTIVE)] == segs[blank := Part(docs, STATE_ACTIVE)];
  }

  // ----- the steps of a merge -----

  /** Outside a merge, removing the pk of a whole segment leaves nothing live in it. */
  lemma ReachGone(cap: nat, ls: seq<Label<nat>>, s: State<nat>, m: map<nat, Document>, g: nat, docs: seq<Document>, pk: nat, state: nat)
    returns (ls': seq<Label<nat>>)
    requires Reaches(cap, ls, s, m) && s.queue == [] && s.phase.Idle? && Batch(docs, pk)
    requires g in s.segs && g in s.list && s.segs[g] == Part(docs, state) && InOrder(docs, s.ids) && OnlyIn(s, pk, g)
    ensures Reaches(cap, ls', s.(segs := s.segs[g := Gone(docs, state)]), m - {pk})
  {
    RemovesOne(s, pk, g);
    RemovePart(docs, state, s.ids, pk);
    ls' := ReachRemoval(cap, ls, s, m, pk);
  }

  /** During a merge, removing an unknown pk leaves nothing but the record of it. */
  lemma ReachRecord(cap: nat, ls: seq<Label<nat>>, s: State<nat>, m: map<nat, Document>, pk: nat)
    returns (ls': seq<Label<nat>>)
    requires Reaches(cap, ls, s, m) && s.queue == [] && !s.phase.Idle? && s.md == [] && pk != 0 && Unknown(s, pk)
    ensures Reaches(cap, ls', s.(md := [pk]), m - {pk})
  {
    RemovesNothing(s, pk);
    assert [] + [pk] == [pk];
    ls' := ReachRemoval(cap, ls, s, m, pk);
  }

  lemma ReachChosen(cap: nat, ls: seq<Label<nat>>, s: State<nat>, m: map<nat, Document>, m1: nat, m2: nat)
    returns (ls': seq<Label<nat>>)
    requires Reaches(cap, ls, s, m) && s.phase.Idle? && Select(s) == Some((m1, m2))
    ensures Reaches(cap, ls', s.(phase := Chosen(m1, m2)), m)
  {
    ReachStep(cap, ls, s, m, RunCheck);
    ls' := ls + [RunCheck];
  }

  lemma Single<T>(s: seq<T>, x: T)
    requires Distinct(s) && Elems(s) == {x}
    ensures s == [x]
  {
    DistinctSize(s);
    assert s[0] in Elems(s);
  }

  /** What is live in the two segments is the last document of the second one. */
  lemma MovesLast(s: State<nat>, m1: nat, m2: nat, a: seq<Document>, b: seq<Document>, state1: nat, state2: nat)
    requires s.phase == Chosen(m1, m2) && View(s, m1) == Gone(a, state1) && View(s, m2) == Part(b, state2)
    requires a != [] && b != [] && InOrder(a, s.ids) && InOrder(b, s.ids)
    ensures Moved(s) == [b[|b| - 1]]
  {
    PartSurvivors(a, b, state1, state2, s.ids);
    var none, one := Survivors(View(s, m1), s.ids), Survivors(View(s, m2), s.ids);
    assert none == [] && one == [b[|b| - 1]];
    assert none + one == [b[|b| - 1]];
  }

  lemma PartSurvivors(a: seq<Document>, b: seq<Document>, state1: nat, state2: nat, ids: Ids)
    requires a != [] && b != [] && InOrder(a, ids) && InOrder(b, ids)
    ensures Survivors(Gone(a, state1), ids) == [] && Survivors(Part(b, state2), ids) == [b[|b| - 1]]
  {
    PartLives(a, state1, ids);
    PartLives(b, state2, ids);
    NothingMoves(Gone(a, state1), ids);
    OneMoves(Part(b, state2), ids, b[|b| - 1]);
  }

  lemma NothingMoves(v: SegV, ids: Ids)
    requires Numbered(v, ids) && LiveDocs(v, ids) == {}
    ensures Survivors(v, ids) == []
  {
    MigrationSplits(v, ids);
    HeadInElems(Survivors(v, ids));
  }

  lemma OneMoves(v: SegV, ids: Ids, d: Document)
    requires Numbered(v, ids) && LiveDocs(v, ids) == {d}
    ensures Survivors(v, ids) == [d]
  {
    MigrationSplits(v, ids);
    Single(Survivors(v, ids), d);
  }

  /** Only that document goes into the new segment. */
  ghost function AfterMigrate(s: State<nat>, n: nat, d: Document): State<nat>
    requires s.phase.Chosen?
  {
    s.(segs := s.segs[n := Part([d], STATE_ACTIVE)], ids := s.ids[d := 1],
       queue := s.queue + [ReplaceTask], phase := Migrated(s.phase.m1, s.phase.m2, n, Dead(s), true))
  }

  lemma MigratesOne(s: State<nat>, n: nat, d: Document)
    requires s.phase.Chosen? && Moved(s) == [d]
    ensures QueueReplace(Migrate(s, n)) == AfterMigrate(s, n, d)
  {
    assert [d][..0] == [] && Renumber(s.ids, [d]) == s.ids[d := 1];
    assert SegV([d], {}, STATE_ACTIVE, 2) == Part([d], STATE_ACTIVE);
    assert Migrate(s, n) == MigrateTo(s, n, [d], Dead(s), Renumber(s.ids, [d]));
  }

  lemma ReachMigrated(cap: nat, ls: seq<Label<nat>>, s: State<nat>, m: map<nat, Document>, n: nat,
                      a: seq<Document>, b: seq<Document>, state1: nat, state2: nat)
    returns (ls': seq<Label<nat>>)
    requires Reaches(cap, ls, s, m) && n !in s.segs && s.phase.Chosen?
    requires View(s, s.phase.m1) == Gone(a, state1) && View(s, s.phase.m2) == Part(b, state2)
    requires a != [] && b != [] && InOrder(a, s.ids) && InOrder(b, s.ids)
    ensures Reaches(cap, ls', AfterMigrate(s, n, b[|b| - 1]), m)
  {
    MovesLast(s, s.phase.m1, s.phase.m2, a, b, state1, state2);
    MigratesOne(s, n, b[|b| - 1]);
    ReachStep(cap, ls, s, m, RunMigrate(n));
    ReachStep(cap, ls + [RunMigrate(n)], Migrate(s, n), m, RunQueueReplace);
    ls' := ls + [RunMigrate(n)] + [RunQueueReplace];
  }

  /** From stage 2, with nothing but the replace task in the queue, to the end. */
  ghost function AfterMerge(s: State<nat>): State<nat>
    requires s.phase.Migrated?
  {
    var n := s.phase.newseg;
    var v := View(s, n);
    s.(segs := s.segs[n := RemoveEach(v.(state := v.state + 1), s.ids, s.md)] - {s.phase.m1, s.phase.m2},
       list := [n] + Without(Without(s.list, s.phase.m1), s.phase.m2),
       queue := [], phase := Idle, freed := s.freed + Elems(s.phase.dead))
  }

  lemma ReachReplaced(cap: nat, ls: seq<Label<nat>>, s: State<nat>, m: map<nat, Document>)
    returns (ls': seq<Label<nat>>)
    requires Reaches(cap, ls, s, m) && s.phase.Migrated? && s.queue == [ReplaceTask]
    requires s.phase.newseg in s.segs && Docs(s, s.phase.newseg) != []
    ensures Reaches(cap, ls', HandleReplace(s.(queue := [])), m)
  {
    assert s.queue[1..] == [];
    ReachStep(cap, ls, s, m, RunInput(0));
    ls' := ls + [RunInput(0)];
  }

  lemma ReachReleased(cap: nat, ls: seq<Label<nat>>, s: State<nat>, m: map<nat, Document>)
    returns (ls': seq<Label<nat>>)
    requires Reaches(cap, ls, s, m) && s.phase.Replaced? && Docs(s, s.phase.newseg) != []
    ensures Reaches(cap, ls', s.(segs := s.segs - {s.phase.m1, s.phase.m2}, freed := s.freed + Elems(s.phase.dead),
                                 phase := Released(s.phase.newseg)), m)
  {
    ReachStep(cap, ls, s, m, RunRelease);
    ls' := ls + [RunRelease];
  }

  lemma ReachReset(cap: nat, ls: seq<Label<nat>>, s: State<nat>, m: map<nat, Document>)
    returns (ls': seq<Label<nat>>)
    requires Reaches(cap, ls, s, m) && s.phase.Released? && s.queue == []
    ensures var n := s.phase.newseg;
      Reaches(cap, ls', s.(segs := s.segs[n := RemoveEach(View(s, n), s.ids, s.md)], phase := Idle), m)
  {
    var n := s.phase.newseg;
    ReachStep(cap, ls, s, m, RunRequestRedelete);
    var t := s.(queue := [RedeleteTask], phase := Redeleting(n));
    assert [] + [RedeleteTask] == [RedeleteTask] && RequestRedelete(s) == t && t.queue[1..] == [];
    ReachStep(cap, ls + [RunRequestRedelete], t, m, RunInput(0));
    var u := s.(segs := s.segs[n := RemoveEach(View(s, n), s.ids, s.md)], phase := Done);
    assert Input(t, 0) == u;
    ReachStep(cap, ls + [RunRequestRedelete] + [RunInput(0)], u, m, RunReset);
    ls' := ls + [RunRequestRedelete] + [RunInput(0)] + [RunReset];
  }

  lemma ReachMerged(cap: nat, ls: seq<Label<nat>>, s: State<nat>, m: map<nat, Document>)
    returns (ls': seq<Label<nat>>)
    requires Reaches(cap, ls, s, m) && s.phase.Migrated? && s.queue == [ReplaceTask]
    requires s.phase.newseg in s.segs && Docs(s, s.phase.newseg) != []
    requires s.phase.newseg != s.phase.m1 && s.phase.newseg != s.phase.m2
    ensures Reaches(cap, ls', AfterMerge(s), m)
  {
    var n, v := s.phase.newseg, View(s, s.phase.newseg);
    var v1 := v.(state := v.state + 1);
    ls' := ReachReplaced(cap, ls, s, m);
    var t := HandleReplace(s.(queue := []));
    assert Docs(t, n) != [];
    ls' := ReachReleased(cap, ls', t, m);
    var u := t.(segs := t.segs - {s.phase.m1, s.phase.m2}, freed := t.freed + Elems(s.phase.dead), phase := Released(n));
    ls' := ReachReset(cap, ls', u, m);
    Remaps(s.segs, n, v1, RemoveEach(v1, s.ids, s.md), {s.phase.m1, s.phase.m2});
  }

  lemma Remaps(segs: map<nat, SegV>, n: nat, v: SegV, w: SegV, gone: set<nat>)
    requires n !in gone
    ensures (segs[n := v] - gone)[n := w] == segs[n := w] - gone && (segs[n := v] - gone)[n] == v
  {
  }
}
