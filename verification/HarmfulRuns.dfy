/** Runs in which a merge is seen.  For every limit on the size of segments, both kinds of
    harmful step can be reached, and when the merge is over lookups answer wrongly. */
module HarmfulRuns {
  import opened Basics
  import opened Documents
  import opened SegmentValues
  import opened Protocol
  import opened ProtocolSafety
  import opened ProtocolRuns
  import opened Answers
  import opened Traces

  // ----- what a lookup finds -----

  lemma {:induction false} IsMissing<S>(segs: map<S, SegV>, list: seq<S>, ids: Ids, terms: seq<string>, d: Document)
    requires forall g | g in list && g in segs :: d !in Hits(segs[g], ids, terms)
    ensures d !in AllHits(segs, list, ids, terms)
  {
    if list != [] {
      var n := |list| - 1;
      assert list == list[..n] + [list[n]];
      assert forall g | g in list[..n] :: g in list;
      IsMissing(segs, list[..n], ids, terms, d);
    }
  }

  /** A segment with one live document. */
  lemma OneHit(d: Document, state: nat, ids: Ids)
    requires d in ids && ids[d] == 1
    ensures d in Hits(Part([d], state), ids, [])
  {
    PartLives([d], state, ids);
    MigrationSplits(Part([d], state), ids);
    assert d in Elems(Survivors(Part([d], state), ids));
  }

  lemma NoHit(v: SegV, ids: Ids, d: Document)
    requires |v.docs| == |v.deleted| || d !in v.docs
    ensures d !in Hits(v, ids, [])
  {
    if d in Survivors(v, ids) {
      assert d in Walk(v.docs);
    }
  }

  // ----- three full segments -----

  ghost predicate ThreeBatches(cap: nat, a: seq<Document>, b: seq<Document>, c: seq<Document>) {
    && 1 <= cap < UINT32 - 1 && |a| == cap && |b| == cap && |c| == cap
    && Batch(a, a[0].pk) && Batch(b, b[0].pk) && Batch(c, c[0].pk)
    && a[0].pk != b[0].pk && a[0].pk != c[0].pk && b[0].pk != c[0].pk
  }

  ghost function TwoIds(a: seq<Document>, b: seq<Document>): Ids {
    Renumber(Renumber(map[], a), b)
  }

  ghost function ThreeIds(a: seq<Document>, b: seq<Document>, c: seq<Document>): Ids {
    Renumber(TwoIds(a, b), c)
  }

  /** Documents of different pks keep their ids when others are added. */
  lemma OthersKeep(ids: Ids, before: seq<Document>, docs: seq<Document>)
    requires InOrder(before, ids) && Distinct(docs) && forall d | d in before :: d !in docs
    ensures InOrder(before, Renumber(ids, docs)) && InOrder(docs, Renumber(ids, docs))
    ensures Renumber(ids, docs).Keys == ids.Keys + Elems(docs)
  {
    RenumberIs(ids, docs);
    forall i | 0 <= i < |before|
      ensures before[i] in Renumber(ids, docs) && Renumber(ids, docs)[before[i]] == i + 1
    {
      assert before[i] in before;
    }
  }

  lemma ThreeInOrder(cap: nat, a: seq<Document>, b: seq<Document>, c: seq<Document>)
    requires ThreeBatches(cap, a, b, c)
    ensures var ids := ThreeIds(a, b, c);
      && InOrder(a, ids) && InOrder(b, ids) && InOrder(c, ids)
      && (forall d | d in ids :: d in a || d in b || d in c)
      && (forall d | d in b :: d !in Renumber(map[], a)) && (forall d | d in c :: d !in TwoIds(a, b))
  {
    RenumberIs(map[], a);
    OthersKeep(Renumber(map[], a), a, b);
    OthersKeep(TwoIds(a, b), a, c);
    OthersKeep(TwoIds(a, b), b, c);
    ElemsApart(a, b, c);
  }

  lemma ElemsApart(a: seq<Document>, b: seq<Document>, c: seq<Document>)
    requires a != [] && b != [] && c != []
    requires forall d | d in a :: d.pk == a[0].pk
    requires forall d | d in b :: d.pk == b[0].pk
    requires forall d | d in c :: d.pk == c[0].pk
    requires a[0].pk != b[0].pk && a[0].pk != c[0].pk && b[0].pk != c[0].pk
    ensures forall d | d in b :: d !in Elems(a)
    ensures forall d | d in c :: d !in Elems(a) + Elems(b)
  {
  }

  ghost function Two(cap: nat, a: seq<Document>, b: seq<Document>): State<nat> {
    State(cap, [1, 0], 1, map[0 := Part(a, 1), 1 := Part(b, STATE_ACTIVE)], TwoIds(a, b), [], Idle, [], {})
  }

  ghost function Three(cap: nat, a: seq<Document>, b: seq<Document>, c: seq<Document>): State<nat> {
    State(cap, [2, 1, 0], 2, map[0 := Part(a, 1), 1 := Part(b, 1), 2 := Part(c, STATE_ACTIVE)], ThreeIds(a, b, c), [], Idle, [], {})
  }

  lemma NextIsTwo(cap: nat, a: seq<Document>, b: seq<Document>)
    ensures Next(First(cap, a), b, 1) == Two(cap, a, b)
  {
    assert First(cap, a).segs[0 := Part(a, 1)][1 := Part(b, STATE_ACTIVE)] == Two(cap, a, b).segs;
    assert [1] + First(cap, a).list == [1, 0];
  }

  lemma NextIsThree(cap: nat, a: seq<Document>, b: seq<Document>, c: seq<Document>)
    ensures Next(Two(cap, a, b), c, 2) == Three(cap, a, b, c)
  {
    assert Two(cap, a, b).segs[1 := Part(b, 1)][2 := Part(c, STATE_ACTIVE)] == Three(cap, a, b, c).segs;
    assert [2] + Two(cap, a, b).list == [2, 1, 0];
  }

  lemma ReachTwo(cap: nat, a: seq<Document>, b: seq<Document>) returns (ls: seq<Label<nat>>, m: map<nat, Document>)
    requires 1 <= cap < UINT32 - 1 && |a| == cap && |b| == cap && Batch(a, a[0].pk) && Batch(b, b[0].pk) && a[0].pk != b[0].pk
    requires forall d | d in b :: d !in Renumber(map[], a)
    ensures Reaches(cap, ls, Two(cap, a, b), m) && m.Keys == {a[0].pk, b[0].pk}
  {
    ls := ReachFirst(cap, a, a[0].pk);
    m := map[a[0].pk := a[cap - 1]];
    assert Docs(First(cap, a), 0) == a;
    ls := ReachNext(cap, ls, First(cap, a), m, b, b[0].pk, 1);
    NextIsTwo(cap, a, b);
    m := m[b[0].pk := b[cap - 1]];
  }

  lemma ReachThree(cap: nat, a: seq<Document>, b: seq<Document>, c: seq<Document>)
    returns (ls: seq<Label<nat>>, m: map<nat, Document>)
    requires ThreeBatches(cap, a, b, c)
    ensures Reaches(cap, ls, Three(cap, a, b, c), m) && m.Keys == {a[0].pk, b[0].pk, c[0].pk}
  {
    ThreeInOrder(cap, a, b, c);
    ls, m := ReachTwo(cap, a, b);
    assert Docs(Two(cap, a, b), 1) == b;
    ls := ReachNext(cap, ls, Two(cap, a, b), m, c, c[0].pk, 2);
    NextIsThree(cap, a, b, c);
    m := m[c[0].pk := c[cap - 1]];
  }

  // ----- the first merge -----

  /** The first segment is deleted and chosen together with the second one. */
  ghost function Merging(cap: nat, a: seq<Document>, b: seq<Document>, c: seq<Document>): State<nat> {
    var s := Three(cap, a, b, c);
    s.(segs := s.segs[0 := Gone(a, 1)], phase := Chosen(0, 1))
  }

  lemma SelectsThree(s: State<nat>, a: seq<Document>, b: seq<Document>)
    requires s.list == [2, 1, 0] && {0, 1, 2} <= s.segs.Keys && s.segs[2].state == STATE_ACTIVE
    requires a != [] && b != [] && s.segs[0] == Gone(a, 1) && s.segs[1] == Part(b, 1)
    ensures Select(s) == Some((0, 1))
  {
    PartRatio(a, 1);
    PartRatio(b, 1);
    var r := Ratios(s);
    assert 2 !in r && 1 in r && r[1] == 0 && 0 in r && r[0] == 1;
    var l2: seq<nat>, l1: seq<nat>, l0: seq<nat> := [2, 1], [2], [];
    assert s.list[..2] == l2 && l2[..1] == l1 && l1[..0] == l0;
    assert ScanAll(r, l0) == Scan(None, None, false);
    assert ScanAll(r, l1) == Scan(None, None, false);
    assert ScanAll(r, l2) == Scan(Some(1), None, false);
    assert ScanAll(r, s.list) == Scan(Some(0), Some(1), true);
  }

  lemma ReachMerging(cap: nat, a: seq<Document>, b: seq<Document>, c: seq<Document>)
    returns (ls: seq<Label<nat>>, m: map<nat, Document>)
    requires ThreeBatches(cap, a, b, c)
    ensures Reaches(cap, ls, Merging(cap, a, b, c), m) && m.Keys == {b[0].pk, c[0].pk}
  {
    var s := Three(cap, a, b, c);
    ls, m := ReachThree(cap, a, b, c);
    ThreeInOrder(cap, a, b, c);
    ls := ReachGone(cap, ls, s, m, 0, a, a[0].pk, 1);
    m := m - {a[0].pk};
    var t := s.(segs := s.segs[0 := Gone(a, 1)]);
    SelectsThree(t, a, b);
    ls := ReachChosen(cap, ls, t, m, 0, 1);
  }

  // ----- an add while the replacement is pending -----

  /** An add in a full active segment that leaves unlisted segments as they are. */
  lemma AddsBeside(s: State<nat>, d: Document, blank: nat)
    requires s.active in s.segs && s.active in s.list && |Docs(s, s.active)| >= s.cap && blank !in s.segs
    ensures var t := HandleAdd(s, d, blank);
      && t == s.(segs := t.segs, list := [blank] + s.list, active := blank, ids := s.ids[d := 1])
      && blank in t.segs && t.segs[blank] == Part([d], STATE_ACTIVE)
      && (forall g | g in s.segs && g !in s.list :: g in t.segs && t.segs[g] == s.segs[g])
  {
    var r := Rotate(s, blank);
    RemoveElsewhere(EMPTY_SEG, r.ids, d.pk);
    AddFirst(d);
    assert View(RemoveAll(r, d.pk), blank) == EMPTY_SEG;
  }

  /** The two segments have been migrated while d waits in the queue. */
  ghost predicate Waiting(s: State<nat>, b: Document, d: Document) {
    && s.phase.Migrated? && s.phase == Migrated(0, 1, 3, s.phase.dead, true)
    && s.queue == [AddTask(d), ReplaceTask] && s.md == [] && s.list == [2, 1, 0] && s.active == 2 && 2 in s.segs
    && |Docs(s, 2)| >= s.cap && 4 !in s.segs && 3 in s.segs && s.segs[3] == Part([b], STATE_ACTIVE)
    && b in s.ids && s.ids[b] == 1 && b != d && b.pk == d.pk
  }

  lemma ReachWaiting(cap: nat, a: seq<Document>, b: seq<Document>, c: seq<Document>, d: Document)
    returns (ls: seq<Label<nat>>, s: State<nat>, m: map<nat, Document>)
    requires ThreeBatches(cap, a, b, c) && d.Checked() && d.pk == b[0].pk && d !in b
    ensures Reaches(cap, ls, s, m) && Waiting(s, b[cap - 1], d)
  {
    ls, m := ReachMerging(cap, a, b, c);
    ThreeInOrder(cap, a, b, c);
    NewToAll(cap, a, b, c, d);
    assert b[cap - 1] in b;
    ls, s := Waits(cap, ls, Merging(cap, a, b, c), m, a, b, c, d);
  }

  lemma Waits(cap: nat, ls: seq<Label<nat>>, r: State<nat>, m: map<nat, Document>,
              a: seq<Document>, b: seq<Document>, c: seq<Document>, d: Document)
    returns (ls': seq<Label<nat>>, s: State<nat>)
    requires Reaches(cap, ls, r, m) && d.Checked() && d !in r.ids && a != [] && b != []
    requires r.phase == Chosen(0, 1) && r.queue == [] && r.md == [] && r.list == [2, 1, 0] && r.active == 2
    requires View(r, 0) == Gone(a, 1) && View(r, 1) == Part(b, 1) && InOrder(a, r.ids) && InOrder(b, r.ids)
    requires 2 in r.segs && 3 !in r.segs && 4 !in r.segs && r.segs[2].docs == c && |c| >= r.cap
    requires b[|b| - 1] in b && d !in b && b[|b| - 1].pk == d.pk
    ensures Reaches(cap, ls', s, m) && Waiting(s, b[|b| - 1], d)
  {
    var t := r.(queue := [AddTask(d)]);
    assert [] + [AddTask(d)] == [AddTask(d)] && Step(r, SubmitAdd(d)) == t;
    ReachStep(cap, ls, r, m, SubmitAdd(d));
    ls' := ReachMigrated(cap, ls + [SubmitAdd(d)], t, m, 3, a, b, 1, 1);
    s := AfterMigrate(t, 3, b[|b| - 1]);
    MigratedWaits(t, a, b, c, d);
  }

  lemma NewToAll(cap: nat, a: seq<Document>, b: seq<Document>, c: seq<Document>, d: Document)
    requires ThreeBatches(cap, a, b, c) && d.pk == b[0].pk && d !in b
    ensures d !in ThreeIds(a, b, c)
  {
    ThreeInOrder(cap, a, b, c);
  }

  lemma MigratedWaits(t: State<nat>, a: seq<Document>, b: seq<Document>, c: seq<Document>, d: Document)
    requires t.phase == Chosen(0, 1) && t.queue == [AddTask(d)] && t.md == [] && t.list == [2, 1, 0] && t.active == 2
    requires 2 in t.segs && 3 !in t.segs && 4 !in t.segs && t.segs[2].docs == c && |c| >= t.cap
    requires b != [] && b[|b| - 1] in b && d !in b && b[|b| - 1].pk == d.pk
    ensures Waiting(AfterMigrate(t, 3, b[|b| - 1]), b[|b| - 1], d)
  {
    assert [AddTask(d)] + [ReplaceTask] == [AddTask(d), ReplaceTask];
  }

  /** A run after which a lookup without terms finds two documents with one pk: the first
      segment is merged with the second, whose last document is b, while a document d with
      the same pk waits in the queue; d is added before the replacement, and when the merge
      is over, b is live beside it. */
  lemma AddIsSeen(cap: nat, a: seq<Document>, b: seq<Document>, c: seq<Document>, d: Document) returns (ls: seq<Label<nat>>)
    requires ThreeBatches(cap, a, b, c) && d.Checked() && d.pk == b[0].pk && d !in b
    ensures RunEnabled(Initial(cap, 0), ls) && Run(Initial(cap, 0), ls).phase.Idle?
    ensures var s, m := Run(Initial(cap, 0), ls), SpecRun(Initial(cap, 0), ls, map[]);
      var found := AllHits(s.segs, s.list, s.ids, []);
      && b[cap - 1] in found && d in found && b[cap - 1].pk == d.pk && b[cap - 1] != d
      && d.pk in m && m[d.pk] == d
  {
    var s, m;
    ls, s, m := ReachWaiting(cap, a, b, c, d);
    ls, s := FinishAdd(cap, ls, s, m, b[cap - 1], d);
    RunOf(cap, ls, s, m[d.pk := d]);
  }

  lemma FinishAdd(cap: nat, ls: seq<Label<nat>>, s: State<nat>, m: map<nat, Document>, b: Document, d: Document)
    returns (ls': seq<Label<nat>>, f: State<nat>)
    requires Reaches(cap, ls, s, m) && Waiting(s, b, d)
    ensures Reaches(cap, ls', f, m[d.pk := d]) && f.phase.Idle?
    ensures b in AllHits(f.segs, f.list, f.ids, []) && d in AllHits(f.segs, f.list, f.ids, [])
  {
    var u := s.(queue := [ReplaceTask]);
    assert s.queue[1..] == [ReplaceTask] && s.(queue := s.queue[1..]) == u;
    AddsBeside(u, d, 4);
    var t := HandleAdd(u, d, 4);
    ReachStep(cap, ls, s, m, RunInput(4));
    assert [4] + [2, 1, 0] == [4, 2, 1, 0];
    ls' := ReachMerged(cap, ls + [RunInput(4)], t, m[d.pk := d]);
    BothFound(t, b, d);
    f := AfterMerge(t);
  }

  lemma BothFound(s: State<nat>, b: Document, d: Document)
    requires s.phase.Migrated? && s.phase == Migrated(0, 1, 3, s.phase.dead, true) && s.md == [] && s.list == [4, 2, 1, 0]
    requires 3 in s.segs && s.segs[3] == Part([b], STATE_ACTIVE) && 4 in s.segs && s.segs[4] == Part([d], STATE_ACTIVE)
    requires b in s.ids && s.ids[b] == 1 && d in s.ids && s.ids[d] == 1
    ensures var f := AfterMerge(s); b in AllHits(f.segs, f.list, f.ids, []) && d in AllHits(f.segs, f.list, f.ids, [])
  {
    var f := AfterMerge(s);
    assert 4 in Elems(s.list) && 4 in Elems(Without(Without(s.list, 0), 1));
    assert 3 in f.list && 4 in f.list;
    assert f.segs[3] == Part([b], 1) && f.segs[4] == Part([d], STATE_ACTIVE);
    OneHit(b, 1, f.ids);
    OneHit(d, STATE_ACTIVE, f.ids);
    IsFound(f.segs, f.list, f.ids, [], 3, b);
    IsFound(f.segs, f.list, f.ids, [], 4, d);
  }

  // ----- a removal that outlives its merge -----

  /** After the first merge: one document in the new segment, and q left in the list of
      removals. */
  ghost predicate LeftBehind(s: State<nat>, b: Document, c: seq<Document>, q: nat) {
    && s.queue == [] && s.phase.Idle? && s.md == [q] && s.list == [3, 2] && s.active == 2
    && s.segs == map[2 := Part(c, STATE_ACTIVE), 3 := Part([b], 1)]
    && |c| == s.cap >= 1 && s.cap < UINT32 - 1
    && b in s.ids && s.ids[b] == 1
  }

  lemma ReachLeftBehind(cap: nat, a: seq<Document>, b: seq<Document>, c: seq<Document>, q: nat)
    returns (ls: seq<Label<nat>>, s: State<nat>, m: map<nat, Document>)
    requires ThreeBatches(cap, a, b, c) && q != 0 && q != a[0].pk && q != b[0].pk && q != c[0].pk
    ensures Reaches(cap, ls, s, m) && LeftBehind(s, b[cap - 1], c, q)
    ensures forall d | d in s.ids :: d in a || d in b || d in c
  {
    ls, m := ReachMerging(cap, a, b, c);
    ThreeInOrder(cap, a, b, c);
    UnknownToAll(cap, a, b, c, q);
    ls := ReachRecord(cap, ls, Merging(cap, a, b, c), m, q);
    m := m - {q};
    assert b[cap - 1] in b;
    SegsBehind(cap, a, b, c);
    ls, s := LeavesBehind(cap, ls, Merging(cap, a, b, c).(md := [q]), m, a, b, c, q);
  }

  lemma LeavesBehind(cap: nat, ls: seq<Label<nat>>, t: State<nat>, m: map<nat, Document>,
                     a: seq<Document>, b: seq<Document>, c: seq<Document>, q: nat)
    returns (ls': seq<Label<nat>>, s: State<nat>)
    requires Reaches(cap, ls, t, m) && t.phase == Chosen(0, 1) && t.queue == [] && t.md == [q] && t.list == [2, 1, 0] && t.active == 2
    requires t.segs == map[0 := Gone(a, 1), 1 := Part(b, 1), 2 := Part(c, STATE_ACTIVE)]
    requires a != [] && b != [] && InOrder(a, t.ids) && InOrder(b, t.ids)
    requires |c| == t.cap >= 1 && t.cap < UINT32 - 1 && b[|b| - 1].pk != q
    ensures Reaches(cap, ls', s, m) && LeftBehind(s, b[|b| - 1], c, q) && s.cap == t.cap && s.ids.Keys == t.ids.Keys
  {
    ThreeViews(t.segs, a, b, c);
    ls' := ReachMigrated(cap, ls, t, m, 3, a, b, 1, 1);
    var u := AfterMigrate(t, 3, b[|b| - 1]);
    assert [] + [ReplaceTask] == [ReplaceTask];
    MergedBehind(u, b[|b| - 1], c, q, a, b);
    ls' := ReachMerged(cap, ls', u, m);
    s := AfterMerge(u);
  }

  lemma ThreeViews(segs: map<nat, SegV>, a: seq<Document>, b: seq<Document>, c: seq<Document>)
    requires segs == map[0 := Gone(a, 1), 1 := Part(b, 1), 2 := Part(c, STATE_ACTIVE)]
    ensures 0 in segs && segs[0] == Gone(a, 1) && 1 in segs && segs[1] == Part(b, 1) && 3 !in segs
  {
  }

  lemma UnknownToAll(cap: nat, a: seq<Document>, b: seq<Document>, c: seq<Document>, q: nat)
    requires ThreeBatches(cap, a, b, c) && q != a[0].pk && q != b[0].pk && q != c[0].pk
    ensures Unknown(Merging(cap, a, b, c), q)
  {
  }

  lemma SegsBehind(cap: nat, a: seq<Document>, b: seq<Document>, c: seq<Document>)
    ensures Merging(cap, a, b, c).segs == map[0 := Gone(a, 1), 1 := Part(b, 1), 2 := Part(c, STATE_ACTIVE)]
  {
  }

  lemma MergedBehind(s: State<nat>, b: Document, c: seq<Document>, q: nat, a: seq<Document>, bs: seq<Document>)
    requires s.phase.Migrated? && s.phase == Migrated(0, 1, 3, s.phase.dead, true) && s.md == [q] && s.list == [2, 1, 0] && s.active == 2
    requires s.segs == map[0 := Gone(a, 1), 1 := Part(bs, 1), 2 := Part(c, STATE_ACTIVE)][3 := Part([b], STATE_ACTIVE)]
    requires |c| == s.cap >= 1 && s.cap < UINT32 - 1 && b in s.ids && s.ids[b] == 1 && b.pk != q
    ensures LeftBehind(AfterMerge(s), b, c, q)
  {
    var v := Part([b], 1);
    RemoveElsewhere(v, s.ids, q);
    assert [q][..0] == [] && RemoveEach(v, s.ids, [q]) == v;
    DropTwo(Gone(a, 1), Part(bs, 1), Part(c, STATE_ACTIVE), Part([b], STATE_ACTIVE), v);
    WithoutTwo(s.list);
  }

  lemma DropTwo(v0: SegV, v1: SegV, v2: SegV, v3: SegV, w: SegV)
    ensures var segs: map<nat, SegV> := map[0 := v0, 1 := v1, 2 := v2, 3 := v3];
      segs[3 := w] - {0, 1} == map[2 := v2, 3 := w]
    ensures var segs: map<nat, SegV> := map[0 := v0, 1 := v1, 2 := v2];
      segs[3 := v3] == map[0 := v0, 1 := v1, 2 := v2, 3 := v3]
  {
  }

  lemma WithoutTwo(list: seq<nat>)
    requires list == [2, 1, 0]
    ensures [3] + Without(Without(list, 0), 1) == [3, 2]
  {
    var two: seq<nat> := [2, 1];
    WithoutLast(list, two, 0);
    WithoutLast(two, [2], 1);
  }

  lemma WithoutLast(list: seq<nat>, rest: seq<nat>, g: nat)
    requires list == rest + [g] && g !in rest
    ensures Without(list, g) == rest
  {
    assert list[..|rest|] == rest;
    WithoutNothing(rest, g);
  }

  /** Two more documents: e, the last of a batch that fills a segment of its own, and f. */
  ghost predicate TwoMore(cap: nat, e: seq<Document>, f: Document, b: Document, c: seq<Document>, ids: Ids) {
    && |e| == cap && |c| == cap >= 1 && Batch(e, e[0].pk) && Batch(c, c[0].pk) && f.Checked() && b.Checked()
    && Apart(b.pk, c[0].pk, e[0].pk, f.pk) && f !in ids && (forall d | d in e :: d !in ids)
  }

  ghost predicate Apart(p: nat, q: nat, r: nat, t: nat) {
    p != q && p != r && p != t && q != r && q != t && r != t
  }

  /** The segments when e and f have been added. */
  ghost function Late(b: Document, c: seq<Document>, e: seq<Document>, f: Document): map<nat, SegV> {
    map[2 := Part(c, 1), 3 := Part([b], 1), 4 := Part(e, 1), 5 := Part([f], STATE_ACTIVE)]
  }

  lemma ReachLate(cap: nat, ls: seq<Label<nat>>, s: State<nat>, m: map<nat, Document>,
                  b: Document, c: seq<Document>, e: seq<Document>, f: Document)
    returns (ls': seq<Label<nat>>, t: State<nat>)
    requires Reaches(cap, ls, s, m) && s.cap == cap && TwoMore(cap, e, f, b, c, s.ids) && LeftBehind(s, b, c, e[0].pk)
    ensures t == s.(segs := Late(b, c, e, f), list := [5, 4, 3, 2], active := 5, ids := Renumber(Renumber(s.ids, e), [f]))
    ensures Reaches(cap, ls', t, m[e[0].pk := e[cap - 1]][f.pk := f])
  {
    assert Docs(s, 2) == c;
    ls' := ReachNext(cap, ls, s, m, e, e[0].pk, 4);
    var u := s.(segs := map[2 := Part(c, 1), 3 := Part([b], 1), 4 := Part(e, STATE_ACTIVE)],
      list := [4, 3, 2], active := 4, ids := Renumber(s.ids, e));
    NextIsU(s, b, c, e);
    assert Docs(u, 4) == e;
    OneIsBatch(f);
    NotAmong(s.ids, e, f);
    ls' := ReachNext(cap, ls', u, m[e[0].pk := e[cap - 1]], [f], f.pk, 5);
    t := Next(u, [f], 5);
    NextIsLate(u, b, c, e, f);
  }

  lemma NextIsU(s: State<nat>, b: Document, c: seq<Document>, e: seq<Document>)
    requires s.segs == map[2 := Part(c, STATE_ACTIVE), 3 := Part([b], 1)] && s.active == 2 && s.list == [3, 2]
    ensures Next(s, e, 4) == s.(segs := map[2 := Part(c, 1), 3 := Part([b], 1), 4 := Part(e, STATE_ACTIVE)],
      list := [4, 3, 2], active := 4, ids := Renumber(s.ids, e))
  {
    assert s.segs[2 := Part(c, 1)][4 := Part(e, STATE_ACTIVE)] == map[2 := Part(c, 1), 3 := Part([b], 1), 4 := Part(e, STATE_ACTIVE)];
    assert [4] + s.list == [4, 3, 2];
  }

  lemma NextIsLate(u: State<nat>, b: Document, c: seq<Document>, e: seq<Document>, f: Document)
    requires u.segs == map[2 := Part(c, 1), 3 := Part([b], 1), 4 := Part(e, STATE_ACTIVE)] && u.active == 4 && u.list == [4, 3, 2]
    ensures Next(u, [f], 5) == u.(segs := Late(b, c, e, f), list := [5, 4, 3, 2], active := 5, ids := Renumber(u.ids, [f]))
  {
    assert u.segs[4 := Part(e, 1)][5 := Part([f], STATE_ACTIVE)] == Late(b, c, e, f);
    assert [5] + u.list == [5, 4, 3, 2];
  }

  lemma OneIsBatch(f: Document)
    requires f.Checked()
    ensures Batch([f], f.pk)
  {
  }

  lemma NotAmong(ids: Ids, e: seq<Document>, f: Document)
    requires e != [] && Batch(e, e[0].pk) && f !in ids && f.pk != e[0].pk
    ensures f !in Renumber(ids, e)
  {
    RenumberIs(ids, e);
    assert f !in Elems(e);
  }

  lemma SelectsLate(s: State<nat>, b: Document, c: seq<Document>, e: seq<Document>)
    requires s.list == [5, 4, 3, 2] && {2, 3, 4, 5} <= s.segs.Keys && s.segs[5].state == STATE_ACTIVE && c != [] && e != []
    requires s.segs[2] == Part(c, 1) && s.segs[3] == Gone([b], 1) && s.segs[4] == Part(e, 1)
    ensures Select(s) == Some((3, 4))
  {
    PartRatio(c, 1);
    PartRatio([b], 1);
    PartRatio(e, 1);
    var r := Ratios(s);
    assert 5 !in r && 4 in r && r[4] == 0 && 3 in r && r[3] == 1 && 2 in r && r[2] == 0;
    var l3: seq<nat>, l2: seq<nat>, l1: seq<nat>, l0: seq<nat> := [5, 4, 3], [5, 4], [5], [];
    assert s.list[..3] == l3 && l3[..2] == l2 && l2[..1] == l1 && l1[..0] == l0;
    assert ScanAll(r, l0) == Scan(None, None, false);
    assert ScanAll(r, l1) == Scan(None, None, false);
    assert ScanAll(r, l2) == Scan(Some(4), None, false);
    assert ScanAll(r, l3) == Scan(Some(3), Some(4), true);
    assert ScanAll(r, s.list) == Scan(Some(3), Some(4), true);
  }

  lemma LateViews(segs: map<nat, SegV>, b: Document, c: seq<Document>, e: seq<Document>, f: Document)
    requires segs == Late(b, c, e, f)[3 := Gone([b], 1)]
    ensures 3 in segs && segs[3] == Gone([b], 1) && 4 in segs && segs[4] == Part(e, 1) && 6 !in segs
  {
  }

  lemma ReachChosenLate(cap: nat, ls: seq<Label<nat>>, s: State<nat>, m: map<nat, Document>,
                        b: Document, c: seq<Document>, e: seq<Document>, f: Document)
    returns (ls': seq<Label<nat>>)
    requires Reaches(cap, ls, s, m) && s.queue == [] && s.phase.Idle? && s.list == [5, 4, 3, 2] && s.segs == Late(b, c, e, f)
    requires c != [] && e != [] && Batch([b], b.pk) && OnlyIn(s, b.pk, 3) && InOrder([b], s.ids)
    ensures Reaches(cap, ls', s.(segs := s.segs[3 := Gone([b], 1)], phase := Chosen(3, 4)), m - {b.pk})
  {
    ls' := ReachGone(cap, ls, s, m, 3, [b], b.pk, 1);
    var u := s.(segs := s.segs[3 := Gone([b], 1)]);
    SelectsLate(u, b, c, e);
    ls' := ReachChosen(cap, ls', u, m - {b.pk}, 3, 4);
  }

  /** The second merge: b is removed, and e is copied although its pk is recorded. */
  lemma ReachSecond(cap: nat, ls: seq<Label<nat>>, s: State<nat>, m: map<nat, Document>,
                    b: Document, c: seq<Document>, e: seq<Document>, f: Document)
    returns (ls': seq<Label<nat>>, t: State<nat>)
    requires Reaches(cap, ls, s, m) && s.queue == [] && s.phase.Idle? && s.list == [5, 4, 3, 2] && s.segs == Late(b, c, e, f)
    requires c != [] && e != [] && Batch([b], b.pk) && OnlyIn(s, b.pk, 3)
    requires InOrder([b], s.ids) && InOrder(e, s.ids)
    ensures Reaches(cap, ls', t, m - {b.pk}) && t.phase.Migrated? && t.phase == Migrated(3, 4, 6, t.phase.dead, true)
    ensures t == s.(segs := Late(b, c, e, f)[3 := Gone([b], 1)][6 := Part([e[|e| - 1]], STATE_ACTIVE)], ids := s.ids[e[|e| - 1] := 1],
                    queue := [ReplaceTask], phase := t.phase)
  {
    ls' := ReachChosenLate(cap, ls, s, m, b, c, e, f);
    var v := s.(segs := s.segs[3 := Gone([b], 1)], phase := Chosen(3, 4));
    LateViews(v.segs, b, c, e, f);
    ls' := ReachMigrated(cap, ls', v, m - {b.pk}, 6, [b], e, 1, 1);
    t := AfterMigrate(v, 6, e[|e| - 1]);
    assert [] + [ReplaceTask] == [ReplaceTask];
  }

  /** When it is over, e is found no more. */
  lemma NotFound(s: State<nat>, b: Document, c: seq<Document>, e: Document, f: Document, segs: map<nat, SegV>)
    requires s.phase.Migrated? && s.phase == Migrated(3, 4, 6, s.phase.dead, true) && s.md == [e.pk] && s.list == [5, 4, 3, 2]
    requires s.segs == segs[6 := Part([e], STATE_ACTIVE)] && {2, 3, 4, 5} == segs.Keys
    requires segs[2] == Part(c, 1) && segs[5] == Part([f], STATE_ACTIVE) && e !in c && e != f
    requires e in s.ids && s.ids[e] == 1 && Batch([e], e.pk)
    ensures var t := AfterMerge(s); e !in AllHits(t.segs, t.list, t.ids, [])
  {
    var t := AfterMerge(s);
    RemovePart([e], 1, s.ids, e.pk);
    assert [e.pk][..0] == [] && RemoveEach(Part([e], 1), s.ids, [e.pk]) == Gone([e], 1);
    UpToSize(1);
    forall g | g in t.list && g in t.segs
      ensures e !in Hits(t.segs[g], t.ids, [])
    {
      assert g == 6 || g == 5 || g == 2;
      NoHit(t.segs[g], t.ids, e);
    }
    IsMissing(t.segs, t.list, t.ids, [], e);
  }

  /** A run after which a document is missing from a lookup without terms: a pk is removed
      during a first merge; when the merge is over, documents with this pk are added, the
      last of them e; when the segment of e is merged in turn, the old removal is repeated
      on the new segment. */
  lemma RemovalIsSeen(cap: nat, a: seq<Document>, b: seq<Document>, c: seq<Document>, e: seq<Document>, f: Document)
    returns (ls: seq<Label<nat>>)
    requires ThreeBatches(cap, a, b, c) && |e| == cap && Batch(e, e[0].pk) && f.Checked()
    requires Apart(b[0].pk, c[0].pk, e[0].pk, f.pk) && a[0].pk != e[0].pk && a[0].pk != f.pk
    ensures RunEnabled(Initial(cap, 0), ls) && Run(Initial(cap, 0), ls).phase.Idle?
    ensures var s, m := Run(Initial(cap, 0), ls), SpecRun(Initial(cap, 0), ls, map[]);
      && e[0].pk in m && m[e[0].pk] == e[cap - 1] && e[cap - 1] !in AllHits(s.segs, s.list, s.ids, [])
  {
    var q, x := e[0].pk, b[cap - 1];
    var s, m;
    assert x in b && e[cap - 1] in e;
    ls, s, m := ReachLeftBehind(cap, a, b, c, q);
    ls, s, m := ReachHidden(cap, ls, s, m, x, c, e, f);
    RunOf(cap, ls, s, m);
  }

  lemma ReachHidden(cap: nat, ls: seq<Label<nat>>, s: State<nat>, m: map<nat, Document>,
                    b: Document, c: seq<Document>, e: seq<Document>, f: Document)
    returns (ls': seq<Label<nat>>, r: State<nat>, m': map<nat, Document>)
    requires Reaches(cap, ls, s, m) && s.cap == cap && TwoMore(cap, e, f, b, c, s.ids) && LeftBehind(s, b, c, e[0].pk)
    ensures Reaches(cap, ls', r, m') && r.phase.Idle?
    ensures e[0].pk in m' && m'[e[0].pk] == e[cap - 1] && e[cap - 1] !in AllHits(r.segs, r.list, r.ids, [])
  {
    var t, u;
    ls', t := ReachLate(cap, ls, s, m, b, c, e, f);
    LateFacts(s, t, b, c, e, f);
    ls', u := ReachSecond(cap, ls', t, m[e[0].pk := e[cap - 1]][f.pk := f], b, c, e, f);
    HiddenAtEnd(s, t, u, b, c, e, f);
    StillMapped(m, e[0].pk, e[cap - 1], f.pk, f, b.pk);
    m' := m[e[0].pk := e[cap - 1]][f.pk := f] - {b.pk};
    ls' := ReachMerged(cap, ls', u, m');
    r := AfterMerge(u);
  }

  lemma StillMapped(m: map<nat, Document>, q: nat, d: Document, p: nat, f: Document, gone: nat)
    requires q != p && q != gone
    ensures var m' := m[q := d][p := f] - {gone}; q in m' && m'[q] == d
  {
  }

  lemma HiddenAtEnd(s: State<nat>, t: State<nat>, u: State<nat>, b: Document, c: seq<Document>, e: seq<Document>, f: Document)
    requires TwoMore(s.cap, e, f, b, c, s.ids) && LeftBehind(s, b, c, e[0].pk)
    requires t == s.(segs := Late(b, c, e, f), list := [5, 4, 3, 2], active := 5, ids := Renumber(Renumber(s.ids, e), [f]))
    requires u.phase.Migrated? && u.phase == Migrated(3, 4, 6, u.phase.dead, true)
    requires u == t.(segs := Late(b, c, e, f)[3 := Gone([b], 1)][6 := Part([e[|e| - 1]], STATE_ACTIVE)], ids := t.ids[e[|e| - 1] := 1],
                     queue := [ReplaceTask], phase := u.phase)
    ensures var r := AfterMerge(u); e[|e| - 1] !in AllHits(r.segs, r.list, r.ids, [])
  {
    LateFacts(s, t, b, c, e, f);
    LateSegs(b, c, e, f);
    assert e[|e| - 1] in e;
    NotFound(u, b, c, e[|e| - 1], f, Late(b, c, e, f)[3 := Gone([b], 1)]);
  }

  lemma LateSegs(b: Document, c: seq<Document>, e: seq<Document>, f: Document)
    ensures var segs := Late(b, c, e, f)[3 := Gone([b], 1)];
      {2, 3, 4, 5} == segs.Keys && segs[2] == Part(c, 1) && segs[5] == Part([f], STATE_ACTIVE)
  {
  }

  lemma LateFacts(s: State<nat>, t: State<nat>, b: Document, c: seq<Document>, e: seq<Document>, f: Document)
    requires TwoMore(s.cap, e, f, b, c, s.ids) && LeftBehind(s, b, c, e[0].pk)
    requires t == s.(segs := Late(b, c, e, f), list := [5, 4, 3, 2], active := 5, ids := Renumber(Renumber(s.ids, e), [f]))
    ensures OnlyIn(t, b.pk, 3) && InOrder([b], t.ids) && InOrder(e, t.ids) && Batch([b], b.pk)
    ensures Batch([e[|e| - 1]], e[0].pk) && e[|e| - 1] !in c && e[|e| - 1] != f
  {
    assert e[|e| - 1] in e;
    OthersKeep(s.ids, [b], e);
    OthersKeep(Renumber(s.ids, e), [b], [f]);
    OthersKeep(Renumber(s.ids, e), e, [f]);
  }
}
