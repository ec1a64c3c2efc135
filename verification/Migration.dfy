/** A migration as the code carries it out: one document after the other, while the input
    thread goes on with its tasks.  It refines the protocol, where a migration is one step,
    taken when the bitmap of the second segment is copied. */
module Migration {
  import opened Basics
  import opened Documents
  import opened SegmentValues
  import opened Protocol
  import opened ProtocolSafety
  import opened ProtocolRuns

  // ----- states and steps -----

  /** How far a migration is: v is the new segment so far, bits the copied bitmap of the
      segment that is being walked over. */
  datatype Progress<S> =
    | Resting
    | Walking(n: S, v: SegV, second: bool, bits: set<nat>, todo: seq<Document>, dead: seq<Document>)

  /** The new segment is not among the segments of s before the migration is finished. */
  datatype Fine<S> = Fine(s: State<S>, p: Progress<S>)

  /** Every step of the protocol but a migration, and the parts of a migration. */
  datatype Move<S> =
    | Whole(l: Label<S>)
    | Begin(n: S)     // allocates the new segment and copies the bitmap of the first segment
    | Visit           // one document
    | Turn            // copies the bitmap of the second segment
    | Finish

  /** While the merger is migrating, only callers and the input thread take other steps. */
  ghost predicate Possible<S>(f: Fine<S>, mv: Move<S>) {
    match mv
    case Whole(l) =>
      && !l.RunMigrate? && Enabled(f.s, l)
      && (f.p.Walking? ==> l.SubmitAdd? || l.SubmitRemove? || (l.RunInput? && l.blank != f.p.n))
    case Begin(n) => f.p.Resting? && f.s.phase.Chosen? && n !in f.s.segs
    case Visit => f.p.Walking? && f.p.todo != []
    case Turn => f.p.Walking? && !f.p.second && f.p.todo == [] && f.s.phase.Chosen?
    case Finish => f.p.Walking? && f.p.second && f.p.todo == [] && f.s.phase.Chosen?
  }

  /** A document goes by its bit under the id that it carries now, and the new segment
      numbers it at once. */
  ghost function VisitOne<S>(f: Fine<S>): Fine<S>
    requires f.p.Walking? && f.p.todo != []
  {
    var d, p := f.p.todo[0], f.p.(todo := f.p.todo[1..]);
    if IdOf(f.s.ids, d) in p.bits then Fine(f.s, p.(dead := p.dead + [d]))
    else Fine(f.s.(ids := f.s.ids[d := p.v.nextId]), p.(v := AddV(p.v, d)))
  }

  ghost function Next<S>(f: Fine<S>, mv: Move<S>): Fine<S>
    requires Possible(f, mv)
  {
    var s, p := f.s, f.p;
    match mv
    case Whole(l) => f.(s := Step(s, l))
    case Begin(n) => f.(p := Walking(n, EMPTY_SEG, false, View(s, s.phase.m1).deleted, Walk(Docs(s, s.phase.m1)), []))
    case Visit => VisitOne(f)
    case Turn => f.(p := p.(second := true, bits := View(s, s.phase.m2).deleted, todo := Walk(Docs(s, s.phase.m2))))
    case Finish => Fine(s.(segs := s.segs[p.n := p.v], phase := Migrated(s.phase.m1, s.phase.m2, p.n, p.dead, false)), Resting)
  }

  // ----- what is visible, and what does harm -----

  /** In the second segment: what has been moved, and what will be. */
  ghost function Coming<S>(f: Fine<S>): set<Document>
    requires f.p.Walking?
  {
    set d | d in f.p.v.docs + f.p.todo && (d in f.p.v.docs || IdOf(f.s.ids, d) !in f.p.bits)
  }

  /** From the copy of the second bitmap on, the documents that are moved take the place of
      those of the two old segments. */
  ghost function Seen<S>(f: Fine<S>): set<Document> {
    if f.p.Walking? && f.p.second && f.s.phase.Chosen? then
      Elsewhere(f.s) + set d | d in Coming(f) && d.pk !in f.s.md
    else Visible(f.s)
  }

  ghost function Elsewhere<S>(s: State<S>): set<Document>
    requires s.phase.Chosen?
  {
    set g, d | g in s.segs && g in s.list && g != s.phase.m1 && g != s.phase.m2 && d in LiveDocs(s.segs[g], s.ids) :: d
  }

  /** The two kinds of harm: an add of a pk that is moved, after the copy of the second
      bitmap; and that copy, when a document that is live in it has a pk that is recorded. */
  ghost predicate Harms<S>(f: Fine<S>, mv: Move<S>) {
    match mv
    case Whole(l) =>
      if f.p.Walking? && f.p.second then
        && l.RunInput? && f.s.queue != [] && f.s.queue[0].AddTask?
        && exists d :: d in Coming(f) && d.pk == f.s.queue[0].doc.pk && d.pk !in f.s.md
      else Harmful(f.s, l)
    case Turn => f.p.Walking? && Harmful(f.s, RunMigrate(f.p.n))
    case _ => false
  }

  ghost predicate Shows<S>(f: Fine<S>, m: map<nat, Document>) {
    Seen(f) == m.Values && Keyed(m)
  }

  ghost function MapNext<S>(f: Fine<S>, mv: Move<S>, m: map<nat, Document>): map<nat, Document> {
    if mv.Whole? then SpecStep(f.s, mv.l, m) else m
  }

  // ----- the protocol's view of a migration under way -----

  /** Two states that differ in the marks of the old segments, in the ids of some late
      documents, none of them in another segment, and in extra segments not listed.  Closed. */
  ghost predicate Similar<S>(b: State<S>, a: State<S>, olds: set<S>, late: set<Document>, extra: set<S>) {
    && b == a.(segs := b.segs, ids := b.ids, phase := b.phase) && b.phase.Idle? == a.phase.Idle?
    && forall n :: Unlocked(SimilarLock, n) ==> Alike(b, a, olds, late, extra)
  }

  ghost predicate Alike<S>(b: State<S>, a: State<S>, olds: set<S>, late: set<Document>, extra: set<S>) {
    AlikeKeys(b, a, olds, extra) && AlikeIds(b.ids, a.ids, late) && AlikeSegs(b, a, olds, late)
  }

  ghost predicate AlikeKeys<S>(b: State<S>, a: State<S>, olds: set<S>, extra: set<S>) {
    && extra !! b.segs.Keys && a.segs.Keys == b.segs.Keys + extra && olds <= b.segs.Keys
    && (forall g | g in a.list :: g in b.segs) && a.active in a.list && a.active !in olds
  }

  ghost predicate AlikeIds(m: Ids, ids: Ids, late: set<Document>) {
    m.Keys == ids.Keys && late <= ids.Keys && forall d | d in ids && d !in late :: m[d] == ids[d]
  }

  ghost predicate AlikeSegs<S>(b: State<S>, a: State<S>, olds: set<S>, late: set<Document>) {
    && (forall g | g in b.segs && g !in olds :: View(b, g) == View(a, g))
    && (forall g | g in a.list && g !in olds :: NoneOf(View(b, g).docs, late))
    && (forall g | g in olds :: View(b, g) == View(a, g).(deleted := View(b, g).deleted))
  }

  ghost predicate NoneOf(docs: seq<Document>, late: set<Document>) {
    forall d | d in docs :: d !in late
  }

  ghost predicate RestingAs<S>(b: State<S>, a: State<S>) {
    if a.phase.Migrated? || a.phase.Replaced? then
      b.phase == a.phase && Similar(b, a, {a.phase.m1, a.phase.m2}, {}, {})
    else b == a
  }

  /** The first segment has no live document: all are dead, and nothing else happens. */
  ghost predicate FirstAs<S>(f: Fine<S>, a: State<S>)
    requires f.p.Walking?
  {
    && f.s == a && a.phase.Chosen? && f.p.n !in a.segs && f.p.v == EMPTY_SEG
    && f.p.dead + f.p.todo == Walk(Docs(a, a.phase.m1))
    && (forall d | d in f.p.todo :: d in a.ids && a.ids[d] in f.p.bits)
  }

  /** For the protocol the migration is over. */
  ghost predicate SecondAs<S>(f: Fine<S>, a: State<S>)
    requires f.p.Walking?
  {
    && f.s.phase.Chosen? && a.phase.Migrated? && a.phase == Migrated(f.s.phase.m1, f.s.phase.m2, f.p.n, a.phase.dead, false)
    && Similar(f.s, a, {a.phase.m1, a.phase.m2}, Late(f, a), {f.p.n})
    && Walked(f.p, Docs(a, f.p.n), a.phase.dead)
    && View(a, f.p.n) == SegV(Docs(a, f.p.n), {}, STATE_ACTIVE, |Docs(a, f.p.n)| + 1)
    && (forall d | d in f.p.todo :: d in f.s.ids && (f.s.ids[d] in f.p.bits <==> d !in Docs(a, f.p.n)))
  }

  ghost function Late<S>(f: Fine<S>, a: State<S>): set<Document>
    requires f.p.Walking?
  {
    set d | d in f.p.todo && d in Docs(a, f.p.n)
  }

  /** What has been visited and what is still to be make up what is moved and what is dead. */
  ghost predicate Walked<S>(p: Progress<S>, moved: seq<Document>, dead: seq<Document>)
    requires p.Walking?
  {
    && p.v == SegV(p.v.docs, {}, STATE_ACTIVE, |p.v.docs| + 1)
    && Parts(p.v.docs, p.todo, moved) && Parts(p.dead, p.todo, dead)
    && Divided(p.todo, moved, dead)
  }

  ghost predicate Divided(todo: seq<Document>, moved: seq<Document>, dead: seq<Document>) {
    Distinct(todo) && forall d | d in todo :: d in moved <==> d !in dead
  }

  ghost predicate Parts(done: seq<Document>, todo: seq<Document>, all: seq<Document>) {
    done + Filter(todo, Elems(all)) == all
  }

  /** A state of the protocol that stands for this one.  Closed. */
  ghost predicate As<S>(f: Fine<S>, a: State<S>) {
    forall n :: Unlocked(FineLock, n) ==>
      Inv(a) && if f.p.Resting? then RestingAs(f.s, a) else if f.p.second then SecondAs(f, a) else FirstAs(f, a)
  }

  /** The step of the protocol that a move stands for, if any. */
  ghost function Image<S>(f: Fine<S>, mv: Move<S>): Option<Label<S>> {
    match mv
    case Whole(l) => Some(l)
    case Turn => if f.p.Walking? then Some(RunMigrate(f.p.n)) else None
    case _ => None
  }

  ghost function Follow<S>(a: State<S>, image: Option<Label<S>>): State<S> {
    if image.Some? then Step(a, image.value) else a
  }

  // ----- input tasks on similar states -----

  lemma RemoveSimilar<S>(b: State<S>, a: State<S>, olds: set<S>, late: set<Document>, extra: set<S>, pk: nat)
    requires Similar(b, a, olds, late, extra)
    ensures Similar(RemoveAll(b, pk), RemoveAll(a, pk), olds, late, extra)
    ensures forall g | g in extra :: View(RemoveAll(a, pk), g) == View(a, g)
  {
    assert Unlocked(SimilarLock, 0);
    assert AlikeKeys(RemoveAll(b, pk), RemoveAll(a, pk), olds, extra);
    RemoveSegs(b, a, olds, late, extra, pk);
  }

  lemma RemoveSegs<S>(b: State<S>, a: State<S>, olds: set<S>, late: set<Document>, extra: set<S>, pk: nat)
    requires Alike(b, a, olds, late, extra) && b.list == a.list
    ensures AlikeSegs(RemoveAll(b, pk), RemoveAll(a, pk), olds, late)
  {
    forall g | g in a.list && g !in olds
      ensures RemoveV(View(b, g), b.ids, pk) == RemoveV(View(a, g), a.ids, pk)
    {
      assert NoneOf(View(b, g).docs, late);
      assert forall d | d in View(b, g).docs :: IdOf(b.ids, d) == IdOf(a.ids, d);
    }
  }

  lemma RotateSimilar<S>(b: State<S>, a: State<S>, olds: set<S>, late: set<Document>, extra: set<S>, blank: S)
    requires Similar(b, a, olds, late, extra) && Spare(a, blank)
    ensures Similar(Rotate(b, blank), Rotate(a, blank), olds, late, extra)
    ensures forall g | g in extra :: View(Rotate(a, blank), g) == View(a, g)
  {
    assert Unlocked(SimilarLock, 0);
    RotateKeys(b, a, olds, extra, blank);
    RotateSegs(b, a, olds, late, extra, blank);
  }

  lemma RotateKeys<S>(b: State<S>, a: State<S>, olds: set<S>, extra: set<S>, blank: S)
    requires AlikeKeys(b, a, olds, extra) && b == a.(segs := b.segs, ids := b.ids, phase := b.phase)
    requires Spare(a, blank) && View(b, a.active) == View(a, a.active)
    ensures AlikeKeys(Rotate(b, blank), Rotate(a, blank), olds, extra)
    ensures forall g | g in extra :: View(Rotate(a, blank), g) == View(a, g)
  {
  }

  lemma RotateSegs<S>(b: State<S>, a: State<S>, olds: set<S>, late: set<Document>, extra: set<S>, blank: S)
    requires Alike(b, a, olds, late, extra) && b == a.(segs := b.segs, ids := b.ids, phase := b.phase) && Spare(a, blank)
    ensures AlikeSegs(Rotate(b, blank), Rotate(a, blank), olds, late)
  {
    assert View(b, a.active) == View(a, a.active);
  }

  lemma AppendSimilar<S>(b: State<S>, a: State<S>, olds: set<S>, late: set<Document>, extra: set<S>, doc: Document)
    requires Similar(b, a, olds, late, extra) && doc !in a.ids
    ensures Similar(Append(b, doc), Append(a, doc), olds, late, extra)
    ensures forall g | g in extra :: View(Append(a, doc), g) == View(a, g)
  {
    assert Unlocked(SimilarLock, 0);
    assert View(b, a.active) == View(a, a.active);
    assert AlikeKeys(Append(b, doc), Append(a, doc), olds, extra);
    AppendSegs(b, a, olds, late, extra, doc);
  }

  lemma AppendSegs<S>(b: State<S>, a: State<S>, olds: set<S>, late: set<Document>, extra: set<S>, doc: Document)
    requires Alike(b, a, olds, late, extra) && b.active == a.active && doc !in a.ids
    ensures AlikeSegs(Append(b, doc), Append(a, doc), olds, late)
  {
    assert View(b, a.active) == View(a, a.active);
  }

  lemma AddSimilar<S>(b: State<S>, a: State<S>, olds: set<S>, late: set<Document>, extra: set<S>, doc: Document, blank: S)
    requires Similar(b, a, olds, late, extra) && doc !in a.ids && Spare(a, blank)
    ensures Similar(HandleAdd(b, doc, blank), HandleAdd(a, doc, blank), olds, late, extra)
    ensures forall g | g in extra :: View(HandleAdd(a, doc, blank), g) == View(a, g)
  {
    RotateSimilar(b, a, olds, late, extra, blank);
    RemoveSimilar(Rotate(b, blank), Rotate(a, blank), olds, late, extra, doc.pk);
    AppendSimilar(RemoveAll(Rotate(b, blank), doc.pk), RemoveAll(Rotate(a, blank), doc.pk), olds, late, extra, doc);
  }

  lemma QueueSimilar<S>(b: State<S>, a: State<S>, olds: set<S>, late: set<Document>, extra: set<S>, q: seq<Task>)
    requires Similar(b, a, olds, late, extra)
    ensures Similar(b.(queue := q), a.(queue := q), olds, late, extra)
  {
    assert Unlocked(SimilarLock, 0);
    assert Alike(b.(queue := q), a.(queue := q), olds, late, extra);
  }

  lemma AddKeepsIds<S>(b: State<S>, doc: Document, blank: S)
    ensures HandleAdd(b, doc, blank).phase == b.phase
    ensures forall d | d in b.ids && d != doc :: d in HandleAdd(b, doc, blank).ids && HandleAdd(b, doc, blank).ids[d] == b.ids[d]
  {
  }

  /** A task of a caller does the same to both states. */
  lemma TaskSimilar<S>(b: State<S>, a: State<S>, olds: set<S>, late: set<Document>, extra: set<S>, blank: S)
    requires Similar(b, a, olds, late, extra) && SpareForInput(a, blank) && OfCaller(a)
    ensures Similar(Input(b, blank), Input(a, blank), olds, late, extra)
    ensures Input(b, blank).phase == b.phase && Input(a, blank).phase == a.phase
    ensures forall g | g in extra :: View(Input(a, blank), g) == View(a, g)
    ensures forall d | d in b.ids :: d in Input(b, blank).ids && Input(b, blank).ids[d] == b.ids[d]
  {
    var b', a' := b.(queue := b.queue[1..]), a.(queue := a.queue[1..]);
    assert b.ids.Keys == a.ids.Keys by { assert Unlocked(SimilarLock, 0); }
    QueueSimilar(b, a, olds, late, extra, a.queue[1..]);
    if a.queue[0].AddTask? {
      var doc := a.queue[0].doc;
      AddSimilar(b', a', olds, late, extra, doc, blank);
      AddKeepsIds(b', doc, blank);
      AddKeepsIds(a', doc, blank);
    } else {
      var pk := a.queue[0].pk;
      RemoveSimilar(b', a', olds, late, extra, pk);
      MdSimilar(RemoveAll(b', pk), RemoveAll(a', pk), olds, late, extra, a.md + [pk]);
    }
  }

  lemma MdSimilar<S>(b: State<S>, a: State<S>, olds: set<S>, late: set<Document>, extra: set<S>, md: seq<nat>)
    requires Similar(b, a, olds, late, extra)
    ensures Similar(b.(md := md), a.(md := md), olds, late, extra)
  {
    assert Unlocked(SimilarLock, 0);
    assert Alike(b.(md := md), a.(md := md), olds, late, extra);
  }

  /** The next task is an add of a new document or a removal. */
  ghost predicate OfCaller<S>(a: State<S>) {
    a.queue != [] && match a.queue[0]
      case AddTask(doc) => doc !in a.ids
      case RemoveTask(_) => true
      case _ => false
  }

  // ----- one move -----

  lemma EnabledToo<S>(f: Fine<S>, a: State<S>, l: Label<S>)
    requires As(f, a) && Possible(f, Whole(l))
    ensures Enabled(a, l)
  {
    assert Unlocked(FineLock, 0);
    assert Unlocked(SimilarLock, 0);
  }

  /** At rest, every step of the protocol. */
  lemma RestingStep<S>(b: State<S>, a: State<S>, l: Label<S>)
    requires Inv(a) && RestingAs(b, a) && Enabled(a, l) && Enabled(b, l) && !l.RunMigrate?
    ensures RestingAs(Step(b, l), Step(a, l))
  {
    if a.phase.Migrated? || a.phase.Replaced? {
      match l
      case SubmitAdd(doc) => RestingSubmit(b, a, AddTask(doc));
      case SubmitRemove(pk) => RestingSubmit(b, a, RemoveTask(pk));
      case RunInput(blank) => RestingInput(b, a, blank);
      case RunQueueReplace => RestingQueue(b, a);
      case RunRelease => RestingRelease(b, a);
      case _ =>
    }
  }

  lemma RestingSubmit<S>(b: State<S>, a: State<S>, t: Task)
    requires RestingAs(b, a) && (a.phase.Migrated? || a.phase.Replaced?)
    ensures RestingAs(Submit(b, t), Submit(a, t))
  {
    QueueSimilar(b, a, {a.phase.m1, a.phase.m2}, {}, {}, a.queue + [t]);
  }

  lemma RestingQueue<S>(b: State<S>, a: State<S>)
    requires RestingAs(b, a) && (a.phase.Migrated? || a.phase.Replaced?)
    ensures RestingAs(QueueReplace(b), QueueReplace(a))
  {
    if a.phase.Migrated? {
      QueueSimilar(b, a, {a.phase.m1, a.phase.m2}, {}, {}, a.queue + [ReplaceTask]);
      PhaseSimilar(b.(queue := a.queue + [ReplaceTask]), a.(queue := a.queue + [ReplaceTask]), {a.phase.m1, a.phase.m2}, {}, {},
                   a.phase.(queued := true));
    }
  }

  lemma PhaseSimilar<S>(b: State<S>, a: State<S>, olds: set<S>, late: set<Document>, extra: set<S>, phase: Phase<S>)
    requires Similar(b, a, olds, late, extra)
    ensures Similar(b.(phase := phase), a.(phase := phase), olds, late, extra)
  {
    assert Unlocked(SimilarLock, 0);
    assert Alike(b.(phase := phase), a.(phase := phase), olds, late, extra);
  }

  lemma RestingInput<S>(b: State<S>, a: State<S>, blank: S)
    requires Inv(a) && RestingAs(b, a) && (a.phase.Migrated? || a.phase.Replaced?) && SpareForInput(a, blank)
    ensures RestingAs(Input(b, blank), Input(a, blank))
  {
    if a.queue != [] {
      NextTask(a);
      if a.queue[0].ReplaceTask? {
        RestingReplace(b.(queue := b.queue[1..]), a.(queue := a.queue[1..]));
      } else {
        TaskSimilar(b, a, {a.phase.m1, a.phase.m2}, {}, {}, blank);
      }
    }
  }

  lemma NextTask<S>(a: State<S>)
    requires Inv(a) && a.queue != []
    ensures a.queue[0].ReplaceTask? ==> Replacing(a)
    ensures a.queue[0].RedeleteTask? ==> a.phase.Redeleting?
    ensures !a.queue[0].ReplaceTask? && !a.queue[0].RedeleteTask? ==> OfCaller(a)
  {
    QueueTail(a.queue, a.ids.Keys, Replacing(a), a.phase.Redeleting?);
  }

  lemma RestingReplace<S>(b: State<S>, a: State<S>)
    requires Listed(a) && Merging(a) && a.phase.Migrated? && RestingAs(b, a)
    ensures RestingAs(HandleReplace(b), HandleReplace(a))
  {
    var n := a.phase.newseg;
    var list := AfterReplace(a);
    assert n in b.segs && b.segs[n] == a.segs[n] by { assert Unlocked(SimilarLock, 0); }
    ReplaceMembers(a.list, a.phase.m1, a.phase.m2, n);
    ReplaceIs(a);
    ReplaceIs(b);
    ListSimilar(b, a, {a.phase.m1, a.phase.m2}, n, list, Installed(a.segs[n]), Replaced(a.phase.m1, a.phase.m2, n, a.phase.dead));
  }

  ghost function Installed(v: SegV): SegV {
    if v.docs == [] then v else v.(state := v.state + 1)
  }

  ghost function AfterReplace<S>(s: State<S>): seq<S>
    requires s.phase.Migrated?
  {
    var rest := Without(Without(s.list, s.phase.m1), s.phase.m2);
    if Docs(s, s.phase.newseg) == [] then rest else [s.phase.newseg] + rest
  }

  lemma ReplaceIs<S>(s: State<S>)
    requires s.phase.Migrated? && s.phase.newseg in s.segs
    ensures var n := s.phase.newseg;
      HandleReplace(s) == s.(segs := s.segs[n := Installed(s.segs[n])], list := AfterReplace(s),
                             phase := Replaced(s.phase.m1, s.phase.m2, n, s.phase.dead))
  {
    assert s.segs[s.phase.newseg := s.segs[s.phase.newseg]] == s.segs;
  }

  lemma ListSimilar<S>(b: State<S>, a: State<S>, olds: set<S>, n: S, list: seq<S>, w: SegV, phase: Phase<S>)
    requires Similar(b, a, olds, {}, {}) && n in a.segs && n !in olds && a.active in list && !phase.Idle?
    requires forall g | g in list :: g in a.list || g == n
    ensures Similar(b.(segs := b.segs[n := w], list := list, phase := phase),
                    a.(segs := a.segs[n := w], list := list, phase := phase), olds, {}, {})
  {
    assert Unlocked(SimilarLock, 0);
    assert Alike(b.(segs := b.segs[n := w], list := list, phase := phase),
                 a.(segs := a.segs[n := w], list := list, phase := phase), olds, {}, {});
  }

  lemma RestingRelease<S>(b: State<S>, a: State<S>)
    requires Inv(a) && RestingAs(b, a)
    ensures RestingAs(Release(b), Release(a))
  {
    if a.phase.Replaced? {
      assert Unlocked(SimilarLock, 0);
      assert b.ids == a.ids;
      assert Docs(b, a.phase.newseg) == Docs(a, a.phase.newseg);
      assert b.segs - {a.phase.m1, a.phase.m2} == a.segs - {a.phase.m1, a.phase.m2};
    }
  }

  /** While the first segment is walked over. */
  lemma FirstStep<S>(f: Fine<S>, a: State<S>, l: Label<S>)
    requires Inv(a) && f.p.Walking? && FirstAs(f, a) && Possible(f, Whole(l))
    ensures FirstAs(Next(f, Whole(l)), Step(a, l))
  {
    if l.RunInput? && a.queue != [] {
      QueueTail(a.queue, a.ids.Keys, Replacing(a), a.phase.Redeleting?);
    }
  }

  /** While the second segment is walked over. */
  lemma SecondStep<S>(f: Fine<S>, a: State<S>, l: Label<S>)
    requires Inv(a) && f.p.Walking? && SecondAs(f, a) && Possible(f, Whole(l)) && Enabled(a, l)
    ensures SecondAs(Next(f, Whole(l)), Step(a, l))
  {
    match l
    case SubmitAdd(doc) => SecondSubmit(f, a, AddTask(doc));
    case SubmitRemove(pk) => SecondSubmit(f, a, RemoveTask(pk));
    case RunInput(blank) => if a.queue != [] { SecondInput(f, a, blank); }
  }

  lemma SecondSubmit<S>(f: Fine<S>, a: State<S>, t: Task)
    requires f.p.Walking? && SecondAs(f, a)
    ensures SecondAs(f.(s := Submit(f.s, t)), Submit(a, t))
  {
    QueueSimilar(f.s, a, {a.phase.m1, a.phase.m2}, Late(f, a), {f.p.n}, a.queue + [t]);
    assert Late(f.(s := Submit(f.s, t)), Submit(a, t)) == Late(f, a);
  }

  lemma SecondInput<S>(f: Fine<S>, a: State<S>, blank: S)
    requires Inv(a) && f.p.Walking? && SecondAs(f, a) && a.queue != [] && SpareForInput(a, blank)
    ensures SecondAs(f.(s := Input(f.s, blank)), Input(a, blank))
  {
    NextTask(a);
    TaskSimilar(f.s, a, {a.phase.m1, a.phase.m2}, Late(f, a), {f.p.n}, blank);
    SecondKept(f, a, f.(s := Input(f.s, blank)), Input(a, blank));
  }

  lemma SecondKept<S>(f: Fine<S>, a: State<S>, f': Fine<S>, a': State<S>)
    requires f.p.Walking? && SecondAs(f, a) && f' == f.(s := f'.s) && f'.s.phase == f.s.phase && a'.phase == a.phase
    requires Similar(f'.s, a', {a.phase.m1, a.phase.m2}, Late(f, a), {f.p.n}) && View(a', f.p.n) == View(a, f.p.n)
    requires forall d | d in f.s.ids :: d in f'.s.ids && f'.s.ids[d] == f.s.ids[d]
    ensures SecondAs(f', a')
  {
    assert Late(f', a') == Late(f, a);
  }

  lemma BeginAs<S>(f: Fine<S>, a: State<S>, n: S)
    requires As(f, a) && Possible(f, Begin(n))
    ensures As(Next(f, Begin(n)), a)
  {
    assert Unlocked(FineLock, 0);
    forall d | d in Walk(Docs(a, a.phase.m1))
      ensures d in a.ids && a.ids[d] in View(a, a.phase.m1).deleted
    {
      assert d !in LiveDocs(View(a, a.phase.m1), a.ids);
    }
  }

  lemma VisitFirst<S>(f: Fine<S>, a: State<S>)
    requires f.p.Walking? && FirstAs(f, a) && f.p.todo != []
    ensures FirstAs(VisitOne(f), a)
  {
    var d := f.p.todo[0];
    assert f.p.dead + f.p.todo == f.p.dead + [d] + f.p.todo[1..];
  }

  lemma FilterCons(docs: seq<Document>, keep: set<Document>)
    requires docs != []
    ensures Filter(docs, keep) == (if docs[0] in keep then [docs[0]] else []) + Filter(docs[1..], keep)
  {
    assert docs == [docs[0]] + docs[1..];
    FilterConcat([docs[0]], docs[1..], keep);
    FilterSnoc([], docs[0], keep);
    assert [] + [docs[0]] == [docs[0]];
  }

  lemma {:induction false} FilterSame(docs: seq<Document>, a: set<Document>, b: set<Document>)
    requires forall d | d in docs :: d in a <==> d in b
    ensures Filter(docs, a) == Filter(docs, b)
  {
    if docs != [] {
      assert forall d | d in docs[..|docs| - 1] :: d in docs;
      FilterSame(docs[..|docs| - 1], a, b);
    }
  }

  lemma {:induction false} FilterAll(docs: seq<Document>, keep: set<Document>)
    requires forall d | d in docs :: d in keep
    ensures Filter(docs, keep) == docs
  {
    if docs != [] {
      var n := |docs| - 1;
      assert docs == docs[..n] + [docs[n]];
      FilterAll(docs[..n], keep);
      assert docs[n] in docs;
    }
  }

  lemma PartsOne(done: seq<Document>, todo: seq<Document>, all: seq<Document>)
    requires todo != [] && Parts(done, todo, all)
    ensures var d := todo[0];
      if d in all then Parts(done + [d], todo[1..], all) && |done| < |all| && all[|done|] == d
      else Parts(done, todo[1..], all)
  {
    var d, rest := todo[0], Filter(todo[1..], Elems(all));
    FilterCons(todo, Elems(all));
    if d in all {
      assert done + ([d] + rest) == done + [d] + rest;
    } else {
      assert [] + rest == rest;
    }
  }

  lemma TodoTail(todo: seq<Document>, moved: seq<Document>, dead: seq<Document>)
    requires todo != [] && Divided(todo, moved, dead)
    ensures Divided(todo[1..], moved, dead) && todo[0] !in todo[1..] && (todo[0] in moved <==> todo[0] !in dead)
  {
  }

  /** One document goes over. */
  lemma WalkedOver<S>(p: Progress<S>, moved: seq<Document>, dead: seq<Document>, d: Document)
    requires p.Walking? && Walked(p, moved, dead) && p.todo != [] && d == p.todo[0] && |moved| < UINT32 - 1 && d in moved
    ensures Walked(p.(todo := p.todo[1..], v := AddV(p.v, d)), moved, dead)
    ensures d !in p.todo[1..] && |p.v.docs| < |moved| && moved[|p.v.docs|] == d
  {
    TodoTail(p.todo, moved, dead);
    PartsOne(p.v.docs, p.todo, moved);
    PartsOne(p.dead, p.todo, dead);
    AddOne(p.v, d);
  }

  lemma AddOne(v: SegV, d: Document)
    requires v == SegV(v.docs, {}, STATE_ACTIVE, |v.docs| + 1) && |v.docs| < UINT32 - 2
    ensures AddV(v, d) == SegV(v.docs + [d], {}, STATE_ACTIVE, |v.docs + [d]| + 1)
  {
  }

  /** One document goes to the dead. */
  lemma WalkedDead<S>(p: Progress<S>, moved: seq<Document>, dead: seq<Document>, d: Document)
    requires p.Walking? && Walked(p, moved, dead) && p.todo != [] && d == p.todo[0] && d !in moved
    ensures Walked(p.(todo := p.todo[1..], dead := p.dead + [d]), moved, dead) && d !in p.todo[1..]
  {
    TodoTail(p.todo, moved, dead);
    PartsOne(p.v.docs, p.todo, moved);
    PartsOne(p.dead, p.todo, dead);
  }

  lemma VisitSecond<S>(f: Fine<S>, a: State<S>)
    requires Inv(a) && f.p.Walking? && SecondAs(f, a) && f.p.todo != []
    ensures SecondAs(VisitOne(f), a)
  {
    assert f.p.todo[0] in f.p.todo;
    if f.p.todo[0] in Docs(a, f.p.n) {
      NewsegNumbered(a);
      VisitMoved(f, a);
    } else {
      VisitDead(f, a);
    }
  }

  lemma VisitMoved<S>(f: Fine<S>, a: State<S>)
    requires f.p.Walking? && SecondAs(f, a) && f.p.todo != [] && f.p.todo[0] in Docs(a, f.p.n)
    requires InOrder(Docs(a, f.p.n), a.ids)
    ensures SecondAs(VisitOne(f), a)
  {
    var d := f.p.todo[0];
    WalkedOver(f.p, Docs(a, f.p.n), a.phase.dead, d);
    LessLate(f.s, a, {a.phase.m1, a.phase.m2}, Late(f, a), {f.p.n}, d);
    VisitIs(f, a.ids[d]);
    VisitedIs(f, a, VisitOne(f));
  }

  lemma VisitIs<S>(f: Fine<S>, id: nat)
    requires f.p.Walking? && f.p.todo != [] && id == f.p.v.nextId && IdOf(f.s.ids, f.p.todo[0]) !in f.p.bits
    ensures var d := f.p.todo[0];
      VisitOne(f) == Fine(f.s.(ids := f.s.ids[d := id]), f.p.(todo := f.p.todo[1..], v := AddV(f.p.v, d)))
  {
  }

  lemma VisitDead<S>(f: Fine<S>, a: State<S>)
    requires f.p.Walking? && SecondAs(f, a) && f.p.todo != [] && f.p.todo[0] !in Docs(a, f.p.n)
    ensures SecondAs(VisitOne(f), a)
  {
    WalkedDead(f.p, Docs(a, f.p.n), a.phase.dead, f.p.todo[0]);
    assert Late(f, a) - {f.p.todo[0]} == Late(f, a);
    VisitedIs(f, a, VisitOne(f));
  }

  /** Documents with the ids 1, 2, ... */
  ghost predicate InOrder(docs: seq<Document>, ids: Ids) {
    |docs| < UINT32 - 1 && forall i :: 0 <= i < |docs| ==> docs[i] in ids && ids[docs[i]] == i + 1
  }

  lemma NewsegNumbered<S>(a: State<S>)
    requires Inv(a) && a.phase.Migrated?
    ensures InOrder(Docs(a, a.phase.newseg), a.ids)
  {
    assert Sound(a, a.phase.newseg);
  }

  lemma VisitedIs<S>(f: Fine<S>, a: State<S>, f': Fine<S>)
    requires f.p.Walking? && SecondAs(f, a) && f.p.todo != [] && f'.p.Walking? && f'.p.n == f.p.n && f'.p.bits == f.p.bits
    requires f'.p.todo == f.p.todo[1..] && f.p.todo[0] !in f'.p.todo && f'.s.phase == f.s.phase
    requires Walked(f'.p, Docs(a, f.p.n), a.phase.dead)
    requires Similar(f'.s, a, {a.phase.m1, a.phase.m2}, Late(f, a) - {f.p.todo[0]}, {f.p.n})
    requires forall x | x in f.s.ids && x != f.p.todo[0] :: x in f'.s.ids && f'.s.ids[x] == f.s.ids[x]
    ensures SecondAs(f', a)
  {
    assert f.p.todo == [f.p.todo[0]] + f'.p.todo;
    assert Late(f', a) == Late(f, a) - {f.p.todo[0]};
  }

  lemma LessLate<S>(b: State<S>, a: State<S>, olds: set<S>, late: set<Document>, extra: set<S>, d: Document)
    requires Similar(b, a, olds, late, extra) && d in late && d in a.ids
    ensures Similar(b.(ids := b.ids[d := a.ids[d]]), a, olds, late - {d}, extra)
  {
    assert Unlocked(SimilarLock, 0);
  }

  /** The protocol migrates when the bitmap of the second segment is copied. */
  lemma TurnAs<S>(f: Fine<S>, a: State<S>)
    requires As(f, a) && Possible(f, Turn)
    ensures Enabled(a, RunMigrate(f.p.n)) && As(Next(f, Turn), Migrate(a, f.p.n))
  {
    assert Unlocked(FineLock, 0);
    var f', n := Next(f, Turn), f.p.n;
    MigrationPartitions(a);
    TurnTodo(a);
    TurnSimilar(f, a);
    assert f.p.dead == Walk(Docs(a, a.phase.m1));
    TurnWalked(a, f'.p);
    StepInv(a, RunMigrate(n));
    TurnIs(f', Migrate(a, n), Moved(a), Dead(a));
  }

  lemma TurnIs<S>(f: Fine<S>, r: State<S>, moved: seq<Document>, dead: seq<Document>)
    requires f.p.Walking? && f.s.phase.Chosen? && r.phase == Migrated(f.s.phase.m1, f.s.phase.m2, f.p.n, dead, false)
    requires View(r, f.p.n) == SegV(moved, {}, STATE_ACTIVE, |moved| + 1)
    requires Similar(f.s, r, {f.s.phase.m1, f.s.phase.m2}, Elems(moved), {f.p.n}) && Walked(f.p, moved, dead)
    requires Elems(moved) <= Elems(f.p.todo)
    requires forall d | d in f.p.todo :: d in f.s.ids && (f.s.ids[d] in f.p.bits <==> d !in moved)
    ensures SecondAs(f, r)
  {
    assert Late(f, r) == Elems(moved);
  }

  /** In the second segment a document is live if and only if it is moved. */
  lemma TurnTodo<S>(a: State<S>)
    requires Inv(a) && a.phase.Chosen? && Splits(a, Moved(a), Dead(a))
    ensures var v := View(a, a.phase.m2);
      && Distinct(Walk(v.docs)) && Elems(Moved(a)) == LiveDocs(v, a.ids) <= Elems(Walk(v.docs))
      && (forall d | d in Walk(v.docs) :: d in a.ids && (a.ids[d] in v.deleted <==> d !in Moved(a)) && (d in Moved(a) <==> d !in Dead(a)))
  {
    var v := View(a, a.phase.m2);
    OldsApart(a);
    OldsStored(a);
    NumberedDistinct(v, a.ids);
    WalkIsPermutation(v.docs);
    forall d | d in Walk(v.docs)
      ensures d in a.ids && (a.ids[d] in v.deleted <==> d !in Moved(a)) && (d in Moved(a) <==> d !in Dead(a))
    {
      assert d in Elems(v.docs) && d in Olds(a);
      assert d in Moved(a) <==> d in Elems(Moved(a));
      assert d in Dead(a) <==> d in Elems(Dead(a));
    }
  }

  lemma TurnSimilar<S>(f: Fine<S>, a: State<S>)
    requires Inv(a) && a.phase.Chosen? && f.p.Walking? && f.p.n !in a.segs && f.s == a
    requires Splits(a, Moved(a), Dead(a))
    ensures Similar(a, Migrate(a, f.p.n), {a.phase.m1, a.phase.m2}, Elems(Moved(a)), {f.p.n})
  {
    var moved, n := Moved(a), f.p.n;
    MigrationRenumbers(a, moved, Dead(a));
    MigratedAlike(a, MigrateTo(a, n, moved, Dead(a), Renumber(a.ids, moved)), n, moved);
  }

  lemma MigratedAlike<S>(a: State<S>, r: State<S>, n: S, moved: seq<Document>)
    requires Inv(a) && a.phase.Chosen? && n !in a.segs && Splits(a, moved, Dead(a)) && Renumbers(a, moved, r.ids)
    requires r == a.(segs := r.segs, ids := r.ids, phase := r.phase) && !r.phase.Idle?
    requires r.segs == a.segs[n := View(r, n)]
    ensures Similar(a, r, {a.phase.m1, a.phase.m2}, Elems(moved), {n})
  {
    OldsStored(a);
    NoneMoved(a, moved);
    AlikeIs(a, r, n, a.phase.m1, a.phase.m2, moved);
  }

  lemma NoneMoved<S>(a: State<S>, moved: seq<Document>)
    requires Inv(a) && a.phase.Chosen? && Splits(a, moved, Dead(a))
    ensures Elems(moved) <= Olds(a)
    ensures forall g | g in a.list && g != a.phase.m1 && g != a.phase.m2 :: NoneOf(View(a, g).docs, Elems(moved))
  {
    MovedAreOld(a, moved, Dead(a));
    forall g | g in a.list && g != a.phase.m1 && g != a.phase.m2
      ensures NoneOf(View(a, g).docs, Elems(moved))
    {
      NotOld(a, g);
      assert NoneOf(Docs(a, g), Olds(a));
    }
  }

  lemma AlikeIs<S>(a: State<S>, r: State<S>, n: S, m1: S, m2: S, moved: seq<Document>)
    requires n !in a.segs && m1 in a.segs && m2 in a.segs && a.active in a.list && a.active != m1 && a.active != m2
    requires (forall g | g in a.list :: g in a.segs) && Elems(moved) <= a.ids.Keys
    requires r.list == a.list && r.active == a.active && r.segs == a.segs[n := View(r, n)]
    requires r.ids.Keys == a.ids.Keys && forall d | d in a.ids && d !in moved :: r.ids[d] == a.ids[d]
    requires forall g | g in a.list && g != m1 && g != m2 :: NoneOf(View(a, g).docs, Elems(moved))
    ensures Alike(a, r, {m1, m2}, Elems(moved), {n})
  {
    assert r.segs.Keys == a.segs.Keys + {n};
  }

  lemma TurnWalked<S>(a: State<S>, p: Progress<S>)
    requires Inv(a) && a.phase.Chosen? && Splits(a, Moved(a), Dead(a)) && p.Walking? && p.v == EMPTY_SEG
    requires p.todo == Walk(Docs(a, a.phase.m2)) && p.dead == Walk(Docs(a, a.phase.m1))
    ensures Walked(p, Moved(a), Dead(a))
  {
    TurnTodo(a);
    OldsApart(a);
    SpentWalk(View(a, a.phase.m1), a.ids);
    TurnParts(View(a, a.phase.m2), a.ids, Walk(Docs(a, a.phase.m1)), Moved(a), Dead(a));
  }

  lemma SpentWalk(v: SegV, ids: Ids)
    requires Numbered(v, ids) && LiveDocs(v, ids) == {}
    ensures Survivors(v, ids) == [] && Casualties(v, ids) == Walk(v.docs)
  {
    MigrationSplits(v, ids);
    HeadInElems(Survivors(v, ids));
    FilterAll(Walk(v.docs), Elems(v.docs) - LiveDocs(v, ids));
  }

  lemma TurnParts(v: SegV, ids: Ids, spent: seq<Document>, moved: seq<Document>, dead: seq<Document>)
    requires moved == [] + Survivors(v, ids) && dead == spent + Casualties(v, ids)
    requires Elems(moved) == LiveDocs(v, ids) && forall d | d in Walk(v.docs) :: d in moved <==> d !in dead
    ensures Parts([], Walk(v.docs), moved) && Parts(spent, Walk(v.docs), dead)
  {
    forall d | d in Walk(v.docs)
      ensures d in Elems(v.docs) - LiveDocs(v, ids) <==> d in Elems(dead)
    {
      assert d in moved <==> d in Elems(moved);
    }
    FilterSame(Walk(v.docs), LiveDocs(v, ids), Elems(moved));
    FilterSame(Walk(v.docs), Elems(v.docs) - LiveDocs(v, ids), Elems(dead));
  }

  lemma FinishAs<S>(f: Fine<S>, a: State<S>)
    requires As(f, a) && Possible(f, Finish)
    ensures As(Next(f, Finish), a)
  {
    assert Unlocked(FineLock, 0);
    assert Late(f, a) == {};
    FinishSimilar(f.s, a, {a.phase.m1, a.phase.m2}, f.p.n, f.p.v, a.phase);
  }

  lemma FinishSimilar<S>(b: State<S>, a: State<S>, olds: set<S>, n: S, v: SegV, phase: Phase<S>)
    requires Similar(b, a, olds, {}, {n}) && v == View(a, n) && n !in olds && phase.Idle? == b.phase.Idle?
    ensures Similar(b.(segs := b.segs[n := v], phase := phase), a, olds, {}, {})
  {
    assert Unlocked(SimilarLock, 0);
    assert Alike(b.(segs := b.segs[n := v], phase := phase), a, olds, {}, {});
  }

  /** Whatever the move, the protocol follows. */
  lemma MoveAs<S>(f: Fine<S>, a: State<S>, mv: Move<S>)
    requires As(f, a) && Possible(f, mv)
    ensures var image := Image(f, mv);
      && (image.Some? ==> Enabled(a, image.value))
      && As(Next(f, mv), Follow(a, image))
  {
    match mv
    case Whole(l) => WholeAs(f, a, l);
    case Begin(n) => BeginAs(f, a, n);
    case Visit => VisitAs(f, a);
    case Turn => TurnAs(f, a);
    case Finish => FinishAs(f, a);
  }

  lemma WholeAs<S>(f: Fine<S>, a: State<S>, l: Label<S>)
    requires As(f, a) && Possible(f, Whole(l))
    ensures Enabled(a, l) && As(Next(f, Whole(l)), Step(a, l))
  {
    assert Unlocked(FineLock, 0);
    EnabledToo(f, a, l);
    StepInv(a, l);
    if f.p.Resting? {
      RestingStep(f.s, a, l);
    } else if f.p.second {
      SecondStep(f, a, l);
    } else {
      FirstStep(f, a, l);
    }
  }

  lemma VisitAs<S>(f: Fine<S>, a: State<S>)
    requires As(f, a) && Possible(f, Visit)
    ensures As(Next(f, Visit), a)
  {
    assert Unlocked(FineLock, 0);
    if f.p.second {
      VisitSecond(f, a);
    } else {
      VisitFirst(f, a);
    }
  }

  // ----- what is seen -----

  /** What is seen at any time of a migration is what the protocol shows. */
  lemma SeenIsVisible<S>(f: Fine<S>, a: State<S>)
    requires As(f, a)
    ensures Seen(f) == Visible(a)
  {
    assert Unlocked(FineLock, 0);
    if f.p.Resting? {
      RestingVisible(f.s, a);
    } else if f.p.second {
      SecondVisible(f, a);
    }
  }

  lemma RestingVisible<S>(b: State<S>, a: State<S>)
    requires Inv(a) && RestingAs(b, a)
    ensures Visible(b) == Visible(a)
  {
    if a.phase.Migrated? || a.phase.Replaced? {
      SoundSame(b, a);
    }
  }

  lemma SoundSame<S>(b: State<S>, a: State<S>)
    requires Merging(a) && RestingAs(b, a) && (a.phase.Migrated? || a.phase.Replaced?)
    ensures b.ids == a.ids && b.segs.Keys == a.segs.Keys && Docs(b, a.phase.newseg) == Docs(a, a.phase.newseg)
    ensures forall g | g in a.segs && Sound(a, g) :: Sound(b, g) && b.segs[g] == a.segs[g]
  {
    assert Unlocked(SimilarLock, 0);
    forall g | g in a.segs && Sound(a, g)
      ensures b.segs[g] == a.segs[g]
    {
      assert View(b, g) == View(a, g);
    }
  }

  lemma ComingIsMoved<S>(f: Fine<S>, a: State<S>)
    requires f.p.Walking? && SecondAs(f, a)
    ensures forall d :: d in Coming(f) <==> d in Docs(a, f.p.n)
  {
    var moved := Docs(a, f.p.n);
    assert moved == f.p.v.docs + Filter(f.p.todo, Elems(moved));
    forall d | d in f.p.todo
      ensures d in Coming(f) <==> d in moved
    {
      assert IdOf(f.s.ids, d) == f.s.ids[d];
      assert d in f.p.v.docs ==> d in moved;
    }
  }

  /** The documents of a pending merge that are not in the new segment. */
  ghost function Others<S>(a: State<S>): set<Document>
    requires a.phase.Migrated?
  {
    set g, d | g in a.segs && g in a.list && g != a.phase.m1 && g != a.phase.m2 && d in LiveDocs(a.segs[g], a.ids) :: d
  }

  lemma ElsewhereSame<S>(f: Fine<S>, a: State<S>)
    requires Inv(a) && f.p.Walking? && SecondAs(f, a)
    ensures Elsewhere(f.s) == Others(a)
  {
    assert Unlocked(SimilarLock, 0);
    forall g | g in a.list && g != a.phase.m1 && g != a.phase.m2
      ensures g in f.s.segs && f.s.segs[g] == a.segs[g] && LiveDocs(f.s.segs[g], f.s.ids) == LiveDocs(a.segs[g], a.ids)
    {
      assert NoneOf(f.s.segs[g].docs, Late(f, a));
      assert forall d | d in a.segs[g].docs :: IdOf(f.s.ids, d) == IdOf(a.ids, d);
    }
  }

  /** While a replacement is pending, nothing recorded hides a document elsewhere. */
  lemma PendingVisible<S>(a: State<S>)
    requires Inv(a) && a.phase.Migrated? && View(a, a.phase.newseg).deleted == {}
    ensures Visible(a) == Others(a) + set d | d in Docs(a, a.phase.newseg) && d.pk !in a.md
  {
    var n := a.phase.newseg;
    forall d
      ensures d in Visible(a) <==> d in Others(a) || (d in Docs(a, n) && d.pk !in a.md)
    {
      if d in Live(a) {
        var g := LiveHome(a, d);
        assert g == n || d in Others(a);
      }
      if d in Others(a) {
        var g :| g in a.segs && g in a.list && g != a.phase.m1 && g != a.phase.m2 && d in LiveDocs(a.segs[g], a.ids);
        assert Sound(a, g) && Sound(a, n) && d in Docs(a, g);
      }
      if d in Docs(a, n) {
        assert d in LiveDocs(a.segs[n], a.ids) && Sound(a, n);
      }
    }
  }

  lemma SecondVisible<S>(f: Fine<S>, a: State<S>)
    requires Inv(a) && f.p.Walking? && f.p.second && SecondAs(f, a)
    ensures Seen(f) == Visible(a)
  {
    ComingIsMoved(f, a);
    ElsewhereSame(f, a);
    PendingVisible(a);
    assert (set d | d in Coming(f) && d.pk !in f.s.md) == set d | d in Docs(a, f.p.n) && d.pk !in a.md;
  }

  // ----- what does harm -----

  /** A move does harm exactly when the step that it stands for does. */
  lemma HarmsSame<S>(f: Fine<S>, a: State<S>, mv: Move<S>)
    requires As(f, a) && Possible(f, mv)
    ensures var image := Image(f, mv); Harms(f, mv) <==> image.Some? && Harmful(a, image.value)
  {
    assert Unlocked(FineLock, 0);
    if mv.Whole? {
      if f.p.Resting? {
        RestingHarm(f.s, a, mv.l);
      } else if f.p.second {
        SecondHarm(f, a, mv.l);
      }
    }
  }

  lemma RestingHarm<S>(b: State<S>, a: State<S>, l: Label<S>)
    requires Inv(a) && RestingAs(b, a) && !l.RunMigrate?
    ensures Harmful(b, l) <==> Harmful(a, l)
  {
    if a.phase.Migrated? {
      assert Unlocked(SimilarLock, 0);
      assert b.ids == a.ids && View(b, a.phase.newseg) == View(a, a.phase.newseg);
    }
  }

  lemma SecondHarm<S>(f: Fine<S>, a: State<S>, l: Label<S>)
    requires Inv(a) && f.p.Walking? && f.p.second && SecondAs(f, a) && Possible(f, Whole(l))
    ensures Harms(f, Whole(l)) <==> Harmful(a, l)
  {
    ComingIsMoved(f, a);
    assert forall d :: d in LiveDocs(View(a, f.p.n), a.ids) <==> d in Coming(f);
  }

  /** One move shows exactly what the map shows if and only if it does no harm. */
  lemma MoveExact<S>(f: Fine<S>, a: State<S>, mv: Move<S>, m: map<nat, Document>)
    requires As(f, a) && Possible(f, mv) && Shows(f, m)
    ensures Shows(Next(f, mv), MapNext(f, mv, m)) <==> !Harms(f, mv)
  {
    var image, f' := Image(f, mv), Next(f, mv);
    MoveAs(f, a, mv);
    SeenIsVisible(f, a);
    SeenIsVisible(f', Follow(a, image));
    HarmsSame(f, a, mv);
    MapSame(f, a, mv, m);
    SameQueue(f, a);
    if image.Some? {
      StepExact(a, image.value, m);
    }
  }

  lemma MapSame<S>(f: Fine<S>, a: State<S>, mv: Move<S>, m: map<nat, Document>)
    requires As(f, a) && Possible(f, mv)
    ensures var image := Image(f, mv);
      MapNext(f, mv, m) == if image.Some? then SpecStep(a, image.value, m) else m
  {
    SameQueue(f, a);
  }

  lemma SameQueue<S>(f: Fine<S>, a: State<S>)
    requires As(f, a)
    ensures f.s.queue == a.queue && Inv(a)
  {
    assert Unlocked(FineLock, 0);
  }

  // ----- runs -----

  ghost predicate Runs<S>(f: Fine<S>, mvs: seq<Move<S>>)
    decreases |mvs|
  {
    mvs == [] || (Possible(f, mvs[0]) && Runs(Next(f, mvs[0]), mvs[1..]))
  }

  ghost function After<S>(f: Fine<S>, mvs: seq<Move<S>>): Fine<S>
    requires Runs(f, mvs)
    decreases |mvs|
  {
    if mvs == [] then f else After(Next(f, mvs[0]), mvs[1..])
  }

  /** The run of the protocol that a run stands for. */
  ghost function Images<S>(f: Fine<S>, mvs: seq<Move<S>>): seq<Label<S>>
    requires Runs(f, mvs)
    decreases |mvs|
  {
    if mvs == [] then []
    else
      var rest := Images(Next(f, mvs[0]), mvs[1..]);
      match Image(f, mvs[0])
      case None => rest
      case Some(l) => [l] + rest
  }

  /** Documents moved one by one, with other tasks in between: every such run is one of the
      protocol, in which a migration is a single step. */
  lemma {:induction false} RunRefines<S>(f: Fine<S>, a: State<S>, mvs: seq<Move<S>>)
    requires As(f, a) && Runs(f, mvs)
    ensures RunEnabled(a, Images(f, mvs)) && As(After(f, mvs), Run(a, Images(f, mvs)))
    decreases |mvs|
  {
    if mvs != [] {
      var image, f' := Image(f, mvs[0]), Next(f, mvs[0]);
      MoveAs(f, a, mvs[0]);
      RunRefines(f', Follow(a, image), mvs[1..]);
      if image.Some? {
        assert ([image.value] + Images(f', mvs[1..]))[1..] == Images(f', mvs[1..]);
      }
    }
  }

  lemma {:induction false} RunsOn<S>(f: Fine<S>, a: seq<Move<S>>, b: seq<Move<S>>)
    requires Runs(f, a) && Runs(After(f, a), b)
    ensures Runs(f, a + b) && After(f, a + b) == After(After(f, a), b) && Images(f, a + b) == Images(f, a) + Images(After(f, a), b)
    decreases |a|
  {
    if a == [] {
      assert a + b == b;
      assert [] + Images(f, b) == Images(f, b);
    } else {
      assert (a + b)[0] == a[0] && (a + b)[1..] == a[1..] + b;
      RunsOn(Next(f, a[0]), a[1..], b);
    }
  }

  /** The moves lead from one state to another and stand for these steps.  Closed. */
  ghost predicate Leads<S>(f: Fine<S>, mvs: seq<Move<S>>, g: Fine<S>, images: seq<Label<S>>) {
    forall n :: Unlocked(LeadsLock, n) ==> Runs(f, mvs) && After(f, mvs) == g && Images(f, mvs) == images
  }

  lemma NoMove<S>(f: Fine<S>)
    ensures Leads(f, [], f, [])
  {
  }

  lemma OneMove<S>(f: Fine<S>, mv: Move<S>)
    requires Possible(f, mv)
    ensures Leads(f, [mv], Next(f, mv), match Image(f, mv) case None => [] case Some(l) => [l])
  {
    assert [mv][1..] == [];
    assert Runs(Next(f, mv), []) && After(Next(f, mv), []) == Next(f, mv);
  }

  lemma LeadsOn<S>(f: Fine<S>, a: seq<Move<S>>, g: Fine<S>, x: seq<Label<S>>, b: seq<Move<S>>, h: Fine<S>, y: seq<Label<S>>)
    requires Leads(f, a, g, x) && Leads(g, b, h, y)
    ensures Leads(f, a + b, h, x + y)
  {
    assert Unlocked(LeadsLock, 0);
    RunsOn(f, a, b);
  }

  /** Visits all that is left of a segment. */
  lemma {:induction false} VisitRest<S>(f: Fine<S>) returns (mvs: seq<Move<S>>, g: Fine<S>)
    requires f.p.Walking?
    ensures Leads(f, mvs, g, [])
    ensures g.p.Walking? && g.p.todo == [] && g.p.n == f.p.n && g.p.second == f.p.second && g.s.phase == f.s.phase
    decreases |f.p.todo|
  {
    if f.p.todo == [] {
      mvs, g := [], f;
      NoMove(f);
    } else {
      OneMove(f, Visit);
      var rest;
      rest, g := VisitRest(Next(f, Visit));
      mvs := [Visit] + rest;
      LeadsOn(f, [Visit], Next(f, Visit), [], rest, g, []);
    }
  }

  /** Left alone, a migration that has begun comes to its end, and stands for the one step of
      the protocol. */
  lemma Undisturbed<S>(s: State<S>, n: S) returns (mvs: seq<Move<S>>)
    requires Inv(s) && s.phase.Chosen? && n !in s.segs
    ensures var f := Fine(s, Resting);
      Runs(f, mvs) && After(f, mvs).p.Resting? && Images(f, mvs) == [RunMigrate(n)] && As(After(f, mvs), Migrate(s, n))
  {
    var f, g;
    f := Fine(s, Resting);
    mvs, g := WholeMigration(s, n);
    assert Unlocked(LeadsLock, 0);
    AtRest(s);
    RunRefines(f, s, mvs);
    assert [RunMigrate(n)][1..] == [];
    assert Run(Migrate(s, n), []) == Migrate(s, n);
  }

  lemma WholeMigration<S>(s: State<S>, n: S) returns (mvs: seq<Move<S>>, g: Fine<S>)
    requires s.phase.Chosen? && n !in s.segs
    ensures Leads(Fine(s, Resting), mvs, g, [RunMigrate(n)]) && g.p.Resting?
  {
    var f := Fine(s, Resting);
    OneMove(f, Begin(n));
    var b := Next(f, Begin(n));
    var first, c := VisitRest(b);
    LeadsOn(f, [Begin(n)], b, [], first, c, []);
    OneMove(c, Turn);
    var d := Next(c, Turn);
    LeadsOn(f, [Begin(n)] + first, c, [] + [], [Turn], d, [RunMigrate(n)]);
    var second, e := VisitRest(d);
    LeadsOn(f, [Begin(n)] + first + [Turn], d, [] + [] + [RunMigrate(n)], second, e, []);
    OneMove(e, Finish);
    g := Next(e, Finish);
    LeadsOn(f, [Begin(n)] + first + [Turn] + second, e, [] + [] + [RunMigrate(n)] + [], [Finish], g, []);
    mvs := [Begin(n)] + first + [Turn] + second + [Finish];
    var none: seq<Label<S>> := [];
    assert none + none + [RunMigrate(n)] + none + none == [RunMigrate(n)];
  }

  lemma AtRest<S>(s: State<S>)
    requires Inv(s) && !s.phase.Migrated? && !s.phase.Replaced?
    ensures As(Fine(s, Resting), s)
  {
  }

  ghost predicate NoHarm<S>(f: Fine<S>, mvs: seq<Move<S>>)
    requires Runs(f, mvs)
    decreases |mvs|
  {
    mvs == [] || (!Harms(f, mvs[0]) && NoHarm(Next(f, mvs[0]), mvs[1..]))
  }

  ghost predicate AlwaysShows<S>(f: Fine<S>, mvs: seq<Move<S>>, m: map<nat, Document>)
    requires Runs(f, mvs)
    decreases |mvs|
  {
    Shows(f, m) && (mvs == [] || AlwaysShows(Next(f, mvs[0]), mvs[1..], MapNext(f, mvs[0], m)))
  }

  lemma {:induction false} ShownThroughout<S>(f: Fine<S>, a: State<S>, mvs: seq<Move<S>>, m: map<nat, Document>)
    requires As(f, a) && Runs(f, mvs) && Shows(f, m)
    ensures AlwaysShows(f, mvs, m) <==> NoHarm(f, mvs)
    decreases |mvs|
  {
    if mvs != [] {
      MoveExact(f, a, mvs[0], m);
      MoveAs(f, a, mvs[0]);
      if !Harms(f, mvs[0]) {
        ShownThroughout(Next(f, mvs[0]), Follow(a, Image(f, mvs[0])), mvs[1..], MapNext(f, mvs[0], m));
      }
    }
  }

  /** From a new engine on: merging is invisible at every moment, in the middle of a
      migration, too, if and only if no move does harm. */
  lemma MigrationIsInvisible<S>(cap: nat, first: S, mvs: seq<Move<S>>)
    requires 1 <= cap < UINT32 - 1 && Runs(Fine(Initial(cap, first), Resting), mvs)
    ensures var f := Fine(Initial(cap, first), Resting);
      && (AlwaysShows(f, mvs, map[]) <==> NoHarm(f, mvs))
      && RunEnabled(f.s, Images(f, mvs)) && As(After(f, mvs), Run(f.s, Images(f, mvs)))
  {
    var f := Fine(Initial(cap, first), Resting);
    InitialInv(cap, first);
    assert As(f, f.s);
    ShownThroughout(f, f.s, mvs, map[]);
    RunRefines(f, f.s, mvs);
  }
}
