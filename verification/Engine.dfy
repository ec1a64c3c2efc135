/** The engine with its merger, as an object in memory.  Every entry point, handler and
    merge procedure takes exactly the step that the protocol has for it. */
module Engine {
  import opened Basics
  import opened Documents
  import opened SegmentValues
  import opened Segments
  import opened Docids
  import opened ProtocolSafety
  import opened ProtocolRuns
  import opened Answers
  import S = Store
  import P = Protocol
  import Merge
  import LookupSpec
  import Bitmaps
  import Intersect

  const LOOKUP_MAX_SIZE: nat := 3000
  const ERROR_CODE_SUCCESS: int := 0
  const ERROR_CODE_INVALID_ARGUMENT: int := -1
  const ERROR_CODE_QUEUE_FULL: int := -2

  type State = P.State<Segment>

  /** What callers must see to: field names are unique within a document, and pk 0 is
      never removed. */
  ghost predicate Complete(s: State) {
    && (forall d | d in s.ids :: d.Checked() && UniqueNames(d.fields))
    && (forall t | t in s.queue :: CompleteTask(t))
    && (forall p | p in s.md :: p != 0)
  }

  ghost predicate CompleteTask(t: P.Task) {
    match t
    case AddTask(doc) => doc.Checked() && UniqueNames(doc.fields)
    case RemoveTask(pk) => pk != 0
    case _ => true
  }

  /** The invariant of the protocol.  Closed. */
  ghost predicate Kept(s: State) {
    forall n :: Unlocked(KeptLock, n) ==> P.Inv(s) && Complete(s)
  }

  /** The same without the queue: what holds while a task runs. */
  ghost predicate Sane(s: State) {
    forall n :: Unlocked(SaneLock, n) ==> Core(s) && P.Small(s) && s.cap == S.SEGMENT_MAX_DOC
  }

  class Engine {
    var segments: seq<Segment>
    var segmentActive: Segment
    var inputQueue: seq<P.Task>
    // merger
    var mergeStage: nat
    var mergingDeletion: seq<nat>
    var mseg1: Segment?
    var mseg2: Segment?
    var newseg: Segment?
    var deleted: seq<Document>
    // what memory holds
    ghost var views: S.Views
    ghost var ids: Ids
    ghost var freed: set<Document>

    ghost predicate Staged()
      reads this
    {
      && mergeStage <= 6
      && (1 <= mergeStage <= 3 ==> mseg1 != null && mseg2 != null)
      && (2 <= mergeStage <= 5 ==> newseg != null)
    }

    ghost function Phase(): P.Phase<Segment>
      reads this
      requires Staged()
    {
      if 1 <= mergeStage <= 3 then
        var m1: Segment, m2: Segment := mseg1, mseg2;
        if mergeStage == 1 then P.Chosen(m1, m2)
        else
          var n: Segment := newseg;
          if mergeStage == 2 then P.Migrated(m1, m2, n, deleted, true) else P.Replaced(m1, m2, n, deleted)
      else if 4 <= mergeStage <= 5 then
        var n: Segment := newseg;
        if mergeStage == 4 then P.Released(n) else P.Redeleting(n)
      else if mergeStage == 0 then P.Idle
      else P.Done
    }

    ghost function Abs(): State
      reads this
      requires Staged()
    {
      P.State(S.SEGMENT_MAX_DOC, segments, segmentActive, views, ids, inputQueue, Phase(), mergingDeletion, freed)
    }

    /** Memory holds the segments and documents of the abstract state. */
    ghost predicate Rep()
      reads this, views.Keys, (set g | g in views.Keys :: g.deletion)`c, (set g | g in views.Keys :: g.generator)`start, ids.Keys`docId
    {
      Staged() && S.Holds(views, ids) && S.Apart(views.Keys)
    }

    ghost predicate Valid()
      reads this, views.Keys, (set g | g in views.Keys :: g.deletion)`c, (set g | g in views.Keys :: g.generator)`start, ids.Keys`docId
    {
      Rep() && Kept(Abs())
    }

    constructor ()
      ensures Valid() && Abs() == P.Initial(S.SEGMENT_MAX_DOC, segmentActive)
    {
      var seg := new Segment();
      segments, segmentActive := [seg], seg;
      inputQueue, mergeStage, mergingDeletion := [], 0, [];
      mseg1, mseg2, newseg, deleted := null, null, null, [];
      views, ids, freed := map[seg := EMPTY_SEG], map[], {};
      new;
      InitialKept(seg);
    }

    // ----- parts of the handlers -----

    /** Records what memory holds now. */
    ghost method Know(w: S.Views, m: Ids)
      requires Staged() && S.Holds(w, m) && S.Apart(w.Keys)
      modifies this`views, this`ids
      ensures Rep() && Abs() == old(Abs()).(segs := w, ids := m)
    {
      views, ids := w, m;
    }

    /** Moves a segment to its next state. */
    method Advance(g: Segment)
      requires Rep() && g in views
      modifies this`views, this`ids, g`state
      ensures Rep()
      ensures Abs() == old(Abs()).(segs := old(views)[g := old(views)[g].(state := old(views)[g].state + 1)])
    {
      ghost var v := views[g];
      ghost var w: S.Views := views[g := v.(state := v.state + 1)];
      assert w.Keys == views.Keys;
      S.NextState(g, views, ids);
      assert S.Holds(w, ids) && S.Apart(w.Keys);
      Know(w, ids);
    }

    method StartSegment()
      requires Rep()
      modifies this`segments, this`segmentActive, this`views, this`ids
      ensures Rep() && segmentActive !in old(views) && segmentActive in views
      ensures Abs() == old(Abs()).(segs := old(views)[segmentActive := EMPTY_SEG], list := [segmentActive] + old(segments), active := segmentActive)
      ensures fresh(segmentActive) && fresh(segmentActive.deletion) && fresh(segmentActive.generator)
    {
      var seg := S.NewSegment(views, ids);
      Know(views[seg := EMPTY_SEG], ids);
      Activate(seg);
    }

    method Activate(seg: Segment)
      requires Rep()
      modifies this`segments, this`segmentActive
      ensures Rep() && Abs() == old(Abs()).(list := [seg] + old(segments), active := seg)
    {
      segments := [seg] + segments;
      segmentActive := seg;
    }

    /** Seals a full active segment and starts a new one. */
    method Rotate()
      requires Rep() && segmentActive in views
      modifies this`segments, this`segmentActive, this`views, this`ids, segmentActive`state
      ensures Rep() && segmentActive in views && P.Spare(old(Abs()), segmentActive)
      ensures Abs() == P.Rotate(old(Abs()), segmentActive)
      ensures views.Keys == old(views.Keys) || (views.Keys == old(views.Keys) + {segmentActive} &&
        fresh(segmentActive) && fresh(segmentActive.deletion) && fresh(segmentActive.generator))
    {
      if Full() {
        Advance(segmentActive);
        StartSegment();
      }
    }

    predicate Full()
      requires Rep() && segmentActive in views
      reads this, views.Keys, (set g | g in views.Keys :: g.deletion)`c, (set g | g in views.Keys :: g.generator)`start, ids.Keys`docId
      ensures Full() <==> |views[segmentActive].docs| >= 100_000
    {
      assert Unlocked(MemoryLock, 0) && S.Segmented(segmentActive, views[segmentActive]);
      segmentActive.numTotalDocs >= S.SEGMENT_MAX_DOC
    }

    /** Removes a pk from every segment of the list. */
    method RemoveEverywhere(pk: nat)
      requires Rep() && Sane(Abs()) && pk != 0
      modifies this`views, this`ids, segments`numTotalDeleted, (set g | g in segments :: g.deletion)`c
      ensures Rep() && Abs() == P.RemoveAll(old(Abs()), pk)
    {
      ghost var s := Abs();
      SmallKnown(s);
      RemovedIs(s, pk);
      ghost var parts := set g | g in segments :: g.deletion;
      S.RemoveFromAll(segments, pk, views, ids, parts);
      Know(P.RemoveAll(s, pk).segs, ids);
    }

    method Append(doc: Document)
      requires Rep() && segmentActive in views && doc.Checked() && UniqueNames(doc.fields)
      modifies this`views, this`ids, segmentActive, segmentActive.generator, doc
      ensures Rep() && Abs() == P.Append(old(Abs()), doc)
    {
      S.AddTo(segmentActive, doc, views, ids);
      ghost var v := views[segmentActive];
      Know(views[segmentActive := AddV(v, doc)], ids[doc := v.nextId]);
    }

    // ----- handlers of the input queue -----

    method AddHandler(doc: Document)
      requires Rep() && Sane(Abs()) && doc.Checked() && UniqueNames(doc.fields)
      modifies this, views.Keys, (set g | g in views.Keys :: g.deletion), (set g | g in views.Keys :: g.generator), doc
      ensures Rep() && P.Spare(old(Abs()), segmentActive)
      ensures Abs() == P.HandleAdd(old(Abs()), doc, segmentActive)
    {
      ghost var s := Abs();
      ActiveListed(s);
      Rotate();
      RotateSane(s, segmentActive);
      ghost var t := Abs();
      SmallKnown(t);
      RemoveEverywhere(doc.pk);
      RemoveAllActive(t, doc.pk);
      Append(doc);
    }

    method RemoveHandler(pk: nat)
      requires Rep() && Sane(Abs()) && pk != 0
      modifies this, views.Keys, (set g | g in views.Keys :: g.deletion)
      ensures Rep() && Abs() == P.HandleRemove(old(Abs()), pk)
    {
      ghost var s := Abs();
      SmallKnown(s);
      RemoveEverywhere(pk);
      if mergeStage > 0 {
        mergingDeletion := mergingDeletion + [pk];
      }
    }

    /** Puts the new segment in place of the two old ones, unless it is empty. */
    method ReplaceHandler()
      requires Rep() && Sane(Abs()) && mergeStage == 2
      modifies this, newseg
      ensures Rep() && Abs() == P.HandleReplace(old(Abs()))
    {
      NewsegKnown(Abs());
      var m1: Segment, m2: Segment, n: Segment := mseg1, mseg2, newseg;
      var list := Without(segments, m1);
      list := Without(list, m2);
      if Holding(n) {
        Advance(n);
        list := [n] + list;
      }
      Replace(list);
    }

    method Replace(list: seq<Segment>)
      requires Rep() && mergeStage == 2
      modifies this`segments, this`mergeStage
      ensures Rep() && Abs() == old(Abs()).(list := list, phase := P.Replaced(old(Phase()).m1, old(Phase()).m2, old(Phase()).newseg, deleted))
    {
      segments := list;
      mergeStage := 3;
    }

    predicate Holding(g: Segment)
      requires S.Holds(views, ids) && g in views
      reads this, views.Keys, (set g | g in views.Keys :: g.deletion)`c, (set g | g in views.Keys :: g.generator)`start, ids.Keys`docId
      ensures Holding(g) <==> views[g].docs != []
    {
      assert Unlocked(MemoryLock, 0) && S.Segmented(g, views[g]);
      g.numTotalDocs > 0
    }

    /** Removes from the new segment what was removed while it was being made. */
    method RedeleteHandler()
      requires Rep() && Sane(Abs()) && mergeStage == 5 && forall p | p in mergingDeletion :: p != 0
      modifies this, newseg`numTotalDeleted, newseg.deletion
      ensures Rep() && Abs() == P.HandleRedelete(old(Abs()))
    {
      NewsegKnown(Abs());
      var n: Segment := newseg;
      RemoveEachFrom(n, mergingDeletion, views, ids);
      Know(views[n := P.RemoveEach(views[n], ids, mergingDeletion)], ids);
      mergeStage := 6;
    }

    /** Takes one task from the input queue and runs it. */
    method ProcessInput()
      requires Valid()
      modifies this, views.Keys, (set g | g in views.Keys :: g.deletion), (set g | g in views.Keys :: g.generator),
        set t | t in inputQueue && t.AddTask? :: t.doc
      ensures inputQueue == if old(inputQueue) == [] then [] else old(inputQueue)[1..]
      ensures Valid() && P.SpareForInput(old(Abs()), segmentActive)
      ensures Abs() == P.Step(old(Abs()), P.RunInput(segmentActive))
    {
      ghost var s := Abs();
      if inputQueue == [] {
        return;
      }
      PopSane(s);
      var task := inputQueue[0];
      inputQueue := inputQueue[1..];
      RunTask(task);
      InputIs(s, segmentActive);
      StepKept(s, P.RunInput(segmentActive));
    }

    /** Runs a task that has been taken from the queue. */
    method RunTask(task: P.Task)
      requires Rep() && Sane(Abs()) && CompleteTask(task)
      requires task.ReplaceTask? ==> mergeStage == 2
      requires task.RedeleteTask? ==> mergeStage == 5 && forall p | p in mergingDeletion :: p != 0
      modifies this, views.Keys, (set g | g in views.Keys :: g.deletion), (set g | g in views.Keys :: g.generator)
      modifies if task.AddTask? then {task.doc} else {}
      ensures Rep() && (task.AddTask? ==> P.Spare(old(Abs()), segmentActive))
      ensures Abs() == Ran(old(Abs()), task, segmentActive)
    {
      if task.ReplaceTask? || task.RedeleteTask? {
        NewsegKnown(Abs());
      }
      match task {
        case AddTask(doc) => AddHandler(doc);
        case RemoveTask(pk) => RemoveHandler(pk);
        case ReplaceTask => ReplaceHandler();
        case RedeleteTask => RedeleteHandler();
      }
    }

    // ----- entry points -----

    /** Hands a document over.  The invariant lasts if the document is handed over only once
        and its field names differ. */
    method AddDocument(doc: Document) returns (rc: int)
      requires Valid()
      modifies this`inputQueue
      ensures Rep() && Abs() == P.Step(old(Abs()), P.SubmitAdd(doc))
      ensures P.Enabled(old(Abs()), P.SubmitAdd(doc)) && UniqueNames(doc.fields) ==> Valid()
      ensures rc == if doc.pk == 0 || doc.fields == [] then -1 else if |old(inputQueue)| >= 128 then -2 else 0
      ensures inputQueue == if rc == 0 then old(inputQueue) + [P.AddTask(doc)] else old(inputQueue)
    {
      if P.Enabled(Abs(), P.SubmitAdd(doc)) && UniqueNames(doc.fields) {
        StepKept(Abs(), P.SubmitAdd(doc));
      }
      if !doc.Checked() {
        return ERROR_CODE_INVALID_ARGUMENT;
      }
      rc := Enqueue(P.AddTask(doc));
    }

    method RemoveDocument(pk: nat) returns (rc: int)
      requires Valid() && pk != 0
      modifies this`inputQueue
      ensures Valid() && Abs() == P.Step(old(Abs()), P.SubmitRemove(pk))
      ensures rc == if |old(inputQueue)| >= 128 then -2 else 0
      ensures inputQueue == if rc == 0 then old(inputQueue) + [P.RemoveTask(pk)] else old(inputQueue)
    {
      StepKept(Abs(), P.SubmitRemove(pk));
      rc := Enqueue(P.RemoveTask(pk));
    }

    method Enqueue(t: P.Task) returns (rc: int)
      requires Rep()
      modifies this`inputQueue
      ensures Rep() && Abs() == P.Submit(old(Abs()), t)
      ensures rc == if |old(inputQueue)| >= P.QUEUE_SIZE_INPUT then ERROR_CODE_QUEUE_FULL else ERROR_CODE_SUCCESS
      ensures inputQueue == if rc == ERROR_CODE_SUCCESS then old(inputQueue) + [t] else old(inputQueue)
    {
      if |inputQueue| >= P.QUEUE_SIZE_INPUT {
        return ERROR_CODE_QUEUE_FULL;
      }
      inputQueue := inputQueue + [t];
      rc := ERROR_CODE_SUCCESS;
    }

    /** Looks up in one segment after the other until there is enough.  The variable for the
        total of one segment is not initialized: it starts with garbage. */
    method Lookup(terms: seq<string>, limit: nat, garbage: nat) returns (rc: int, found: seq<Document>, total: nat)
      requires Valid()
      ensures rc == if limit > 3000 then -1 else 0
      ensures found == if limit > 3000 then [] else Take(AllHits(views, segments, ids, terms), limit)
      ensures limit > 3000 ==> total == 0
      ensures limit <= 3000 ==> IsTotal(views, segments, ids, terms, limit, garbage, total)
    {
      found, total := [], 0;
      if limit > LOOKUP_MAX_SIZE {
        return ERROR_CODE_INVALID_ARGUMENT, found, total;
      }
      rc := ERROR_CODE_SUCCESS;
      found, total := LookupIn(segments, terms, limit, garbage, Abs());
    }

    // ----- merge procedures -----

    method Check()
      requires Valid()
      modifies this`mseg1, this`mseg2, this`mergeStage
      ensures Valid() && Abs() == P.Step(old(Abs()), P.RunCheck)
    {
      StepKept(Abs(), P.RunCheck);
      if mergeStage != 0 {
        return;
      }
      ListingHolds(Abs());
      var ok, m1, m2 := Merge.GetSegments(segments, Abs());
      if ok {
        Choose(m1, m2);
      }
    }

    method Choose(m1: Segment, m2: Segment)
      requires Rep() && mergeStage == 0
      modifies this`mseg1, this`mseg2, this`mergeStage
      ensures Rep() && Abs() == old(Abs()).(phase := P.Chosen(m1, m2))
    {
      mseg1, mseg2 := m1, m2;
      mergeStage := 1;
    }

    /** Copies what is live in the two chosen segments into a new one, and queues its
        installation. */
    method Migrate()
      requires Valid()
      modifies this`newseg, this`deleted, this`views, this`ids, this`inputQueue, this`mergeStage, ids.Keys
      ensures Valid()
      ensures old(mergeStage) == 1 ==> fresh(newseg) && newseg !in old(views)
      ensures old(mergeStage) == 1 ==> Abs() == P.Step(P.Step(old(Abs()), P.RunMigrate(newseg)), P.RunQueueReplace)
      ensures old(mergeStage) != 1 ==> Abs() == old(Abs())
      ensures inputQueue == if old(mergeStage) == 1 then old(inputQueue) + [P.ReplaceTask] else old(inputQueue)
    {
      if mergeStage != 1 {
        return;
      }
      ghost var s := Abs();
      var n, dead := MigrateBoth(mseg1, mseg2, s);
      RequestReplace(n, dead, P.QueueReplace(P.Migrate(s, n)));
      StepKept(s, P.RunMigrate(n));
      StepKept(P.Migrate(s, n), P.RunQueueReplace);
    }

    method RequestReplace(n: Segment, dead: seq<Document>, ghost t: State)
      requires Staged() && mergeStage == 1 && S.Holds(t.segs, t.ids) && S.Apart(t.segs.Keys)
      requires t == Abs().(segs := t.segs, ids := t.ids, queue := inputQueue + [P.ReplaceTask], phase := P.Migrated(Phase().m1, Phase().m2, n, dead, true))
      modifies this`newseg, this`deleted, this`views, this`ids, this`inputQueue, this`mergeStage
      ensures Rep() && Abs() == t && newseg == n
    {
      newseg, deleted := n, dead;
      inputQueue := inputQueue + [P.ReplaceTask];
      mergeStage := 2;
      Know(t.segs, t.ids);
    }

    /** Lets go of those of the two old segments that no lookup is inside, as their counters
        say; the documents and the stage follow when both are gone.  When exactly one is gone,
        the next call would read its counter through a null pointer. */
    method Release(processes1: nat, processes2: nat)
      requires Valid()
      modifies this`mseg1, this`mseg2, this`views, this`freed, this`mergeStage
      ensures Valid() <==> old(mergeStage) != 3 || (processes1 == 0 <==> processes2 == 0)
      ensures Valid() ==> Abs() == if processes1 == 0 then P.Step(old(Abs()), P.RunRelease) else old(Abs())
      ensures !Valid() ==> mergeStage == 3 && freed == old(freed)
      ensures !Valid() ==> mseg1 == (if processes1 == 0 then null else old(mseg1)) && mseg2 == (if processes2 == 0 then null else old(mseg2))
      ensures old(mergeStage) == 3 ==> (old(mseg1) in views <==> processes1 > 0) && (old(mseg2) in views <==> processes2 > 0)
      ensures old(mergeStage) == 3 && processes1 == 0 && processes2 == 0 ==> (newseg in views <==> P.Docs(old(Abs()), newseg) != [])
    {
      ghost var s := Abs();
      if mergeStage != 3 {
        return;
      }
      ReplacedNewseg(s);
      StepKept(s, P.RunRelease);
      FreeOld(processes1, processes2, s);
      if mseg1 == null && mseg2 == null {
        FreeDead(s);
      }
    }

    /** Each of the two old segments by its own counter. */
    method FreeOld(processes1: nat, processes2: nat, ghost s: State)
      requires Rep() && mergeStage == 3 && s == Abs() && mseg1 != mseg2
      modifies this`mseg1, this`mseg2, this`views
      ensures S.Holds(views, ids) && S.Apart(views.Keys)
      ensures views == s.segs - NotInUse(s, processes1, processes2)
      ensures mseg1 == if processes1 == 0 then null else old(mseg1)
      ensures mseg2 == if processes2 == 0 then null else old(mseg2)
      ensures processes1 > 0 && processes2 > 0 ==> Rep() && Abs() == s
    {
      if processes1 == 0 {
        mseg1 := null;
      }
      if processes2 == 0 {
        mseg2 := null;
      }
      LetGo(NotInUse(s, processes1, processes2));
      assert s.segs - {} == s.segs;
    }

    /** The dead documents, and the new segment when it is empty. */
    method FreeDead(ghost s: State)
      requires S.Holds(views, ids) && S.Apart(views.Keys) && s.phase.Replaced? && mergeStage == 3
      requires newseg == s.phase.newseg && newseg in views && deleted == s.phase.dead
      requires views == s.segs - {s.phase.m1, s.phase.m2}
      requires s == P.State(S.SEGMENT_MAX_DOC, segments, segmentActive, s.segs, ids, inputQueue, s.phase, mergingDeletion, freed)
      modifies this`views, this`freed, this`mergeStage
      ensures Rep() && Abs() == P.Release(s)
    {
      assert P.View(s, newseg) == views[newseg];
      freed := freed + Elems(deleted);
      assert S.Holds(views, ids) && S.Apart(views.Keys);
      if Holding(newseg) {
        mergeStage := 4;
      } else {
        LetGo({newseg});
        mergeStage := 6;
        MinusMore(s.segs, s.phase.m1, s.phase.m2, s.phase.newseg);
      }
    }

    ghost method LetGo(gone: set<Segment>)
      requires S.Holds(views, ids) && S.Apart(views.Keys)
      modifies this`views
      ensures S.Holds(views, ids) && S.Apart(views.Keys) && views == old(views) - gone
    {
      S.HoldsLess(views, gone, ids);
      views := views - gone;
    }

    method RequestRedelete()
      requires Valid()
      modifies this`inputQueue, this`mergeStage
      ensures Valid() && Abs() == P.Step(old(Abs()), P.RunRequestRedelete)
      ensures inputQueue == if old(mergeStage) == 4 then old(inputQueue) + [P.RedeleteTask] else old(inputQueue)
    {
      StepKept(Abs(), P.RunRequestRedelete);
      if mergeStage != 4 {
        return;
      }
      inputQueue := inputQueue + [P.RedeleteTask];
      mergeStage := 5;
    }

    method Reset()
      requires Valid()
      modifies this`mergeStage, this`deleted
      ensures Valid() && Abs() == P.Step(old(Abs()), P.RunReset)
    {
      StepKept(Abs(), P.RunReset);
      if mergeStage != 6 {
        return;
      }
      deleted := [];
      mergeStage := 0;
    }
  }

  /** Those of the two old segments that no lookup is inside. */
  ghost function NotInUse(s: State, processes1: nat, processes2: nat): set<Segment>
    requires s.phase.Replaced?
  {
    (if processes1 == 0 then {s.phase.m1} else {}) + (if processes2 == 0 then {s.phase.m2} else {})
  }

  lemma MinusMore(w: S.Views, a: Segment, b: Segment, c: Segment)
    ensures w - {a, b} - {c} == w - {a, b, c}
  {
  }

  lemma InitialKept(first: Segment)
    ensures Kept(P.Initial(S.SEGMENT_MAX_DOC, first))
  {
    InitialInv(S.SEGMENT_MAX_DOC, first);
  }

  lemma RemovedIs(s: State, pk: nat)
    ensures P.RemoveAll(s, pk).segs == S.RemovedFrom(s.segs, s.list, s.ids, pk)
    ensures P.RemoveAll(s, pk).segs.Keys == s.segs.Keys
  {
  }

  lemma SmallKnown(s: State)
    requires Sane(s)
    ensures Distinct(s.list) && forall g | g in s.list :: g in s.segs && S.Known(s.segs[g], s.ids)
  {
    assert Unlocked(SaneLock, 0);
    forall g | g in s.list
      ensures g in s.segs && S.Known(s.segs[g], s.ids)
    {
      assert P.Docs(s, g) == s.segs[g].docs;
    }
  }

  lemma ActiveListed(s: State)
    requires Sane(s)
    ensures s.active in s.segs && s.active in s.list
  {
    assert Unlocked(SaneLock, 0);
  }

  lemma NewsegKnown(s: State)
    requires Sane(s)
    ensures s.phase.Migrated? ==> s.phase.newseg in s.segs
    ensures s.phase.Released? || s.phase.Redeleting? ==> s.phase.newseg in s.segs && S.Known(s.segs[s.phase.newseg], s.ids)
  {
    SmallKnown(s);
    assert Unlocked(SaneLock, 0);
  }

  /** Removes pks one after the other from one segment. */
  method RemoveEachFrom(g: Segment, pks: seq<nat>, ghost views: S.Views, ghost ids: Ids)
    requires S.Holds(views, ids) && S.Apart(views.Keys) && g in views && S.Known(views[g], ids)
    requires forall p | p in pks :: p != 0
    modifies g`numTotalDeleted, g.deletion
    ensures S.Holds(views[g := P.RemoveEach(views[g], ids, pks)], ids)
  {
    ghost var w := views;
    assert views[g := views[g]] == views;
    var i := 0;
    while i < |pks|
      invariant 0 <= i <= |pks|
      invariant w == views[g := P.RemoveEach(views[g], ids, pks[..i])] && S.Holds(w, ids) && S.Known(w[g], ids)
    {
      assert pks[..i + 1][..i] == pks[..i] && pks[i] in pks;
      S.RemoveFrom(g, pks[i], w, ids);
      w := w[g := RemoveV(w[g], ids, pks[i])];
      i := i + 1;
    }
    assert pks[..i] == pks;
  }

  /** What a task does, once it has been taken from the queue. */
  ghost function Ran(s: State, task: P.Task, blank: Segment): State {
    match task
    case AddTask(doc) => P.HandleAdd(s, doc, blank)
    case RemoveTask(pk) => P.HandleRemove(s, pk)
    case ReplaceTask => if s.phase.Migrated? then P.HandleReplace(s) else s
    case RedeleteTask => if s.phase.Redeleting? then P.HandleRedelete(s) else s
  }

  lemma InputIs(s: State, blank: Segment)
    requires s.queue != []
    ensures P.Input(s, blank) == Ran(s.(queue := s.queue[1..]), s.queue[0], blank)
    ensures P.Input(s, blank).queue == s.queue[1..]
  {
  }

  /** A task that is next in the queue finds the engine in the stage it was queued for. */
  lemma PopSane(s: State)
    requires Kept(s) && s.queue != [] && s.cap == S.SEGMENT_MAX_DOC
    ensures Sane(s.(queue := s.queue[1..])) && CompleteTask(s.queue[0])
    ensures s.queue[0].ReplaceTask? ==> s.phase.Migrated? && s.phase.newseg in s.segs
    ensures s.queue[0].RedeleteTask? ==> s.phase.Redeleting? && s.phase.newseg in s.segs
    ensures forall p | p in s.md :: p != 0
  {
    assert Unlocked(KeptLock, 0) && Unlocked(SaneLock, 0);
    QueueCore(s, s.queue[1..]);
    QueueTail(s.queue, s.ids.Keys, P.Replacing(s), s.phase.Redeleting?);
    assert s.queue[0] in s.queue;
  }

  /** Every step keeps the invariant. */
  lemma StepKept(s: State, l: P.Label<Segment>)
    requires Kept(s) && P.Enabled(s, l)
    requires l.SubmitAdd? ==> UniqueNames(l.doc.fields)
    ensures Kept(P.Step(s, l))
  {
    assert Unlocked(KeptLock, 0);
    StepInv(s, l);
    StepComplete(s, l);
  }

  lemma StepComplete(s: State, l: P.Label<Segment>)
    requires P.Inv(s) && Complete(s) && P.Enabled(s, l)
    requires l.SubmitAdd? ==> UniqueNames(l.doc.fields)
    ensures Complete(P.Step(s, l))
  {
    match l
    case RunInput(blank) => InputComplete(s, blank);
    case RunMigrate(blank) => if s.phase.Chosen? { MigrateComplete(s, blank); }
    case _ =>
  }

  lemma MigrateComplete(s: State, blank: Segment)
    requires P.Inv(s) && Complete(s) && s.phase.Chosen?
    ensures Complete(P.Migrate(s, blank))
  {
    MigrationPartitions(s);
    MigrationRenumbers(s, P.Moved(s), P.Dead(s));
    MoreComplete(s, P.Migrate(s, blank));
  }

  lemma MoreComplete(s: State, t: State)
    requires Complete(s) && t.ids.Keys == s.ids.Keys && t.queue == s.queue && t.md == s.md
    ensures Complete(t)
  {
  }

  lemma InputComplete(s: State, blank: Segment)
    requires P.Inv(s) && Complete(s) && P.SpareForInput(s, blank)
    ensures Complete(P.Input(s, blank))
  {
    if s.queue != [] {
      InputCore(s, blank);
      LessComplete(s, P.Input(s, blank), s.queue[0]);
    }
  }

  lemma LessComplete(s: State, t: State, task: P.Task)
    requires Complete(s) && s.queue != [] && task == s.queue[0] && t.queue == s.queue[1..]
    requires t.ids.Keys == if task.AddTask? then s.ids.Keys + {task.doc} else s.ids.Keys
    requires t.md == s.md || (task.RemoveTask? && t.md == s.md + [task.pk])
    ensures Complete(t)
  {
    assert s.queue == [s.queue[0]] + s.queue[1..];
    assert CompleteTask(task);
  }

  lemma ReplacedNewseg(s: State)
    requires Kept(s) && s.phase.Replaced?
    ensures var n := s.phase.newseg; n in s.segs && n != s.phase.m1 && n != s.phase.m2 && s.phase.m1 != s.phase.m2
    ensures s.phase.m1 in s.segs && s.phase.m2 in s.segs
  {
    assert Unlocked(KeptLock, 0);
  }

  lemma ListingHolds(s: State)
    requires S.Holds(s.segs, s.ids) && Kept(s)
    ensures Merge.Listing(s.list, s)
  {
    assert Unlocked(MemoryLock, 0) && Unlocked(KeptLock, 0);
  }

  /** Migrates two segments into a new one. */
  method MigrateBoth(m1: Segment, m2: Segment, ghost s: State) returns (n: Segment, dead: seq<Document>)
    requires S.Holds(s.segs, s.ids) && S.Apart(s.segs.Keys) && Kept(s) && s.phase == P.Chosen(m1, m2)
    requires s.cap == S.SEGMENT_MAX_DOC
    modifies s.ids.Keys
    ensures fresh(n) && fresh(n.deletion) && fresh(n.generator) && n !in s.segs
    ensures S.Apart(P.Migrate(s, n).segs.Keys)
    ensures S.Holds(P.Migrate(s, n).segs, P.Migrate(s, n).ids) && dead == P.Dead(s)
  {
    n := S.NewSegment(s.segs, s.ids);
    ghost var w: S.Views := s.segs[n := EMPTY_SEG];
    MigrateReady(s);
    ghost var (v1, i1) := AddAll(EMPTY_SEG, s.ids, Survivors(s.segs[m1], s.ids));
    dead := Merge.MigrateSegment(m1, n, [], s.ids.Keys, w, s.ids);
    assert dead == Casualties(s.segs[m1], s.ids);
    MigrateIs(s, n);
    ghost var (v2, i2) := AddAll(v1, i1, Survivors(s.segs[m2], i1));
    Overwrite(s.segs, n, EMPTY_SEG, v1, v2);
    dead := Merge.MigrateSegment(m2, n, dead, s.ids.Keys, w[n := v1], i1);
  }

  lemma Overwrite(views: S.Views, n: Segment, a: SegV, b: SegV, c: SegV)
    ensures views[n := a][n := b].Keys == views.Keys + {n} && views[n := a][n := b][n := c] == views[n := c]
  {
  }

  lemma MigrateReady(s: State)
    requires Kept(s) && s.phase.Chosen?
    ensures s.phase.m1 in s.segs && s.phase.m2 in s.segs
    ensures forall m | m == s.phase.m1 || m == s.phase.m2 :: Distinct(s.segs[m].docs) && Merge.Ready(s.segs[m].docs, s.ids)
  {
    assert Unlocked(KeptLock, 0);
  }

  /** Migrating one segment leaves alone what the other one says about its documents. */
  lemma OtherKeeps(v: SegV, ids: Ids, moved: seq<Document>, w: SegV)
    requires forall d | d in v.docs :: d !in moved && d in ids
    ensures var i := AddAll(w, ids, moved).1;
      && Survivors(v, i) == Survivors(v, ids) && Casualties(v, i) == Casualties(v, ids)
      && forall d | d in v.docs :: d in i
  {
    var i := AddAll(w, ids, moved).1;
    forall d | d in v.docs
      ensures IdOf(i, d) == IdOf(ids, d) && d in i
    {
      AddAllKeeps(w, ids, moved, d);
    }
    assert LiveDocs(v, i) == LiveDocs(v, ids);
  }

  /** Migrating one segment after the other is migrating both at once. */
  lemma MigrateTwo(v1: SegV, v2: SegV, ids: Ids)
    requires Numbered(v1, ids) && Numbered(v2, ids) && LiveDocs(v1, ids) == {} && |v2.docs| < UINT32 - 1
    requires forall d | d in v1.docs :: d !in v2.docs
    ensures var (w, i) := AddAll(EMPTY_SEG, ids, Survivors(v1, ids));
      var moved := Survivors(v1, ids) + Survivors(v2, ids);
      && AddAll(w, i, Survivors(v2, i)) == (SegV(moved, {}, STATE_ACTIVE, |moved| + 1), Renumber(ids, moved))
      && Casualties(v2, i) == Casualties(v2, ids) && forall d | d in v2.docs :: d in i
  {
    MovedFit(v1, v2, ids);
    OtherKeeps(v2, ids, Survivors(v1, ids), EMPTY_SEG);
    AddBoth(ids, Survivors(v1, ids), Survivors(v2, ids));
  }

  lemma MovedFit(v1: SegV, v2: SegV, ids: Ids)
    requires Numbered(v1, ids) && Numbered(v2, ids) && LiveDocs(v1, ids) == {} && |v2.docs| < UINT32 - 1
    requires forall d | d in v1.docs :: d !in v2.docs
    ensures |Survivors(v1, ids) + Survivors(v2, ids)| < UINT32 - 1
    ensures forall d | d in v2.docs :: d !in Survivors(v1, ids) && d in ids
  {
    SplitTwo(v1, v2, ids);
    MigrationSplits(v1, ids);
    HeadInElems(Survivors(v1, ids));
  }

  lemma AddBoth(ids: Ids, a: seq<Document>, b: seq<Document>)
    requires |a + b| < UINT32 - 1
    ensures var (w, i) := AddAll(EMPTY_SEG, ids, a);
      AddAll(w, i, b) == (SegV(a + b, {}, STATE_ACTIVE, |a + b| + 1), Renumber(ids, a + b))
  {
    AddAllConcat(EMPTY_SEG, ids, a, b);
    AddAllToEmpty(ids, a + b);
  }

  lemma ChosenApart(s: State)
    requires Kept(s) && s.phase.Chosen? && s.cap == S.SEGMENT_MAX_DOC
    ensures s.phase.m1 in s.segs && s.phase.m2 in s.segs
    ensures var v1, v2 := s.segs[s.phase.m1], s.segs[s.phase.m2];
      && Numbered(v1, s.ids) && Numbered(v2, s.ids) && LiveDocs(v1, s.ids) == {} && |v2.docs| <= s.cap
      && forall d | d in v1.docs :: d !in v2.docs
  {
    assert Unlocked(KeptLock, 0);
    OldsApart(s);
  }

  lemma MigrateIs(s: State, n: Segment)
    requires Kept(s) && s.phase.Chosen? && n !in s.segs && s.cap == S.SEGMENT_MAX_DOC
    ensures s.phase.m1 in s.segs && s.phase.m2 in s.segs
    ensures var (v1, i1) := AddAll(EMPTY_SEG, s.ids, Survivors(s.segs[s.phase.m1], s.ids));
      var (v2, i2) := AddAll(v1, i1, Survivors(s.segs[s.phase.m2], i1));
      && Merge.Ready(s.segs[s.phase.m2].docs, i1)
      && P.Dead(s) == Casualties(s.segs[s.phase.m1], s.ids) + Casualties(s.segs[s.phase.m2], i1)
      && P.Migrate(s, n).segs == s.segs[n := v2] && P.Migrate(s, n).ids == i2
      && P.Migrate(s, n).segs.Keys == s.segs.Keys + {n}
  {
    ChosenApart(s);
    MigrateReady(s);
    MigrateParts(s, n);
    MigrateTwo(s.segs[s.phase.m1], s.segs[s.phase.m2], s.ids);
    StillReady(s.segs[s.phase.m2].docs, s.ids, AddAll(EMPTY_SEG, s.ids, Survivors(s.segs[s.phase.m1], s.ids)).1);
  }

  lemma MigrateParts(s: State, n: Segment)
    requires s.phase.Chosen? && s.phase.m1 in s.segs && s.phase.m2 in s.segs
    ensures var v1, v2, r := s.segs[s.phase.m1], s.segs[s.phase.m2], P.Migrate(s, n);
      var moved := Survivors(v1, s.ids) + Survivors(v2, s.ids);
      && P.Dead(s) == Casualties(v1, s.ids) + Casualties(v2, s.ids)
      && r.segs == s.segs[n := SegV(moved, {}, STATE_ACTIVE, |moved| + 1)] && r.ids == Renumber(s.ids, moved)
      && r.segs.Keys == s.segs.Keys + {n}
  {
    assert P.Migrate(s, n) == P.MigrateTo(s, n, P.Moved(s), P.Dead(s), Renumber(s.ids, P.Moved(s)));
  }

  lemma StillReady(docs: seq<Document>, ids: Ids, ids': Ids)
    requires Merge.Ready(docs, ids) && forall d | d in docs :: d in ids'
    ensures Merge.Ready(docs, ids')
  {
  }

  /** The bitmap of every segment stays within 12544 bytes. */
  lemma BitmapInBounds(e: Engine, g: Segment)
    requires e.Valid() && g in e.views
    ensures |g.deletion.c| <= 12_544
  {
    assert Unlocked(MemoryLock, 0) && S.Segmented(g, e.views[g]);
    Bitmaps.FullSegmentBytes(S.SEGMENT_MAX_DOC);
  }

  /** After a migration, the posting list of each term in the new segment is exactly the
      survivors that have the term, in strictly increasing ids and none twice. */
  lemma MigratedPostings(e: Engine, s: State, n: Segment, t: string)
    requires e.Valid() && Kept(s) && s.phase.Chosen? && n !in s.segs && e.Abs() == P.Step(P.Step(s, P.RunMigrate(n)), P.RunQueueReplace)
    ensures var post := Posting(P.Moved(s), Term(t));
      && (t in n.docs <==> post != [])
      && (t in n.docs ==> Docids.Holds(n.docs[t].docIds, post) && n.docs[t].numTotal == |post|)
      && Distinct(post) && Intersect.Increasing(e.ids, post)
      && Elems(post) == set d | d in LiveDocs(P.View(s, s.phase.m1), s.ids) + LiveDocs(P.View(s, s.phase.m2), s.ids) && Indexed(d.fields, t)
  {
    assert n in e.views && e.views[n].docs == P.Moved(s) && e.ids == Renumber(s.ids, P.Moved(s)) by {
      MigratedInto(s, n);
      assert e.Abs().segs == e.views && e.Abs().ids == e.ids;
    }
    MovedPosting(s, t);
    SegmentPostings(e, n, t);
  }

  lemma MovedPosting(s: State, t: string)
    requires Kept(s) && s.phase.Chosen?
    ensures var post := Posting(P.Moved(s), Term(t));
      && Distinct(post) && Intersect.Increasing(Renumber(s.ids, P.Moved(s)), post)
      && Elems(post) == set d | d in LiveDocs(P.View(s, s.phase.m1), s.ids) + LiveDocs(P.View(s, s.phase.m2), s.ids) && Indexed(d.fields, t)
  {
    var moved, live := P.Moved(s), LiveDocs(P.View(s, s.phase.m1), s.ids) + LiveDocs(P.View(s, s.phase.m2), s.ids);
    MovedInOrder(s);
    assert Elems(moved) == live;
    LookupSpec.PostingIncreasing(Renumber(s.ids, moved), moved, Term(t));
    PostingDistinct(moved, Term(t));
    PostingHas(moved, t);
  }

  lemma MigratedInto(s: State, n: Segment)
    requires s.phase.Chosen?
    ensures var r := P.Migrate(s, n); n in r.segs && r.segs[n].docs == P.Moved(s) && r.ids == Renumber(s.ids, P.Moved(s))
  {
  }

  lemma MovedInOrder(s: State)
    requires Kept(s) && s.phase.Chosen?
    ensures Distinct(P.Moved(s)) && Intersect.Increasing(Renumber(s.ids, P.Moved(s)), P.Moved(s))
    ensures Elems(P.Moved(s)) == LiveDocs(P.View(s, s.phase.m1), s.ids) + LiveDocs(P.View(s, s.phase.m2), s.ids)
  {
    assert Unlocked(KeptLock, 0);
    MigrationPartitions(s);
    MigrationRenumbers(s, P.Moved(s), P.Dead(s));
  }

  /** The posting lists of a segment in memory. */
  lemma SegmentPostings(e: Engine, n: Segment, t: string)
    requires e.Valid() && n in e.views
    ensures var post := Posting(e.views[n].docs, Term(t));
      && (t in n.docs <==> post != [])
      && (t in n.docs ==> Docids.Holds(n.docs[t].docIds, post) && n.docs[t].numTotal == |post|)
  {
    assert Unlocked(MemoryLock, 0) && S.Segmented(n, e.views[n]);
    TermsOf(n.pkMapping, n.pkOrder, n.docs, n.Docs);
    TermEntry(n.docs, n.Docs, t);
    if t in n.docs {
      assert EntryHolds(n.docs[t], t, n.Docs, []);
    }
  }

  lemma InMemory(s: State, g: Segment)
    requires Kept(s) && g in s.list
    ensures g in s.segs && forall d | d in s.segs[g].docs :: d in s.ids
  {
    assert Unlocked(KeptLock, 0);
    assert P.Docs(s, g) == s.segs[g].docs;
  }

  method LookupIn(list: seq<Segment>, terms: seq<string>, limit: nat, garbage: nat, ghost s: State)
    returns (found: seq<Document>, sum: nat)
    requires S.Holds(s.segs, s.ids) && Kept(s) && list == s.list
    ensures found == Take(AllHits(s.segs, s.list, s.ids, terms), limit)
    ensures IsTotal(s.segs, s.list, s.ids, terms, limit, garbage, sum)
  {
    found, sum := [], 0;
    var total := garbage;
    AskedNone(s.segs, list, s.ids, terms, limit, garbage);
    var i := 0;
    while i < |list|
      invariant 0 <= i <= |list| && Asked(s.segs, list, s.ids, terms, limit, garbage, i, Got(found, total, sum))
      invariant i > 0 ==> |found| < limit
      invariant S.Holds(s.segs, s.ids)
    {
      found, total, sum := LookupNext(list, i, terms, limit, garbage, found, total, sum, s);
      i := i + 1;
      if |found| >= limit {
        break;
      }
    }
    AskedAll(s.segs, list, s.ids, terms, limit, garbage, i, Got(found, total, sum));
  }

  /** What the next segment adds. */
  method LookupNext(list: seq<Segment>, i: nat, terms: seq<string>, limit: nat, garbage: nat,
                    found: seq<Document>, total: nat, sum: nat, ghost s: State)
    returns (found': seq<Document>, total': nat, sum': nat)
    requires S.Holds(s.segs, s.ids) && Kept(s) && list == s.list && i < |list| && (i > 0 ==> |found| < limit)
    requires Asked(s.segs, list, s.ids, terms, limit, garbage, i, Got(found, total, sum))
    ensures S.Holds(s.segs, s.ids) && Asked(s.segs, list, s.ids, terms, limit, garbage, i + 1, Got(found', total', sum'))
  {
    InMemory(s, list[i]);
    var more;
    more, total' := LookupOne(list[i], terms, limit - |found|, total, s.segs, s.ids);
    found', sum' := found + more, Unsigned(sum + total');
    AskedNext(s.segs, list, s.ids, terms, limit, garbage, i, Got(found, total, sum), Got(found', total', sum'));
  }

  /** Looks up in one segment, with a container of its own for the result. */
  method LookupOne(g: Segment, terms: seq<string>, limit: nat, before: nat, ghost views: S.Views, ghost ids: Ids)
    returns (found: seq<Document>, total: nat)
    requires S.Holds(views, ids) && g in views && forall d | d in views[g].docs :: d in ids
    ensures Finds(views[g], ids, terms, limit, found) && S.Holds(views, ids)
    ensures Reports(views[g], ids, terms, limit, before, total)
  {
    assert S.Segmented(g, views[g]) by { assert Unlocked(MemoryLock, 0); }
    assert Carry(g.Docs, ids) by { assert Unlocked(MemoryLock, 0); }
    var ctn := new Container();
    var _, after := g.Lookup(terms, limit, ctn, before, ids);
    total := after;
    found := Foreach(ctn.chain, ctn.Contents);
  }

  lemma RotateSane(s: State, blank: Segment)
    requires Sane(s) && P.Spare(s, blank)
    ensures Sane(P.Rotate(s, blank))
  {
    assert Unlocked(SaneLock, 0);
    RotateCore(s, blank);
    RotateListed(s, blank);
  }

  lemma RemoveAllActive(s: State, pk: nat)
    requires Sane(s)
    ensures s.active in P.RemoveAll(s, pk).segs
  {
    assert Unlocked(SaneLock, 0);
  }
}
