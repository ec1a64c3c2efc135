/** Whole runs: the invariant holds in every reachable state, and the documents one can
    see are those of the map from primary keys to documents exactly as long as no step
    is one of two kinds that can be recognised before it is taken. */
module ProtocolRuns {
  import opened Basics
  import opened Documents
  import opened SegmentValues
  import opened Protocol
  import opened ProtocolSafety

  // ----- the input queue -----

  lemma QueueTail(q: seq<Task>, taken: set<Document>, replacing: bool, redeleting: bool)
    requires q != [] && QueueOk(q, taken, replacing, redeleting)
    ensures q[0].ReplaceTask? ==> replacing
    ensures q[0].RedeleteTask? ==> redeleting
    ensures q[0].AddTask? ==> q[0].doc !in taken
    ensures !(replacing && redeleting) ==>
              QueueOk(q[1..], if q[0].AddTask? then taken + {q[0].doc} else taken,
                      replacing && !q[0].ReplaceTask?, redeleting && !q[0].RedeleteTask?)
  {
    assert q == [q[0]] + q[1..];
    assert multiset(q) == multiset{q[0]} + multiset(q[1..]);
  }

  lemma QueuePush(q: seq<Task>, t: Task, taken: set<Document>, replacing: bool, redeleting: bool)
    requires QueueOk(q, taken, replacing, redeleting)
    requires match t
      case AddTask(doc) => |q| < QUEUE_SIZE_INPUT && doc.Checked() && doc !in taken && t !in q
      case RemoveTask(_) => |q| < QUEUE_SIZE_INPUT
      case _ => !replacing && !redeleting
    ensures QueueOk(q + [t], taken, replacing || t.ReplaceTask?, redeleting || t.RedeleteTask?)
  {
  }

  lemma InputCore<S>(s: State<S>, blank: S)
    requires Inv(s) && SpareForInput(s, blank) && s.queue != []
    ensures var r := Input(s, blank);
      && Core(r) && r.queue == s.queue[1..]
      && r.ids.Keys == (if s.queue[0].AddTask? then s.ids.Keys + {s.queue[0].doc} else s.ids.Keys)
      && Replacing(r) == (Replacing(s) && !s.queue[0].ReplaceTask?)
      && r.phase.Redeleting? == (s.phase.Redeleting? && !s.queue[0].RedeleteTask?)
  {
    var s' := s.(queue := s.queue[1..]);
    QueueTail(s.queue, s.ids.Keys, Replacing(s), s.phase.Redeleting?);
    QueueCore(s, s.queue[1..]);
    match s.queue[0]
    case AddTask(doc) => HandleAddCore(s', doc, blank);
    case RemoveTask(pk) => HandleRemoveCore(s', pk);
    case ReplaceTask => HandleReplaceCore(s');
    case RedeleteTask => HandleRedeleteCore(s');
  }

  // ----- ids stay small -----

  lemma AddSmall<S>(s: State<S>, doc: Document, blank: S)
    requires Core(s) && Small(s) && Spare(s, blank)
    ensures Small(HandleAdd(s, doc, blank))
  {
    var t := Rotate(s, blank);
    RotateCore(s, blank);
    RotateListed(s, blank);
    RemoveAllListed(t, doc.pk);
    RemoveAllCore(t, doc.pk);
    AppendSmall(RemoveAll(t, doc.pk), doc);
  }

  lemma AppendSmall<S>(s: State<S>, doc: Document)
    requires Core(s) && Small(s) && |Docs(s, s.active)| < s.cap
    ensures Small(Append(s, doc))
  {
    var r := Append(s, doc);
    assert Numbered(View(s, s.active), s.ids);
    forall g | g in r.segs
      ensures forall d | d in Docs(r, g) :: d in r.ids
    {
      assert Docs(r, g) == Docs(s, g) + if g == s.active then [doc] else [];
    }
  }

  lemma {:induction false} RedeleteDocs(v: SegV, ids: Ids, pks: seq<nat>)
    ensures RemoveEach(v, ids, pks).docs == v.docs
  {
    if pks != [] {
      RedeleteDocs(v, ids, pks[..|pks| - 1]);
    }
  }

  lemma InputSmall<S>(s: State<S>, blank: S)
    requires Inv(s) && SpareForInput(s, blank)
    ensures Small(Input(s, blank))
  {
    if s.queue != [] {
      var s' := s.(queue := s.queue[1..]);
      QueueCore(s, s.queue[1..]);
      match s.queue[0]
      case AddTask(doc) => AddSmall(s', doc, blank);
      case RemoveTask(pk) => RemoveSmall(s', pk);
      case ReplaceTask => if s.phase.Migrated? { ReplaceSmall(s'); }
      case RedeleteTask => if s.phase.Redeleting? { RedeleteSmall(s'); }
    }
  }

  lemma RemoveSmall<S>(s: State<S>, pk: nat)
    requires Core(s) && Small(s)
    ensures Small(HandleRemove(s, pk))
  {
    RemoveAllListed(s, pk);
  }

  lemma ReplaceSmall<S>(s: State<S>)
    requires Core(s) && Small(s) && s.phase.Migrated?
    ensures Small(HandleReplace(s))
  {
    HandleReplaceSame(s);
  }

  lemma RedeleteSmall<S>(s: State<S>)
    requires Core(s) && Small(s) && s.phase.Redeleting?
    ensures Small(HandleRedelete(s))
  {
    RedeleteDocs(View(s, s.phase.newseg), s.ids, s.md);
  }

  lemma MigrateSmall<S>(s: State<S>, blank: S)
    requires Core(s) && Small(s) && s.phase.Chosen? && blank !in s.segs
    ensures Small(Migrate(s, blank))
  {
    MigrationPartitions(s);
    MigrationRenumbers(s, Moved(s), Dead(s));
    MigrateSmallTo(s, blank, Moved(s), Dead(s), Renumber(s.ids, Moved(s)));
  }

  lemma MigrateSmallTo<S>(s: State<S>, blank: S, moved: seq<Document>, dead: seq<Document>, ids: Ids)
    requires Core(s) && Small(s) && s.phase.Chosen? && blank !in s.segs
    requires Splits(s, moved, dead) && Renumbers(s, moved, ids)
    ensures Small(MigrateTo(s, blank, moved, dead, ids))
  {
    forall d | d in ids
      ensures ids[d] <= s.cap
    {
      if d in moved {
        var i :| 0 <= i < |moved| && moved[i] == d;
      }
    }
  }

  lemma InputInv<S>(s: State<S>, blank: S)
    requires Inv(s) && SpareForInput(s, blank)
    ensures Inv(Input(s, blank))
  {
    InputSmall(s, blank);
    if s.queue != [] {
      InputCore(s, blank);
      QueueTail(s.queue, s.ids.Keys, Replacing(s), s.phase.Redeleting?);
    }
  }

  lemma SubmitInv<S>(s: State<S>, t: Task)
    requires Inv(s) && (t.RemoveTask? || (t.AddTask? && t.doc.Checked() && t.doc !in s.ids && t !in s.queue))
    ensures Inv(Submit(s, t))
  {
    QueueCore(s, s.queue + [t]);
    if |s.queue| < QUEUE_SIZE_INPUT {
      QueuePush(s.queue, t, s.ids.Keys, Replacing(s), s.phase.Redeleting?);
    }
  }

  lemma MigrateInv<S>(s: State<S>, blank: S)
    requires Inv(s) && blank !in s.segs
    ensures Inv(Migrate(s, blank))
  {
    if s.phase.Chosen? {
      MigrateCore(s, blank);
      MigrateSmall(s, blank);
      MigrationPartitions(s);
      MigrationRenumbers(s, Moved(s), Dead(s));
    }
  }

  lemma QueueReplaceCore<S>(s: State<S>)
    requires Core(s)
    ensures var r := QueueReplace(s); Core(r) && Live(r) == Live(s) && Masked(r) == Masked(s)
  {
    var r := QueueReplace(s);
    assert forall g :: Sound(r, g) == Sound(s, g) && Docs(r, g) == Docs(s, g);
    assert Stored(r) == Stored(s);
  }

  lemma RequestRedeleteCore<S>(s: State<S>)
    requires Core(s)
    ensures var r := RequestRedelete(s); Core(r) && Live(r) == Live(s) && Masked(r) == Masked(s)
  {
    var r := RequestRedelete(s);
    assert forall g :: Sound(r, g) == Sound(s, g) && Docs(r, g) == Docs(s, g);
    assert Stored(r) == Stored(s);
  }

  lemma ResetCore<S>(s: State<S>)
    requires Core(s)
    ensures var r := Reset(s); Core(r) && Live(r) == Live(s) && Masked(r) == Masked(s)
  {
    var r := Reset(s);
    assert forall g :: Sound(r, g) == Sound(s, g) && Docs(r, g) == Docs(s, g);
    assert Stored(r) == Stored(s);
  }

  lemma InitialInv<S>(cap: nat, first: S)
    requires 1 <= cap < UINT32 - 1
    ensures Inv(Initial(cap, first)) && Represents(Initial(cap, first), map[])
  {
    var s := Initial(cap, first);
    assert View(s, first) == EMPTY_SEG;
    assert Stored(s) == {} && Live(s) == {};
  }

  /** Every step keeps the invariant. */
  lemma StepInv<S>(s: State<S>, l: Label<S>)
    requires Inv(s) && Enabled(s, l)
    ensures Inv(Step(s, l))
  {
    match l
    case SubmitAdd(doc) => if doc.Checked() { SubmitInv(s, AddTask(doc)); }
    case SubmitRemove(pk) => SubmitInv(s, RemoveTask(pk));
    case RunInput(blank) => InputInv(s, blank);
    case RunCheck => CheckCore(s);
    case RunMigrate(blank) => MigrateInv(s, blank);
    case RunQueueReplace =>
      QueueReplaceCore(s);
      if s.phase.Migrated? && !s.phase.queued { QueuePush(s.queue, ReplaceTask, s.ids.Keys, false, false); }
    case RunRelease => ReleaseCore(s);
    case RunRequestRedelete =>
      RequestRedeleteCore(s);
      if s.phase.Released? { QueuePush(s.queue, RedeleteTask, s.ids.Keys, false, false); }
    case RunReset => ResetCore(s);
  }

  // ----- the map from primary keys to documents -----

  /** The two kinds of step after which the engine shows something else than the map:
      an add, while a replacement is pending, of a pk that is live in the new segment
      and not recorded for redeletion; and a migration of a live document whose pk is
      recorded for redeletion, which then can only be left over from an earlier merge. */
  ghost predicate Harmful<S>(s: State<S>, l: Label<S>) {
    match l
    case RunInput(_) =>
      && s.queue != [] && s.queue[0].AddTask? && s.phase.Migrated?
      && exists d :: d in LiveDocs(View(s, s.phase.newseg), s.ids) && d.pk == s.queue[0].doc.pk && d.pk !in s.md
    case RunMigrate(_) =>
      && s.phase.Chosen?
      && exists d :: d in LiveDocs(View(s, s.phase.m1), s.ids) + LiveDocs(View(s, s.phase.m2), s.ids) && d.pk in s.md
    case _ => false
  }

  ghost predicate Keyed(m: map<nat, Document>) {
    forall k :: k in m ==> m[k].pk == k
  }

  lemma MapAdd(m: map<nat, Document>, doc: Document)
    requires Keyed(m)
    ensures Keyed(m[doc.pk := doc])
    ensures m[doc.pk := doc].Values == (set d | d in m.Values && d.pk != doc.pk) + {doc}
  {
    var m' := m[doc.pk := doc];
    assert m'[doc.pk] == doc;
    forall d | d in m.Values && d.pk != doc.pk
      ensures d in m'.Values
    {
      assert m'[d.pk] == d;
    }
  }

  lemma MapRemove(m: map<nat, Document>, pk: nat)
    requires Keyed(m)
    ensures Keyed(m - {pk})
    ensures (m - {pk}).Values == set d | d in m.Values && d.pk != pk
  {
    var m' := m - {pk};
    forall d | d in m.Values && d.pk != pk
      ensures d in m'.Values
    {
      assert m'[d.pk] == d;
    }
  }

  lemma AddExact<S>(s: State<S>, m: map<nat, Document>, doc: Document, blank: S)
    requires Core(s) && Represents(s, m) && doc !in s.ids && Spare(s, blank)
    ensures Represents(HandleAdd(s, doc, blank), m[doc.pk := doc]) <==>
            !(s.phase.Migrated? && exists d :: d in LiveDocs(View(s, s.phase.newseg), s.ids) && d.pk == doc.pk && d.pk !in s.md)
  {
    HandleAddLive(s, doc, blank);
    MapAdd(m, doc);
    var r := HandleAdd(s, doc, blank);
    assert doc !in Live(s) && doc !in Masked(s) by { NewIsNowhere(s, doc); }
    assert Visible(r) == Remaining(s, doc) + {doc};
    KeptHas(s, doc);
    OthersStay(m.Values, Remaining(s, doc), doc);
  }

  /** What an add of the document leaves visible. */
  ghost function Remaining<S>(s: State<S>, doc: Document): set<Document> {
    set d | d in Visible(s) && (d.pk != doc.pk || OutOfReach(s, d))
  }

  /** A document with the same pk stays exactly when the step is harmful. */
  lemma KeptHas<S>(s: State<S>, doc: Document)
    requires Core(s)
    ensures (exists d :: d in Remaining(s, doc) && d.pk == doc.pk) <==>
            (s.phase.Migrated? && exists d :: d in LiveDocs(View(s, s.phase.newseg), s.ids) && d.pk == doc.pk && d.pk !in s.md)
    ensures forall d | d in Visible(s) && d.pk != doc.pk :: d in Remaining(s, doc)
  {
    if s.phase.Migrated? {
      LiveInNewseg(s);
      if d :| d in LiveDocs(View(s, s.phase.newseg), s.ids) && d.pk == doc.pk && d.pk !in s.md {
        assert d in Remaining(s, doc);
      }
    }
  }

  lemma OthersStay(all: set<Document>, kept: set<Document>, doc: Document)
    requires kept <= all && doc !in all && forall d | d in all && d.pk != doc.pk :: d in kept
    ensures kept + {doc} == (set d | d in all && d.pk != doc.pk) + {doc} <==> !exists d :: d in kept && d.pk == doc.pk
  {
    if d :| d in kept && d.pk == doc.pk {
      assert d in kept + {doc} && d != doc;
    }
  }

  lemma NewIsNowhere<S>(s: State<S>, doc: Document)
    requires Core(s) && doc !in s.ids
    ensures doc !in Live(s) && doc !in Masked(s)
  {
  }

  /** While a replacement is pending, the visible documents of the new segment are its
      live ones that are not recorded for redeletion. */
  lemma LiveInNewseg<S>(s: State<S>)
    requires Core(s) && s.phase.Migrated?
    ensures forall d | d in Docs(s, s.phase.newseg) ::
              d in Visible(s) <==> d in LiveDocs(View(s, s.phase.newseg), s.ids) && d.pk !in s.md
  {
    var n := s.phase.newseg;
    forall d | d in Docs(s, n) && d in Live(s)
      ensures d in LiveDocs(View(s, n), s.ids)
    {
      var g := LiveHome(s, d);
      assert d in Docs(s, g) && d in Docs(s, n);
    }
  }

  lemma MigrateExact<S>(s: State<S>, m: map<nat, Document>, blank: S)
    requires Core(s) && Represents(s, m) && s.phase.Chosen? && blank !in s.segs
    ensures Represents(Migrate(s, blank), m) <==>
            !exists d :: d in LiveDocs(View(s, s.phase.m1), s.ids) + LiveDocs(View(s, s.phase.m2), s.ids) && d.pk in s.md
  {
    MigrationPartitions(s);
    MigrateCore(s, blank);
    MigrateExactTo(s, m, Migrate(s, blank), Moved(s));
  }

  lemma MigrateExactTo<S>(s: State<S>, m: map<nat, Document>, r: State<S>, moved: seq<Document>)
    requires Represents(s, m) && s.phase.Chosen? && OldsListed(s)
    requires Elems(moved) == LiveDocs(View(s, s.phase.m1), s.ids) + LiveDocs(View(s, s.phase.m2), s.ids)
    requires Live(r) == Live(s) && Masked(r) == set d | d in moved && d.pk in s.md
    ensures Represents(r, m) <==>
            !exists d :: d in LiveDocs(View(s, s.phase.m1), s.ids) + LiveDocs(View(s, s.phase.m2), s.ids) && d.pk in s.md
  {
    forall d | d in moved
      ensures d in Elems(moved) && d in Live(s)
    {
      assert d in Elems(moved);
    }
    assert Masked(s) == {} && Visible(s) == Live(s);
    if d :| d in Elems(moved) && d.pk in s.md {
      assert d in moved && d in Masked(r);
      assert d in Visible(s) && d !in Visible(r);
    } else {
      assert Masked(r) == {};
    }
  }

  ghost predicate OldsListed<S>(s: State<S>)
    requires s.phase.Chosen?
  {
    s.phase.m1 in s.segs && s.phase.m2 in s.segs && Sound(s, s.phase.m1) && Sound(s, s.phase.m2)
  }

  lemma SubmitVisible<S>(s: State<S>, t: Task)
    requires Core(s)
    ensures Visible(Submit(s, t)) == Visible(s)
  {
    QueueCore(s, s.queue + [t]);
  }

  lemma RemoveExact<S>(s: State<S>, m: map<nat, Document>, pk: nat)
    requires Core(s) && Represents(s, m)
    ensures Represents(HandleRemove(s, pk), m - {pk})
  {
    HandleRemoveCore(s, pk);
    MapRemove(m, pk);
  }

  lemma InputExact<S>(s: State<S>, l: Label<S>, m: map<nat, Document>)
    requires Inv(s) && l.RunInput? && SpareForInput(s, l.blank) && Represents(s, m)
    ensures Represents(Step(s, l), SpecStep(s, l, m)) <==> !Harmful(s, l)
  {
    if s.queue != [] {
      var s' := s.(queue := s.queue[1..]);
      QueueCore(s, s.queue[1..]);
      match s.queue[0]
      case AddTask(doc) => AddTaskExact(s, l, m, doc);
      case RemoveTask(pk) => RemoveExact(s', m, pk);
      case ReplaceTask => HandleReplaceCore(s');
      case RedeleteTask => HandleRedeleteCore(s');
    }
  }

  lemma AddTaskExact<S>(s: State<S>, l: Label<S>, m: map<nat, Document>, doc: Document)
    requires Inv(s) && l.RunInput? && SpareForInput(s, l.blank) && Represents(s, m)
    requires s.queue != [] && s.queue[0] == AddTask(doc)
    ensures Represents(Step(s, l), m[doc.pk := doc]) <==> !Harmful(s, l)
  {
    var s' := s.(queue := s.queue[1..]);
    QueueCore(s, s.queue[1..]);
    assert s.phase.Migrated? ==> View(s', s.phase.newseg) == View(s, s.phase.newseg);
    AddExact(s', m, doc, l.blank);
  }

  /** One step shows exactly what the map shows if and only if it is not harmful. */
  lemma StepExact<S>(s: State<S>, l: Label<S>, m: map<nat, Document>)
    requires Inv(s) && Enabled(s, l) && Represents(s, m)
    ensures Represents(Step(s, l), SpecStep(s, l, m)) <==> !Harmful(s, l)
  {
    match l
    case SubmitAdd(doc) => SubmitVisible(s, AddTask(doc));
    case SubmitRemove(pk) => SubmitVisible(s, RemoveTask(pk));
    case RunInput(_) => InputExact(s, l, m);
    case RunCheck => CheckCore(s);
    case RunMigrate(blank) => if s.phase.Chosen? { MigrateExact(s, m, blank); }
    case RunQueueReplace => QueueReplaceCore(s);
    case RunRelease => ReleaseCore(s);
    case RunRequestRedelete => RequestRedeleteCore(s);
    case RunReset => ResetCore(s);
  }

  // ----- runs -----

  ghost predicate RunEnabled<S>(s: State<S>, ls: seq<Label<S>>)
    decreases |ls|
  {
    ls == [] || (Enabled(s, ls[0]) && RunEnabled(Step(s, ls[0]), ls[1..]))
  }

  ghost function Run<S>(s: State<S>, ls: seq<Label<S>>): State<S>
    decreases |ls|
  {
    if ls == [] then s else Run(Step(s, ls[0]), ls[1..])
  }

  ghost function SpecRun<S>(s: State<S>, ls: seq<Label<S>>, m: map<nat, Document>): map<nat, Document>
    decreases |ls|
  {
    if ls == [] then m else SpecRun(Step(s, ls[0]), ls[1..], SpecStep(s, ls[0], m))
  }

  ghost predicate Harmless<S>(s: State<S>, ls: seq<Label<S>>)
    decreases |ls|
  {
    ls == [] || (!Harmful(s, ls[0]) && Harmless(Step(s, ls[0]), ls[1..]))
  }

  /** The map is represented in every state the run passes through. */
  ghost predicate AlwaysExact<S>(s: State<S>, ls: seq<Label<S>>, m: map<nat, Document>)
    decreases |ls|
  {
    Represents(s, m) && (ls == [] || AlwaysExact(Step(s, ls[0]), ls[1..], SpecStep(s, ls[0], m)))
  }

  /** The invariant holds in every reachable state. */
  lemma {:induction false} RunInv<S>(s: State<S>, ls: seq<Label<S>>)
    requires Inv(s) && RunEnabled(s, ls)
    ensures Inv(Run(s, ls))
    decreases |ls|
  {
    if ls != [] {
      StepInv(s, ls[0]);
      RunInv(Step(s, ls[0]), ls[1..]);
    }
  }

  /** Merging is invisible in all the states of a run if and only if no step of the run
      is harmful. */
  lemma {:induction false} MergeIsInvisible<S>(s: State<S>, ls: seq<Label<S>>, m: map<nat, Document>)
    requires Inv(s) && RunEnabled(s, ls) && Represents(s, m)
    ensures AlwaysExact(s, ls, m) <==> Harmless(s, ls)
    ensures Harmless(s, ls) ==> Represents(Run(s, ls), SpecRun(s, ls, m))
    decreases |ls|
  {
    if ls != [] {
      var l := ls[0];
      StepInv(s, l);
      StepExact(s, l, m);
      if !Harmful(s, l) {
        MergeIsInvisible(Step(s, l), ls[1..], SpecStep(s, l, m));
      }
    }
  }

  // ----- consequences for every reachable state -----

  ghost predicate Reachable<S>(s: State<S>, cap: nat, first: S, ls: seq<Label<S>>) {
    RunEnabled(Initial(cap, first), ls) && s == Run(Initial(cap, first), ls)
  }

  lemma ReachableInv<S>(s: State<S>, cap: nat, first: S, ls: seq<Label<S>>)
    requires 1 <= cap < UINT32 - 1 && Reachable(s, cap, first, ls)
    ensures Inv(s)
  {
    InitialInv(cap, first);
    RunInv(Initial(cap, first), ls);
  }

  /** Exactly one listed segment is active, the one that is written to. */
  lemma OneActive<S>(s: State<S>, cap: nat, first: S, ls: seq<Label<S>>, g: S)
    requires 1 <= cap < UINT32 - 1 && Reachable(s, cap, first, ls)
    ensures s.active in s.list
    ensures g in s.list ==> (View(s, g).state == STATE_ACTIVE <==> g == s.active)
  {
    ReachableInv(s, cap, first, ls);
  }

  /** No segment is ever larger than the limit, merged ones included; the ids of a sound
      one are exactly 1 to the number of its documents, and the generator is far from
      wrapping around. */
  lemma IdsInBounds<S>(s: State<S>, cap: nat, first: S, ls: seq<Label<S>>, g: S)
    requires 1 <= cap < UINT32 - 1 && Reachable(s, cap, first, ls) && g in s.segs
    ensures |Docs(s, g)| <= cap
    ensures forall d | d in Docs(s, g) :: d in s.ids && s.ids[d] <= cap
    ensures Sound(s, g) ==>
              && (forall i :: 0 <= i < |Docs(s, g)| ==> IdOf(s.ids, Docs(s, g)[i]) == i + 1)
              && View(s, g).nextId == |Docs(s, g)| + 1 < UINT32
              && (forall x | x in View(s, g).deleted :: 1 <= x <= |Docs(s, g)|)
  {
    ReachableInv(s, cap, first, ls);
    SameCap(Initial(cap, first), ls);
  }

  lemma {:induction false} SameCap<S>(s: State<S>, ls: seq<Label<S>>)
    requires RunEnabled(s, ls)
    ensures Run(s, ls).cap == s.cap
    decreases |ls|
  {
    if ls != [] {
      SameCap(Step(s, ls[0]), ls[1..]);
    }
  }

  /** The replace task is queued exactly in stage 2 and the redelete task exactly in stage
      5, once; the queue never exceeds its limit by more than that one task. */
  lemma QueueMatchesStage<S>(s: State<S>, cap: nat, first: S, ls: seq<Label<S>>)
    requires 1 <= cap < UINT32 - 1 && Reachable(s, cap, first, ls)
    ensures ReplaceTask in s.queue <==> Replacing(s)
    ensures RedeleteTask in s.queue <==> s.phase.Redeleting?
    ensures multiset(s.queue)[ReplaceTask] + multiset(s.queue)[RedeleteTask] <= 1
    ensures |s.queue| <= QUEUE_SIZE_INPUT + multiset(s.queue)[ReplaceTask] + multiset(s.queue)[RedeleteTask]
  {
    ReachableInv(s, cap, first, ls);
  }

  /** After a run without a harmful step, at most one document per pk is visible; outside
      of a merge, that is at most one live document in all listed segments together. */
  lemma OnePerPk<S>(cap: nat, first: S, ls: seq<Label<S>>, d: Document, e: Document)
    requires 1 <= cap < UINT32 - 1 && RunEnabled(Initial(cap, first), ls) && Harmless(Initial(cap, first), ls)
    requires d.pk == e.pk
    ensures var s := Run(Initial(cap, first), ls);
      && (d in Visible(s) && e in Visible(s) ==> d == e)
      && (s.phase.Idle? ==> forall g, h | g in s.list && h in s.list ::
            d in LiveDocs(View(s, g), s.ids) && e in LiveDocs(View(s, h), s.ids) ==> d == e)
  {
    var s0 := Initial(cap, first);
    var s := Run(s0, ls);
    InitialInv(cap, first);
    RunInv(s0, ls);
    MergeIsInvisible(s0, ls, map[]);
    var m := SpecRun(s0, ls, map[]);
    assert forall x | x in Visible(s) :: x in m.Values;
    VisibleByStage(s);
  }

  /** A freed document is in no segment that a lookup can reach. */
  lemma FreedIsUnreachable<S>(s: State<S>, g: S, d: Document)
    requires Inv(s) && g in s.list && d in Docs(s, g)
    ensures d !in s.freed
  {
    if Sound(s, g) {
      assert d in Stored(s);
    } else {
      assert d in Docs(s, s.phase.m1) + Docs(s, s.phase.m2);
    }
  }

  /** What is visible, stage by stage. */
  lemma VisibleByStage<S>(s: State<S>)
    requires Inv(s)
    ensures s.phase.Idle? || s.phase.Chosen? || s.phase.Done? ==>
              forall d :: d in Visible(s) <==> exists g :: g in s.list && d in LiveDocs(View(s, g), s.ids)
    ensures s.phase.Migrated? ==> forall d :: d in Visible(s) <==>
              || (exists g :: g in s.list && g != s.phase.m1 && g != s.phase.m2 && d in LiveDocs(View(s, g), s.ids))
              || (d in LiveDocs(View(s, s.phase.newseg), s.ids) && d.pk !in s.md)
    ensures s.phase.Replaced? || s.phase.Released? || s.phase.Redeleting? ==>
              forall d :: d in Visible(s) <==>
                && (exists g :: g in s.list && d in LiveDocs(View(s, g), s.ids))
                && !(d in Docs(s, s.phase.newseg) && d.pk in s.md)
  {
    forall d | d in Live(s)
      ensures exists g :: g in s.segs && Sound(s, g) && d in LiveDocs(View(s, g), s.ids)
    {
      var g := LiveHome(s, d);
      assert d in LiveDocs(View(s, g), s.ids);
    }
    if s.phase.Migrated? {
      var n := s.phase.newseg;
      forall d, g | g in s.list && g != s.phase.m1 && g != s.phase.m2 && d in LiveDocs(View(s, g), s.ids)
        ensures d !in Docs(s, n)
      {
        assert Sound(s, g) && Sound(s, n) && d in Docs(s, g);
      }
    }
  }

  // ----- one merge cycle -----

  /** No migration has begun, and no pk left over from an earlier merge can hit a document
      about to be merged. */
  ghost predicate Clean<S>(s: State<S>) {
    if s.phase.Chosen? then
      forall d :: d in LiveDocs(View(s, s.phase.m1), s.ids) + LiveDocs(View(s, s.phase.m2), s.ids) ==> d.pk !in s.md
    else s.phase.Idle? && s.md == []
  }

  lemma AddClean<S>(s: State<S>, doc: Document, blank: S)
    requires Core(s) && Clean(s) && doc !in s.ids && Spare(s, blank)
    ensures Clean(HandleAdd(s, doc, blank))
  {
    if s.phase.Chosen? {
      MakeRoom(s, doc, blank);
      AddKeepsDead(s, s.phase.m1, doc, blank);
      AddKeepsDead(s, s.phase.m2, doc, blank);
    }
  }

  /** An add only takes documents away from a sealed segment. */
  lemma AddKeepsDead<S>(s: State<S>, g: S, doc: Document, blank: S)
    requires Core(s) && s.phase.Chosen? && (g == s.phase.m1 || g == s.phase.m2) && doc !in s.ids && Spare(s, blank)
    ensures var r := HandleAdd(s, doc, blank); LiveDocs(View(r, g), r.ids) <= LiveDocs(View(s, g), s.ids)
  {
    var t := Rotate(s, blank);
    RotateCore(s, blank);
    RotateListed(s, blank);
    RemoveKeepsDead(t, g, doc.pk);
    MakeRoom(s, doc, blank);
    AppendIndexing(RemoveAll(t, doc.pk), doc);
  }

  /** A removal only takes documents away, and takes all that have the pk. */
  lemma RemoveKeepsDead<S>(s: State<S>, g: S, pk: nat)
    requires Core(s) && s.phase.Chosen? && g in s.list
    ensures LiveDocs(View(RemoveAll(s, pk), g), s.ids) == set d | d in LiveDocs(View(s, g), s.ids) && d.pk != pk
  {
    RemoveAllIndexing(s, pk);
  }

  lemma InputClean<S>(s: State<S>, blank: S)
    requires Inv(s) && Clean(s) && SpareForInput(s, blank)
    ensures Clean(Input(s, blank))
  {
    if s.queue != [] {
      var s' := s.(queue := s.queue[1..]);
      QueueCore(s, s.queue[1..]);
      match s.queue[0]
      case AddTask(doc) => AddClean(s', doc, blank);
      case RemoveTask(pk) =>
        if s.phase.Chosen? {
          RemoveKeepsDead(s', s.phase.m1, pk);
          RemoveKeepsDead(s', s.phase.m2, pk);
        }
      case _ =>
    }
  }

  lemma StepClean<S>(s: State<S>, l: Label<S>)
    requires Inv(s) && Clean(s) && Enabled(s, l)
    ensures Migrating(s, l) || Clean(Step(s, l))
    ensures !(l.RunMigrate? && Harmful(s, l))
  {
    match l
    case RunInput(blank) => InputClean(s, blank);
    case _ =>
  }

  ghost predicate Migrating<S>(s: State<S>, l: Label<S>) {
    l.RunMigrate? && s.phase.Chosen?
  }

  /** A run in which there is at most one migration, and none if there was one before. */
  ghost predicate OneCycle<S>(s: State<S>, ls: seq<Label<S>>, migrated: bool)
    decreases |ls|
  {
    ls == [] ||
    (!(migrated && Migrating(s, ls[0])) && OneCycle(Step(s, ls[0]), ls[1..], migrated || Migrating(s, ls[0])))
  }

  ghost predicate AddsHarmless<S>(s: State<S>, ls: seq<Label<S>>)
    decreases |ls|
  {
    ls == [] || (!(ls[0].RunInput? && Harmful(s, ls[0])) && AddsHarmless(Step(s, ls[0]), ls[1..]))
  }

  /** Through a whole merge cycle that starts with nothing recorded, its reset included, and
      on until a next migration begins, the adds are the only steps that can do harm. */
  lemma {:induction false} CycleIsInvisible<S>(s: State<S>, ls: seq<Label<S>>, m: map<nat, Document>, migrated: bool)
    requires Inv(s) && (migrated || Clean(s)) && RunEnabled(s, ls) && Represents(s, m) && OneCycle(s, ls, migrated)
    ensures AlwaysExact(s, ls, m) <==> AddsHarmless(s, ls)
    decreases |ls|
  {
    if ls != [] {
      var l := ls[0];
      StepInv(s, l);
      StepExact(s, l, m);
      if !migrated {
        StepClean(s, l);
      }
      if !Harmful(s, l) {
        CycleIsInvisible(Step(s, l), ls[1..], SpecStep(s, l, m), migrated || Migrating(s, l));
      }
    }
  }
}
