/** The engine and its background merge as a state machine.  One step is one call of an
    entry point, one task taken from the input queue, or one merge procedure; between
    steps anything may happen.  S stands for the names (addresses) of segments. */
module Protocol {
  import opened Basics
  import opened Documents
  import opened SegmentValues

  const QUEUE_SIZE_INPUT: nat := 128

  // ----- state -----

  datatype Task = AddTask(doc: Document) | RemoveTask(pk: nat) | ReplaceTask | RedeleteTask

  /** The merge stage with the data that is meaningful in it, numbered 0 to 6. */
  datatype Phase<S> =
    | Idle
    | Chosen(m1: S, m2: S)
    | Migrated(m1: S, m2: S, newseg: S, dead: seq<Document>, queued: bool)   // stage 1 until queued, then 2
    | Replaced(m1: S, m2: S, newseg: S, dead: seq<Document>)
    | Released(newseg: S)
    | Redeleting(newseg: S)
    | Done

  datatype State<S> = State(
    cap: nat,                     // SEGMENT_MAX_DOC
    list: seq<S>,                 // the engine's segment list, head first
    active: S,
    segs: map<S, SegV>,
    ids: Ids,      // doc_id of every document taken over by a segment
    queue: seq<Task>,
    phase: Phase<S>,
    md: seq<nat>,                 // merging_deletion
    freed: set<Document>)

  ghost function View<S>(s: State<S>, g: S): SegV {
    if g in s.segs then s.segs[g] else EMPTY_SEG
  }

  ghost function Docs<S>(s: State<S>, g: S): seq<Document> {
    View(s, g).docs
  }

  ghost function Initial<S>(cap: nat, first: S): State<S> {
    State(cap, [first], first, map[first := EMPTY_SEG], map[], [], Idle, [], {})
  }

  // ----- what a state means -----

  /** The segments whose documents still carry their own ids: the listed ones, but
      while a replacement is pending the new segment instead of the two old ones. */
  ghost predicate Sound<S>(s: State<S>, g: S) {
    if s.phase.Migrated? then
      g == s.phase.newseg || (g in s.list && g != s.phase.m1 && g != s.phase.m2)
    else g in s.list
  }

  /** The live documents of the sound segments. */
  ghost function Live<S>(s: State<S>): set<Document> {
    set g, d | g in s.segs && Sound(s, g) && d in LiveDocs(s.segs[g], s.ids) :: d
  }

  /** Documents of the new segment that the redelete task has still to remove. */
  ghost function Masked<S>(s: State<S>): set<Document> {
    if s.phase.Migrated? || s.phase.Replaced? || s.phase.Released? || s.phase.Redeleting? then
      set d | d in Docs(s, s.phase.newseg) && d.pk in s.md
    else {}
  }

  ghost function Visible<S>(s: State<S>): set<Document> {
    Live(s) - Masked(s)
  }

  /** The state represents the map m from primary keys to documents. */
  ghost predicate Represents<S>(s: State<S>, m: map<nat, Document>) {
    && Visible(s) == m.Values
    && forall k :: k in m ==> m[k].pk == k
  }

  // ----- input handlers -----

  ghost function RemoveAll<S>(s: State<S>, pk: nat): State<S> {
    s.(segs := map g | g in s.segs :: if g in s.list then RemoveV(s.segs[g], s.ids, pk) else s.segs[g])
  }

  ghost function Rotate<S>(s: State<S>, blank: S): State<S> {
    if |Docs(s, s.active)| < s.cap then s
    else
      var sealed := View(s, s.active);
      s.(segs := s.segs[s.active := sealed.(state := sealed.state + 1)][blank := EMPTY_SEG],
         list := [blank] + s.list, active := blank)
  }

  /** An address for the segment that a rotation would allocate. */
  ghost predicate Spare<S>(s: State<S>, blank: S) {
    |Docs(s, s.active)| >= s.cap ==> blank !in s.segs
  }

  /** An address is needed only when an add is next. */
  ghost predicate SpareForInput<S>(s: State<S>, blank: S) {
    s.queue != [] && s.queue[0].AddTask? ==> Spare(s, blank)
  }

  ghost function Append<S>(s: State<S>, doc: Document): State<S> {
    var v := View(s, s.active);
    s.(segs := s.segs[s.active := AddV(v, doc)], ids := s.ids[doc := v.nextId])
  }

  ghost function HandleAdd<S>(s: State<S>, doc: Document, blank: S): State<S> {
    Append(RemoveAll(Rotate(s, blank), doc.pk), doc)
  }

  ghost function HandleRemove<S>(s: State<S>, pk: nat): State<S> {
    var r := RemoveAll(s, pk);
    if s.phase.Idle? then r else r.(md := s.md + [pk])
  }

  ghost function HandleReplace<S>(s: State<S>): State<S>
    requires s.phase.Migrated?
  {
    var n := s.phase.newseg;
    var v := View(s, n);
    var rest := Without(Without(s.list, s.phase.m1), s.phase.m2);
    var t := s.(phase := Replaced(s.phase.m1, s.phase.m2, n, s.phase.dead));
    if v.docs == [] then t.(list := rest)
    else t.(list := [n] + rest, segs := s.segs[n := v.(state := v.state + 1)])
  }

  /** Removes every recorded pk from one segment. */
  ghost function RemoveEach(v: SegV, ids: Ids, pks: seq<nat>): SegV {
    if pks == [] then v else RemoveV(RemoveEach(v, ids, pks[..|pks| - 1]), ids, pks[|pks| - 1])
  }

  ghost function HandleRedelete<S>(s: State<S>): State<S>
    requires s.phase.Redeleting?
  {
    var n := s.phase.newseg;
    s.(segs := s.segs[n := RemoveEach(View(s, n), s.ids, s.md)], phase := Done)
  }

  /** One task, taken from the queue and run to its end. */
  ghost function Input<S>(s: State<S>, blank: S): State<S> {
    if s.queue == [] then s
    else
      var s' := s.(queue := s.queue[1..]);
      match s.queue[0]
      case AddTask(doc) => HandleAdd(s', doc, blank)
      case RemoveTask(pk) => HandleRemove(s', pk)
      case ReplaceTask => if s.phase.Migrated? then HandleReplace(s') else s'
      case RedeleteTask => if s.phase.Redeleting? then HandleRedelete(s') else s'
  }

  // ----- merge procedures -----

  datatype Scan<S> = Scan(m1: Option<S>, m2: Option<S>, found: bool)

  ghost predicate Sealed<S>(s: State<S>, g: S) {
    View(s, g).state != STATE_ACTIVE
  }

  /** The deleted ratio of every segment that is not the active one. */
  ghost function Ratios<S>(s: State<S>): map<S, nat> {
    map g | g in s.segs && Sealed(s, g) :: DeletedRatio(s.segs[g])
  }

  ghost function ScanStep<S>(ratios: map<S, nat>, sc: Scan<S>, g: S): Scan<S> {
    if g !in ratios then sc
    else if sc.m1.None? then sc.(m1 := Some(g))
    else if sc.m1.value in ratios && ratios[g] >= ratios[sc.m1.value] then Scan(Some(g), sc.m1, true)
    else sc
  }

  ghost function ScanAll<S>(ratios: map<S, nat>, list: seq<S>): Scan<S> {
    if list == [] then Scan(None, None, false)
    else ScanStep(ratios, ScanAll(ratios, list[..|list| - 1]), list[|list| - 1])
  }

  ghost function Select<S>(s: State<S>): Option<(S, S)> {
    var sc := ScanAll(Ratios(s), s.list);
    if |s.list| < 3 then None
    else if sc.found && sc.m1.Some? && sc.m2.Some? && DeletedRatio(View(s, sc.m1.value)) as real >= 0.2 then
      Some((sc.m1.value, sc.m2.value))
    else None
  }

  ghost function Check<S>(s: State<S>): State<S> {
    if !s.phase.Idle? then s
    else match Select(s)
      case None => s
      case Some(p) => s.(phase := Chosen(p.0, p.1))
  }

  ghost function Moved<S>(s: State<S>): seq<Document>
    requires s.phase.Chosen?
  {
    Survivors(View(s, s.phase.m1), s.ids) + Survivors(View(s, s.phase.m2), s.ids)
  }

  ghost function Dead<S>(s: State<S>): seq<Document>
    requires s.phase.Chosen?
  {
    Casualties(View(s, s.phase.m1), s.ids) + Casualties(View(s, s.phase.m2), s.ids)
  }

  ghost function Migrate<S>(s: State<S>, blank: S): State<S> {
    if !s.phase.Chosen? then s
    else MigrateTo(s, blank, Moved(s), Dead(s), Renumber(s.ids, Moved(s)))
  }

  ghost function MigrateTo<S>(s: State<S>, blank: S, moved: seq<Document>, dead: seq<Document>,
                              ids: Ids): State<S>
    requires s.phase.Chosen?
  {
    s.(segs := s.segs[blank := SegV(moved, {}, STATE_ACTIVE, |moved| + 1)],
       ids := ids,
       phase := Migrated(s.phase.m1, s.phase.m2, blank, dead, false))
  }

  ghost function QueueReplace<S>(s: State<S>): State<S> {
    if s.phase.Migrated? && !s.phase.queued then s.(queue := s.queue + [ReplaceTask], phase := s.phase.(queued := true)) else s
  }

  ghost function Release<S>(s: State<S>): State<S> {
    if !s.phase.Replaced? then s
    else
      var n := s.phase.newseg;
      var t := s.(freed := s.freed + Elems(s.phase.dead));
      if Docs(s, n) != [] then t.(segs := s.segs - {s.phase.m1, s.phase.m2}, phase := Released(n))
      else t.(segs := s.segs - {s.phase.m1, s.phase.m2, n}, phase := Done)
  }

  ghost function RequestRedelete<S>(s: State<S>): State<S> {
    if !s.phase.Released? then s
    else s.(queue := s.queue + [RedeleteTask], phase := Redeleting(s.phase.newseg))
  }

  ghost function Reset<S>(s: State<S>): State<S> {
    if s.phase.Done? then s.(phase := Idle) else s
  }

  // ----- entry points and steps -----

  ghost function Submit<S>(s: State<S>, t: Task): State<S> {
    if |s.queue| >= QUEUE_SIZE_INPUT then s else s.(queue := s.queue + [t])
  }

  datatype Label<S> =
    | SubmitAdd(doc: Document)
    | SubmitRemove(pk: nat)
    | RunInput(blank: S)
    | RunCheck
    | RunMigrate(blank: S)
    | RunQueueReplace
    | RunRelease
    | RunRequestRedelete
    | RunReset

  /** What a caller must respect: a document is handed over once, pk 0 is not removed,
      and an allocated segment is new. */
  ghost predicate Enabled<S>(s: State<S>, l: Label<S>) {
    match l
    case SubmitAdd(doc) => doc !in s.ids && AddTask(doc) !in s.queue
    case SubmitRemove(pk) => pk != 0
    case RunInput(blank) => SpareForInput(s, blank)
    case RunMigrate(blank) => blank !in s.segs
    case _ => true
  }

  ghost function Step<S>(s: State<S>, l: Label<S>): State<S> {
    match l
    case SubmitAdd(doc) => if doc.Checked() then Submit(s, AddTask(doc)) else s
    case SubmitRemove(pk) => Submit(s, RemoveTask(pk))
    case RunInput(blank) => Input(s, blank)
    case RunCheck => Check(s)
    case RunMigrate(blank) => Migrate(s, blank)
    case RunQueueReplace => QueueReplace(s)
    case RunRelease => Release(s)
    case RunRequestRedelete => RequestRedelete(s)
    case RunReset => Reset(s)
  }

  /** What the same step does to the map from primary keys to documents: a task taken
      from the queue is the only thing that changes it. */
  ghost function SpecStep<S>(s: State<S>, l: Label<S>, m: map<nat, Document>): map<nat, Document> {
    if l.RunInput? && s.queue != [] then
      match s.queue[0]
      case AddTask(doc) => m[doc.pk := doc]
      case RemoveTask(pk) => m - {pk}
      case _ => m
    else m
  }

  // ----- the invariant -----

  ghost predicate Listed<S>(s: State<S>) {
    && 1 <= s.cap < UINT32 - 1
    && Distinct(s.list)
    && s.active in s.list
    && (forall g | g in s.list :: g in s.segs)
    && (forall g | g in s.list :: View(s, g).state == if g == s.active then STATE_ACTIVE else STATE_ACTIVE + 1)
    && (forall g | g in s.list && g != s.active :: Docs(s, g) != [])
  }

  ghost predicate Sized<S>(s: State<S>) {
    forall g | g in s.segs :: |Docs(s, g)| <= s.cap
  }

  /** Documents of a segment have been taken over, and no id is ever larger than the
      number of documents a segment may have: ids do not wrap around. */
  ghost predicate Small<S>(s: State<S>) {
    && (forall g | g in s.segs :: forall d | d in Docs(s, g) :: d in s.ids)
    && (forall d | d in s.ids :: s.ids[d] <= s.cap)
  }

  ghost predicate Indexing<S>(s: State<S>) {
    && (forall g | g in s.segs && Sound(s, g) :: Numbered(View(s, g), s.ids))
    && (forall g, h, d | g in s.segs && h in s.segs && Sound(s, g) && Sound(s, h) && d in Docs(s, g) && d in Docs(s, h) :: g == h)
  }

  /** Dead documents that a pending merge still holds. */
  ghost function Pending<S>(s: State<S>): seq<Document> {
    if s.phase.Migrated? || s.phase.Replaced? then s.phase.dead else []
  }

  ghost function Stored<S>(s: State<S>): set<Document> {
    set g, d | g in s.segs && Sound(s, g) && d in Docs(s, g) :: d
  }

  /** Every document ever taken over is in a sound segment, or pending, or freed, and
      in only one of these places. */
  ghost predicate Owned<S>(s: State<S>) {
    && Stored(s) + Elems(Pending(s)) + s.freed == s.ids.Keys
    && Stored(s) !! Elems(Pending(s)) !! s.freed
    && Distinct(Pending(s))
  }

  ghost predicate Merging<S>(s: State<S>) {
    match s.phase
    case Idle => true
    case Done => true
    case Chosen(m1, m2) =>
      && m1 in s.list && m2 in s.list && m1 != m2 && m1 != s.active && m2 != s.active
      && LiveDocs(View(s, m1), s.ids) == {}
    case Migrated(m1, m2, n, _, _) =>
      && m1 in s.list && m2 in s.list && m1 != m2 && m1 != s.active && m2 != s.active
      && n !in s.list && n in s.segs && View(s, n).state == STATE_ACTIVE
      && (forall d | d in Docs(s, m1) + Docs(s, m2) :: d !in s.freed)
    case Replaced(m1, m2, n, _) =>
      && m1 !in s.list && m2 !in s.list && m1 != m2 && m1 != n && m2 != n && n != s.active && {m1, m2, n} <= s.segs.Keys
      && (n in s.list <==> Docs(s, n) != [])
    case Released(n) => n in s.list && n != s.active
    case Redeleting(n) => n in s.list && n != s.active
  }

  ghost function Occurrences(q: seq<Task>, t: Task): nat {
    multiset(q)[t]
  }

  /** One replace task exactly when one is pending, one redelete task likewise; forced
      entries are the only ones above the limit; waiting documents are new and distinct. */
  ghost predicate QueueOk(q: seq<Task>, taken: set<Document>, replacing: bool, redeleting: bool) {
    && Occurrences(q, ReplaceTask) == (if replacing then 1 else 0)
    && Occurrences(q, RedeleteTask) == (if redeleting then 1 else 0)
    && |q| <= QUEUE_SIZE_INPUT + (if replacing || redeleting then 1 else 0)
    && (forall i :: 0 <= i < |q| && q[i].AddTask? ==> q[i].doc !in taken && q[i].doc.Checked())
    && (forall i, j :: 0 <= i < j < |q| && q[i].AddTask? ==> q[i] != q[j])
  }

  /** The new segment waits to be put in place. */
  ghost predicate Replacing<S>(s: State<S>) {
    s.phase.Migrated? && s.phase.queued
  }

  /** The replace task is queued exactly in stage 2 and the redelete task exactly in
      stage 5, so never both. */
  ghost predicate Queued<S>(s: State<S>) {
    QueueOk(s.queue, s.ids.Keys, Replacing(s), s.phase.Redeleting?)
  }

  ghost predicate Inv<S>(s: State<S>) {
    Listed(s) && Sized(s) && Small(s) && Indexing(s) && Owned(s) && Merging(s) && Queued(s)
  }
}
