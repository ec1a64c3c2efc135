/** From what callers have submitted to what lookups answer: tasks are run in the order in
    which they were accepted, each of them once. */
module Submissions {
  import opened Basics
  import opened Documents
  import opened Protocol
  import opened ProtocolRuns
  import opened Answers

  // ----- first in, first out -----

  /** The task that a step puts into the queue, if any: a submission that is not turned
      down, or one of the merger's own, which the limit does not concern. */
  ghost function Accepts<S>(s: State<S>, l: Label<S>): seq<Task> {
    match l
    case SubmitAdd(doc) => if doc.pk != 0 && doc.fields != [] && |s.queue| < QUEUE_SIZE_INPUT then [AddTask(doc)] else []
    case SubmitRemove(pk) => if |s.queue| < QUEUE_SIZE_INPUT then [RemoveTask(pk)] else []
    case RunQueueReplace => if s.phase.Migrated? && !s.phase.queued then [ReplaceTask] else []
    case RunRequestRedelete => if s.phase.Released? then [RedeleteTask] else []
    case _ => []
  }

  /** The task that a step takes out of the queue and runs, if any. */
  ghost function Takes<S>(s: State<S>, l: Label<S>): seq<Task> {
    if l.RunInput? && s.queue != [] then [s.queue[0]] else []
  }

  ghost function Accepted<S>(s: State<S>, ls: seq<Label<S>>): seq<Task>
    decreases |ls|
  {
    if ls == [] then [] else Accepts(s, ls[0]) + Accepted(Step(s, ls[0]), ls[1..])
  }

  ghost function Taken<S>(s: State<S>, ls: seq<Label<S>>): seq<Task>
    decreases |ls|
  {
    if ls == [] then [] else Takes(s, ls[0]) + Taken(Step(s, ls[0]), ls[1..])
  }

  lemma StepInOrder<S>(s: State<S>, l: Label<S>)
    ensures s.queue + Accepts(s, l) == Takes(s, l) + Step(s, l).queue
  {
    match l
    case RunInput(blank) =>
      if s.queue != [] {
        assert s.queue == [s.queue[0]] + s.queue[1..];
        InputTakes(s, blank);
      }
    case _ =>
  }

  lemma InputTakes<S>(s: State<S>, blank: S)
    requires s.queue != []
    ensures Input(s, blank).queue == s.queue[1..]
  {
  }

  /** Nothing is lost, repeated or overtaken: what was queued and what was accepted is what
      was run, followed by what is still queued. */
  lemma {:induction false} FirstInFirstOut<S>(s: State<S>, ls: seq<Label<S>>)
    ensures s.queue + Accepted(s, ls) == Taken(s, ls) + Run(s, ls).queue
    decreases |ls|
  {
    if ls != [] {
      var l, t := ls[0], Step(s, ls[0]);
      StepInOrder(s, l);
      FirstInFirstOut(t, ls[1..]);
      Reassociate(s.queue, Accepts(s, l), Takes(s, l), t.queue, Accepted(t, ls[1..]), Taken(t, ls[1..]), Run(t, ls[1..]).queue);
    }
  }

  lemma Reassociate(q: seq<Task>, a: seq<Task>, t: seq<Task>, q': seq<Task>, a': seq<Task>, t': seq<Task>, r: seq<Task>)
    requires q + a == t + q' && q' + a' == t' + r
    ensures q + (a + a') == (t + t') + r
  {
    assert q + (a + a') == (q + a) + a';
    assert (t + q') + a' == t + (q' + a');
    assert t + (t' + r) == (t + t') + r;
  }

  // ----- what tasks mean -----

  ghost function Effect(m: map<nat, Document>, t: Task): map<nat, Document> {
    match t
    case AddTask(doc) => m[doc.pk := doc]
    case RemoveTask(pk) => m - {pk}
    case _ => m
  }

  ghost function Effects(m: map<nat, Document>, ts: seq<Task>): map<nat, Document>
    decreases |ts|
  {
    if ts == [] then m else Effects(Effect(m, ts[0]), ts[1..])
  }

  lemma EffectsOfOne(m: map<nat, Document>, a: seq<Task>, b: seq<Task>)
    requires |a| <= 1
    ensures Effects(m, a + b) == Effects(if a == [] then m else Effect(m, a[0]), b)
  {
    if a == [] {
      assert a + b == b;
    } else {
      assert (a + b)[0] == a[0] && (a + b)[1..] == b;
    }
  }

  /** The map after a run is the effect of the tasks it has run, one after the other. */
  lemma {:induction false} MapIsEffects<S>(s: State<S>, ls: seq<Label<S>>, m: map<nat, Document>)
    ensures SpecRun(s, ls, m) == Effects(m, Taken(s, ls))
    decreases |ls|
  {
    if ls != [] {
      var l, t := ls[0], Step(s, ls[0]);
      MapIsEffects(t, ls[1..], SpecStep(s, l, m));
      EffectsOfOne(m, Takes(s, l), Taken(t, ls[1..]));
    }
  }

  /** Once every accepted task has been run, a lookup answers from the map that the accepted
      submissions build in the order in which they were made, whatever the merger has done
      meanwhile, if no step was harmful. */
  lemma DrainedAnswers<S>(cap: nat, first: S, ls: seq<Label<S>>, terms: seq<string>, limit: nat)
    requires 1 <= cap < UINT32 - 1 && RunEnabled(Initial(cap, first), ls) && Harmless(Initial(cap, first), ls)
    requires var s := Run(Initial(cap, first), ls); s.queue == [] && (s.phase.Idle? || s.phase.Chosen? || s.phase.Done?)
    requires |terms| != 1
    ensures var s, m := Run(Initial(cap, first), ls), Effects(map[], Accepted(Initial(cap, first), ls));
      var r := Take(AllHits(s.segs, s.list, s.ids, terms), limit);
      && Distinct(r) && Elems(r) <= Wanted(m, terms)
      && |r| == (if |Wanted(m, terms)| <= limit then |Wanted(m, terms)| else limit)
  {
    var s0 := Initial(cap, first);
    RunAnswers(cap, first, ls, terms, limit);
    MapIsEffects(s0, ls, map[]);
    FirstInFirstOut(s0, ls);
    assert [] + Accepted(s0, ls) == Accepted(s0, ls) && Taken(s0, ls) + [] == Taken(s0, ls);
  }
}
