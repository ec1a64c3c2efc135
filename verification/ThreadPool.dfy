/** The thread pool as interleaved steps of any number of workers and pushers: a queue,
    and an event of one bit that all workers share. */
module ThreadPool {

  /** What a worker's task variable may hold: nothing yet, or the n-th accepted task. */
  datatype Task = Unset | Pushed(n: nat)

  /** Where a worker is in its loop. */
  datatype Pc =
    | Top        // about to test the exit flag
    | Enter      // about to lock the event and look at the signal
    | Asleep     // inside the condition variable
    | Woken      // about to look at the signal again
    | After      // has consumed the signal, about to test the exit flag
    | Drain      // about to dequeue
    | Verdict    // has found the queue empty under its lock, about to read its size
    | Running    // inside the handler of its task
    | Leaving    // about to decrement the number of threads alive
    | Gone

  datatype Worker = Worker(pc: Pc, task: Task)

  type Id = nat

  datatype State = State(
    maxSize: nat,
    workers: map<Id, Worker>,
    alive: nat,
    pushing: set<Id>,          // pushers between enqueue and signal
    signal: bool,
    exit: bool,
    queue: seq<Task>,
    accepted: nat,
    finished: multiset<Task>)

  function Initial(threads: set<Id>): State {
    State(2 * |threads|, map w | w in threads :: Worker(Top, Unset), |threads|, {}, false, false, [], 0, multiset{})
  }

  // ----- steps -----

  datatype Label =
    | Work(w: Id)
    | Spurious(w: Id)
    | PushEnqueue(p: Id)
    | PushSignal(p: Id, woken: set<Id>)
    | SetExit
    | Broadcast

  function Sleepers(s: State): set<Id> {
    set w | w in s.workers && s.workers[w].pc.Asleep?
  }

  /** A signal wakes at least one of those asleep, if there are any. */
  predicate Enabled(s: State, l: Label) {
    match l
    case Work(w) => w in s.workers && !s.workers[w].pc.Asleep? && !s.workers[w].pc.Gone?
    case Spurious(w) => w in Sleepers(s)
    case PushEnqueue(p) => p !in s.pushing
    case PushSignal(p, woken) => p in s.pushing && woken <= Sleepers(s) && (Sleepers(s) != {} ==> woken != {})
    case SetExit => true
    case Broadcast => s.exit
  }

  function Moved(s: State, w: Id, pc: Pc): State
    requires w in s.workers
  {
    s.(workers := s.workers[w := s.workers[w].(pc := pc)])
  }

  function WorkStep(s: State, w: Id): State
    requires w in s.workers
  {
    match s.workers[w].pc
    case Top => Moved(s, w, if s.exit then Leaving else Enter)
    case Enter => if s.signal then Moved(s.(signal := false), w, After) else Moved(s, w, Asleep)
    case Woken => if s.signal then Moved(s.(signal := false), w, After) else Moved(s, w, Asleep)
    case After => Moved(s, w, if s.exit then Leaving else Drain)
    case Drain =>
      if s.queue != [] then s.(queue := s.queue[1..], workers := s.workers[w := Worker(Running, s.queue[0])])
      else Moved(s, w, Verdict)
    case Verdict => Moved(s, w, if s.queue != [] then Running else Top)
    case Running => Moved(s.(finished := s.finished + multiset{s.workers[w].task}), w, Drain)
    case Leaving => Moved(s.(alive := if s.alive > 0 then s.alive - 1 else 0), w, Gone)
    case _ => s
  }

  function Wake(s: State, woken: set<Id>): State {
    s.(signal := true,
       workers := map w | w in s.workers :: if w in woken then s.workers[w].(pc := Woken) else s.workers[w])
  }

  function Step(s: State, l: Label): State
    requires Enabled(s, l)
  {
    match l
    case Work(w) => WorkStep(s, w)
    case Spurious(w) => Moved(s, w, Woken)
    case PushEnqueue(p) =>
      var t := s.(pushing := s.pushing + {p});
      if |s.queue| < s.maxSize then t.(queue := s.queue + [Pushed(s.accepted)], accepted := s.accepted + 1) else t
    case PushSignal(p, woken) => Wake(s.(pushing := s.pushing - {p}), woken)
    case SetExit => s.(exit := true)
    case Broadcast => Wake(s, Sleepers(s))
  }

  // ----- no wake-up is lost -----

  /** Between consuming a signal and finding the queue empty. */
  predicate Busy(w: Worker) {
    w.pc.After? || w.pc.Drain? || w.pc.Verdict? || w.pc.Running?
  }

  predicate SomeBusy(s: State) {
    exists w :: w in s.workers && Busy(s.workers[w])
  }

  predicate SomeAwake(s: State) {
    exists w :: w in s.workers && !s.workers[w].pc.Asleep?
  }

  function Present(s: State): set<Id> {
    set w | w in s.workers && !s.workers[w].pc.Gone?
  }

  predicate Inv(s: State) {
    && s.workers != map[]
    && s.alive == |Present(s)|
    && |s.queue| <= s.maxSize
    && (!s.exit ==>
          && (forall w :: w in s.workers ==> !s.workers[w].pc.Leaving? && !s.workers[w].pc.Gone?)
          && (s.signal ==> SomeAwake(s))
          && (s.queue != [] ==> s.signal || s.pushing != {} || SomeBusy(s)))
  }

  lemma InitialInv(threads: set<Id>)
    requires threads != {}
    ensures Inv(Initial(threads))
  {
    var s := Initial(threads);
    var w :| w in threads;
    assert w in s.workers;
    assert Present(s) == threads;
  }

  /** What a move of one worker does to the worker sets. */
  lemma MovedPresent(s: State, w: Id, worker: Worker)
    requires w in s.workers && !s.workers[w].pc.Gone?
    ensures var t := s.(workers := s.workers[w := worker]);
      Present(t) == if worker.pc.Gone? then Present(s) - {w} else Present(s)
  {
  }

  lemma WorkPresent(s: State, w: Id)
    requires Inv(s) && Enabled(s, Work(w))
    ensures var t := Step(s, Work(w)); t.alive == |Present(t)|
  {
    var t := Step(s, Work(w));
    MovedPresent(s, w, t.workers[w]);
    assert w in Present(s);
    assert Present(t) == if t.workers[w].pc.Gone? then Present(s) - {w} else Present(s);
  }

  /** The worker that moves stays busy for as long as there may be tasks; another busy
      worker stays as it is. */
  lemma WorkBusy(s: State, w: Id)
    requires Inv(s) && Enabled(s, Work(w)) && !s.exit
    ensures var t := Step(s, Work(w)); t.queue != [] ==> t.signal || t.pushing != {} || SomeBusy(t)
  {
    var t := Step(s, Work(w));
    assert w in t.workers;
    if t.queue != [] && !s.signal && t.pushing == {} {
      var b :| b in s.workers && Busy(s.workers[b]);
      assert b in t.workers && Busy(t.workers[b]);
    }
  }

  lemma WorkInv(s: State, w: Id)
    requires Inv(s) && Enabled(s, Work(w))
    ensures Inv(Step(s, Work(w)))
  {
    var t := Step(s, Work(w));
    WorkPresent(s, w);
    if !s.exit {
      WorkStays(s, w);
      WorkBusy(s, w);
    }
  }

  lemma WorkStays(s: State, w: Id)
    requires Inv(s) && Enabled(s, Work(w)) && !s.exit
    ensures var t := Step(s, Work(w));
      && (forall v :: v in t.workers ==> !t.workers[v].pc.Leaving? && !t.workers[v].pc.Gone?)
      && (t.signal ==> SomeAwake(t))
  {
    assert w in Step(s, Work(w)).workers;
  }

  lemma WakeInv(s: State, woken: set<Id>)
    requires Inv(s) && woken <= Sleepers(s) && (Sleepers(s) != {} ==> woken != {})
    ensures Inv(Wake(s, woken))
  {
    var t := Wake(s, woken);
    assert Present(t) == Present(s);
    var w :| w in s.workers;
    if woken != {} {
      var v :| v in woken;
      assert v in t.workers && !t.workers[v].pc.Asleep?;
    } else {
      assert w !in Sleepers(s);
      assert w in t.workers && !t.workers[w].pc.Asleep?;
    }
  }

  /** Every step keeps the invariant. */
  lemma StepInv(s: State, l: Label)
    requires Inv(s) && Enabled(s, l)
    ensures Inv(Step(s, l))
  {
    match l
    case Work(w) => WorkInv(s, w);
    case Spurious(w) =>
      var t := Step(s, l);
      assert Present(t) == Present(s);
      assert w in t.workers && !t.workers[w].pc.Asleep?;
      if SomeBusy(s) {
        var b :| b in s.workers && Busy(s.workers[b]);
        assert b in t.workers && Busy(t.workers[b]);
      }
    case PushEnqueue(p) =>
      var t := Step(s, l);
      assert Present(t) == Present(s) && t.workers == s.workers;
      assert p in t.pushing;
    case PushSignal(p, woken) =>
      var u := s.(pushing := s.pushing - {p});
      SignalInv(s, u, woken);
    case SetExit => assert Present(Step(s, l)) == Present(s);
    case Broadcast => WakeInv(s, Sleepers(s));
  }

  lemma SignalInv(s: State, u: State, woken: set<Id>)
    requires Inv(s) && u == s.(pushing := u.pushing)
    requires woken <= Sleepers(s) && (Sleepers(s) != {} ==> woken != {})
    ensures Inv(Wake(u, woken))
  {
    assert Present(u) == Present(s) && Sleepers(u) == Sleepers(s);
    var t := Wake(u, woken);
    WakeInv(s, woken);
    assert t == Wake(s, woken).(pushing := u.pushing);
    assert Present(t) == Present(Wake(s, woken));
    var w :| w in Wake(s, woken).workers && (!s.exit ==> !Wake(s, woken).workers[w].pc.Asleep?);
    assert w in t.workers;
  }

  // ----- every accepted task is queued, running or finished, exactly once -----

  function Runners(s: State, t: Task): set<Id> {
    set w | w in s.workers && s.workers[w] == Worker(Running, t)
  }

  /** How often a task is around: waiting, being run, or run to its end. */
  function Copies(s: State, t: Task): nat {
    multiset(s.queue)[t] + |Runners(s, t)| + s.finished[t]
  }

  ghost predicate ExactlyOnce(s: State) {
    forall t :: Copies(s, t) == if t.Pushed? && t.n < s.accepted then 1 else 0
  }

  /** The size is read after the lock has been released: when another thread has enqueued
      in between, the worker takes its old task for a new one. */
  predicate Stale(s: State, l: Label) {
    l.Work? && l.w in s.workers && s.workers[l.w].pc.Verdict? && s.queue != []
  }

  lemma RunnersMoved(s: State, w: Id, worker: Worker, t: Task)
    requires w in s.workers
    ensures var u := s.(workers := s.workers[w := worker]);
      Runners(u, t) == (Runners(s, t) - {w}) + if worker == Worker(Running, t) then {w} else {}
  {
  }

  lemma RunnersCount(s: State, w: Id, worker: Worker, t: Task)
    requires w in s.workers
    ensures var u := s.(workers := s.workers[w := worker]);
      |Runners(u, t)| == |Runners(s, t)| - (if s.workers[w] == Worker(Running, t) then 1 else 0)
                         + (if worker == Worker(Running, t) then 1 else 0)
  {
    RunnersMoved(s, w, worker, t);
    var rest := Runners(s, t) - {w};
    if w in Runners(s, t) {
      assert Runners(s, t) == rest + {w};
    } else {
      assert Runners(s, t) == rest;
    }
  }

  lemma QueueHead(q: seq<Task>, t: Task)
    requires q != []
    ensures multiset(q)[t] == multiset(q[1..])[t] + if q[0] == t then 1 else 0
  {
    assert q == [q[0]] + q[1..];
    assert multiset(q) == multiset{q[0]} + multiset(q[1..]);
  }

  lemma WorkRunners(s: State, w: Id, t: Task)
    requires Enabled(s, Work(w))
    ensures var u := Step(s, Work(w));
      |Runners(u, t)| == |Runners(s, t)| - (if s.workers[w] == Worker(Running, t) then 1 else 0)
                         + (if u.workers[w] == Worker(Running, t) then 1 else 0)
  {
    var u := Step(s, Work(w));
    RunnersCount(s, w, u.workers[w], t);
    assert u.workers == s.workers[w := u.workers[w]];
    assert Runners(u, t) == Runners(s.(workers := u.workers), t);
  }

  lemma WorkCopies(s: State, w: Id, t: Task)
    requires Enabled(s, Work(w))
    ensures Copies(Step(s, Work(w)), t) == Copies(s, t) + if Stale(s, Work(w)) && t == s.workers[w].task then 1 else 0
  {
    WorkRunners(s, w, t);
    WorkQueue(s, w, t);
    WorkFinished(s, w, t);
  }

  /** What a worker takes from the queue it has in hand. */
  lemma WorkQueue(s: State, w: Id, t: Task)
    requires Enabled(s, Work(w))
    ensures multiset(Step(s, Work(w)).queue)[t] ==
            multiset(s.queue)[t] - (if s.workers[w].pc.Drain? && s.queue != [] && s.queue[0] == t then 1 else 0)
  {
    if s.workers[w].pc.Drain? && s.queue != [] {
      QueueHead(s.queue, t);
    }
  }

  /** What it lets go is finished. */
  lemma WorkFinished(s: State, w: Id, t: Task)
    requires Enabled(s, Work(w))
    ensures Step(s, Work(w)).finished[t] == s.finished[t] + if s.workers[w] == Worker(Running, t) then 1 else 0
  {
    if s.workers[w].pc.Running? {
      OneMore(s.finished, s.workers[w].task, t);
    }
  }

  lemma OneMore(done: multiset<Task>, x: Task, t: Task)
    ensures (done + multiset{x})[t] == done[t] + if x == t then 1 else 0
  {
  }

  lemma SameRunners(s: State, u: State, t: Task)
    requires s.workers.Keys == u.workers.Keys
    requires forall w | w in s.workers :: s.workers[w] == u.workers[w] || (s.workers[w].pc.Asleep? && u.workers[w].pc.Woken?)
    ensures Runners(s, t) == Runners(u, t)
  {
    forall w | w in s.workers
      ensures w in Runners(s, t) <==> w in Runners(u, t)
    {
      assert s.workers[w] == u.workers[w] || (s.workers[w].pc.Asleep? && u.workers[w].pc.Woken?);
    }
  }

  lemma OtherCopies(s: State, l: Label, t: Task)
    requires Enabled(s, l) && !l.Work?
    ensures Copies(Step(s, l), t) == Copies(s, t) + if l.PushEnqueue? && |s.queue| < s.maxSize && t == Pushed(s.accepted) then 1 else 0
  {
    var u := Step(s, l);
    SameRunners(s, u, t);
  }

  /** One step keeps every accepted task around exactly once if and only if it does not
      mistake an old task for a new one. */
  lemma StepExact(s: State, l: Label)
    requires ExactlyOnce(s) && Enabled(s, l)
    ensures ExactlyOnce(Step(s, l)) <==> !Stale(s, l)
  {
    var u := Step(s, l);
    forall t
      ensures Copies(u, t) == Copies(s, t) +
        (if Stale(s, l) && t == s.workers[l.w].task then 1 else 0) +
        (if l.PushEnqueue? && |s.queue| < s.maxSize && t == Pushed(s.accepted) then 1 else 0)
    {
      if l.Work? { WorkCopies(s, l.w, t); } else { OtherCopies(s, l, t); }
    }
    if Stale(s, l) {
      var t := s.workers[l.w].task;
      assert Copies(u, t) == Copies(s, t) + 1;
    }
  }

  // ----- whole runs -----

  ghost predicate RunEnabled(s: State, ls: seq<Label>)
    decreases |ls|
  {
    ls == [] || (Enabled(s, ls[0]) && RunEnabled(Step(s, ls[0]), ls[1..]))
  }

  ghost function Run(s: State, ls: seq<Label>): State
    requires RunEnabled(s, ls)
    decreases |ls|
  {
    if ls == [] then s else Run(Step(s, ls[0]), ls[1..])
  }

  ghost predicate NeverStale(s: State, ls: seq<Label>)
    requires RunEnabled(s, ls)
    decreases |ls|
  {
    ls == [] || (!Stale(s, ls[0]) && NeverStale(Step(s, ls[0]), ls[1..]))
  }

  ghost predicate AlwaysExact(s: State, ls: seq<Label>)
    requires RunEnabled(s, ls)
    decreases |ls|
  {
    ExactlyOnce(s) && (ls == [] || AlwaysExact(Step(s, ls[0]), ls[1..]))
  }

  lemma {:induction false} RunInv(s: State, ls: seq<Label>)
    requires Inv(s) && RunEnabled(s, ls)
    ensures Inv(Run(s, ls))
    decreases |ls|
  {
    if ls != [] {
      StepInv(s, ls[0]);
      RunInv(Step(s, ls[0]), ls[1..]);
    }
  }

  /** In every state of a run each accepted task is around exactly once, if and only if no
      step of the run reads the size too late. */
  lemma {:induction false} RunExact(s: State, ls: seq<Label>)
    requires ExactlyOnce(s) && RunEnabled(s, ls)
    ensures AlwaysExact(s, ls) <==> NeverStale(s, ls)
    decreases |ls|
  {
    if ls != [] {
      StepExact(s, ls[0]);
      if !Stale(s, ls[0]) {
        RunExact(Step(s, ls[0]), ls[1..]);
      }
    }
  }

  lemma InitialExact(threads: set<Id>)
    ensures ExactlyOnce(Initial(threads))
  {
    forall t
      ensures Copies(Initial(threads), t) == 0
    {
      assert Runners(Initial(threads), t) == {};
    }
  }

  /** So in a pool that starts with these threads and an empty queue. */
  lemma PoolExact(threads: set<Id>, ls: seq<Label>)
    requires RunEnabled(Initial(threads), ls)
    ensures AlwaysExact(Initial(threads), ls) <==> NeverStale(Initial(threads), ls)
  {
    InitialExact(threads);
    RunExact(Initial(threads), ls);
  }

  /** Before exit, a waiting task always finds somebody who will get to it: a worker that
      is draining, one that is awake and will see the signal, or a pusher about to signal. */
  lemma NoLostWakeUp(threads: set<Id>, ls: seq<Label>)
    requires threads != {} && RunEnabled(Initial(threads), ls)
    ensures var s := Run(Initial(threads), ls);
      !s.exit && s.queue != [] ==> SomeBusy(s) || (s.signal && SomeAwake(s)) || s.pushing != {}
  {
    InitialInv(threads);
    RunInv(Initial(threads), ls);
  }

  // ----- tasks are handed out in the order in which they were pushed -----

  /** How many pushes a run accepts: those that find the queue below its limit. */
  ghost function Pushes(s: State, ls: seq<Label>): nat
    requires RunEnabled(s, ls)
    decreases |ls|
  {
    if ls == [] then 0
    else (if ls[0].PushEnqueue? && |s.queue| < s.maxSize then 1 else 0) + Pushes(Step(s, ls[0]), ls[1..])
  }

  /** The task that a step takes from the queue, as the worker has it afterwards. */
  ghost function Hands(s: State, l: Label): seq<Task>
    requires Enabled(s, l)
  {
    if l.Work? && s.workers[l.w].pc.Drain? && s.queue != [] then [Step(s, l).workers[l.w].task] else []
  }

  ghost function Handed(s: State, ls: seq<Label>): seq<Task>
    requires RunEnabled(s, ls)
    decreases |ls|
  {
    if ls == [] then [] else Hands(s, ls[0]) + Handed(Step(s, ls[0]), ls[1..])
  }

  /** The tasks from number a to number b. */
  ghost function Numbers(a: nat, b: nat): seq<Task>
    requires a <= b
  {
    seq(b - a, i requires 0 <= i < b - a => Pushed(a + i))
  }

  lemma StepInOrder(s: State, l: Label)
    requires Enabled(s, l)
    ensures var t, n := Step(s, l), if l.PushEnqueue? && |s.queue| < s.maxSize then 1 else 0;
      && t.accepted == s.accepted + n && t.maxSize == s.maxSize
      && s.queue + Numbers(s.accepted, t.accepted) == Hands(s, l) + t.queue
  {
    var t := Step(s, l);
    if l.Work? && s.workers[l.w].pc.Drain? && s.queue != [] {
      assert s.queue == [s.queue[0]] + s.queue[1..];
    } else if l.PushEnqueue? && |s.queue| < s.maxSize {
      assert Numbers(s.accepted, t.accepted) == [Pushed(s.accepted)];
    } else {
      assert Numbers(s.accepted, t.accepted) == [];
    }
  }

  lemma {:induction false} RunInOrder(s: State, ls: seq<Label>)
    requires RunEnabled(s, ls)
    ensures var t := Run(s, ls);
      && t.accepted == s.accepted + Pushes(s, ls) && t.maxSize == s.maxSize
      && s.queue + Numbers(s.accepted, t.accepted) == Handed(s, ls) + t.queue
    decreases |ls|
  {
    if ls == [] {
      assert Numbers(s.accepted, s.accepted) == [];
    } else {
      var u, t := Step(s, ls[0]), Run(s, ls);
      StepInOrder(s, ls[0]);
      RunInOrder(u, ls[1..]);
      NumbersConcat(s.accepted, u.accepted, t.accepted);
      Reassociate(s.queue, Numbers(s.accepted, u.accepted), Hands(s, ls[0]), u.queue,
                  Numbers(u.accepted, t.accepted), Handed(u, ls[1..]), t.queue);
    }
  }

  lemma NumbersConcat(a: nat, b: nat, c: nat)
    requires a <= b <= c
    ensures Numbers(a, c) == Numbers(a, b) + Numbers(b, c)
  {
  }

  lemma Reassociate(q: seq<Task>, a: seq<Task>, t: seq<Task>, q': seq<Task>, a': seq<Task>, t': seq<Task>, r: seq<Task>)
    requires q + a == t + q' && q' + a' == t' + r
    ensures q + (a + a') == (t + t') + r
  {
    assert q + (a + a') == (q + a) + a';
    assert (t + q') + a' == t + (q' + a');
    assert t + (t' + r) == (t + t') + r;
  }

  /** The tasks handed out in a run of a new pool, followed by those still queued, are the
      accepted pushes in their order: twice as many as there are threads can wait. */
  lemma PoolInOrder(threads: set<Id>, ls: seq<Label>)
    requires RunEnabled(Initial(threads), ls)
    ensures var s := Run(Initial(threads), ls);
      Handed(Initial(threads), ls) + s.queue == Numbers(0, Pushes(Initial(threads), ls)) && s.maxSize == 2 * |threads|
  {
    RunInOrder(Initial(threads), ls);
    var n := Numbers(0, Pushes(Initial(threads), ls));
    assert [] + n == n;
  }

  // ----- one signal lets one worker through -----

  /** A step past the wait. */
  ghost predicate Passes(s: State, l: Label)
    requires Enabled(s, l)
  {
    l.Work? && (s.workers[l.w].pc.Enter? || s.workers[l.w].pc.Woken?) && Step(s, l).workers[l.w].pc.After?
  }

  ghost function Passed(s: State, ls: seq<Label>): nat
    requires RunEnabled(s, ls)
    decreases |ls|
  {
    if ls == [] then 0 else (if Passes(s, ls[0]) then 1 else 0) + Passed(Step(s, ls[0]), ls[1..])
  }

  function Signals(ls: seq<Label>): nat {
    if ls == [] then 0 else (if ls[0].PushSignal? || ls[0].Broadcast? then 1 else 0) + Signals(ls[1..])
  }

  /** No more workers get past the wait than signals were given: each is consumed once. */
  lemma {:induction false} SignalsLetThrough(s: State, ls: seq<Label>)
    requires RunEnabled(s, ls)
    ensures Passed(s, ls) + (if Run(s, ls).signal then 1 else 0) <= Signals(ls) + if s.signal then 1 else 0
    decreases |ls|
  {
    if ls != [] {
      SignalsLetThrough(Step(s, ls[0]), ls[1..]);
    }
  }

  // ----- shutting down -----

  /** How many steps a worker has before it, at most, until it sleeps or is gone. */
  function Rank(pc: Pc, empty: bool): nat {
    match pc
    case Gone => 0
    case Leaving => 1
    case Asleep => 2
    case After => 3
    case Top => 3
    case Enter => 4
    case Woken => 4
    case Verdict => if empty then 4 else 7
    case Drain => 5
    case Running => 6
  }

  ghost function Ranks(ws: set<Id>, workers: map<Id, Worker>, empty: bool): nat
    requires ws <= workers.Keys
  {
    if ws == {} then 0
    else
      var w :| w in ws;
      Rank(workers[w].pc, empty) + Ranks(ws - {w}, workers, empty)
  }

  lemma {:induction false} RanksSplit(ws: set<Id>, workers: map<Id, Worker>, empty: bool, w: Id)
    requires ws <= workers.Keys && w in ws
    ensures Ranks(ws, workers, empty) == Rank(workers[w].pc, empty) + Ranks(ws - {w}, workers, empty)
  {
    var v :| v in ws && Ranks(ws, workers, empty) == Rank(workers[v].pc, empty) + Ranks(ws - {v}, workers, empty);
    if v != w {
      RanksSplit(ws - {v}, workers, empty, w);
      RanksSplit(ws - {w}, workers, empty, v);
      assert ws - {v} - {w} == ws - {w} - {v};
    }
  }

  lemma {:induction false} RanksLess(ws: set<Id>, a: map<Id, Worker>, b: map<Id, Worker>, empty: bool, empty': bool)
    requires ws <= a.Keys && ws <= b.Keys && (empty ==> empty')
    requires forall w | w in ws :: a[w] == b[w]
    ensures Ranks(ws, b, empty') <= Ranks(ws, a, empty)
  {
    if ws != {} {
      var w :| w in ws;
      RanksSplit(ws, a, empty, w);
      RanksSplit(ws, b, empty', w);
      RanksLess(ws - {w}, a, b, empty, empty');
    }
  }

  /** What there is left to do, counted in steps. */
  ghost function Effort(s: State): nat {
    2 * |s.queue| + Ranks(s.workers.Keys, s.workers, s.queue == [])
  }

  /** After exit, every step of a worker leaves less to do: without further pushes and
      signals all workers are soon asleep or gone, the queue having been drained by those
      who were at it. */
  lemma ExitEnds(s: State, w: Id)
    requires s.exit && Enabled(s, Work(w))
    ensures Effort(Step(s, Work(w))) < Effort(s)
  {
    var t := Step(s, Work(w));
    var rest := s.workers.Keys - {w};
    assert t.workers.Keys == s.workers.Keys;
    RanksSplit(s.workers.Keys, s.workers, s.queue == [], w);
    RanksSplit(t.workers.Keys, t.workers, t.queue == [], w);
    RanksLess(rest, s.workers, t.workers, s.queue == [], t.queue == []);
  }

  /** When exit has been set, a broadcast lets any one sleeping worker out: it is gone after
      three steps of its own. */
  lemma BroadcastReleases(s: State, w: Id) returns (t: State)
    requires Inv(s) && w in s.workers && s.workers[w].pc.Asleep?
    ensures var ls := [SetExit, Broadcast, Work(w), Work(w), Work(w)];
      RunEnabled(s, ls) && Run(s, ls) == t && w in t.workers && t.workers[w].pc.Gone? && t.alive == s.alive - 1
  {
    StepInv(s, SetExit);
    var s0 := Step(s, SetExit);
    StepInv(s0, Broadcast);
    var s1 := Step(s0, Broadcast);
    assert s1.workers[w].pc.Woken? && s1.signal;
    var s2 := Step(s1, Work(w));
    var s3 := Step(s2, Work(w));
    t := Step(s3, Work(w));
    assert w in Present(s);
    assert RunEnabled(t, []) && Run(t, []) == t;
    var ls: seq<Label> := [];
    Prepend(s3, Work(w), t, ls);
    ls := [Work(w)] + ls;
    Prepend(s2, Work(w), s3, ls);
    ls := [Work(w)] + ls;
    Prepend(s1, Work(w), s2, ls);
    ls := [Work(w)] + ls;
    Prepend(s0, Broadcast, s1, ls);
    ls := [Broadcast] + ls;
    Prepend(s, SetExit, s0, ls);
    assert [SetExit] + ls == [SetExit, Broadcast, Work(w), Work(w), Work(w)];
  }

  /** When the count of threads alive has reached zero, no worker can take a step. */
  lemma NobodyLeft(s: State, w: Id)
    requires Inv(s) && s.alive == 0
    ensures !Enabled(s, Work(w)) && !Enabled(s, Spurious(w))
  {
    assert Present(s) == {};
    assert forall v | v in s.workers && !s.workers[v].pc.Gone? :: v in Present(s);
  }

  lemma Prepend(s: State, l: Label, t: State, ls: seq<Label>)
    requires Enabled(s, l) && Step(s, l) == t && RunEnabled(t, ls)
    ensures RunEnabled(s, [l] + ls) && Run(s, [l] + ls) == Run(t, ls)
  {
    assert ([l] + ls)[0] == l && ([l] + ls)[1..] == ls;
  }

  /** The pool with one worker. */
  function One(w: Id, pc: Pc, task: Task, pushing: set<Id>, signal: bool, queue: seq<Task>, accepted: nat, finished: multiset<Task>): State {
    State(2, map[w := Worker(pc, task)], 1, pushing, signal, false, queue, accepted, finished)
  }

  /** The worker has run the first task and has found the queue empty under its lock, but
      the second task arrives before it reads the size: it runs the first one again. */
  lemma RunsAgain(w: Id, p: Id) returns (ls: seq<Label>)
    ensures var s, t := One(w, Running, Pushed(0), {}, false, [], 1, multiset{}),
                        One(w, Running, Pushed(0), {p}, false, [Pushed(1)], 2, multiset{Pushed(0)});
      RunEnabled(s, ls) && Run(s, ls) == t
  {
    var done := multiset{Pushed(0)};
    var t := One(w, Running, Pushed(0), {p}, false, [Pushed(1)], 2, done);
    ls := [];
    Prepend(One(w, Verdict, Pushed(0), {p}, false, [Pushed(1)], 2, done), Work(w), t, ls);
    ls := [Work(w)] + ls;
    Prepend(One(w, Verdict, Pushed(0), {}, false, [], 1, done), PushEnqueue(p), One(w, Verdict, Pushed(0), {p}, false, [Pushed(1)], 2, done), ls);
    ls := [PushEnqueue(p)] + ls;
    Prepend(One(w, Drain, Pushed(0), {}, false, [], 1, done), Work(w), One(w, Verdict, Pushed(0), {}, false, [], 1, done), ls);
    ls := [Work(w)] + ls;
    Prepend(One(w, Running, Pushed(0), {}, false, [], 1, multiset{}), Work(w), One(w, Drain, Pushed(0), {}, false, [], 1, done), ls);
    ls := [Work(w)] + ls;
  }

  /** The worker has been signalled for the first task. */
  lemma RunsTwice(w: Id, p: Id) returns (ls: seq<Label>)
    ensures var s, t := One(w, Enter, Unset, {}, true, [Pushed(0)], 1, multiset{}),
                        One(w, Running, Pushed(0), {p}, false, [Pushed(1)], 2, multiset{Pushed(0)});
      RunEnabled(s, ls) && Run(s, ls) == t
  {
    ls := RunsAgain(w, p);
    var none: multiset<Task> := multiset{};
    Prepend(One(w, Drain, Unset, {}, false, [Pushed(0)], 1, none), Work(w), One(w, Running, Pushed(0), {}, false, [], 1, none), ls);
    ls := [Work(w)] + ls;
    Prepend(One(w, After, Unset, {}, false, [Pushed(0)], 1, none), Work(w), One(w, Drain, Unset, {}, false, [Pushed(0)], 1, none), ls);
    ls := [Work(w)] + ls;
    Prepend(One(w, Enter, Unset, {}, true, [Pushed(0)], 1, none), Work(w), One(w, After, Unset, {}, false, [Pushed(0)], 1, none), ls);
    ls := [Work(w)] + ls;
  }

  /** So a task can be run twice in a pool of one worker. */
  lemma StaleHappens(w: Id, p: Id) returns (ls: seq<Label>)
    ensures RunEnabled(Initial({w}), ls)
    ensures var s := Run(Initial({w}), ls);
      s.workers == map[w := Worker(Running, Pushed(0))] && s.finished == multiset{Pushed(0)} && s.queue == [Pushed(1)]
  {
    ls := RunsTwice(w, p);
    var none: multiset<Task> := multiset{};
    Prepend(One(w, Enter, Unset, {p}, false, [Pushed(0)], 1, none), PushSignal(p, {}), One(w, Enter, Unset, {}, true, [Pushed(0)], 1, none), ls);
    ls := [PushSignal(p, {})] + ls;
    Prepend(One(w, Enter, Unset, {}, false, [], 0, none), PushEnqueue(p), One(w, Enter, Unset, {p}, false, [Pushed(0)], 1, none), ls);
    ls := [PushEnqueue(p)] + ls;
    Prepend(Initial({w}), Work(w), One(w, Enter, Unset, {}, false, [], 0, none), ls);
    ls := [Work(w)] + ls;
  }
}
