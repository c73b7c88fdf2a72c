/**
 * The worker that runs jobs from a high and a low priority queue. It is spawned when a job is
 * queued and none is there, carries a shelf of state from job to job, and exits when idle.
 *
 * Each critical section of `AsyncTask` is one step; any number of threads may queue jobs between
 * two steps, a running job among them.
 */
module AsyncTasks {
  import opened Tables

  datatype Priority = Hi | Lo

  datatype Worker<J, S> =
    | Gone
    | Starting
    | Polling(shelf: S, doneIdle: bool)
    | Working(job: J, shelf: S)
    | RunningIdle(shelf: S)

  /** What can be observed of a run. A job finishes by leaving a shelf behind, and so do the idle callbacks. */
  datatype Event<J, S> =
    | Queued(prio: Priority, job: J)
    | Spawned
    | Started(prio: Priority, job: J, seen: S)
    | Finished(left: S)
    | IdleRan(left: S)
    | Exited

  datatype State<J, S> = State(
    running: bool, hi: seq<J>, lo: seq<J>, shelf: Option<S>, workers: seq<Worker<J, S>>, log: seq<Event<J, S>>)

  datatype Step<J, S> =
    | Queue(prio: Priority, job: J)
    | TakeShelf(w: nat)
    | BeginIdle(w: nat)
    | EndIdle(w: nat, left: S)
    | Pop(w: nat)
    | EndJob(w: nat, left: S)
    | TimeOut(w: nat)

  function Init<J, S>(): State<J, S> {
    State(false, [], [], None, [], [])
  }

  function Set<J, S>(s: State<J, S>, w: nat, worker: Worker<J, S>): State<J, S>
    requires w < |s.workers|
  {
    s.(workers := s.workers[w := worker])
  }

  function Log<J, S>(s: State<J, S>, e: Event<J, S>): State<J, S> {
    s.(log := s.log + [e])
  }

  predicate Enabled<J, S>(s: State<J, S>, step: Step<J, S>) {
    match step
    case Queue(_, _) => true
    case TakeShelf(w) => w < |s.workers| && s.workers[w].Starting?
    case BeginIdle(w) => w < |s.workers| && s.workers[w].Polling? && !s.workers[w].doneIdle && s.hi == [] && s.lo == []
    case EndIdle(w, _) => w < |s.workers| && s.workers[w].RunningIdle?
    case Pop(w) => w < |s.workers| && s.workers[w].Polling? && (s.hi != [] || s.lo != [])
    case EndJob(w, _) => w < |s.workers| && s.workers[w].Working?
    case TimeOut(w) => w < |s.workers| && s.workers[w].Polling? && s.workers[w].doneIdle && s.hi == [] && s.lo == []
  }

  function Push<J, S>(s: State<J, S>, prio: Priority, job: J): State<J, S> {
    Log(if prio == Hi then s.(hi := s.hi + [job]) else s.(lo := s.lo + [job]), Queued(prio, job))
  }

  function Spawn<J, S>(s: State<J, S>): State<J, S> {
    Log(s.(running := true, workers := s.workers + [Starting]), Spawned)
  }

  /** queue: the job goes to the back of its queue, and a worker is spawned if none is running. */
  function Enqueue<J, S>(s: State<J, S>, prio: Priority, job: J): State<J, S> {
    var q := Push(s, prio, job);
    if s.running then q else Spawn(q)
  }

  function Apply<J, S>(s: State<J, S>, step: Step<J, S>, empty: S): State<J, S>
    requires Enabled(s, step)
  {
    match step
    case Queue(prio, job) => Enqueue(s, prio, job)
    case TakeShelf(w) =>
      Set(s, w, Polling(if s.shelf.Some? then s.shelf.value else empty, false)).(shelf := None)
    case BeginIdle(w) => Set(s, w, RunningIdle(s.workers[w].shelf))
    case EndIdle(w, left) => Log(Set(s, w, Polling(left, true)), IdleRan(left))
    case Pop(w) =>
      var shelf := s.workers[w].shelf;
      if s.hi != []
      then Log(Set(s, w, Working(s.hi[0], shelf)).(hi := s.hi[1..]), Started(Hi, s.hi[0], shelf))
      else Log(Set(s, w, Working(s.lo[0], shelf)).(lo := s.lo[1..]), Started(Lo, s.lo[0], shelf))
    case EndJob(w, left) => Log(Set(s, w, Polling(left, false)), Finished(left))
    case TimeOut(w) =>
      Log(Set(s, w, Gone).(shelf := Some(s.workers[w].shelf), running := false), Exited)
  }

  // ---------- What the log says ----------

  /** The run so far, as far as the next event depends on it. */
  datatype Past<J, S> = Past(
    queuedHi: seq<J>, queuedLo: seq<J>, startedHi: seq<J>, startedLo: seq<J>,
    left: S,      // the shelf as the last job, or the idle callbacks after it, left it
    busy: bool,   // a job was started and has not finished
    alive: bool,  // a worker was spawned and has not exited
    rested: bool) // the idle callbacks have run since this worker's last job, or since it started

  function Extend<J, S>(past: Past<J, S>, e: Event<J, S>): Past<J, S> {
    match e
    case Queued(prio, job) =>
      if prio == Hi then past.(queuedHi := past.queuedHi + [job]) else past.(queuedLo := past.queuedLo + [job])
    case Spawned => past.(alive := true, rested := false)
    case Started(prio, job, _) =>
      var p := past.(busy := true, rested := false);
      if prio == Hi then p.(startedHi := p.startedHi + [job]) else p.(startedLo := p.startedLo + [job])
    case Finished(left) => past.(busy := false, left := left)
    case IdleRan(left) => past.(rested := true, left := left)
    case Exited => past.(alive := false)
  }

  function PastOf<J, S>(log: seq<Event<J, S>>, empty: S): Past<J, S> {
    if log == [] then Past([], [], [], [], empty, false, false, false)
    else Extend(PastOf(log[..|log| - 1], empty), log[|log| - 1])
  }

  /** What the next event may be. */
  ghost predicate EventOk<J, S>(past: Past<J, S>, e: Event<J, S>) {
    match e
    case Queued(_, _) => true
    case Spawned => !past.alive
    case Started(prio, job, seen) =>
      // In order, one at a time, by a live worker, with the shelf as it was left; low priority
      // only when no high priority job waits.
      && past.alive && !past.busy && seen == past.left
      && (prio == Hi ==> past.startedHi + [job] <= past.queuedHi)
      && (prio == Lo ==> past.startedLo + [job] <= past.queuedLo && past.startedHi == past.queuedHi)
    case Finished(_) => past.busy
    case IdleRan(_) => past.alive && !past.busy
    case Exited =>
      past.alive && !past.busy && past.rested && past.startedHi == past.queuedHi && past.startedLo == past.queuedLo
  }

  ghost predicate LogOk<J, S>(log: seq<Event<J, S>>, empty: S) {
    log == [] || (LogOk(log[..|log| - 1], empty) && EventOk(PastOf(log[..|log| - 1], empty), log[|log| - 1]))
  }

  lemma LogGrows<J, S>(log: seq<Event<J, S>>, e: Event<J, S>, empty: S)
    ensures LogOk(log + [e], empty) <==> LogOk(log, empty) && EventOk(PastOf(log, empty), e)
    ensures PastOf(log + [e], empty) == Extend(PastOf(log, empty), e)
  {
    assert (log + [e])[..|log + [e]| - 1] == log;
  }

  // ---------- The invariant ----------

  function LastWorker<J, S>(s: State<J, S>): Worker<J, S> {
    if s.workers == [] then Gone else s.workers[|s.workers| - 1]
  }

  /** The shelf the last worker holds, or else the one that waits for the next worker. */
  function CurrentShelf<J, S>(s: State<J, S>, empty: S): S {
    match LastWorker(s)
    case Polling(shelf, _) => shelf
    case Working(_, shelf) => shelf
    case RunningIdle(shelf) => shelf
    case _ => if s.shelf.Some? then s.shelf.value else empty
  }

  /**
   * All workers but the last are gone, and the last one is gone exactly if none is running; the
   * shelf is in one place; nothing waits without a worker.
   */
  ghost predicate Shape<J, S>(s: State<J, S>) {
    && (forall i :: 0 <= i < |s.workers| - 1 ==> s.workers[i].Gone?)
    && (s.running <==> !LastWorker(s).Gone?)
    && (s.shelf.Some? ==> LastWorker(s).Gone? || LastWorker(s).Starting?)
    && (!s.running ==> s.hi == [] && s.lo == [])
  }

  /** The last worker is where the log says it is, and the shelf is as it was left. */
  ghost predicate WorkerAgrees<J, S>(s: State<J, S>, past: Past<J, S>, empty: S) {
    var last := LastWorker(s);
    && past.alive == s.running && past.busy == last.Working?
    && (last.Polling? && last.doneIdle ==> past.rested)
    && past.left == CurrentShelf(s, empty)
  }

  /** What was queued is what was started followed by what waits. */
  ghost predicate QueuesAgree<J, S>(s: State<J, S>, past: Past<J, S>) {
    past.queuedHi == past.startedHi + s.hi && past.queuedLo == past.startedLo + s.lo
  }

  ghost predicate Agrees<J, S>(s: State<J, S>, past: Past<J, S>, empty: S) {
    Shape(s) && WorkerAgrees(s, past, empty) && QueuesAgree(s, past)
  }

  ghost predicate Inv<J, S>(s: State<J, S>, empty: S) {
    LogOk(s.log, empty) && Agrees(s, PastOf(s.log, empty), empty)
  }

  // ---------- Preservation ----------

  /** Only the last worker is there to take a step. */
  lemma OnlyLast<J, S>(s: State<J, S>, step: Step<J, S>)
    requires Shape(s) && Enabled(s, step) && !step.Queue?
    ensures step.w == |s.workers| - 1 && s.running && LastWorker(s) == s.workers[step.w]
  {
  }

  lemma EnqueueKeepsShape<J, S>(s: State<J, S>, prio: Priority, job: J)
    requires Shape(s)
    ensures var t := Enqueue(s, prio, job);
      && Shape(t) && LastWorker(t) == (if s.running then LastWorker(s) else Starting)
      && t.hi == (if prio == Hi then s.hi + [job] else s.hi) && t.lo == (if prio == Lo then s.lo + [job] else s.lo)
      && t.shelf == s.shelf
  {
  }

  lemma StepKeepsShape<J, S>(s: State<J, S>, step: Step<J, S>, empty: S)
    requires Shape(s) && Enabled(s, step)
    ensures Shape(Apply(s, step, empty))
  {
    if step.Queue? {
      EnqueueKeepsShape(s, step.prio, step.job);
    } else {
      OnlyLast(s, step);
    }
  }

  /** Only jobs and idle callbacks change what is on the shelf. */
  lemma ShelfStays<J, S>(s: State<J, S>, step: Step<J, S>, empty: S)
    requires Shape(s) && Enabled(s, step) && !step.EndJob?
    requires step.EndIdle? ==> step.left == s.workers[step.w].shelf
    ensures CurrentShelf(Apply(s, step, empty), empty) == CurrentShelf(s, empty)
  {
    if step.Queue? {
      EnqueueKeepsShape(s, step.prio, step.job);
    } else {
      OnlyLast(s, step);
    }
  }

  lemma Associative<J>(a: seq<J>, b: seq<J>, c: seq<J>)
    ensures (a + b) + c == a + (b + c)
  {
  }

  lemma TakesFirst<J>(started: seq<J>, queue: seq<J>)
    requires queue != []
    ensures started + [queue[0]] <= started + queue && (started + [queue[0]]) + queue[1..] == started + queue
  {
  }

  lemma NoneWaits<J>(started: seq<J>)
    ensures started + [] == started
  {
  }

  lemma PushAgrees<J, S>(s: State<J, S>, prio: Priority, job: J, past: Past<J, S>, empty: S)
    requires WorkerAgrees(s, past, empty) && QueuesAgree(s, past)
    ensures WorkerAgrees(Push(s, prio, job), Extend(past, Queued(prio, job)), empty)
    ensures QueuesAgree(Push(s, prio, job), Extend(past, Queued(prio, job)))
  {
    if prio == Hi {
      Associative(past.startedHi, s.hi, [job]);
    } else {
      Associative(past.startedLo, s.lo, [job]);
    }
  }

  lemma SpawnAgrees<J, S>(s: State<J, S>, past: Past<J, S>, empty: S)
    requires WorkerAgrees(s, past, empty) && QueuesAgree(s, past) && LastWorker(s).Gone? && !s.running
    ensures EventOk(past, Spawned)
    ensures WorkerAgrees(Spawn(s), Extend(past, Spawned), empty) && QueuesAgree(Spawn(s), Extend(past, Spawned))
  {
  }

  lemma EnqueueKeepsInv<J, S>(s: State<J, S>, prio: Priority, job: J, empty: S)
    requires Inv(s, empty)
    ensures Inv(Enqueue(s, prio, job), empty)
  {
    var past, e, q := PastOf(s.log, empty), Queued(prio, job), Push(s, prio, job);
    EnqueueKeepsShape(s, prio, job);
    PushAgrees(s, prio, job, past, empty);
    LogGrows(s.log, e, empty);
    if !s.running {
      SpawnAgrees(q, Extend(past, e), empty);
      LogGrows(q.log, Spawned, empty);
    }
  }

  /** The event a step of the worker is logged as; starting and going idle are not logged. */
  function EventOf<J, S>(s: State<J, S>, step: Step<J, S>): Option<Event<J, S>>
    requires Enabled(s, step) && !step.Queue?
  {
    match step
    case TakeShelf(_) => None
    case BeginIdle(_) => None
    case EndIdle(_, left) => Some(IdleRan(left))
    case Pop(w) =>
      if s.hi != [] then Some(Started(Hi, s.hi[0], s.workers[w].shelf)) else Some(Started(Lo, s.lo[0], s.workers[w].shelf))
    case EndJob(_, left) => Some(Finished(left))
    case TimeOut(_) => Some(Exited)
  }

  function After<J, S>(past: Past<J, S>, e: Option<Event<J, S>>): Past<J, S> {
    if e.Some? then Extend(past, e.value) else past
  }

  lemma WorkerEventOk<J, S>(s: State<J, S>, step: Step<J, S>, past: Past<J, S>, empty: S)
    requires Agrees(s, past, empty) && Enabled(s, step) && !step.Queue? && EventOf(s, step).Some?
    ensures EventOk(past, EventOf(s, step).value)
  {
    OnlyLast(s, step);
    NoneWaits(past.startedHi);
    NoneWaits(past.startedLo);
    if step.Pop? {
      if s.hi != [] { TakesFirst(past.startedHi, s.hi); } else { TakesFirst(past.startedLo, s.lo); }
    }
  }

  lemma WorkerStaysInStep<J, S>(s: State<J, S>, step: Step<J, S>, past: Past<J, S>, empty: S)
    requires Agrees(s, past, empty) && Enabled(s, step) && !step.Queue?
    ensures WorkerAgrees(Apply(s, step, empty), After(past, EventOf(s, step)), empty)
  {
    OnlyLast(s, step);
  }

  lemma QueuesStayInStep<J, S>(s: State<J, S>, step: Step<J, S>, past: Past<J, S>, empty: S)
    requires Agrees(s, past, empty) && Enabled(s, step) && !step.Queue?
    ensures QueuesAgree(Apply(s, step, empty), After(past, EventOf(s, step)))
  {
    if step.Pop? {
      if s.hi != [] { TakesFirst(past.startedHi, s.hi); } else { TakesFirst(past.startedLo, s.lo); }
    }
  }

  lemma StepKeepsInv<J, S>(s: State<J, S>, step: Step<J, S>, empty: S)
    requires Inv(s, empty) && Enabled(s, step)
    ensures Inv(Apply(s, step, empty), empty)
  {
    if step.Queue? {
      EnqueueKeepsInv(s, step.prio, step.job, empty);
    } else {
      var past, e, t := PastOf(s.log, empty), EventOf(s, step), Apply(s, step, empty);
      StepKeepsShape(s, step, empty);
      WorkerStaysInStep(s, step, past, empty);
      QueuesStayInStep(s, step, past, empty);
      if e.Some? {
        WorkerEventOk(s, step, past, empty);
        LogGrows(s.log, e.value, empty);
        assert t.log == s.log + [e.value];
      } else {
        assert t.log == s.log;
      }
    }
  }

  ghost predicate Run<J, S>(states: seq<State<J, S>>, steps: seq<Step<J, S>>, empty: S) {
    && |states| == |steps| + 1 && states[0] == Init()
    && forall i :: 0 <= i < |steps| ==> Enabled(states[i], steps[i]) && states[i + 1] == Apply(states[i], steps[i], empty)
  }

  /**
   * In every state of every run: the log is in order, what was queued is what was started followed
   * by what waits, at most the last worker is alive, nothing waits without a worker, and the shelf
   * is in one place and as it was left.
   */
  lemma {:induction false} EveryStateInv<J, S>(states: seq<State<J, S>>, steps: seq<Step<J, S>>, empty: S, n: nat)
    requires Run(states, steps, empty) && n < |states|
    ensures Inv(states[n], empty)
  {
    if n > 0 {
      EveryStateInv(states, steps, empty, n - 1);
      StepKeepsInv(states[n - 1], steps[n - 1], empty);
    }
  }

  /** Each event of a log that is in order was allowed after the events before it. */
  lemma {:induction false} EventsAreOk<J, S>(log: seq<Event<J, S>>, empty: S, i: nat)
    requires LogOk(log, empty) && i < |log|
    ensures EventOk(PastOf(log[..i], empty), log[i])
    decreases |log|
  {
    var n := |log| - 1;
    if i < n {
      EventsAreOk(log[..n], empty, i);
      assert log[..n][..i] == log[..i];
    }
  }

  // ---------- Progress ----------

  function Weight<J, S>(worker: Worker<J, S>): nat {
    match worker
    case Gone => 0
    case Starting => 4
    case Polling(_, doneIdle) => if doneIdle then 1 else 3
    case Working(_, _) => 4
    case RunningIdle(_) => 2
  }

  /** A bound on how many steps the worker can take before it exits, if nothing more is queued. */
  function Measure<J, S>(s: State<J, S>): nat {
    4 * (|s.hi| + |s.lo|) + Weight(LastWorker(s))
  }

  /** The step a live worker can take; `Pop(0)` if there is no worker. */
  function NextStep<J, S>(s: State<J, S>): Step<J, S> {
    var n := |s.workers|;
    if n == 0 then Pop(0) else
      match s.workers[n - 1]
      case Starting => TakeShelf(n - 1)
      case Working(_, shelf) => EndJob(n - 1, shelf)
      case RunningIdle(shelf) => EndIdle(n - 1, shelf)
      case Polling(_, doneIdle) =>
        if s.hi != [] || s.lo != [] then Pop(n - 1) else if doneIdle then TimeOut(n - 1) else BeginIdle(n - 1)
      case Gone => Pop(0)
  }

  /** A live worker can always take a step, and each step it takes brings it closer to its exit. */
  lemma WorkerProgresses<J, S>(s: State<J, S>, step: Step<J, S>, empty: S)
    requires Shape(s)
    ensures s.running ==> !NextStep(s).Queue? && Enabled(s, NextStep(s))
    ensures !step.Queue? && Enabled(s, step) ==> s.running && Measure(Apply(s, step, empty)) < Measure(s)
  {
    if !step.Queue? && Enabled(s, step) {
      OnlyLast(s, step);
    }
  }

  /** Steps of the worker alone, from some reachable state on. */
  ghost predicate QuietRun<J, S>(states: seq<State<J, S>>, steps: seq<Step<J, S>>, empty: S) {
    && |states| == |steps| + 1 && Inv(states[0], empty)
    && forall i :: 0 <= i < |steps| ==>
         !steps[i].Queue? && Enabled(states[i], steps[i]) && states[i + 1] == Apply(states[i], steps[i], empty)
  }

  lemma QuietStep<J, S>(s: State<J, S>, step: Step<J, S>, t: State<J, S>, empty: S)
    requires Inv(s, empty) && !step.Queue? && Enabled(s, step) && t == Apply(s, step, empty)
    ensures Inv(t, empty) && Measure(t) < Measure(s)
  {
    StepKeepsInv(s, step, empty);
    WorkerProgresses(s, step, empty);
  }

  lemma {:induction false} QuietPrefix<J, S>(states: seq<State<J, S>>, steps: seq<Step<J, S>>, empty: S, n: nat)
    requires QuietRun(states, steps, empty) && n < |states|
    ensures Inv(states[n], empty) && Measure(states[n]) + n <= Measure(states[0])
  {
    if n > 0 {
      QuietPrefix(states, steps, empty, n - 1);
      QuietStep(states[n - 1], steps[n - 1], states[n], empty);
    }
  }

  /**
   * If nothing more is queued, the worker stops within a bounded number of steps, and where it can
   * go no further every job that was ever queued has been started, in order, and none is running.
   */
  lemma AllJobsRun<J, S>(states: seq<State<J, S>>, steps: seq<Step<J, S>>, empty: S)
    requires QuietRun(states, steps, empty)
    ensures |steps| <= Measure(states[0])
    ensures var last := states[|steps|]; var past := PastOf(last.log, empty);
      !Enabled(last, NextStep(last)) ==>
        past.startedHi == past.queuedHi && past.startedLo == past.queuedLo && !past.busy && !past.alive
  {
    var last := states[|steps|];
    QuietPrefix(states, steps, empty, |steps|);
    WorkerProgresses(last, NextStep(last), empty);
  }

  // ---------- The shared state ----------

  datatype Action<J> = Idle | Run(job: J) | Exit | Wait

  /** The fields behind the worker's mutex, and the critical sections that change them. */
  class AsyncTask<J, S> {
    var running: bool
    var hiPrioQueue: seq<J>
    var loPrioQueue: seq<J>
    var shelf: Option<S>

    /** These fields, as part of a state of the protocol. */
    ghost predicate Shows(s: State<J, S>)
      reads this
    {
      s.running == running && s.hi == hiPrioQueue && s.lo == loPrioQueue && s.shelf == shelf
    }

    constructor ()
      ensures Shows(Init())
    {
      running, hiPrioQueue, loPrioQueue, shelf := false, [], [], None;
    }

    /** queue: `spawn` says that a thread is started. */
    method Queue(prio: Priority, job: J, ghost s: State<J, S>) returns (spawn: bool)
      requires Shows(s)
      modifies this
      ensures Shows(Enqueue(s, prio, job))
      ensures spawn <==> |Enqueue(s, prio, job).workers| > |s.workers|
    {
      if prio == Hi {
        hiPrioQueue := hiPrioQueue + [job];
      } else {
        loPrioQueue := loPrioQueue + [job];
      }
      spawn := !running;
      if spawn {
        running := true;
      }
    }

    /** The worker's first critical section. */
    method TakeShelf(empty: S, ghost s: State<J, S>, ghost w: nat) returns (mine: S)
      requires Shows(s) && Enabled(s, Step.TakeShelf(w))
      modifies this
      ensures Shows(Apply(s, Step.TakeShelf(w), empty))
      ensures Apply(s, Step.TakeShelf(w), empty).workers[w] == Polling(mine, false)
    {
      mine := if shelf.Some? then shelf.value else empty;
      shelf := None;
    }

    /** The critical section of the worker's loop; `timedOut` is how the wait on the condition variable ended. */
    method NextAction(mine: S, doneIdle: bool, timedOut: bool, ghost s: State<J, S>, ghost w: nat, ghost empty: S)
      returns (action: Action<J>)
      requires Shows(s) && w < |s.workers| && s.workers[w] == Polling(mine, doneIdle)
      modifies this
      ensures action.Wait? <==> !timedOut && doneIdle && s.hi == [] && s.lo == []
      ensures action.Idle? ==> Enabled(s, BeginIdle(w)) && Shows(Apply(s, BeginIdle(w), empty))
      ensures action.Exit? ==> Enabled(s, TimeOut(w)) && Shows(Apply(s, TimeOut(w), empty))
      ensures action.Run? ==>
        && Enabled(s, Pop(w)) && Shows(Apply(s, Pop(w), empty))
        && Apply(s, Pop(w), empty).workers[w] == Working(action.job, mine)
      ensures action.Wait? ==> Shows(s)
    {
      if !doneIdle && hiPrioQueue == [] && loPrioQueue == [] {
        return Idle;
      }
      if hiPrioQueue != [] {
        action := Run(hiPrioQueue[0]);
        hiPrioQueue := hiPrioQueue[1..];
      } else if loPrioQueue != [] {
        action := Run(loPrioQueue[0]);
        loPrioQueue := loPrioQueue[1..];
      } else if timedOut {
        running := false;
        shelf := Some(mine);
        action := Exit;
      } else {
        action := Wait;
      }
    }
  }
}
