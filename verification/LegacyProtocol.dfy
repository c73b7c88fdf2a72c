/**
 * When the legacy importer is asked, and by whom it is set up: an atomic that short-cuts requests
 * once the legacy store is empty, an initializer taken under a lock, and a worker that runs the
 * initialization and the requests one after the other, as high priority jobs.
 *
 * Any number of threads make requests. A step is one access to shared state.
 */
module LegacyProtocol {
  import opened Tables
  import W = AsyncTasks

  datatype Atomic = Uninitialized | Ready | Empty

  /** `Skipped`: the store was found empty. `Executed`: the request ran. `Failed`: the importer is not set up. */
  datatype Answer = Skipped | Executed | Failed

  datatype Phase =
    | Loading(first: bool)      // check_state: about to load the atomic
    | WantsLock                 // it was uninitialized on the first try
    | Initializing              // has the lock and has taken the initializer
    | StoringReady              // has queued the initialization
    | Requesting                // do_serialized: about to queue the request
    | Awaiting
    | Publishing(found: Atomic, executed: bool)
    | Finished(answer: Answer)

  datatype Job = InitJob | RequestJob(thread: int)

  datatype State = State(
    atomic: Atomic, initializer: bool, lock: Option<int>, threads: map<int, Phase>,
    task: W.State<Job, bool>,   // the shelf says whether the importer's state is on it
    answered: Option<bool>,     // the running request has answered, and leaves the importer's state or not
    files: set<int>,            // the entries of the legacy store
    inited: bool)               // the initialization was queued at some time

  datatype Step =
    | SetInit
    | Call(t: int)
    | Load(t: int)
    | Lock(t: int)
    | Inspect(t: int, readable: bool)
    | StoreReady(t: int)
    | Submit(t: int)
    | Worker(step: W.Step<Job, bool>)
    | RemoveFile(file: int)
    | Respond(readable: bool)
    | Publish(t: int)

  function Last(s: State): W.Worker<Job, bool> {
    W.LastWorker(s.task)
  }

  predicate At(s: State, t: int, phase: Phase) {
    t in s.threads && s.threads[t] == phase
  }

  function Move(s: State, t: int, phase: Phase): State {
    s.(threads := s.threads[t := phase])
  }

  function Loaded(s: State, t: int, first: bool): State {
    match s.atomic
    case Empty => Move(s, t, Finished(Skipped))
    case Ready => Move(s, t, Requesting)
    case Uninitialized => Move(s, t, if first then WantsLock else Finished(Failed))
  }

  /** With the lock: the initializer is taken, or somebody else took it and the load is tried once more. */
  function Locked(s: State, t: int): State {
    if s.initializer then Move(s, t, Initializing).(lock := Some(t), initializer := false)
    else Move(s, t, Loading(false))
  }

  function Inspected(s: State, t: int, readable: bool): State {
    if !readable then Move(s, t, Finished(Failed)).(lock := None)
    else if s.files == {} then Move(s, t, Finished(Skipped)).(lock := None, atomic := Empty)
    else Move(s, t, StoringReady).(task := W.Enqueue(s.task, W.Hi, InitJob), inited := true)
  }

  /** The end of a request: it looks whether the store is empty now, and if so gives up its state. */
  function Responded(s: State, thread: int, hadState: bool, readable: bool): State {
    var found := if !hadState || (readable && s.files == {}) then Empty else Ready;
    Move(s, thread, Publishing(found, hadState)).(answered := Some(hadState && found != Empty))
  }

  /** What is on the shelf when a job ends. */
  predicate LeavesShelf(s: State, step: W.Step<Job, bool>) {
    match step
    case Queue(_, _) => false
    case EndIdle(_, left) => Last(s).RunningIdle? && left == Last(s).shelf
    case EndJob(_, left) =>
      Last(s).Working? && if Last(s).job.InitJob? then left else s.answered == Some(left)
    case _ => true
  }

  ghost predicate Next(s: State, step: Step, t: State) {
    match step
    case SetInit => s.lock.None? && t == if s.atomic == Uninitialized then s.(initializer := true) else s
    case Call(th) => th !in s.threads && t == Move(s, th, Loading(true))
    case Load(th) => (At(s, th, Loading(true)) || At(s, th, Loading(false))) && t == Loaded(s, th, s.threads[th].first)
    case Lock(th) => At(s, th, WantsLock) && s.lock.None? && t == Locked(s, th)
    case Inspect(th, readable) => At(s, th, Initializing) && t == Inspected(s, th, readable)
    case StoreReady(th) => At(s, th, StoringReady) && t == Move(s, th, Requesting).(atomic := Ready, lock := None)
    case Submit(th) =>
      At(s, th, Requesting) && t == Move(s, th, Awaiting).(task := W.Enqueue(s.task, W.Hi, RequestJob(th)))
    case Worker(w) =>
      && W.Enabled(s.task, w) && LeavesShelf(s, w)
      && t == s.(task := W.Apply(s.task, w, false), answered := if w.EndJob? then None else s.answered)
    case RemoveFile(file) =>
      && Last(s).Working? && Last(s).job.RequestJob? && Last(s).shelf && s.answered.None?
      && t == s.(files := s.files - {file})
    case Respond(readable) =>
      && Last(s).Working? && Last(s).job.RequestJob? && s.answered.None?
      && t == Responded(s, Last(s).job.thread, Last(s).shelf, readable)
    case Publish(th) =>
      && th in s.threads && s.threads[th].Publishing?
      && t == Move(s, th, Finished(if s.threads[th].executed then Executed else Skipped))
           .(atomic := if s.threads[th].found == Empty then Empty else s.atomic)
  }

  function Init(files: set<int>): State {
    State(Uninitialized, false, None, map[], W.Init(), None, files, false)
  }

  ghost predicate Run(states: seq<State>, steps: seq<Step>) {
    && |states| == |steps| + 1 && states[0] == Init(states[0].files)
    && forall i {:trigger steps[i]} :: 0 <= i < |steps| ==> Next(states[i], steps[i], states[i + 1])
  }

  // ---------- The invariant ----------

  ghost predicate Asking(phase: Phase) {
    phase.Requesting? || phase.Awaiting? || phase.Publishing?
  }

  /** Only the holder of the lock is between taking the initializer and leaving the uninitialized state. */
  ghost predicate LockInv(s: State) {
    && (forall t :: t in s.threads && (s.threads[t].Initializing? || s.threads[t].StoringReady?) ==> s.lock == Some(t))
    && (s.lock.Some? ==>
         && s.lock.value in s.threads && s.atomic == Uninitialized && !s.initializer
         && (s.threads[s.lock.value].Initializing? || s.threads[s.lock.value].StoringReady?)
         && (s.inited <==> s.threads[s.lock.value].StoringReady?))
    && (s.lock.None? && s.atomic == Uninitialized ==> !s.inited)
    && (s.initializer ==> s.atomic == Uninitialized && !s.inited)
    && (s.atomic == Ready ==> s.inited)
    && (forall t :: t in s.threads && Asking(s.threads[t]) ==> s.atomic != Uninitialized && s.inited)
  }

  /** Whoever found the store empty was right. */
  ghost predicate EmptyInv(s: State) {
    && (s.atomic == Empty ==> s.files == {})
    && (forall t :: t in s.threads && s.threads[t].Publishing? ==>
         (s.threads[t].found == Empty ==> s.files == {}) && s.threads[t].found != Uninitialized
         && (!s.threads[t].executed ==> s.threads[t].found == Empty))
    && (forall t :: t in s.threads && s.threads[t] == Finished(Skipped) ==> s.files == {})
  }

  /** The importer's state is on the shelf, or is about to get there, or is not needed any more. */
  ghost predicate Prepared(s: State) {
    s.files == {} || W.CurrentShelf(s.task, false) || (Last(s).Working? && Last(s).job.InitJob?)
  }

  ghost predicate Distinct(jobs: seq<Job>) {
    forall i, j :: 0 <= i < j < |jobs| ==> jobs[i] != jobs[j]
  }

  ghost predicate Answered(s: State, t: int) {
    t in s.threads && (s.threads[t].Publishing? || s.threads[t].Finished?)
  }

  /** Only the first job can be the initialization, and no job waits twice. */
  ghost predicate QueueOk(hi: seq<Job>) {
    (forall i :: 0 < i < |hi| ==> hi[i].RequestJob?) && Distinct(hi)
  }

  ghost predicate JobInv(s: State) {
    var last := Last(s);
    && W.Shape(s.task) && s.task.lo == [] && QueueOk(s.task.hi)
    // The initialization runs before the requests.
    && (s.inited ==> Prepared(s) || (s.task.hi != [] && s.task.hi[0].InitJob?))
    && (!s.inited ==> s.task.hi == [] && !last.Working?)
    && (s.task.hi != [] && s.task.hi[0].InitJob? ==> !last.Working?)
    // Each thread has one request, which answers once.
    && (forall t :: RequestJob(t) in s.task.hi ==> At(s, t, Awaiting))
    && (last.Working? && last.job.RequestJob? ==> RequestJob(last.job.thread) !in s.task.hi && Prepared(s))
    && (last.Working? && last.job.RequestJob? && s.answered.None? ==> At(s, last.job.thread, Awaiting))
    && (s.answered.Some? ==> last.Working? && last.job.RequestJob? && Answered(s, last.job.thread))
    && (s.answered == Some(false) ==> s.files == {})
    && (s.answered == Some(true) ==> last.shelf)
  }

  ghost predicate Inv(s: State) {
    LockInv(s) && EmptyInv(s) && JobInv(s)
  }

  // ---------- Preservation ----------

  /** One thread moves, and neither the worker nor the store changes. */
  ghost predicate ThreadMoves(s: State, th: int, t: State) {
    && t == s.(threads := t.threads, atomic := t.atomic, initializer := t.initializer, lock := t.lock)
    && th in t.threads && t.threads == s.threads[th := t.threads[th]]
    && (th in s.threads ==> !s.threads[th].Awaiting?)
    && (Answered(s, th) ==> Answered(t, th))
  }

  lemma ThreadMoveKeepsJobs(s: State, th: int, t: State)
    requires JobInv(s) && ThreadMoves(s, th, t)
    ensures JobInv(t)
  {
    assert forall x :: (At(s, x, Awaiting) ==> At(t, x, Awaiting)) && (Answered(s, x) ==> Answered(t, x));
  }

  lemma CheckStateMovesThread(s: State, step: Step, t: State)
    requires Next(s, step, t) && (step.Call? || step.Load? || step.Lock? || step.StoreReady? || step.Publish?)
    ensures ThreadMoves(s, step.t, t)
  {
    assert t.threads == s.threads[step.t := t.threads[step.t]];
  }

  lemma CheckStateKeepsLock(s: State, step: Step, t: State)
    requires LockInv(s) && Next(s, step, t) && (step.Call? || step.Load? || step.Lock? || step.StoreReady? || step.Publish?)
    requires forall th :: th in s.threads && s.threads[th].Publishing? ==> s.threads[th].found != Uninitialized
    ensures LockInv(t)
  {
    assert s.lock.Some? && s.lock.value != step.t ==> t.threads[s.lock.value] == s.threads[s.lock.value];
  }

  lemma CheckStateKeepsEmpty(s: State, step: Step, t: State)
    requires EmptyInv(s) && Next(s, step, t) && (step.Call? || step.Load? || step.Lock? || step.StoreReady? || step.Publish?)
    ensures EmptyInv(t)
  {
  }

  lemma CheckStateKeepsInv(s: State, step: Step, t: State)
    requires Inv(s) && Next(s, step, t) && (step.Call? || step.Load? || step.Lock? || step.StoreReady? || step.Publish?)
    ensures Inv(t)
  {
    CheckStateMovesThread(s, step, t);
    CheckStateKeepsLock(s, step, t);
    CheckStateKeepsEmpty(s, step, t);
    ThreadMoveKeepsJobs(s, step.t, t);
  }

  lemma QueueGrows(hi: seq<Job>, job: Job)
    requires QueueOk(hi) && job !in hi && (job.InitJob? ==> hi == [])
    ensures QueueOk(hi + [job])
    ensures forall j :: j in hi + [job] <==> j in hi || j == job
    ensures hi != [] ==> (hi + [job])[0] == hi[0]
  {
  }

  lemma EnqueueKeepsJobs(s: State, job: Job, t: State)
    requires JobInv(s) && t.task == W.Enqueue(s.task, W.Hi, job)
    requires t.files == s.files && t.answered == s.answered && job !in s.task.hi
    requires Last(s).Working? ==> Last(s).job != job
    requires if job.InitJob? then !s.inited && t.inited else s.inited && t.inited && At(t, job.thread, Awaiting)
    requires forall x :: (At(s, x, Awaiting) ==> At(t, x, Awaiting)) && (Answered(s, x) ==> Answered(t, x))
    ensures JobInv(t)
  {
    W.EnqueueKeepsShape(s.task, W.Hi, job);
    assert t.task.hi == s.task.hi + [job] && t.task.lo == s.task.lo;
    assert Last(t) == if s.task.running then Last(s) else W.Starting;
    assert W.CurrentShelf(t.task, false) == W.CurrentShelf(s.task, false);
    QueueGrows(s.task.hi, job);
  }

  lemma InspectKeepsInv(s: State, th: int, readable: bool, t: State)
    requires Inv(s) && Next(s, Inspect(th, readable), t)
    ensures Inv(t)
  {
    if readable && s.files != {} {
      EnqueueKeepsJobs(s, InitJob, t);
    } else {
      ThreadMoveKeepsJobs(s, th, t);
    }
  }

  lemma SubmitKeepsInv(s: State, th: int, t: State)
    requires Inv(s) && Next(s, Submit(th), t)
    ensures Inv(t)
  {
    assert RequestJob(th) !in s.task.hi;
    EnqueueKeepsJobs(s, RequestJob(th), t);
  }

  lemma RespondKeepsInv(s: State, readable: bool, t: State)
    requires Inv(s) && Next(s, Respond(readable), t)
    ensures Inv(t)
  {
    var th := Last(s).job.thread;
    assert forall x :: x != th && At(s, x, Awaiting) ==> At(t, x, Awaiting);
    assert !Last(s).shelf ==> s.files == {};
  }

  lemma PopKeepsJobs(s: State, w: nat, t: State)
    requires Inv(s) && Next(s, Worker(W.Pop(w)), t)
    ensures JobInv(t)
  {
    W.StepKeepsShape(s.task, W.Pop(w), false);
    W.ShelfStays(s.task, W.Pop(w), false);
    assert w == |s.task.workers| - 1;
    var job := s.task.hi[0];
    assert s.task.hi == [job] + t.task.hi;
    assert Last(t) == W.Working(job, Last(s).shelf);
    assert forall j :: 0 <= j < |t.task.hi| ==> t.task.hi[j] == s.task.hi[j + 1];
    assert job !in t.task.hi;
  }

  lemma EndJobKeepsJobs(s: State, w: nat, left: bool, t: State)
    requires Inv(s) && Next(s, Worker(W.EndJob(w, left)), t)
    ensures JobInv(t)
  {
    W.StepKeepsShape(s.task, W.EndJob(w, left), false);
    assert w == |s.task.workers| - 1;
    assert Last(t) == W.Polling(left, false);
  }

  lemma WorkerKeepsInv(s: State, w: W.Step<Job, bool>, t: State)
    requires Inv(s) && Next(s, Worker(w), t)
    ensures Inv(t)
  {
    if w.Pop? {
      PopKeepsJobs(s, w.w, t);
    } else if w.EndJob? {
      EndJobKeepsJobs(s, w.w, w.left, t);
    } else {
      W.StepKeepsShape(s.task, w, false);
      W.ShelfStays(s.task, w, false);
      assert t.task.hi == s.task.hi && t.task.lo == s.task.lo;
      assert w.w == |s.task.workers| - 1;
      assert !Last(s).Working? && !Last(t).Working?;
    }
  }

  lemma StepKeepsInv(s: State, step: Step, t: State)
    requires Inv(s) && Next(s, step, t)
    ensures Inv(t)
  {
    match step
    case SetInit =>
    case RemoveFile(_) =>
    case Inspect(th, readable) => InspectKeepsInv(s, th, readable, t);
    case Submit(th) => SubmitKeepsInv(s, th, t);
    case Respond(readable) => RespondKeepsInv(s, readable, t);
    case Worker(w) => WorkerKeepsInv(s, w, t);
    case _ => CheckStateKeepsInv(s, step, t);
  }

  lemma {:induction false} EveryStateInv(states: seq<State>, steps: seq<Step>, n: nat)
    requires Run(states, steps) && n < |states|
    ensures Inv(states[n])
  {
    if n > 0 {
      EveryStateInv(states, steps, n - 1);
      StepKeepsInv(states[n - 1], steps[n - 1], states[n]);
    }
  }

  // ---------- What follows for whole runs ----------

  function Rank(a: Atomic): nat {
    match a case Uninitialized => 0 case Ready => 1 case Empty => 2
  }

  lemma StepKeepsRank(s: State, step: Step, t: State)
    requires Inv(s) && Next(s, step, t)
    ensures Rank(s.atomic) <= Rank(t.atomic) && t.files <= s.files
  {
  }

  ghost predicate NeverBack(a: State, b: State) {
    Rank(a.atomic) <= Rank(b.atomic) && b.files <= a.files
  }

  lemma {:induction false} NeverBackOverRun(states: seq<State>, i: nat, j: nat)
    requires i <= j < |states| && forall n :: 0 <= n && n + 1 < |states| ==> NeverBack(states[n], states[n + 1])
    ensures NeverBack(states[i], states[j])
    decreases j
  {
    if i < j {
      NeverBackOverRun(states, i, j - 1);
      assert NeverBack(states[j - 1], states[j - 1 + 1]);
    }
  }

  /**
   * The importer never leaves the empty state and never becomes uninitialized again, and nothing is
   * ever added to the legacy store.
   */
  lemma StateNeverGoesBack(states: seq<State>, steps: seq<Step>, i: nat, j: nat)
    requires Run(states, steps) && i <= j < |states|
    ensures NeverBack(states[i], states[j])
  {
    forall n | 0 <= n && n + 1 < |states| ensures NeverBack(states[n], states[n + 1]) {
      EveryStateInv(states, steps, n);
      StepKeepsRank(states[n], steps[n], states[n + 1]);
    }
    NeverBackOverRun(states, i, j);
  }

  /**
   * Whenever a request starts to run, the initialization has run before it. If it finds no state on
   * the shelf, then the legacy store is empty, then and ever after.
   */
  lemma RequestFindsState(states: seq<State>, steps: seq<Step>, n: nat, m: nat)
    requires Run(states, steps) && n <= m < |states|
    requires Last(states[n]).Working? && Last(states[n]).job.RequestJob?
    ensures InitJob !in states[n].task.hi && states[n].inited
    ensures Last(states[n]).shelf || states[m].files == {}
  {
    EveryStateInv(states, steps, n);
    StateNeverGoesBack(states, steps, n, m);
  }

  /** Whoever is told that the legacy store is empty is told the truth, then and ever after. */
  lemma SkippedMeansEmpty(states: seq<State>, steps: seq<Step>, n: nat, m: nat, t: int)
    requires Run(states, steps) && n <= m < |states|
    requires At(states[n], t, Finished(Skipped)) || states[n].atomic == Empty
    ensures states[m].files == {}
  {
    EveryStateInv(states, steps, n);
    StateNeverGoesBack(states, steps, n, m);
  }

  /** A request fails exactly when it finds the importer uninitialized for the second time, or cannot read the store when it sets the importer up. */
  lemma FailsExactly(s: State, step: Step, t: State, th: int)
    requires Next(s, step, t) && th in s.threads && !s.threads[th].Finished? && th in t.threads
    ensures t.threads[th] == Finished(Failed) <==>
      (step == Load(th) && s.threads[th] == Loading(false) && s.atomic == Uninitialized) || (step == Inspect(th, false))
  {
  }

  /** Requests that were made when the importer was ready. */
  ghost predicate OnItsWay(s: State, th: int) {
    && s.atomic != Uninitialized
    && (th in s.threads ==> Asking(s.threads[th]) || s.threads[th] in {Loading(true), Finished(Skipped), Finished(Executed)})
  }

  lemma StepOnItsWay(s: State, step: Step, t: State, th: int)
    requires Inv(s) && Next(s, step, t) && OnItsWay(s, th)
    ensures OnItsWay(t, th)
  {
  }

  lemma {:induction false} OnItsWayOverRun(states: seq<State>, steps: seq<Step>, i: nat, j: nat, th: int)
    requires Run(states, steps) && i <= j < |states| && OnItsWay(states[i], th)
    ensures OnItsWay(states[j], th)
    decreases j
  {
    if i < j {
      OnItsWayOverRun(states, steps, i, j - 1, th);
      EveryStateInv(states, steps, j - 1);
      StepOnItsWay(states[j - 1], steps[j - 1], states[j], th);
    }
  }

  /** A request that is made once the importer is set up never fails: it is executed, unless the legacy store is empty. */
  lemma ReadyIsExecuted(states: seq<State>, steps: seq<Step>, i: nat, j: nat, th: int)
    requires Run(states, steps) && i <= j < |states| && states[i].atomic == Ready && th !in states[i].threads
    requires th in states[j].threads && states[j].threads[th].Finished?
    ensures states[j].threads[th].answer == Executed || (states[j].threads[th].answer == Skipped && states[j].files == {})
  {
    OnItsWayOverRun(states, steps, i, j, th);
    if states[j].threads[th] == Finished(Skipped) {
      SkippedMeansEmpty(states, steps, j, j, th);
    }
  }

  // ---------- When the store cannot be read at first ----------

  /** The initializer was used up, and nobody is setting the importer up. */
  ghost predicate Stranded(s: State) {
    s.atomic == Uninitialized && !s.initializer && s.lock.None?
  }

  /** Requests that the thread is not done with can only fail. */
  ghost predicate Doomed(s: State, th: int) {
    th !in s.threads || s.threads[th] in {Loading(true), Loading(false), WantsLock, Finished(Failed)}
  }

  lemma UnreadableStrands(s: State, step: Step, t: State)
    requires Inv(s) && Next(s, step, t) && step.Inspect? && !step.readable
    ensures Stranded(t) && forall th :: Doomed(t, th) || (th in t.threads && t.threads[th].Finished?)
  {
    forall th | th in t.threads ensures Doomed(t, th) || t.threads[th].Finished? {
      assert !Asking(t.threads[th]);
    }
  }

  /** Installing an initializer ends it, and nothing else does. */
  lemma StrandedStays(s: State, step: Step, t: State)
    requires Inv(s) && Next(s, step, t) && Stranded(s)
    ensures step.SetInit? <==> !Stranded(t)
    ensures forall th :: Doomed(s, th) ==> Doomed(t, th)
  {
    assert forall th :: th in s.threads ==> !Asking(s.threads[th]);
  }

  /**
   * If the first look at the legacy store fails, the initializer is gone. As long as nobody installs
   * another one, every request that had not finished by then, or comes later, fails if it finishes.
   */
  lemma {:induction false} UnreadableStoreStrands(states: seq<State>, steps: seq<Step>, n: nat, m: nat, th: int)
    requires Run(states, steps) && n < m < |states| && steps[n].Inspect? && !steps[n].readable
    requires forall j :: n < j < m ==> !steps[j].SetInit?
    requires th !in states[n + 1].threads || !states[n + 1].threads[th].Finished?
    ensures Stranded(states[m]) && Doomed(states[m], th)
    ensures th in states[m].threads && states[m].threads[th].Finished? ==> states[m].threads[th] == Finished(Failed)
    decreases m
  {
    EveryStateInv(states, steps, m - 1);
    if m == n + 1 {
      UnreadableStrands(states[n], steps[n], states[m]);
    } else {
      UnreadableStoreStrands(states, steps, n, m - 1, th);
      StrandedStays(states[m - 1], steps[m - 1], states[m]);
    }
  }
}
