/**
 * How the garbage collector is woken: transactions that leave garbage, and the end of the boot
 * process, notify it; a flag keeps at most one step scheduled; a step clears the flag before it
 * looks at the database and schedules the next one while it has something to delete.
 *
 * The collector's step runs as a low priority job of the worker in `AsyncTasks`, one atomic access
 * at a time, among any number of client threads.
 */
module GcNotification {
  import opened Tables
  import opened Transactions
  import opened BlobRows
  import opened GarbageCollection
  import opened GcRuns
  import opened GcHints
  import W = AsyncTasks

  /** The job that puts the collector on the shelf, the collector's step, and everybody else's jobs. */
  datatype Job = InitJob | StepJob | OtherJob

  /** Where the running step is: each constructor names what it has done last. */
  datatype Pc = NotRunning | Entered | FlagCleared | BootChecked | Queried | Handled | Exchanged | Over

  /** `ready`, on the shelf, says that the collector was put there. */
  type Task = W.State<Job, bool>

  datatype G = G(
    task: Task, notified: bool, boot: bool,
    notifying: nat, // threads that are about to compare and exchange the flag
    winners: nat,   // threads that set the flag and are about to queue a step
    pc: Pc, gc: Sys,
    failed: bool)   // the collector's last transaction failed, and nobody has notified it since

  datatype Step =
    | ClientCommits(tx: Tx)
    | BootCompleted
    | Exchange
    | QueueStep
    | QueueOther(prio: W.Priority)
    | Worker(step: W.Step<Job, bool>)
    | ClearFlag
    | CheckBoot
    | Query(picked: seq<int>)
    | QueryFails
    | SkipQuery
    | TakeBlob(id: int)
    | NoBlob
    | Reschedule
    | Requeue

  function Last(s: G): W.Worker<Job, bool> {
    W.LastWorker(s.task)
  }

  /** What a job leaves on the shelf: only the first one changes whether the collector is there. */
  predicate LeavesShelf(s: G, step: W.Step<Job, bool>) {
    match step
    case Queue(_, _) => false
    case EndIdle(_, left) => Last(s).RunningIdle? && left == Last(s).shelf
    case EndJob(_, left) =>
      && Last(s).Working? && left == (if Last(s).job == InitJob then true else Last(s).shelf)
      && (Last(s).job == StepJob ==> s.pc == Over)
    case _ => true
  }

  function WorkerMoves(s: G, step: W.Step<Job, bool>): G
    requires W.Enabled(s.task, step)
  {
    var t := s.(task := W.Apply(s.task, step, false));
    match step
    case Pop(_) => if s.task.hi == [] && s.task.lo[0] == StepJob then t.(pc := Entered) else t
    case EndJob(_, _) => t.(pc := NotRunning)
    case _ => t
  }

  ghost predicate Next(s: G, step: Step, t: G, u: bool) {
    match step
    case ClientCommits(tx) =>
      && Admissible(s.gc.db, tx)
      && var c := Exec(s.gc.db, tx);
         t == s.(gc := s.gc.(db := c.db), notifying := s.notifying + (if c.needGc then 1 else 0), failed := s.failed && !c.needGc)
    case BootCompleted => !s.boot && t == s.(boot := true, notifying := s.notifying + 1, failed := false)
    case Exchange =>
      && s.notifying > 0
      && t == if s.notified then s.(notifying := s.notifying - 1)
              else s.(notifying := s.notifying - 1, notified := true, winners := s.winners + 1)
    case QueueStep =>
      s.winners > 0 && t == s.(winners := s.winners - 1, task := W.Enqueue(s.task, W.Lo, StepJob))
    case QueueOther(prio) => t == s.(task := W.Enqueue(s.task, prio, OtherJob))
    case Worker(w) => W.Enabled(s.task, w) && LeavesShelf(s, w) && t == WorkerMoves(s, w)
    case ClearFlag => s.pc == Entered && t == s.(pc := FlagCleared, notified := false)
    case CheckBoot => s.pc == FlagCleared && t == s.(pc := if s.boot then BootChecked else Over)
    case Query(picked) =>
      && s.pc == BootChecked && Fetches(s.gc, u, picked, t.gc)
      && t == s.(pc := Queried, failed := false, gc := t.gc)
    case QueryFails => s.pc == BootChecked && s.gc.superseded == [] && t == s.(pc := Handled, failed := true)
    case SkipQuery => s.pc == BootChecked && s.gc.superseded != [] && t == s.(pc := Queried)
    case TakeBlob(id) => s.pc == Queried && Pops(s.gc, id, t.gc) && t == s.(pc := Handled, gc := t.gc)
    case NoBlob => s.pc == Queried && s.gc.superseded == [] && t == s.(pc := Handled)
    case Reschedule =>
      && s.pc == Handled
      && t == if s.gc.deleted != [] && !s.notified then s.(pc := Exchanged, notified := true) else s.(pc := Over)
    case Requeue => s.pc == Exchanged && t == s.(pc := Over, task := W.Enqueue(s.task, W.Lo, StepJob))
  }

  /** The collector was created, which queued its first job; others may have queued theirs before. */
  ghost predicate Start(s: G) {
    && W.Shape(s.task) && InitJob in s.task.hi && InitJob !in s.task.lo
    && StepJob !in s.task.hi && StepJob !in s.task.lo && !Last(s).Working?
    && !s.notified && !s.boot && s.notifying == 0 && s.winners == 0 && s.pc == NotRunning && !s.failed
    && GarbageCollection.Start(s.gc)
  }

  ghost predicate Run(states: seq<G>, steps: seq<Step>, u: bool) {
    && |states| == |steps| + 1 && Start(states[0])
    && forall i {:trigger steps[i]} :: 0 <= i < |steps| ==> Next(states[i], steps[i], states[i + 1], u)
  }

  // ---------- The invariant ----------

  function Scheduled(s: G): nat {
    multiset(s.task.lo)[StepJob]
  }

  function One(b: bool): nat {
    if b then 1 else 0
  }

  /** The flag is set exactly while one step is on its way: about to be queued, queued, or just begun. */
  ghost predicate FlagInv(s: G) {
    s.winners + Scheduled(s) + One(s.pc == Entered || s.pc == Exchanged) == One(s.notified)
  }

  /** A step runs only where it finds the collector on the shelf. */
  ghost predicate ReadyInv(s: G) {
    var last := Last(s);
    && W.Shape(s.task)
    && (s.pc != NotRunning <==> last.Working? && last.job == StepJob)
    && (s.pc != NotRunning ==> last.shelf)
    && StepJob !in s.task.hi && InitJob !in s.task.lo
    && (W.CurrentShelf(s.task, false) || InitJob in s.task.hi || (last.Working? && last.job == InitJob))
  }

  /** Somebody will still look at the database, or make sure that somebody does. */
  predicate Awake(s: G) {
    || s.notifying > 0 || s.winners > 0 || Scheduled(s) > 0
    || s.pc == Entered || s.pc == FlagCleared || s.pc == BootChecked || s.pc == Exchanged
    || (s.pc == Queried && s.gc.superseded != [])
    || (s.pc == Handled && s.gc.deleted != [])
  }

  ghost predicate WakeInv(s: G, u: bool) {
    && SysInv(s.gc)
    && (!s.boot ==> s.gc.deleted == [] && s.gc.superseded == [])
    && (s.pc in {BootChecked, Queried, Handled, Exchanged} ==> s.boot)
    && (s.pc != Queried && s.gc.superseded != [] ==> s.gc.deleted != [])
    && (s.pc == Queried && s.gc.superseded == [] ==> s.gc.deleted == [])
    && (s.gc.deleted != [] || s.gc.superseded != [] ==> Awake(s))
    && (s.boot && !s.failed && !Drained(s.gc.db, u) ==> Awake(s))
  }

  ghost predicate Inv(s: G, u: bool) {
    FlagInv(s) && ReadyInv(s) && WakeInv(s, u)
  }

  // ---------- Preservation ----------

  lemma NoNewGarbageKeepsDrained(a: Db, b: Db, u: bool)
    requires NoNewGarbage(a, b) && Drained(a, u)
    ensures Drained(b, u)
  {
    assert forall i :: Purgeable(b, u, i) ==> Purgeable(a, u, i);
    assert forall i :: i in OutOfDateKeyBlobs(b, u) ==> i in OutOfDateKeyBlobs(a, u);
    assert forall k :: k in KeysInState(b.keys, Unreferenced) ==> k in KeysInState(a.keys, Unreferenced);
  }

  lemma CommitKeepsInv(s: G, tx: Tx, t: G, u: bool)
    requires Inv(s, u) && Next(s, ClientCommits(tx), t, u)
    ensures Inv(t, u)
  {
    StepKeepsSysInv(s.gc, ClientTx(tx), t.gc);
    HintsAreComplete(s.gc.db, tx);
    if !Exec(s.gc.db, tx).needGc && Drained(s.gc.db, u) {
      NoNewGarbageKeepsDrained(s.gc.db, t.gc.db, u);
    }
  }

  lemma EnqueueKeepsReady(s: G, prio: W.Priority, job: Job)
    requires ReadyInv(s) && job != InitJob && (job == StepJob ==> prio == W.Lo)
    ensures ReadyInv(s.(task := W.Enqueue(s.task, prio, job)))
    ensures Scheduled(s.(task := W.Enqueue(s.task, prio, job))) == Scheduled(s) + One(job == StepJob)
  {
    W.EnqueueKeepsShape(s.task, prio, job);
    var task := W.Enqueue(s.task, prio, job);
    assert task.lo == if prio == W.Lo then s.task.lo + [job] else s.task.lo;
    assert task.hi == if prio == W.Hi then s.task.hi + [job] else s.task.hi;
    assert !s.task.running ==> Last(s).Gone?;
    assert W.LastWorker(task) == if s.task.running then Last(s) else W.Starting;
  }

  lemma QueueingKeepsInv(s: G, step: Step, t: G, u: bool)
    requires Inv(s, u) && Next(s, step, t, u) && (step.QueueStep? || step.QueueOther? || step.Requeue?)
    ensures Inv(t, u)
  {
    var prio := if step.QueueOther? then step.prio else W.Lo;
    var job := if step.QueueOther? then OtherJob else StepJob;
    EnqueueKeepsReady(s, prio, job);
    assert t.task == W.Enqueue(s.task, prio, job);
    assert Scheduled(t) == Scheduled(s) + One(job == StepJob);
    assert W.LastWorker(t.task) == W.LastWorker(s.(task := W.Enqueue(s.task, prio, job)).task);
  }

  lemma TakingOne(queue: seq<Job>)
    requires queue != []
    ensures multiset(queue)[StepJob] == multiset(queue[1..])[StepJob] + One(queue[0] == StepJob)
    ensures forall job :: job in queue <==> job == queue[0] || job in queue[1..]
  {
    assert queue == [queue[0]] + queue[1..];
  }

  lemma PopTakesOne(s: G, w: nat, t: G, u: bool)
    requires ReadyInv(s) && Next(s, Worker(W.Pop(w)), t, u)
    ensures W.Shape(t.task) && W.CurrentShelf(t.task, false) == W.CurrentShelf(s.task, false)
    ensures Last(s).Polling? && Last(s).shelf == W.CurrentShelf(s.task, false)
    ensures if s.task.hi != []
      then t.task.hi == s.task.hi[1..] && t.task.lo == s.task.lo && Last(t) == W.Working(s.task.hi[0], Last(s).shelf)
      else t.task.hi == [] && t.task.lo == s.task.lo[1..] && Last(t) == W.Working(s.task.lo[0], Last(s).shelf)
  {
    W.StepKeepsShape(s.task, W.Pop(w), false);
    W.OnlyLast(s.task, W.Pop(w));
    W.ShelfStays(s.task, W.Pop(w), false);
  }

  lemma PopKeepsReady(s: G, w: nat, t: G, u: bool)
    requires ReadyInv(s) && Next(s, Worker(W.Pop(w)), t, u)
    ensures ReadyInv(t)
    ensures s.pc == NotRunning && t.pc == (if s.task.hi == [] && s.task.lo[0] == StepJob then Entered else NotRunning)
    ensures Scheduled(s) == Scheduled(t) + One(t.pc == Entered)
  {
    PopTakesOne(s, w, t, u);
    TakingOne(if s.task.hi != [] then s.task.hi else s.task.lo);
  }

  lemma PopKeepsInv(s: G, w: nat, t: G, u: bool)
    requires Inv(s, u) && Next(s, Worker(W.Pop(w)), t, u)
    ensures Inv(t, u)
  {
    PopKeepsReady(s, w, t, u);
    assert t.gc == s.gc && t.notifying == s.notifying && t.winners == s.winners && t.boot == s.boot && t.failed == s.failed;
  }

  /** Nothing but the worker changes, and at most the running step is over. */
  ghost predicate OnlyWorkerMoved(s: G, t: G) {
    t == s.(task := t.task, pc := t.pc) && (t.pc == s.pc || (s.pc == Over && t.pc == NotRunning))
  }

  lemma OnlyWorkerMovedKeepsInv(s: G, t: G, u: bool)
    requires Inv(s, u) && OnlyWorkerMoved(s, t) && ReadyInv(t) && Scheduled(t) == Scheduled(s)
    ensures Inv(t, u)
  {
    assert Awake(s) ==> Awake(t);
  }

  lemma EndJobKeepsReady(s: G, w: nat, left: bool, t: G, u: bool)
    requires ReadyInv(s) && Next(s, Worker(W.EndJob(w, left)), t, u)
    ensures ReadyInv(t) && Scheduled(t) == Scheduled(s) && OnlyWorkerMoved(s, t)
  {
    W.StepKeepsShape(s.task, W.EndJob(w, left), false);
    W.OnlyLast(s.task, W.EndJob(w, left));
    assert Last(t) == W.Polling(left, false);
  }

  lemma OtherWorkKeepsReady(s: G, step: W.Step<Job, bool>, t: G, u: bool)
    requires ReadyInv(s) && Next(s, Worker(step), t, u) && !step.Pop? && !step.EndJob?
    ensures ReadyInv(t) && Scheduled(t) == Scheduled(s) && OnlyWorkerMoved(s, t)
  {
    W.StepKeepsShape(s.task, step, false);
    W.OnlyLast(s.task, step);
    W.ShelfStays(s.task, step, false);
    assert !Last(s).Working? && !Last(t).Working?;
    assert t.task.hi == s.task.hi && t.task.lo == s.task.lo;
  }

  lemma WorkerKeepsInv(s: G, step: W.Step<Job, bool>, t: G, u: bool)
    requires Inv(s, u) && Next(s, Worker(step), t, u)
    ensures Inv(t, u)
  {
    if step.Pop? {
      PopKeepsInv(s, step.w, t, u);
    } else {
      if step.EndJob? {
        EndJobKeepsReady(s, step.w, step.left, t, u);
      } else {
        OtherWorkKeepsReady(s, step, t, u);
      }
      OnlyWorkerMovedKeepsInv(s, t, u);
    }
  }

  lemma QueryKeepsInv(s: G, picked: seq<int>, t: G, u: bool)
    requires Inv(s, u) && Next(s, Query(picked), t, u)
    ensures Inv(t, u)
  {
    StepKeepsSysInv(s.gc, GcFetch(u, picked), t.gc);
    FetchPending(s.gc, u, picked, t.gc);
  }

  lemma TakeBlobKeepsInv(s: G, id: int, t: G, u: bool)
    requires Inv(s, u) && Next(s, TakeBlob(id), t, u)
    ensures Inv(t, u)
  {
    StepKeepsSysInv(s.gc, GcPop(id), t.gc);
  }

  lemma SameTaskReady(s: G, t: G)
    requires ReadyInv(s) && t.task == s.task && (t.pc == NotRunning <==> s.pc == NotRunning)
    ensures ReadyInv(t) && Scheduled(t) == Scheduled(s)
  {
  }

  /** A thread or the running step touches the flag. */
  lemma FlagStepKeepsInv(s: G, step: Step, t: G, u: bool)
    requires Inv(s, u) && Next(s, step, t, u) && (step.Exchange? || step.ClearFlag? || step.Reschedule?)
    ensures Inv(t, u)
  {
    SameTaskReady(s, t);
  }

  lemma LocalStepKeepsInv(s: G, step: Step, t: G, u: bool)
    requires Inv(s, u) && Next(s, step, t, u)
    requires step.BootCompleted? || step.CheckBoot? || step.QueryFails? || step.SkipQuery? || step.NoBlob?
    ensures Inv(t, u)
  {
    SameTaskReady(s, t);
  }

  lemma StepKeepsInv(s: G, step: Step, t: G, u: bool)
    requires Inv(s, u) && Next(s, step, t, u)
    ensures Inv(t, u)
  {
    match step
    case ClientCommits(tx) => CommitKeepsInv(s, tx, t, u);
    case Query(picked) => QueryKeepsInv(s, picked, t, u);
    case TakeBlob(id) => TakeBlobKeepsInv(s, id, t, u);
    case Worker(w) => WorkerKeepsInv(s, w, t, u);
    case QueueStep => QueueingKeepsInv(s, step, t, u);
    case QueueOther(_) => QueueingKeepsInv(s, step, t, u);
    case Requeue => QueueingKeepsInv(s, step, t, u);
    case Exchange => FlagStepKeepsInv(s, step, t, u);
    case ClearFlag => FlagStepKeepsInv(s, step, t, u);
    case Reschedule => FlagStepKeepsInv(s, step, t, u);
    case _ => LocalStepKeepsInv(s, step, t, u);
  }

  lemma {:induction false} EveryStateInv(states: seq<G>, steps: seq<Step>, u: bool, n: nat)
    requires Run(states, steps, u) && n < |states|
    ensures Inv(states[n], u)
  {
    if n > 0 {
      EveryStateInv(states, steps, u, n - 1);
      StepKeepsInv(states[n - 1], steps[n - 1], states[n], u);
    } else {
      assert Scheduled(states[0]) == 0;
    }
  }

  // ---------- What follows for whole runs ----------

  /** At most one step of the collector is scheduled or running up to its first action, at any time. */
  lemma AtMostOneStep(states: seq<G>, steps: seq<Step>, u: bool, n: nat)
    requires Run(states, steps, u) && n < |states|
    ensures states[n].winners + Scheduled(states[n]) + One(states[n].pc == Entered || states[n].pc == Exchanged) <= 1
  {
    EveryStateInv(states, steps, u, n);
  }

  /** Whenever a step is started, the collector is on the shelf it is started with. */
  lemma StepFindsCollector(states: seq<G>, steps: seq<Step>, u: bool, n: nat, w: nat)
    requires Run(states, steps, u) && n < |steps| && steps[n] == Worker(W.Pop(w)) && states[n + 1].pc == Entered
    ensures Last(states[n + 1]) == W.Working(StepJob, true)
  {
    EveryStateInv(states, steps, u, n + 1);
  }

  /**
   * After boot, as long as there is garbage, a thread is about to notify the collector, or a step is
   * scheduled, or the running step will still look at the database or schedule another one; unless
   * the collector's last transaction failed and nobody has asked for a collection since.
   */
  lemma AwakeWhileGarbage(states: seq<G>, steps: seq<Step>, u: bool, n: nat)
    requires Run(states, steps, u) && n < |states|
    requires states[n].boot && !states[n].failed && !Drained(states[n].gc.db, u)
    ensures Awake(states[n])
  {
    EveryStateInv(states, steps, u, n);
  }

  /** No thread is about to notify, no job waits and none runs. */
  predicate Quiet(s: G) {
    s.notifying == 0 && s.winners == 0 && s.task.hi == [] && s.task.lo == [] && s.pc == NotRunning
  }

  /**
   * No notification is lost. Once boot has completed, whenever nothing is left to do, nothing is
   * left to collect, unless the collector's last transaction failed and nobody has asked for a
   * collection since; before boot, nothing is collected.
   */
  lemma NoLostWakeup(states: seq<G>, steps: seq<Step>, u: bool, n: nat)
    requires Run(states, steps, u) && n < |states|
    ensures Quiet(states[n]) ==> states[n].gc.deleted == [] && states[n].gc.superseded == []
    ensures Quiet(states[n]) && states[n].boot && !states[n].failed ==> Drained(states[n].gc.db, u)
    ensures !states[n].boot ==> states[n].gc.deleted == [] && states[n].gc.superseded == [] && states[n].pc !in {BootChecked, Queried, Handled, Exchanged}
  {
    EveryStateInv(states, steps, u, n);
  }

  // ---------- A failed transaction is what it takes ----------

  /** A database with one key blob that no key has. */
  const LOST_BLOB := EMPTY_DB.(blobs := map[1 := BlobRow(KeyBlob, 7, [1], Orphaned)])

  lemma LostBlobIsGarbage(u: bool)
    ensures GarbageCollection.Start(Sys(LOST_BLOB, [], [])) && !Drained(LOST_BLOB, u)
  {
    assert 1 in OutOfDateKeyBlobs(LOST_BLOB, u);
  }

  /** The collector was just created over that database. */
  function JustCreated(): G {
    G(W.Enqueue(W.Init(), W.Hi, InitJob), false, false, 0, 0, NotRunning, Sys(LOST_BLOB, [], []), false)
  }

  lemma RunGrows(states: seq<G>, steps: seq<Step>, step: Step, t: G, u: bool)
    requires Run(states, steps, u) && Next(states[|steps|], step, t, u)
    ensures Run(states + [t], steps + [step], u) && (states + [t])[|steps| + 1] == t
  {
    var more, taken := states + [t], steps + [step];
    assert forall i :: 0 <= i < |states| ==> more[i] == states[i];
    forall i | 0 <= i < |taken| ensures Next(more[i], taken[i], more[i + 1], u) {
      if i < |steps| { assert taken[i] == steps[i]; }
    }
  }

  /** The state once the first job has run: the collector is on the shelf of a worker that polls. */
  predicate Installed(s: G) {
    && |s.task.workers| == 1 && s.task.workers[0] == W.Polling(true, false) && s.task.running && s.task.hi == [] && s.task.lo == []
    && s == G(s.task, false, false, 0, 0, NotRunning, Sys(LOST_BLOB, [], []), false)
  }

  /** The worker is at its first job. */
  predicate Installing(s: G) {
    && |s.task.workers| == 1 && s.task.workers[0] == W.Working(InitJob, false) && s.task.running && s.task.hi == [] && s.task.lo == []
    && s == G(s.task, false, false, 0, 0, NotRunning, Sys(LOST_BLOB, [], []), false)
  }

  lemma CreationStarts(u: bool)
    ensures Run([JustCreated()], [], u)
    ensures var task := JustCreated().task; task.workers == [W.Starting] && task.running && task.hi == [InitJob] && task.lo == []
  {
    LostBlobIsGarbage(u);
  }

  lemma ReachesInstalling(u: bool) returns (states: seq<G>, steps: seq<Step>)
    ensures Run(states, steps, u) && Installing(states[|steps|])
  {
    CreationStarts(u);
    var s0 := JustCreated();
    states, steps := [s0], [];
    var s1 := WorkerMoves(s0, W.TakeShelf(0));
    assert Next(s0, Worker(W.TakeShelf(0)), s1, u);
    RunGrows(states, steps, Worker(W.TakeShelf(0)), s1, u);
    states, steps := states + [s1], steps + [Worker(W.TakeShelf(0))];
    var s2 := WorkerMoves(s1, W.Pop(0));
    assert Next(s1, Worker(W.Pop(0)), s2, u);
    RunGrows(states, steps, Worker(W.Pop(0)), s2, u);
    states, steps := states + [s2], steps + [Worker(W.Pop(0))];
  }

  lemma ReachesInstalled(states0: seq<G>, steps0: seq<Step>, u: bool) returns (states: seq<G>, steps: seq<Step>)
    requires Run(states0, steps0, u) && Installing(states0[|steps0|])
    ensures Run(states, steps, u) && Installed(states[|steps|])
  {
    var s := states0[|steps0|];
    var t := WorkerMoves(s, W.EndJob(0, true));
    assert Next(s, Worker(W.EndJob(0, true)), t, u);
    RunGrows(states0, steps0, Worker(W.EndJob(0, true)), t, u);
    states, steps := states0 + [t], steps0 + [Worker(W.EndJob(0, true))];
  }

  /** Boot has completed, and the worker has taken the step that was queued for it. */
  predicate Looking(s: G) {
    && |s.task.workers| == 1 && s.task.workers[0] == W.Working(StepJob, true) && s.task.running && s.task.hi == [] && s.task.lo == []
    && s == G(s.task, true, true, 0, 0, Entered, Sys(LOST_BLOB, [], []), false)
  }

  lemma ReachesLooking(states0: seq<G>, steps0: seq<Step>, u: bool) returns (states: seq<G>, steps: seq<Step>)
    requires Run(states0, steps0, u) && Installed(states0[|steps0|])
    ensures Run(states, steps, u) && Looking(states[|steps|])
  {
    states, steps := states0, steps0;
    var s := states[|steps|];
    var a := s.(boot := true, notifying := 1);
    RunGrows(states, steps, BootCompleted, a, u);
    states, steps := states + [a], steps + [BootCompleted];
    var b := a.(notifying := 0, notified := true, winners := 1);
    RunGrows(states, steps, Exchange, b, u);
    states, steps := states + [b], steps + [Exchange];
    var c := b.(winners := 0, task := W.Enqueue(b.task, W.Lo, StepJob));
    RunGrows(states, steps, QueueStep, c, u);
    states, steps := states + [c], steps + [QueueStep];
    var d := WorkerMoves(c, W.Pop(0));
    assert Next(c, Worker(W.Pop(0)), d, u);
    RunGrows(states, steps, Worker(W.Pop(0)), d, u);
    states, steps := states + [d], steps + [Worker(W.Pop(0))];
  }

  lemma FailsQuietly(states0: seq<G>, steps0: seq<Step>, u: bool) returns (states: seq<G>, steps: seq<Step>)
    requires Run(states0, steps0, u) && Looking(states0[|steps0|])
    ensures Run(states, steps, u)
    ensures var last := states[|steps|]; Quiet(last) && last.boot && last.failed && last.gc.db == LOST_BLOB
  {
    states, steps := states0, steps0;
    var s := states[|steps|];
    var a := s.(pc := FlagCleared, notified := false);
    RunGrows(states, steps, ClearFlag, a, u);
    states, steps := states + [a], steps + [ClearFlag];
    var b := a.(pc := BootChecked);
    RunGrows(states, steps, CheckBoot, b, u);
    states, steps := states + [b], steps + [CheckBoot];
    var c := b.(pc := Handled, failed := true);
    RunGrows(states, steps, QueryFails, c, u);
    states, steps := states + [c], steps + [QueryFails];
    var d := c.(pc := Over);
    RunGrows(states, steps, Reschedule, d, u);
    states, steps := states + [d], steps + [Reschedule];
    var e := WorkerMoves(d, W.EndJob(0, true));
    assert Next(d, Worker(W.EndJob(0, true)), e, u);
    RunGrows(states, steps, Worker(W.EndJob(0, true)), e, u);
    states, steps := states + [e], steps + [Worker(W.EndJob(0, true))];
  }

  /**
   * The exception is real: a run in which the collector's first transaction fails ends quietly, after
   * boot, with garbage left. Nobody will look at it until somebody asks for a collection again.
   */
  lemma FailureDefersGarbage(u: bool) returns (states: seq<G>, steps: seq<Step>)
    ensures Run(states, steps, u)
    ensures var last := states[|steps|]; Quiet(last) && last.boot && last.failed && !Drained(last.gc.db, u)
  {
    LostBlobIsGarbage(u);
    states, steps := ReachesInstalling(u);
    states, steps := ReachesInstalled(states, steps, u);
    states, steps := ReachesLooking(states, steps, u);
    states, steps := FailsQuietly(states, steps, u);
  }
}
