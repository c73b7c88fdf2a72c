/**
 * The garbage collector comes to rest: once clients, other jobs and failures stop, every run of
 * notifying threads, worker and collector is finite, and it can only stop with nothing to collect.
 */
module GcLiveness {
  import opened Tables
  import opened Transactions
  import opened GarbageCollection
  import opened GcRuns
  import opened GcNotification
  import W = AsyncTasks

  /** Steps that nobody outside causes: no commit, no other job, no end of boot, no failure. */
  predicate Internal(step: GcNotification.Step) {
    !step.ClientCommits? && !step.QueueOther? && !step.BootCompleted? && !step.QueryFails?
  }

  // ---------- A bound on the steps that are left ----------

  function PcWeight(s: G): nat {
    match s.pc
    case NotRunning => 0
    case Over => 1
    case Exchanged => 17
    case Handled => if s.gc.deleted != [] then 18 else 2
    case Queried => 3
    case BootChecked => 4
    case FlagCleared => 5
    case Entered => 6
  }

  function Left(s: G): nat {
    20 * |Pending(s.gc)| + 18 * s.notifying + 17 * s.winners + 7 * Scheduled(s) + PcWeight(s) + W.Measure(s.task)
  }

  lemma EnqueueAddsLittle(task: Task, job: Job)
    requires W.Shape(task)
    ensures W.Measure(W.Enqueue(task, W.Lo, job)) <= W.Measure(task) + 8
  {
    W.EnqueueKeepsShape(task, W.Lo, job);
  }

  lemma QueueingGetsCloser(s: G, step: GcNotification.Step, t: G, u: bool)
    requires Inv(s, u) && GcNotification.Next(s, step, t, u) && (step.QueueStep? || step.Requeue?)
    ensures Left(t) < Left(s)
  {
    EnqueueKeepsReady(s, W.Lo, StepJob);
    EnqueueAddsLittle(s.task, StepJob);
    assert t.task == W.Enqueue(s.task, W.Lo, StepJob) && t.gc == s.gc;
    assert Scheduled(t) == Scheduled(s) + 1;
  }

  lemma WorkerGetsCloser(s: G, step: W.Step<Job, bool>, t: G, u: bool)
    requires Inv(s, u) && GcNotification.Next(s, Worker(step), t, u)
    ensures Left(t) < Left(s)
  {
    W.WorkerProgresses(s.task, step, false);
    assert t.gc == s.gc && t.notifying == s.notifying && t.winners == s.winners;
    if step.Pop? {
      PopKeepsReady(s, step.w, t, u);
    } else if step.EndJob? {
      EndJobKeepsReady(s, step.w, step.left, t, u);
    } else {
      OtherWorkKeepsReady(s, step, t, u);
    }
  }

  lemma SamePendingGetsCloser(s: G, t: G)
    requires Pending(t.gc) == Pending(s.gc) && t.task == s.task && t.notifying == s.notifying && t.winners == s.winners
    requires PcWeight(t) < PcWeight(s)
    ensures Left(t) < Left(s)
  {
  }

  lemma QueryMoves(s: G, picked: seq<int>, t: G, u: bool)
    requires GcNotification.Next(s, Query(picked), t, u)
    ensures Fetches(s.gc, u, picked, t.gc)
    ensures t.task == s.task && t.notifying == s.notifying && t.winners == s.winners && s.pc == BootChecked && t.pc == Queried
  {
  }

  lemma QueryGetsCloser(s: G, picked: seq<int>, t: G, u: bool)
    requires GcNotification.Next(s, Query(picked), t, u)
    ensures Left(t) < Left(s)
  {
    QueryMoves(s, picked, t, u);
    FetchPending(s.gc, u, picked, t.gc);
    SamePendingGetsCloser(s, t);
  }

  lemma TakeBlobGetsCloser(s: G, id: int, t: G, u: bool)
    requires SysInv(s.gc) && GcNotification.Next(s, TakeBlob(id), t, u)
    ensures Left(t) < Left(s)
  {
    PopPending(s.gc, id, t.gc);
    assert |Pending(t.gc)| == |Pending(s.gc)| - 1;
    assert Scheduled(t) == Scheduled(s);
  }

  /** The steps that touch neither the database nor the worker. */
  lemma LocalStepGetsCloser(s: G, step: GcNotification.Step, t: G, u: bool)
    requires Inv(s, u) && GcNotification.Next(s, step, t, u)
    requires step.Exchange? || step.ClearFlag? || step.CheckBoot? || step.SkipQuery? || step.NoBlob? || step.Reschedule?
    ensures Left(t) < Left(s)
  {
    assert t.gc == s.gc && t.task == s.task;
  }

  lemma InternalStepGetsCloser(s: G, step: GcNotification.Step, t: G, u: bool)
    requires Inv(s, u) && GcNotification.Next(s, step, t, u) && Internal(step)
    ensures Left(t) < Left(s)
  {
    if step.QueueStep? || step.Requeue? {
      QueueingGetsCloser(s, step, t, u);
    } else if step.Worker? {
      WorkerGetsCloser(s, step.step, t, u);
    } else if step.Query? {
      QueryGetsCloser(s, step.picked, t, u);
    } else if step.TakeBlob? {
      TakeBlobGetsCloser(s, step.id, t, u);
    } else {
      LocalStepGetsCloser(s, step, t, u);
    }
  }

  // ---------- Somebody can always take a step ----------

  lemma WorkerCanMove(s: G, u: bool) returns (step: GcNotification.Step, t: G)
    requires Inv(s, u) && s.task.running && (s.pc == NotRunning || s.pc == Over)
    ensures Internal(step) && GcNotification.Next(s, step, t, u)
  {
    W.WorkerProgresses(s.task, W.NextStep(s.task), false);
    var move := W.NextStep(s.task);
    if Last(s).Working? {
      move := W.EndJob(|s.task.workers| - 1, Last(s).shelf || Last(s).job == InitJob);
    }
    W.OnlyLast(s.task, move);
    step := Worker(move);
    t := WorkerMoves(s, move);
  }

  /** Unless everything is quiet, a thread, the worker or the running step of the collector can move. */
  lemma SomebodyCanMove(s: G, u: bool) returns (step: GcNotification.Step, t: G)
    requires Inv(s, u) && !Quiet(s)
    ensures Internal(step) && GcNotification.Next(s, step, t, u)
  {
    if s.notifying > 0 {
      step := Exchange;
      t := if s.notified then s.(notifying := s.notifying - 1)
           else s.(notifying := s.notifying - 1, notified := true, winners := s.winners + 1);
    } else if s.winners > 0 {
      step := QueueStep;
      t := s.(winners := s.winners - 1, task := W.Enqueue(s.task, W.Lo, StepJob));
    } else {
      match s.pc
      case Entered => step := ClearFlag; t := s.(pc := FlagCleared, notified := false);
      case FlagCleared => step := CheckBoot; t := s.(pc := if s.boot then BootChecked else Over);
      case BootChecked => step, t := QueryCanRun(s, u);
      case Queried => step, t := BlobCanBeTaken(s, u);
      case Handled =>
        step := Reschedule;
        t := if s.gc.deleted != [] && !s.notified then s.(pc := Exchanged, notified := true) else s.(pc := Over);
      case Exchanged => step := Requeue; t := s.(pc := Over, task := W.Enqueue(s.task, W.Lo, StepJob));
      case Over => step, t := WorkerCanMove(s, u);
      case NotRunning => step, t := WorkerCanMove(s, u);
    }
  }

  lemma QueryCanRun(s: G, u: bool) returns (step: GcNotification.Step, t: G)
    requires Inv(s, u) && s.pc == BootChecked
    ensures Internal(step) && GcNotification.Next(s, step, t, u)
  {
    if s.gc.superseded != [] {
      step := SkipQuery;
      t := s.(pc := Queried);
    } else {
      var swept := Swept(s.gc.db, s.gc.deleted);
      var picked := SomeSelection(OutOfDateKeyBlobs(swept, u), MAX_BLOBS);
      assert ValidSelection(swept, u, picked);
      step := Query(picked);
      t := s.(pc := Queried, failed := false,
              gc := Sys(Collected(s.gc.db, u, s.gc.deleted, picked), [], LoadSuperseded(swept, picked)));
    }
  }

  lemma BlobCanBeTaken(s: G, u: bool) returns (step: GcNotification.Step, t: G)
    requires Inv(s, u) && s.pc == Queried
    ensures Internal(step) && GcNotification.Next(s, step, t, u)
  {
    if s.gc.superseded == [] {
      step := NoBlob;
      t := s.(pc := Handled);
    } else {
      var n := |s.gc.superseded| - 1;
      var id := s.gc.superseded[n].id;
      step := TakeBlob(id);
      t := s.(pc := Handled, gc := Sys(s.gc.db, s.gc.deleted + [id], s.gc.superseded[..n]));
    }
  }

  // ---------- Rest ----------

  /** Internal steps only, from some state of a run on. */
  ghost predicate InternalRun(states: seq<G>, steps: seq<GcNotification.Step>, u: bool) {
    && |states| == |steps| + 1 && Inv(states[0], u)
    && forall i {:trigger steps[i]} :: 0 <= i < |steps| ==> Internal(steps[i]) && GcNotification.Next(states[i], steps[i], states[i + 1], u)
  }

  /** Somebody will look at the database, or the last look at it succeeded. */
  predicate Attended(s: G) {
    s.boot && (Awake(s) || !s.failed)
  }

  lemma LocalStepAttends(s: G, step: GcNotification.Step, t: G, u: bool)
    requires Inv(s, u) && GcNotification.Next(s, step, t, u) && Internal(step) && !step.Worker? && Attended(s)
    ensures Attended(t)
  {
    if step.QueueStep? || step.Requeue? {
      EnqueueKeepsReady(s, W.Lo, StepJob);
    }
  }

  lemma WorkerAttends(s: G, step: W.Step<Job, bool>, t: G, u: bool)
    requires Inv(s, u) && GcNotification.Next(s, Worker(step), t, u) && Attended(s)
    ensures Attended(t)
  {
    if step.Pop? {
      PopKeepsReady(s, step.w, t, u);
    } else if step.EndJob? {
      EndJobKeepsReady(s, step.w, step.left, t, u);
    } else {
      OtherWorkKeepsReady(s, step, t, u);
    }
  }

  lemma InternalStep(s: G, step: GcNotification.Step, t: G, u: bool)
    requires Inv(s, u) && GcNotification.Next(s, step, t, u) && Internal(step)
    ensures Inv(t, u) && Left(t) < Left(s) && (Attended(s) ==> Attended(t))
  {
    InternalStepGetsCloser(s, step, t, u);
    GcNotification.StepKeepsInv(s, step, t, u);
    if Attended(s) {
      if step.Worker? { WorkerAttends(s, step.step, t, u); } else { LocalStepAttends(s, step, t, u); }
    }
  }

  lemma {:induction false} InternalPrefix(states: seq<G>, steps: seq<GcNotification.Step>, u: bool, n: nat)
    requires InternalRun(states, steps, u) && n < |states|
    ensures Inv(states[n], u) && Left(states[n]) + n <= Left(states[0])
    ensures Attended(states[0]) ==> Attended(states[n])
  {
    if n > 0 {
      InternalPrefix(states, steps, u, n - 1);
      InternalStep(states[n - 1], steps[n - 1], states[n], u);
    }
  }

  /** No internal step is possible. */
  ghost predicate Stuck(s: G, u: bool) {
    forall step: GcNotification.Step, t: G :: Internal(step) ==> !GcNotification.Next(s, step, t, u)
  }

  /**
   * From every state that is reached, any run of internal steps is bounded in length. After boot, if
   * it starts with somebody awake, or without a failure that nobody has followed up, and has gone as
   * far as it can, then everything is quiet and nothing is left to collect.
   */
  lemma CollectorComesToRest(states: seq<G>, steps: seq<GcNotification.Step>, u: bool)
    requires InternalRun(states, steps, u)
    ensures |steps| <= Left(states[0])
    ensures var last := states[|steps|]; Stuck(last, u) && Attended(states[0]) ==> Quiet(last) && Drained(last.gc.db, u)
  {
    var last := states[|steps|];
    InternalPrefix(states, steps, u, |steps|);
    if !Quiet(last) {
      var step, t := SomebodyCanMove(last, u);
    } else {
      assert Scheduled(last) == 0;
    }
  }

  /** A commit that asks for a collection after boot is served, whatever failed before it. */
  lemma RequestIsServed(s: G, tx: Tx, states: seq<G>, steps: seq<GcNotification.Step>, u: bool)
    requires |states| == |steps| + 1 && Inv(s, u) && s.boot
    requires GcNotification.Next(s, ClientCommits(tx), states[0], u) && Exec(s.gc.db, tx).needGc
    requires forall i {:trigger steps[i]} :: 0 <= i < |steps| ==> Internal(steps[i]) && GcNotification.Next(states[i], steps[i], states[i + 1], u)
    ensures |steps| <= Left(states[0]) && (Stuck(states[|steps|], u) ==> Quiet(states[|steps|]) && Drained(states[|steps|].gc.db, u))
  {
    GcNotification.StepKeepsInv(s, ClientCommits(tx), states[0], u);
    CollectorComesToRest(states, steps, u);
  }
}
