/** A batch job: its loop starts one task per target under a semaphore, each task updates two
    counters in two atomic steps, and anyone may cancel the job at any time. */
module BatchJob {
  import opened Counting
  import opened Runs

  datatype Status = Pending | Running | Completed | Failed | Cancelled

  predicate IsTerminal(st: Status) { st.Completed? || st.Failed? || st.Cancelled? }

  // Where the goroutine of executeJob stands.
  datatype Loop = NotStarted | Spawning | Waiting | Abandoned | Ended

  // A target's task: not started, running, counted as success or failure, also taken off pending, without
  // its semaphore slot, finished.
  datatype Task = Idle | InTask | Counted | Settled | Freed | Finished

  datatype State = State(
    total: nat,
    maxConcurrency: nat,
    status: Status,
    success: int,
    failed: int,
    pending: int,
    loop: Loop,
    next: nat,                // targets the loop has dealt with
    ctxDone: bool,
    tasks: seq<Task>,
    outcomes: seq<seq<bool>>) // ghost: the outcomes each target's task has run to, true for success

  datatype Event =
    | Start                   // executeJob sets Running, whatever the status was
    | Spawn                   // the loop gets a semaphore slot and starts the next task
    | SeesDone                // the loop sees its context done: Cancelled, and no waiting
    | LoopOver                // all targets started
    | Count(i: nat, ok: bool) // the task adds one to success or to failed
    | TakeOff(i: nat)         // and takes one off pending
    | Free(i: nat)            // gives its semaphore slot back
    | Finish(i: nat)          // the wait group is done with it
    | AllDone                 // wg.Wait returns and the final status is set
    | Finalize                // the same final step after the loop was abandoned
    | Timeout                 // the job's context expires or the executor stops
    | CancelJob

  predicate HoldsSlot(t: Task) { t.InTask? || t.Counted? || t.Settled? }
  predicate IsBetween(t: Task) { t.Counted? }
  predicate IsCounted(t: Task) { t.Counted? || IsOffPending(t) }
  predicate IsOffPending(t: Task) { t.Settled? || t.Freed? || t.Finished? }

  predicate HasWon(o: seq<bool>) { o == [true] }
  predicate HasLost(o: seq<bool>) { o == [false] }

  // Tasks that hold a semaphore slot.
  function InUse(s: State): nat { CountOf(s.tasks, HoldsSlot) }

  predicate AllFinished(tasks: seq<Task>) { forall i :: 0 <= i < |tasks| ==> tasks[i].Finished? }

  // The status at the end of executeJob.
  function FinalStatus(s: State): Status
  {
    if s.status.Running? then
      if s.failed == 0 then Completed
      else if s.success == 0 then Failed
      else Completed
    else s.status
  }

  function SetTask(s: State, i: nat, t: Task): State
    requires i < |s.tasks|
  {
    s.(tasks := s.tasks[i := t])
  }

  function Step(s: State, e: Event): State
  {
    match e
    case Start => if s.loop.NotStarted? then s.(status := Running, loop := Spawning) else s
    case Spawn =>
      if s.loop.Spawning? && s.next < |s.tasks| && InUse(s) < s.maxConcurrency
      then SetTask(s, s.next, InTask).(next := s.next + 1) else s
    case SeesDone =>
      if s.loop.Spawning? && s.next < |s.tasks| && s.ctxDone then s.(status := Cancelled, loop := Abandoned) else s
    case LoopOver => if s.loop.Spawning? && s.next == |s.tasks| then s.(loop := Waiting) else s
    case Count(i, ok) =>
      if i < |s.tasks| && i < |s.outcomes| && s.tasks[i].InTask? then
        var t := SetTask(s, i, Counted).(outcomes := s.outcomes[i := s.outcomes[i] + [ok]]);
        if ok then t.(success := s.success + 1) else t.(failed := s.failed + 1)
      else s
    case TakeOff(i) =>
      if i < |s.tasks| && s.tasks[i].Counted? then SetTask(s, i, Settled).(pending := s.pending - 1) else s
    case Free(i) => if i < |s.tasks| && s.tasks[i].Settled? then SetTask(s, i, Freed) else s
    case Finish(i) => if i < |s.tasks| && s.tasks[i].Freed? then SetTask(s, i, Finished) else s
    case AllDone =>
      if s.loop.Waiting? && AllFinished(s.tasks) then s.(status := FinalStatus(s), loop := Ended) else s
    case Finalize => if s.loop.Abandoned? then s.(status := FinalStatus(s), loop := Ended) else s
    case Timeout => s.(ctxDone := true)
    case CancelJob => if s.status.Pending? || s.status.Running? then s.(status := Cancelled) else s
  }

  // Execute: a job for at least one target.
  function NewJob(total: nat, maxConcurrency: nat): State
  {
    State(total, maxConcurrency, Pending, 0, 0, total, NotStarted, 0, false,
          seq(total, _ => Idle), seq(total, _ => []))
  }

  // ---------- the invariant ----------

  ghost predicate CountsOk(s: State)
  {
    && s.success >= 0 && s.failed >= 0
    && s.success + s.failed == CountOf(s.tasks, IsCounted)
    && s.pending == s.total - CountOf(s.tasks, IsOffPending)
    && CountOf(s.tasks, IsCounted) == CountOf(s.tasks, IsOffPending) + CountOf(s.tasks, IsBetween)
    && InUse(s) <= s.maxConcurrency
  }

  ghost predicate WinsOk(s: State)
  {
    s.success == CountOf(s.outcomes, HasWon) && s.failed == CountOf(s.outcomes, HasLost)
  }

  ghost predicate TasksOk(s: State)
  {
    && |s.tasks| == |s.outcomes| == s.total
    && s.next <= s.total
    && (forall i :: 0 <= i < s.total ==> (s.tasks[i].Idle? <==> i >= s.next))
    && (forall i :: 0 <= i < s.total ==> |s.outcomes[i]| == if IsCounted(s.tasks[i]) then 1 else 0)
  }

  ghost predicate LoopOk(s: State)
  {
    && (s.loop.NotStarted? ==> s.next == 0 && !s.status.Running? && !s.status.Completed? && !s.status.Failed?)
    && (s.loop.Spawning? ==> s.status.Running? || s.status.Cancelled?)
    && (s.loop.Waiting? ==> (s.status.Running? || s.status.Cancelled?) && s.next == s.total)
    && (s.loop.Abandoned? ==> s.status.Cancelled?)
    && (s.loop.Ended? ==> IsTerminal(s.status))
    && (s.status.Completed? || s.status.Failed? ==>
          && s.loop.Ended? && AllFinished(s.tasks)
          && (s.status.Failed? <==> s.success == 0))
  }

  ghost predicate Inv(s: State) { s.total >= 1 && CountsOk(s) && WinsOk(s) && TasksOk(s) && LoopOk(s) }

  lemma SetTaskCounts(s: State, i: nat, t: Task)
    requires i < |s.tasks|
    ensures CountOf(SetTask(s, i, t).tasks, IsCounted)
      == CountOf(s.tasks, IsCounted) - (if IsCounted(s.tasks[i]) then 1 else 0) + (if IsCounted(t) then 1 else 0)
    ensures CountOf(SetTask(s, i, t).tasks, IsOffPending)
      == CountOf(s.tasks, IsOffPending)
         - (if IsOffPending(s.tasks[i]) then 1 else 0) + (if IsOffPending(t) then 1 else 0)
    ensures CountOf(SetTask(s, i, t).tasks, IsBetween)
      == CountOf(s.tasks, IsBetween) - (if IsBetween(s.tasks[i]) then 1 else 0) + (if IsBetween(t) then 1 else 0)
    ensures CountOf(SetTask(s, i, t).tasks, HoldsSlot)
      == CountOf(s.tasks, HoldsSlot) - (if HoldsSlot(s.tasks[i]) then 1 else 0) + (if HoldsSlot(t) then 1 else 0)
  {
    CountUpdate(s.tasks, IsCounted, i, t);
    CountUpdate(s.tasks, IsOffPending, i, t);
    CountUpdate(s.tasks, IsBetween, i, t);
    CountUpdate(s.tasks, HoldsSlot, i, t);
  }

  // The target whose task an event changes, and what it becomes.
  function Touched(s: State, e: Event): nat
  {
    if e.Spawn? then s.next else if e.Count? || e.TakeOff? || e.Free? || e.Finish? then e.i else 0
  }

  function Becomes(e: Event): Task
  {
    if e.Spawn? then InTask
    else if e.Count? then Counted
    else if e.TakeOff? then Settled
    else if e.Free? then Freed
    else Finished
  }

  lemma StepKeepsCounts(s: State, e: Event)
    requires CountsOk(s) && TasksOk(s)
    ensures CountsOk(Step(s, e))
  {
    var k := Touched(s, e);
    if k < |s.tasks| { SetTaskCounts(s, k, Becomes(e)); }
    assert e.Spawn? && k < |s.tasks| ==> s.tasks[k].Idle?;
    hide CountOf, FinalStatus, AllFinished, TasksOk;
  }

  lemma StepKeepsWins(s: State, e: Event)
    requires WinsOk(s) && TasksOk(s)
    ensures WinsOk(Step(s, e))
  {
    if e.Count? && e.i < |s.outcomes| {
      CountUpdate(s.outcomes, HasWon, e.i, s.outcomes[e.i] + [e.ok]);
      CountUpdate(s.outcomes, HasLost, e.i, s.outcomes[e.i] + [e.ok]);
      assert s.tasks[e.i].InTask? ==> s.outcomes[e.i] == [];
    }
    hide CountOf, FinalStatus, AllFinished, TasksOk;
  }

  lemma StepKeepsTasks(s: State, e: Event)
    requires TasksOk(s)
    ensures TasksOk(Step(s, e))
  {
    hide CountOf, FinalStatus, AllFinished;
  }

  // When every task has finished, every target is counted.
  lemma FinishedCounts(s: State)
    requires CountsOk(s) && TasksOk(s) && AllFinished(s.tasks)
    ensures s.success + s.failed == s.total && s.pending == 0
  {
    CountAll(s.tasks, IsCounted);
    CountAll(s.tasks, IsOffPending);
  }

  lemma StepKeepsLoop(s: State, e: Event)
    requires Inv(s)
    ensures LoopOk(Step(s, e))
  {
    if e.AllDone? && s.loop.Waiting? && AllFinished(s.tasks) { FinishedCounts(s); }
    hide CountOf;
  }

  lemma StepKeepsInv(s: State, e: Event)
    requires Inv(s)
    ensures Inv(Step(s, e)) && Step(s, e).total == s.total && Step(s, e).maxConcurrency == s.maxConcurrency
  {
    StepKeepsCounts(s, e);
    StepKeepsWins(s, e);
    StepKeepsTasks(s, e);
    StepKeepsLoop(s, e);
    hide CountOf, CountsOk, WinsOk, TasksOk, LoopOk;
  }

  lemma NewJobOk(total: nat, maxConcurrency: nat)
    requires total >= 1
    ensures Inv(NewJob(total, maxConcurrency))
  {
    var s := NewJob(total, maxConcurrency);
    CountAll(s.tasks, IsCounted);
    CountAll(s.tasks, IsOffPending);
    CountAll(s.tasks, IsBetween);
    CountAll(s.tasks, HoldsSlot);
    CountAll(s.outcomes, HasWon);
    CountAll(s.outcomes, HasLost);
  }

  lemma {:induction false} AllRuns(total: nat, maxConcurrency: nat, es: seq<Event>)
    requires total >= 1
    ensures var s := Run(Step, NewJob(total, maxConcurrency), es);
      Inv(s) && s.total == total && s.maxConcurrency == maxConcurrency
  {
    var start := NewJob(total, maxConcurrency);
    var inv := (s: State) => Inv(s) && s.total == total && s.maxConcurrency == maxConcurrency;
    forall s, e | inv(s) ensures inv(Step(s, e)) { StepKeepsInv(s, e); }
    NewJobOk(total, maxConcurrency);
    Invariant(Step, inv, start, es);
  }

  // ---------- theorems over all interleavings ----------

  /** Success + Failed + Pending is Total plus the tasks between their two counter updates, and no more
      than MaxConcurrency tasks run at once. */
  lemma {:induction false} CountersAddUp(total: nat, maxConcurrency: nat, es: seq<Event>)
    requires total >= 1
    ensures var s := Run(Step, NewJob(total, maxConcurrency), es);
      && s.success + s.failed + s.pending == total + CountOf(s.tasks, IsBetween)
      && CountOf(s.tasks, HoldsSlot) <= maxConcurrency
  {
    AllRuns(total, maxConcurrency, es);
  }

  /** A job that ends Completed or Failed has run every target exactly once and has nothing pending;
      it is Failed exactly when nothing succeeded. */
  lemma {:induction false} EndedJobIsExact(total: nat, maxConcurrency: nat, es: seq<Event>)
    requires total >= 1
    requires var s := Run(Step, NewJob(total, maxConcurrency), es); s.status.Completed? || s.status.Failed?
    ensures var s := Run(Step, NewJob(total, maxConcurrency), es);
      && s.pending == 0 && s.success + s.failed == total
      && |s.outcomes| == total && (forall i :: 0 <= i < total ==> |s.outcomes[i]| == 1)
      && s.success == CountOf(s.outcomes, HasWon) && s.failed == CountOf(s.outcomes, HasLost)
      && (s.status.Failed? <==> s.success == 0)
  {
    AllRuns(total, maxConcurrency, es);
    var s := Run(Step, NewJob(total, maxConcurrency), es);
    FinishedCounts(s);
  }

  // Neither cancelled nor timed out.
  predicate Undisturbed(e: Event) { e != CancelJob && e != Timeout }

  // Without a disturbance the loop is never abandoned and the job Running until it ends.
  predicate RunsOn(s: State)
  {
    && !s.ctxDone && !s.loop.Abandoned? && !s.status.Cancelled?
    && (s.loop.Spawning? || s.loop.Waiting? ==> s.status.Running?)
  }

  lemma StepRunsOn(s: State, e: Event)
    requires RunsOn(s) && Undisturbed(e)
    ensures RunsOn(Step(s, e))
  {
    hide CountOf;
  }

  lemma {:induction false} UndisturbedRunsOn(total: nat, maxConcurrency: nat, es: seq<Event>)
    requires forall e <- es :: Undisturbed(e)
    ensures RunsOn(Run(Step, NewJob(total, maxConcurrency), es))
  {
    if es != [] {
      assert es[|es| - 1] in es;
      UndisturbedRunsOn(total, maxConcurrency, es[..|es| - 1]);
      StepRunsOn(Run(Step, NewJob(total, maxConcurrency), es[..|es| - 1]), es[|es| - 1]);
    }
  }

  /** A job that is neither cancelled nor timed out ends Completed if any target succeeded and Failed if none
      did, with every target run once. */
  lemma {:induction false} UndisturbedEnd(total: nat, maxConcurrency: nat, es: seq<Event>)
    requires total >= 1 && forall e <- es :: Undisturbed(e)
    requires Run(Step, NewJob(total, maxConcurrency), es).loop.Ended?
    ensures var s := Run(Step, NewJob(total, maxConcurrency), es);
      && s.status == (if exists i :: 0 <= i < |s.outcomes| && s.outcomes[i] == [true] then Completed else Failed)
      && s.success + s.failed == total && s.pending == 0
  {
    UndisturbedRunsOn(total, maxConcurrency, es);
    AllRuns(total, maxConcurrency, es);
    EndedJobIsExact(total, maxConcurrency, es);
    var s := Run(Step, NewJob(total, maxConcurrency), es);
    CountAll(s.outcomes, HasWon);
    if i :| 0 <= i < |s.outcomes| && s.outcomes[i] == [true] { CountUpdate(s.outcomes, HasWon, i, []); }
  }

  /** Cancelling a job that is pending or running makes it Cancelled, and any other keeps its status. */
  lemma {:induction false} CancelTakesEffect(total: nat, maxConcurrency: nat, es: seq<Event>)
    ensures var s := Run(Step, NewJob(total, maxConcurrency), es);
      var t := Run(Step, NewJob(total, maxConcurrency), es + [CancelJob]);
      && t.status == (if s.status.Pending? || s.status.Running? then Cancelled else s.status)
      && t == s.(status := t.status)
  {
    RunSnoc(Step, NewJob(total, maxConcurrency), es, CancelJob);
  }

  ghost predicate Frozen(st: Status, s: State) { Inv(s) && !s.loop.NotStarted? && s.status == st }

  /** Once executeJob has set Running, a terminal status never changes again. */
  lemma {:induction false} TerminalStays(total: nat, maxConcurrency: nat, es: seq<Event>, later: seq<Event>)
    requires total >= 1
    requires var s := Run(Step, NewJob(total, maxConcurrency), es); IsTerminal(s.status) && !s.loop.NotStarted?
    ensures var start := NewJob(total, maxConcurrency);
      Run(Step, start, es + later).status == Run(Step, start, es).status
  {
    var start := NewJob(total, maxConcurrency);
    AllRuns(total, maxConcurrency, es);
    RunConcat(Step, start, es, later);
    var st := Run(Step, start, es).status;
    forall s, e | Frozen(st, s) ensures Frozen(st, Step(s, e)) {
      StepKeepsInv(s, e);
      StatusStays(s, e);
    }
    Invariant(Step, s => Frozen(st, s), Run(Step, start, es), later);
  }

  lemma StatusStays(s: State, e: Event)
    requires Inv(s) && !s.loop.NotStarted? && IsTerminal(s.status)
    ensures Step(s, e).status == s.status && !Step(s, e).loop.NotStarted?
  {
    hide CountOf, CountsOk, TasksOk;
  }

  /** Before that it does: exactly the start of executeJob undoes a cancellation of a pending job. */
  lemma {:induction false} PendingCancelIsUndone(total: nat, maxConcurrency: nat, es: seq<Event>, e: Event)
    requires total >= 1
    requires Run(Step, NewJob(total, maxConcurrency), es).status.Cancelled?
    ensures !Run(Step, NewJob(total, maxConcurrency), es + [e]).status.Cancelled?
      <==> e.Start? && Run(Step, NewJob(total, maxConcurrency), es).loop.NotStarted?
  {
    AllRuns(total, maxConcurrency, es);
    RunSnoc(Step, NewJob(total, maxConcurrency), es, e);
    var s := Run(Step, NewJob(total, maxConcurrency), es);
    if !s.loop.NotStarted? { StatusStays(s, e); }
  }

  // ---------- the job object and one task ----------

  // What one attempt of a task meets, and what the retry loop makes of it.
  datatype Reply =
    | SendError(err: string)
    | ContextDone(err: string)
    | PromiseError(err: string)
    | Ack(success: bool, error: string)
    | EmptyResponse
    | NoResponse                  // the task timeout

  // After which replies another attempt is made.
  predicate Retried(r: Reply)
  {
    r.SendError? || r.PromiseError? || r.NoResponse? || (r.Ack? && !r.success && r.error != "")
  }

  function ErrorOf(r: Reply): string
  {
    match r
    case SendError(err) => err
    case ContextDone(err) => err
    case PromiseError(err) => err
    case Ack(_, error) => error
    case EmptyResponse => ""
    case NoResponse => "timeout waiting for response"
  }

  class Job {
    var status: Status
    var successCount: int
    var failedCount: int
    var pendingCount: int
    ghost var st: State

    ghost predicate Valid() reads this
    {
      status == st.status && successCount == st.success && failedCount == st.failed && pendingCount == st.pending
    }

    constructor (total: nat, ghost maxConcurrency: nat)
      ensures Valid() && st == NewJob(total, maxConcurrency)
    {
      status, successCount, failedCount, pendingCount := Pending, 0, 0, total;
      st := NewJob(total, maxConcurrency);
    }

    // The start of executeJob.
    method Begin()
      requires Valid() && st.loop.NotStarted?
      modifies this
      ensures Valid() && st == Step(old(st), Start) && status == Running
    {
      status := Running;
      st := Step(st, Start);
    }

    // The loop that finds its context done: Cancelled, whatever the status was.
    method Abandon()
      requires Valid() && st.loop.Spawning? && st.next < |st.tasks| && st.ctxDone
      modifies this
      ensures Valid() && st == Step(old(st), SeesDone) && status == Cancelled
    {
      status := Cancelled;
      st := Step(st, SeesDone);
    }

    // The final step of executeJob, after wg.Wait or after the loop was abandoned.
    method End(ghost e: Event)
      requires Valid() && Inv(st) && (e.AllDone? || e.Finalize?) && Step(st, e).loop.Ended? && !st.loop.Ended?
      modifies this
      ensures Valid() && st == Step(old(st), e)
      ensures status == if !old(status).Running? then old(status)
                        else if failedCount == 0 || successCount > 0 then Completed
                        else Failed
    {
      if status.Running? {
        if failedCount == 0 {
          status := Completed;
        } else if successCount == 0 {
          status := Failed;
        } else {
          status := Completed;
        }
      }
      st := Step(st, e);
    }

    method Cancel() returns (done: bool)
      requires Valid()
      modifies this
      ensures Valid() && st == Step(old(st), CancelJob)
      ensures done <==> old(status) == Pending || old(status) == Running
      ensures status == if done then Cancelled else old(status)
    {
      done := status.Pending? || status.Running?;
      if done { status := Cancelled; }
      st := Step(st, CancelJob);
    }

    /** executeTask for target i moves it from pending to exactly one of the other counters, by the outcome of
        its attempts. */
    method ExecuteTask(ghost i: nat, replies: nat -> Reply, interrupted: nat -> bool, ctxErr: string, maxRetries: nat)
      returns (ok: bool, retryCount: nat, lastErr: string)
      requires Valid() && i < |st.tasks| && i < |st.outcomes| && st.tasks[i].InTask?
      modifies this
      ensures Valid() && st == Step(Step(old(st), Count(i, ok)), TakeOff(i))
      ensures successCount == old(successCount) + (if ok then 1 else 0)
      ensures failedCount == old(failedCount) + (if ok then 0 else 1)
      ensures pendingCount == old(pendingCount) - 1
      ensures StopsAt(replies, interrupted, ctxErr, maxRetries, ok, retryCount, lastErr)
    {
      ok, retryCount, lastErr := Attempts(replies, interrupted, ctxErr, maxRetries);
      hide CountOf, FinalStatus, AllFinished, StopsAt;
      if ok { successCount := successCount + 1; } else { failedCount := failedCount + 1; }
      st := Step(st, Count(i, ok));
      pendingCount := pendingCount - 1;
      st := Step(st, TakeOff(i));
    }
  }

  // Where the retry loop stops, and with what. Every attempt before asked for a retry, and no wait between
  // them was interrupted. An attempt succeeds with an acknowledgement that is a success or has no error text,
  // and with an empty response; otherwise its own error is the result, or that of the interrupted wait after it.
  ghost predicate StopsAt(replies: nat -> Reply, interrupted: nat -> bool, ctxErr: string, maxRetries: nat,
      ok: bool, retryCount: nat, lastErr: string)
  {
    var last := replies(retryCount);
    && retryCount <= maxRetries
    && (forall j :: 0 <= j < retryCount ==> Retried(replies(j)))
    && (forall j :: 1 <= j <= retryCount ==> !interrupted(j))
    && (ok <==> last == EmptyResponse || (last.Ack? && (last.success || last.error == "")))
    && (!ok && Retried(last) && retryCount < maxRetries ==> interrupted(retryCount + 1) && lastErr == ctxErr)
    && (!ok && !(Retried(last) && retryCount < maxRetries) ==>
          match last
          case SendError(err) => lastErr == err
          case ContextDone(err) => lastErr == err
          case PromiseError(err) => lastErr == err
          case Ack(_, error) => lastErr == error
          case EmptyResponse => false
          case NoResponse => lastErr == "timeout waiting for response")
  }

  // The retry loop.
  method Attempts(replies: nat -> Reply, interrupted: nat -> bool, ctxErr: string, maxRetries: nat)
    returns (ok: bool, retryCount: nat, lastErr: string)
    ensures StopsAt(replies, interrupted, ctxErr, maxRetries, ok, retryCount, lastErr)
  {
    ok, retryCount, lastErr := false, 0, "";
    var retry := 0;
    while retry <= maxRetries
      invariant retry <= maxRetries + 1 && !ok
      invariant forall j :: 0 <= j < retry ==> Retried(replies(j))
      invariant forall j :: 1 <= j < retry ==> !interrupted(j)
      invariant retry > 0 ==> retryCount == retry - 1 && lastErr == ErrorOf(replies(retryCount))
    {
      if retry > 0 && interrupted(retry) {
        lastErr := ctxErr;
        break;
      }
      retryCount := retry;
      match replies(retry) {
        case SendError(err) => lastErr := err;
        case ContextDone(err) =>
          lastErr := err;
          break;
        case PromiseError(err) => lastErr := err;
        case Ack(success, error) =>
          if !success && error != "" {
            lastErr := error;
          } else {
            ok := true;
            break;
          }
        case EmptyResponse =>
          ok := true;
          break;
        case NoResponse => lastErr := "timeout waiting for response";
      }
      retry := retry + 1;
    }
  }
}
