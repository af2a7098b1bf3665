/** A multicast command: one sender goroutine per client, a shared context that may be cancelled at
    any moment, and a main goroutine that, once it sees the cancellation, overwrites the cancelled
    counter and reports without waiting for the senders it has started. */
module Multicast {
  import opened Basics
  import opened Counting
  import opened Runs

  type ClientId = string

  datatype Status = Pending | Executing | Completed | Failed | Timeout | Cancelled

  datatype Result = Result(client: ClientId, status: Status)

  // How a sender's command ends: it could not be sent; it was found in the table with a status, terminal or
  // not; it was not found before the sender gave up waiting.
  datatype Ending = SendError | Found(status: Status) | NotFound

  // Not started; before its own cancellation check; waiting for the command; Completed but not counted
  // yet; about to store its result; finished with a status; finished by the cancellation check.
  datatype Sender = Idle | Begun | Sending | ToCount | ToWrite(status: Status) | Done(status: Status) | Early

  // The main goroutine, up to the four reads of the counters that make its report.
  datatype Main = Looping | Filling | Overwriting | Reporting | ReadOne | ReadTwo | ReadThree | Reported

  datatype State = State(
    clients: seq<ClientId>,
    ctxDone: bool,
    main: Main,
    next: nat,                      // senders started so far
    senders: seq<Sender>,
    results: seq<Option<Result>>,
    successCount: int,
    cancelledCount: int,
    waited: bool,                   // ghost: main reported after wg.Wait
    seenSuccess: int,               // first read of successCount
    failedCount: int,               // total - seenSuccess - cancelledCount as read next
    seenCancelled: int,             // ghost: cancelledCount in that computation
    reportedSuccess: int,           // the counters read again for the response
    reportedCancelled: int)

  datatype Event =
    | CancelTask
    | LoopTurn                      // check the context, start the next sender or give up
    | Fill                          // mark the clients not started as cancelled
    | Overwrite
    | WaitAll
    | ReadSuccess
    | ReadCancelled
    | ReportSuccess
    | ReportCancelled
    | SenderChecks(k: nat)
    | SenderEnds(k: nat, ending: Ending)
    | SenderCounts(k: nat)
    | SenderWrites(k: nat)

  function Total(s: State): nat { |s.clients| }

  predicate HasSender(s: State, k: nat) { k < |s.senders| && k < |s.results| && k < |s.clients| }

  function Put(s: State, k: nat, p: Sender): State
    requires k < |s.senders|
  {
    s.(senders := s.senders[k := p])
  }

  function Write(s: State, k: nat, status: Status): State
    requires HasSender(s, k)
  {
    s.(results := s.results[k := Some(Result(s.clients[k], status))])
  }

  // What a sender does next: a cancellation hides every ending but a failed send.
  function After(ending: Ending, cancelled: bool): Sender
  {
    match ending
    case SendError => ToWrite(Failed)
    case Found(status) =>
      if cancelled then ToWrite(Cancelled) else if status.Completed? then ToCount else ToWrite(status)
    case NotFound => ToWrite(if cancelled then Cancelled else Timeout)
  }

  predicate AllDone(s: State) { forall k :: 0 <= k < |s.senders| ==> s.senders[k].Done? || s.senders[k].Early? }

  function Step(s: State, e: Event): State
  {
    match e
    case CancelTask => s.(ctxDone := true)
    case LoopTurn =>
      if s.main.Looping? && s.next < Total(s) && s.next < |s.senders| then
        if s.ctxDone then s.(main := Filling) else Put(s, s.next, Begun).(next := s.next + 1)
      else s
    case Fill =>
      if s.main.Filling? && |s.results| == Total(s) then
        s.(main := Overwriting,
           results := seq(|s.results|, j requires 0 <= j < |s.results| && |s.results| == |s.clients| =>
                        if j >= s.next then Some(Result(s.clients[j], Cancelled)) else s.results[j]))
      else s
    case Overwrite =>
      if s.main.Overwriting? then s.(main := Reporting, cancelledCount := Total(s) - s.next) else s
    case WaitAll =>
      if s.main.Looping? && s.next == Total(s) && AllDone(s) then s.(main := Reporting, waited := true) else s
    case ReadSuccess => if s.main.Reporting? then s.(main := ReadOne, seenSuccess := s.successCount) else s
    case ReadCancelled =>
      if s.main.ReadOne? then
        s.(main := ReadTwo,
           failedCount := Total(s) - s.seenSuccess - s.cancelledCount,
           seenCancelled := s.cancelledCount)
      else s
    case ReportSuccess => if s.main.ReadTwo? then s.(main := ReadThree, reportedSuccess := s.successCount) else s
    case ReportCancelled => if s.main.ReadThree? then s.(main := Reported, reportedCancelled := s.cancelledCount) else s
    case SenderChecks(k) =>
      if HasSender(s, k) && s.senders[k].Begun? then
        if s.ctxDone then Put(Write(s, k, Cancelled), k, Early).(cancelledCount := s.cancelledCount + 1)
        else Put(s, k, Sending)
      else s
    case SenderEnds(k, ending) =>
      if HasSender(s, k) && s.senders[k].Sending? then Put(s, k, After(ending, s.ctxDone)) else s
    case SenderCounts(k) =>
      if HasSender(s, k) && s.senders[k].ToCount?
      then Put(s, k, ToWrite(Completed)).(successCount := s.successCount + 1) else s
    case SenderWrites(k) =>
      if HasSender(s, k) && s.senders[k].ToWrite?
      then Put(Write(s, k, s.senders[k].status), k, Done(s.senders[k].status)) else s
  }

  function Begin(clients: seq<ClientId>): State
  {
    State(clients, false, Looping, 0, seq(|clients|, _ => Idle), seq(|clients|, _ => None), 0, 0, false, 0, 0, 0, 0, 0)
  }

  // ---------- invariants ----------

  predicate CountedSuccess(p: Sender) { (p.ToWrite? || p.Done?) && p.status.Completed? }
  predicate CountedCancel(p: Sender) { p.Early? }

  predicate Overwritten(s: State) { !s.main.Looping? && !s.main.Filling? && !s.main.Overwriting? && !s.waited }

  ghost predicate ShapeOk(s: State)
  {
    && |s.senders| == |s.results| == Total(s) && s.next <= Total(s)
    && (forall k :: 0 <= k < Total(s) ==> (s.senders[k].Idle? <==> k >= s.next))
    && (s.waited ==> s.next == Total(s) && AllDone(s) && !s.main.Looping? && !s.main.Filling? && !s.main.Overwriting?)
    && (s.main.Filling? || s.main.Overwriting? || Overwritten(s) ==> s.next < Total(s))
  }

  ghost predicate CountsOk(s: State)
  {
    && s.successCount == CountOf(s.senders, CountedSuccess)
    && (if Overwritten(s)
        then Total(s) - s.next <= s.cancelledCount <= Total(s) - s.next + CountOf(s.senders, CountedCancel)
        else s.cancelledCount == CountOf(s.senders, CountedCancel))
  }

  predicate PastOne(s: State) { s.main.ReadOne? || s.main.ReadTwo? || s.main.ReadThree? || s.main.Reported? }
  predicate PastTwo(s: State) { s.main.ReadTwo? || s.main.ReadThree? || s.main.Reported? }

  ghost predicate ReadsOk(s: State)
  {
    && (PastOne(s) ==> s.seenSuccess <= s.successCount && (s.waited ==> s.seenSuccess == s.successCount))
    && (PastTwo(s) ==> s.failedCount == Total(s) - s.seenSuccess - s.seenCancelled)
    && (PastTwo(s) ==> s.seenCancelled <= s.cancelledCount)
    && (s.main.ReadThree? || s.main.Reported? ==> s.seenSuccess <= s.reportedSuccess <= s.successCount)
    && (s.main.Reported? ==> s.seenCancelled <= s.reportedCancelled)
    && (PastTwo(s) ==> s.failedCount >= 0)
    && (PastTwo(s) && s.waited ==> s.failedCount == Total(s) - s.successCount - s.cancelledCount)
    && (s.main.ReadThree? || s.main.Reported? ==> s.waited ==> s.reportedSuccess == s.successCount)
    && (s.main.Reported? ==> s.waited ==> s.reportedCancelled == s.cancelledCount)
  }

  predicate ResultOk(s: State, k: nat)
  {
    HasSender(s, k) ==>
      && (s.senders[k].Done? ==> s.results[k] == Some(Result(s.clients[k], s.senders[k].status)))
      && (s.senders[k].Early? ==> s.results[k] == Some(Result(s.clients[k], Cancelled)))
  }

  ghost predicate ResultsOk(s: State) { forall k :: ResultOk(s, k) }

  ghost predicate Inv(s: State) { ShapeOk(s) && CountsOk(s) && ReadsOk(s) && ResultsOk(s) }

  /** The two counters never exceed the number of clients together. */
  lemma CountersBounded(s: State)
    requires ShapeOk(s) && CountsOk(s)
    ensures 0 <= s.successCount && 0 <= s.cancelledCount && s.successCount + s.cancelledCount <= Total(s)
  {
    CountDisjoint(s.senders, CountedSuccess, CountedCancel, s.next);
  }

  lemma StepKeepsShape(s: State, e: Event)
    requires ShapeOk(s)
    ensures ShapeOk(Step(s, e))
  {
  }

  // Which sender an event changes, and to what.
  function Changed(s: State, e: Event): nat
  {
    if e.LoopTurn? then s.next
    else if e.SenderChecks? || e.SenderEnds? || e.SenderCounts? || e.SenderWrites? then e.k
    else 0
  }

  lemma PutCounts(s: State, k: nat, p: Sender)
    requires k < |s.senders|
    ensures CountOf(s.senders[k := p], CountedSuccess)
      == CountOf(s.senders, CountedSuccess)
         - (if CountedSuccess(s.senders[k]) then 1 else 0) + (if CountedSuccess(p) then 1 else 0)
    ensures CountOf(s.senders[k := p], CountedCancel)
      == CountOf(s.senders, CountedCancel)
         - (if CountedCancel(s.senders[k]) then 1 else 0) + (if CountedCancel(p) then 1 else 0)
  {
    CountUpdate(s.senders, CountedSuccess, k, p);
    CountUpdate(s.senders, CountedCancel, k, p);
  }

  // What an event does to the senders and the counters.
  lemma SendersAndCounters(s: State, e: Event)
    requires ShapeOk(s)
    ensures var k, t := Changed(s, e), Step(s, e);
      && |t.senders| == |s.senders|
      && t.senders == (if k < |s.senders| then s.senders[k := t.senders[k]] else s.senders)
      && t.successCount - s.successCount
         == (if k < |s.senders| && CountedSuccess(t.senders[k]) && !CountedSuccess(s.senders[k]) then 1 else 0)
      && (k < |s.senders| && CountedSuccess(s.senders[k]) ==> CountedSuccess(t.senders[k]))
      && (k < |s.senders| && CountedCancel(s.senders[k]) ==> CountedCancel(t.senders[k]))
      && (e.Overwrite? || (t.cancelledCount - s.cancelledCount
         == if k < |s.senders| && CountedCancel(t.senders[k]) && !CountedCancel(s.senders[k]) then 1 else 0))
  {
    hide CountOf, AllDone;
  }

  lemma StepKeepsCounts(s: State, e: Event)
    requires ShapeOk(s) && CountsOk(s)
    ensures CountsOk(Step(s, e))
  {
    var k, t := Changed(s, e), Step(s, e);
    SendersAndCounters(s, e);
    if k < |s.senders| { PutCounts(s, k, t.senders[k]); }
    OverwrittenWhen(s, e);
    if e.Overwrite? {
      hide CountOf;
    } else {
      hide CountOf, Step, ShapeOk, CountedSuccess, CountedCancel;
    }
  }

  lemma OverwrittenWhen(s: State, e: Event)
    requires ShapeOk(s)
    ensures Overwritten(Step(s, e)) <==> Overwritten(s) || (e.Overwrite? && s.main.Overwriting?)
    ensures !(e.Overwrite? && s.main.Overwriting?) ==> e.LoopTurn? || Step(s, e).next == s.next
    ensures Overwritten(s) ==> Step(s, e).next == s.next
    ensures Step(s, e).clients == s.clients
  {
    hide AllDone;
  }

  lemma StepKeepsReads(s: State, e: Event)
    requires Inv(s)
    ensures ReadsOk(Step(s, e))
  {
    CountersBounded(s);
    hide CountOf, CountsOk, ResultsOk;
  }

  lemma StepKeepsResult(s: State, e: Event, k: nat)
    requires ShapeOk(s) && ResultOk(s, k)
    ensures ResultOk(Step(s, e), k)
  {
    hide AllDone;
  }

  lemma StepKeepsResults(s: State, e: Event)
    requires ShapeOk(s) && ResultsOk(s)
    ensures ResultsOk(Step(s, e))
  {
    hide Step, ResultOk, ShapeOk;
    forall k ensures ResultOk(Step(s, e), k) { StepKeepsResult(s, e, k); }
  }

  lemma StepKeepsClients(s: State, e: Event)
    ensures Step(s, e).clients == s.clients
  {
  }

  lemma StepKeepsInv(s: State, e: Event)
    requires Inv(s)
    ensures Inv(Step(s, e)) && Step(s, e).clients == s.clients
  {
    StepKeepsShape(s, e);
    StepKeepsCounts(s, e);
    StepKeepsReads(s, e);
    StepKeepsResults(s, e);
    StepKeepsClients(s, e);
    hide ShapeOk, CountsOk, ReadsOk, ResultsOk, Step;
  }

  lemma BeginOk(clients: seq<ClientId>)
    ensures Inv(Begin(clients))
  {
    CountAll(Begin(clients).senders, CountedSuccess);
    CountAll(Begin(clients).senders, CountedCancel);
  }

  lemma {:induction false} AllRuns(clients: seq<ClientId>, es: seq<Event>)
    ensures Inv(Run(Step, Begin(clients), es)) && Run(Step, Begin(clients), es).clients == clients
  {
    var inv := (s: State) => Inv(s) && s.clients == clients;
    forall s, e | inv(s) ensures inv(Step(s, e)) { StepKeepsInv(s, e); }
    BeginOk(clients);
    Invariant(Step, inv, Begin(clients), es);
  }

  // ---------- theorems over all interleavings ----------

  /** successCount + cancelledCount never exceeds the number of clients, so the failed count computed
      from two separate reads of them is never negative, even though the cancellation path overwrites
      earlier increments and does not wait. */
  lemma {:induction false} FailedNeverNegative(clients: seq<ClientId>, es: seq<Event>)
    ensures var s := Run(Step, Begin(clients), es);
      && s.successCount + s.cancelledCount <= |clients|
      && (PastTwo(s) ==> s.failedCount >= 0)
  {
    AllRuns(clients, es);
    CountersBounded(Run(Step, Begin(clients), es));
  }

  predicate IsCompleted(r: Option<Result>) { r.Some? && r.value.status.Completed? }

  // Every slot has a result of its own client, the successes are counted exactly, and the counts add up.
  ghost predicate ExactReport(s: State, clients: seq<ClientId>)
  {
    && |s.results| == |clients|
    && (forall k :: 0 <= k < |clients| ==> s.results[k].Some? && s.results[k].value.client == clients[k])
    && s.reportedSuccess == CountOf(s.results, IsCompleted)
    && Sum(s) == |clients|
  }

  /** When the main goroutine did wait, every slot holds the result of its own client, the success count
      is the number of Completed results, and the three reported counts add up to the total. */
  lemma {:induction false} WaitedReportIsExact(clients: seq<ClientId>, es: seq<Event>)
    requires Run(Step, Begin(clients), es).waited && Run(Step, Begin(clients), es).main.Reported?
    ensures ExactReport(Run(Step, Begin(clients), es), clients)
  {
    AllRuns(clients, es);
    var s := Run(Step, Begin(clients), es);
    forall k | 0 <= k < |clients| ensures s.results[k].Some? && s.results[k].value.client == clients[k]
      && (CountedSuccess(s.senders[k]) <==> IsCompleted(s.results[k])) {
      assert s.senders[k].Done? || s.senders[k].Early?;
      assert ResultOk(s, k);
    }
    CountSame(s.senders, CountedSuccess, s.results, IsCompleted);
  }

  function Sum(s: State): int { s.reportedSuccess + s.failedCount + s.reportedCancelled }

  predicate Uncancelled(s: State)
  {
    !s.ctxDone && !s.main.Filling? && !s.main.Overwriting? && (!s.main.Looping? ==> s.waited)
  }

  lemma StepKeepsUncancelled(s: State, e: Event)
    requires Uncancelled(s) && !e.CancelTask?
    ensures Uncancelled(Step(s, e))
  {
    hide AllDone;
  }

  lemma {:induction false} UncancelledWaits(clients: seq<ClientId>, es: seq<Event>)
    requires CancelTask !in es
    ensures Uncancelled(Run(Step, Begin(clients), es))
  {
    if es != [] {
      UncancelledWaits(clients, es[..|es| - 1]);
      assert es[|es| - 1] in es;
      StepKeepsUncancelled(Run(Step, Begin(clients), es[..|es| - 1]), es[|es| - 1]);
    }
  }

  /** In a run without a cancellation every report is such a one: slot k has the result of client k, the
      success count is the number of Completed results, none is cancelled, and the counts add up. */
  lemma {:induction false} UncancelledReportIsExact(clients: seq<ClientId>, es: seq<Event>)
    requires CancelTask !in es
    ensures var s := Run(Step, Begin(clients), es); s.main.Reported? ==> ExactReport(s, clients)
  {
    UncancelledWaits(clients, es);
    if Run(Step, Begin(clients), es).main.Reported? { WaitedReportIsExact(clients, es); }
  }

  /** A report never counts fewer results than there are clients. */
  lemma {:induction false} ReportNeverUndercounts(clients: seq<ClientId>, es: seq<Event>)
    ensures var s := Run(Step, Begin(clients), es); s.main.Reported? ==> Sum(s) >= |clients|
  {
    AllRuns(clients, es);
  }
}
