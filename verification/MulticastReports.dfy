/** When the three counts of a multicast report add up, and a run in which they do not. */
module MulticastReports {
  import opened Basics
  import opened Runs
  import opened Multicast

  ghost predicate AddsUp(clients: seq<ClientId>, es: seq<Event>)
  {
    Run(Step, Begin(clients), es).main.Reported? ==> Sum(Run(Step, Begin(clients), es)) == |clients|
  }

  // The counters are still what was read of them.
  predicate ReadsExact(s: State)
  {
    && (PastOne(s) ==> s.seenSuccess == s.successCount)
    && (PastTwo(s) ==> s.seenCancelled == s.cancelledCount)
    && (s.main.ReadThree? || s.main.Reported? ==> s.reportedSuccess == s.successCount)
    && (s.main.Reported? ==> s.reportedCancelled == s.cancelledCount)
  }

  // With one client there is no sender beside a report that did not wait.
  lemma StepKeepsReadsExact(s: State, e: Event)
    requires ShapeOk(s) && Total(s) <= 1 && ReadsExact(s)
    ensures ReadsExact(Step(s, e))
  {
  }

  lemma {:induction false} SmallReportsAreExact(clients: seq<ClientId>, es: seq<Event>)
    requires |clients| <= 1
    ensures AddsUp(clients, es)
  {
    var inv := (s: State) => Inv(s) && s.clients == clients && ReadsExact(s);
    BeginOk(clients);
    forall s, e | inv(s) ensures inv(Step(s, e)) { StepKeepsInv(s, e); StepKeepsReadsExact(s, e); }
    Invariant(Step, inv, Begin(clients), es);
  }

  /** The counts of every report, whatever the interleaving, add up to the total if and only if there is at
      most one client: with more, a cancelled report can be counted while senders still run. */
  lemma {:induction false} ReportsAddUpIff(clients: seq<ClientId>)
    ensures (forall es :: AddsUp(clients, es)) <==> |clients| <= 1
  {
    if |clients| <= 1 {
      forall es ensures AddsUp(clients, es) { SmallReportsAreExact(clients, es); }
    } else {
      AbandonedReportCanOvercount(clients);
      assert !AddsUp(clients, GivingUp() + Marking() + Reading());
    }
  }

  // The first sender's command completes, the task is cancelled, and the main goroutine gives up ...
  function GivingUp(): seq<Event> { [LoopTurn, SenderChecks(0), SenderEnds(0, Found(Completed)), CancelTask] }
  function Marking(): seq<Event> { [LoopTurn, Fill, Overwrite, ReadSuccess] }
  // ... and the first sender counts its success between the reads.
  function Reading(): seq<Event> { [ReadCancelled, SenderCounts(0), ReportSuccess, ReportCancelled] }

  // The state in which the first of the clients has completed and not been counted yet.
  function FirstCompleted(clients: seq<ClientId>): State
    requires |clients| >= 2
  {
    Begin(clients).(ctxDone := true, next := 1, senders := Begin(clients).senders[0 := ToCount])
  }

  lemma {:induction false} AbandonedReportCanOvercount(clients: seq<ClientId>)
    requires |clients| >= 2
    ensures var s := Run(Step, Begin(clients), GivingUp() + Marking() + Reading());
      s.main.Reported? && Sum(s) == |clients| + 1
  {
    var s0 := Begin(clients);
    RunFour(Step, s0, GivingUp());
    var s1 := FirstCompleted(clients);
    assert Run(Step, s0, GivingUp()) == s1 by { GivesUp(clients); }
    MarkingFrom(clients);
    ReadingFrom(Run(Step, s1, Marking()));
    hide Step, Run, Begin;
    RunConcat(Step, s0, GivingUp(), Marking());
    RunConcat(Step, s0, GivingUp() + Marking(), Reading());
  }

  lemma GivesUp(clients: seq<ClientId>)
    requires |clients| >= 2
    ensures Run(Step, Begin(clients), GivingUp()) == FirstCompleted(clients)
  {
    hide AllDone;
    var s0 := Begin(clients);
    RunFour(Step, s0, GivingUp());
    hide Run;
    var s1 := Step(s0, LoopTurn);
    assert s1 == s0.(next := 1, senders := s0.senders[0 := Begun]);
    var s2 := Step(s1, SenderChecks(0));
    assert s2 == s1.(senders := s0.senders[0 := Sending]);
    var s3 := Step(s2, SenderEnds(0, Found(Completed)));
    assert s3 == s2.(senders := s0.senders[0 := ToCount]);
  }

  lemma MarkingFrom(clients: seq<ClientId>)
    requires |clients| >= 2
    ensures var s, m := FirstCompleted(clients), Run(Step, FirstCompleted(clients), Marking());
      && |m.results| == |clients|
      && m == s.(main := ReadOne, results := m.results, cancelledCount := |clients| - 1)
  {
    var s := FirstCompleted(clients);
    RunFour(Step, s, Marking());
    hide AllDone, Run, Begin;
    var s1 := Step(s, LoopTurn);
    assert s1 == s.(main := Filling);
    var s2 := Step(s1, Fill);
    assert s2 == s1.(main := Overwriting, results := s2.results) && |s2.results| == |clients|;
    hide FirstCompleted;
  }

  lemma ReadingFrom(m: State)
    requires m.main.ReadOne? && |m.senders| == |m.results| == Total(m) >= 1 && m.senders[0].ToCount?
    requires m.successCount == 0 && m.seenSuccess == 0 && m.cancelledCount == Total(m) - 1
    ensures var t := Run(Step, m, Reading()); t.main.Reported? && Sum(t) == Total(m) + 1
  {
    hide AllDone;
    RunFour(Step, m, Reading());
  }
}
