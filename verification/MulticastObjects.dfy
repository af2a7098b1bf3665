/** The multicast call itself: the results slice, the counters and the wait group that the goroutines of
    Multicast share, as an object whose methods are steps of the machine. */
module MulticastObjects {
  import opened Basics
  import opened Counting
  import opened Multicast

  // A sender the wait group waits for.
  predicate Unfinished(p: Sender) { !p.Idle? && !p.Done? && !p.Early? }

  // One SendCommandToMultiple: the results slice, the counters and the wait group, shared by all its goroutines.
  class MultiCommand {
    const clientIds: seq<ClientId>
    const results: array<Option<Result>>
    var cancelled: bool
    var successCount: int
    var cancelledCount: int
    var wg: int
    ghost var st: State

    ghost predicate Valid() reads this, results
    {
      && wg == CountOf(st.senders, Unfinished)
      && results.Length == |clientIds| == |st.senders| && clientIds == st.clients && results[..] == st.results
      && cancelled == st.ctxDone && successCount == st.successCount && cancelledCount == st.cancelledCount
    }

    constructor (clientIds: seq<ClientId>)
      ensures Valid() && st == Begin(clientIds) && fresh(results)
    {
      this.clientIds := clientIds;
      results := new Option<Result>[|clientIds|](_ => None);
      cancelled, successCount, cancelledCount, wg := false, 0, 0, 0;
      st := Begin(clientIds);
      new;
      CountAll(st.senders, Unfinished);
    }

    method Cancel()
      requires Valid()
      modifies this
      ensures Valid() && st == Step(old(st), CancelTask) && cancelled
    {
      cancelled := true;
      st := Step(st, CancelTask);
    }

    /** One turn of the main loop: it starts the next sender, which the wait group then waits for, or
        gives up on a cancelled task. */
    method NextTurn(i: nat) returns (started: bool)
      requires Valid() && st.main.Looping? && i == st.next < |clientIds| && st.senders[i].Idle?
      modifies `wg, `st
      ensures Valid() && st == Step(old(st), LoopTurn) && started == !cancelled
      ensures wg == old(wg) + (if started then 1 else 0)
      ensures if started then st.next == i + 1 && st.senders[i] == Begun else st.next == i && st.main.Filling?
    {
      CountUpdate(st.senders, Unfinished, i, Begun);
      hide CountOf, AllDone;
      started := !cancelled;
      if started { wg := wg + 1; }
      st := Step(st, LoopTurn);
    }

    /** wg.Wait returns when no sender is left, which is when all of them are done. */
    method Wait()
      requires Valid() && st.main.Looping? && st.next == |clientIds| && ShapeOk(st) && wg == 0
      modifies `st
      ensures Valid() && st == Step(old(st), WaitAll) && st.waited
    {
      forall k | 0 <= k < |st.senders| ensures !Unfinished(st.senders[k]) {
        CountUpdate(st.senders, Unfinished, k, Idle);
      }
      st := Step(st, WaitAll);
    }

    /** The main loop after it has seen the cancellation at turn i: the clients not started get a
        Cancelled result, and the counter is overwritten. */
    method GiveUp(i: nat)
      requires Valid() && st.main.Filling? && i == st.next <= |clientIds|
      modifies this, results
      ensures Valid() && st == Step(Step(old(st), Fill), Overwrite)
      ensures cancelledCount == |clientIds| - i
      ensures forall k :: 0 <= k < |clientIds| ==>
        results[k] == if k >= i then Some(Result(clientIds[k], Cancelled)) else old(results[k])
    {
      var j := i;
      while j < |clientIds|
        modifies results
        invariant i <= j <= |clientIds|
        invariant forall k :: 0 <= k < |clientIds| ==>
                    results[k] == if i <= k < j then Some(Result(clientIds[k], Cancelled)) else old(results[k])
      {
        results[j] := Some(Result(clientIds[j], Cancelled));
        j := j + 1;
      }
      cancelledCount := |clientIds| - i;
      st := Step(Step(st, Fill), Overwrite);
    }

    /** A sender's check before it sends: on a cancelled task it stores its result and counts itself. */
    method CheckBeforeSending(index: nat) returns (goOn: bool)
      requires Valid() && HasSender(st, index) && st.senders[index].Begun?
      modifies this, results
      ensures Valid() && st == Step(old(st), SenderChecks(index)) && goOn == !cancelled == !old(cancelled)
      ensures cancelledCount == old(cancelledCount) + (if goOn then 0 else 1)
      ensures results[index] == if goOn then old(results[index]) else Some(Result(clientIds[index], Cancelled))
      ensures forall k :: 0 <= k < |clientIds| && k != index ==> results[k] == old(results[k])
    {
      CountUpdate(st.senders, Unfinished, index, if cancelled then Early else Sending);
      hide CountOf, AllDone;
      goOn := !cancelled;
      if cancelled {
        wg := wg - 1;
        results[index] := Some(Result(clientIds[index], Cancelled));
        cancelledCount := cancelledCount + 1;
      }
      st := Step(st, SenderChecks(index));
    }

    /** The rest of a sender, run without interference, once its command has ended. */
    method Finish(index: nat, ending: Ending)
      requires Valid() && HasSender(st, index) && st.senders[index].Sending?
      modifies this, results
      ensures Valid() && wg == old(wg) - 1
      ensures st == Step(Step(Step(old(st), SenderEnds(index, ending)), SenderCounts(index)), SenderWrites(index))
      ensures results[index] == Some(Result(clientIds[index],
        if ending.SendError? then Failed
        else if cancelled then Cancelled
        else if ending.Found? then ending.status
        else Timeout))
      ensures forall k :: 0 <= k < |clientIds| && k != index ==> results[k] == old(results[k])
      ensures successCount == old(successCount) + (if ending == Found(Completed) && !cancelled then 1 else 0)
    {
      var status;
      match ending {
        case SendError => status := Failed;
        case Found(found) =>
          if cancelled {
            status := Cancelled;
          } else {
            status := found;
            if found.Completed? { successCount := successCount + 1; }
          }
        case NotFound => status := if cancelled then Cancelled else Timeout;
      }
      results[index] := Some(Result(clientIds[index], status));
      wg := wg - 1;
      CountUpdate(st.senders, Unfinished, index, Done(status));
      hide CountOf, AllDone;
      SenderSteps(st, index, ending);
      st := Step(Step(Step(st, SenderEnds(index, ending)), SenderCounts(index)), SenderWrites(index));
    }

    // The report, when nothing runs beside it.
    method Report() returns (success: int, failed: int, cancelledClients: int)
      requires Valid() && st.main.Reporting?
      modifies `st
      ensures Valid()
      ensures st == Step(Step(Step(Step(old(st), ReadSuccess), ReadCancelled), ReportSuccess), ReportCancelled)
      ensures success == st.reportedSuccess && failed == st.failedCount && cancelledClients == st.reportedCancelled
      ensures success == successCount && cancelledClients == cancelledCount
      ensures success + failed + cancelledClients == |clientIds|
    {
      failed := |clientIds| - successCount - cancelledCount;
      success, cancelledClients := successCount, cancelledCount;
      st := Step(Step(Step(Step(st, ReadSuccess), ReadCancelled), ReportSuccess), ReportCancelled);
    }
  }

  // What the three steps of an undisturbed sender add up to.
  lemma SenderSteps(s: State, k: nat, ending: Ending)
    requires HasSender(s, k) && s.senders[k].Sending?
    ensures var t := Step(Step(Step(s, SenderEnds(k, ending)), SenderCounts(k)), SenderWrites(k));
      var after := After(ending, s.ctxDone);
      var status := if after.ToCount? then Completed else after.status;
      t == s.(senders := s.senders[k := Done(status)],
              results := s.results[k := Some(Result(s.clients[k], status))],
              successCount := s.successCount + if after.ToCount? then 1 else 0)
  {
  }
}
