/** What becomes of each client of a multicast command: the result in its slot, in every run. */
module MulticastResults {
  import opened Basics
  import opened Runs
  import opened Multicast

  // ---------- what every sender stores ----------

  predicate IsAt(s: State, k: nat, p: Sender) { k < |s.senders| && s.senders[k] == p }

  predicate Stored(s: State, k: nat, r: Result) { k < |s.results| && s.results[k] == Some(r) }

  // Sender k has ended with a status, or is about to.
  predicate EndsIn(s: State, k: nat, status: Status)
  {
    && k < |s.senders|
    && match s.senders[k]
       case ToCount => status == Completed
       case ToWrite(st) => status == st
       case Done(st) => status == st
       case Early => status == Cancelled
       case _ => false
  }

  lemma StepKeepsEnding(s: State, e: Event, k: nat, status: Status)
    requires ShapeOk(s) && EndsIn(s, k, status)
    ensures EndsIn(Step(s, e), k, status)
  {
    hide AllDone;
  }

  // From here on sender k ends with a status, and that is what it stores for its client.
  ghost predicate Always(s: State, k: nat, client: ClientId, status: Status)
  {
    forall later :: StoredAs(Run(Step, s, later), k, client, status)
  }

  predicate StoredAs(s: State, k: nat, client: ClientId, status: Status)
  {
    && EndsIn(s, k, status)
    && (s.senders[k].Done? || s.senders[k].Early? ==> Stored(s, k, Result(client, status)))
  }

  lemma {:induction false} EndsAlways(s: State, k: nat, status: Status)
    requires Inv(s) && k < |s.clients| && EndsIn(s, k, status)
    ensures Always(s, k, s.clients[k], status)
  {
    forall later ensures StoredAs(Run(Step, s, later), k, s.clients[k], status) {
      var inv := (t: State) => Inv(t) && t.clients == s.clients && EndsIn(t, k, status);
      forall t, e | inv(t) ensures inv(Step(t, e)) {
        StepKeepsInv(t, e);
        StepKeepsEnding(t, e, k, status);
      }
      Invariant(Step, inv, s, later);
      assert ResultOk(Run(Step, s, later), k);
    }
  }

  /** The result of a client is what became of its command: Failed when the send failed, Cancelled when the
      task was cancelled by then, otherwise the status found in the table, and Timeout when it was not found.
      Whatever the other goroutines do before the sender is done, this is what it stores. */
  lemma {:induction false} ResultIsTheEnding(clients: seq<ClientId>, es: seq<Event>, k: nat, ending: Ending)
    requires k < |clients|
    ensures var s := Run(Step, Begin(clients), es);
      var status := if ending.SendError? then Failed else if s.ctxDone then Cancelled
                    else if ending.Found? then ending.status else Timeout;
      IsAt(s, k, Sending) ==> Always(Step(s, SenderEnds(k, ending)), k, clients[k], status)
  {
    var s := Run(Step, Begin(clients), es);
    var status := if ending.SendError? then Failed else if s.ctxDone then Cancelled
                  else if ending.Found? then ending.status else Timeout;
    AllRuns(clients, es);
    hide Run, CountsOk, ReadsOk, ResultsOk, Begin;
    if IsAt(s, k, Sending) {
      StepKeepsInv(s, SenderEnds(k, ending));
      EndsAlways(Step(s, SenderEnds(k, ending)), k, status);
    }
  }

  /** A sender whose first check finds the task cancelled sends nothing: its client's result is Cancelled, then
      and ever after. One that does not goes on to send. */
  lemma {:induction false} CheckDecides(clients: seq<ClientId>, es: seq<Event>, k: nat)
    requires k < |clients|
    ensures var s := Run(Step, Begin(clients), es);
      var t := Step(s, SenderChecks(k));
      IsAt(s, k, Begun) ==> if s.ctxDone then Always(t, k, clients[k], Cancelled) else IsAt(t, k, Sending)
  {
    var s := Run(Step, Begin(clients), es);
    AllRuns(clients, es);
    hide Run, CountsOk, ReadsOk, ResultsOk, Begin;
    if IsAt(s, k, Begun) && s.ctxDone {
      StepKeepsInv(s, SenderChecks(k));
      EndsAlways(Step(s, SenderChecks(k)), k, Cancelled);
    }
  }

  // ---------- clients not started ----------

  // The main goroutine has marked the clients it did not start.
  predicate Marked(s: State) { s.main.Overwriting? || Overwritten(s) }

  ghost predicate MarkedOk(s: State)
  {
    Marked(s) ==> s.ctxDone && forall k :: s.next <= k < Total(s) && HasSender(s, k) ==>
      s.results[k] == Some(Result(s.clients[k], Cancelled))
  }

  lemma StepKeepsMarked(s: State, e: Event)
    requires ShapeOk(s) && MarkedOk(s) && (s.main.Filling? ==> s.ctxDone)
    ensures MarkedOk(Step(s, e)) && (Step(s, e).main.Filling? ==> Step(s, e).ctxDone)
  {
    hide AllDone;
  }

  predicate CancelledUnstarted(s: State, k: nat, client: ClientId)
  {
    s.ctxDone && IsAt(s, k, Idle) && Stored(s, k, Result(client, Cancelled))
  }

  /** When the main goroutine has given up, every client it did not start is and stays Cancelled under its own
      name, and it only gives up on a cancelled task. */
  lemma {:induction false} NotStartedIsCancelled(clients: seq<ClientId>, es: seq<Event>)
    ensures var s := Run(Step, Begin(clients), es);
      s.main.Reported? && !s.waited ==> forall k :: s.next <= k < |clients| ==> CancelledUnstarted(s, k, clients[k])
  {
    var inv := (s: State) => ShapeOk(s) && MarkedOk(s) && (s.main.Filling? ==> s.ctxDone);
    forall s, e | inv(s) ensures inv(Step(s, e)) { StepKeepsShape(s, e); StepKeepsMarked(s, e); }
    Invariant(Step, inv, Begin(clients), es);
    AllRuns(clients, es);
  }
}
