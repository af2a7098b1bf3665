/** The command manager's table: commands are sent, answered, cancelled by multicast tasks that look
    at a status outside the lock, and cleaned up when old.

    Times are nanoseconds. Every critical section of `cm.mu` is one step. */
module CommandTable {
  import opened Basics
  import opened Runs

  type CommandId = string

  const MAX_COMMAND_AGE: nat := 30 * 60 * 1_000_000_000

  datatype Status = Pending | Executing | Completed | Failed | Timeout | Cancelled

  datatype Command = Command(status: Status, completedAt: Option<nat>)

  // Where the goroutine that owns a command is: in SendCommand, waiting for the response, or gone.
  datatype Owner = Sending | Waiting | Over

  datatype State = State(
    clock: nat,
    commands: map<CommandId, Command>,
    owners: map<CommandId, Owner>,
    senders: set<CommandId>,            // a multicast sender that has not finished waits for it
    looked: set<CommandId>,             // a cancelled task saw it unfinished, outside the lock, and will write
    outcome: map<CommandId, Status>,    // history: what the owner of a command reported for it
    since: map<CommandId, nat>,         // history: when a command first became terminal
    gone: map<CommandId, nat>)          // history: when a command was cleaned up

  datatype Event =
    | Tick(d: nat)
    | Store(id: CommandId, multicast: bool)
    | SendFails(id: CommandId)
    | SendSucceeds(id: CommandId)
    | Answered(id: CommandId, status: Status)
    | WaiterLeaves(id: CommandId)       // an empty response, or the manager was stopped
    | CancelLooks(id: CommandId)        // CancelMultiCommand looks at a status, without the lock ...
    | CancelWrites(id: CommandId)       // ... and, if it was not terminal, writes Cancelled
    | SenderCancels(id: CommandId)      // a cancelled multicast sender writes Cancelled and finishes
    | SenderLeaves(id: CommandId)       // a multicast sender finishes without that
    | Cleanup

  predicate Terminal(status: Status) { status.Completed? || status.Failed? || status.Timeout? || status.Cancelled? }

  function WithStatus(c: Command, status: Status, now: nat): Command
  {
    Command(status, if Terminal(status) then Some(now) else c.completedAt)
  }

  function Updated(commands: map<CommandId, Command>, id: CommandId, status: Status, now: nat): map<CommandId, Command>
  {
    if id in commands then commands[id := WithStatus(commands[id], status, now)] else commands
  }

  predicate Expired(c: Command, now: nat)
  {
    Terminal(c.status) && c.completedAt.Some? && now - c.completedAt.value > MAX_COMMAND_AGE
  }

  function Fresh(commands: map<CommandId, Command>, now: nat): map<CommandId, Command>
  {
    map id | id in commands && !Expired(commands[id], now) :: commands[id]
  }

  function Update(s: State, id: CommandId, status: Status): State
  {
    s.(commands := Updated(s.commands, id, status, s.clock),
       since := if id in s.commands && id !in s.since && Terminal(status) then s.since[id := s.clock] else s.since)
  }

  predicate OwnedIn(s: State, id: CommandId, o: Owner) { id in s.owners && s.owners[id] == o }

  function Report(s: State, id: CommandId, status: Status): State
  {
    Update(s, id, status).(owners := s.owners[id := Over], outcome := s.outcome[id := status])
  }

  function Step(s: State, e: Event): State
  {
    match e
    case Tick(d) => s.(clock := s.clock + d)
    case Store(id, multicast) =>
      if id in s.owners then s
      else
        s.(commands := s.commands[id := Command(Pending, None)],
           owners := s.owners[id := Sending],
           senders := if multicast then s.senders + {id} else s.senders)
    case SendFails(id) => if OwnedIn(s, id, Sending) then Report(s, id, Failed) else s
    case SendSucceeds(id) => if OwnedIn(s, id, Sending) then s.(owners := s.owners[id := Waiting]) else s
    case Answered(id, status) =>
      if OwnedIn(s, id, Waiting) && (status.Completed? || status.Failed? || status.Timeout?)
      then Report(s, id, status) else s
    case WaiterLeaves(id) => if OwnedIn(s, id, Waiting) then s.(owners := s.owners[id := Over]) else s
    case CancelLooks(id) =>
      if id in s.commands && !Terminal(s.commands[id].status) then s.(looked := s.looked + {id}) else s
    case CancelWrites(id) =>
      if id in s.looked then Update(s, id, Cancelled).(looked := s.looked - {id}) else s
    case SenderCancels(id) =>
      if id in s.senders && !OwnedIn(s, id, Sending) then Update(s, id, Cancelled).(senders := s.senders - {id}) else s
    case SenderLeaves(id) => s.(senders := s.senders - {id})
    case Cleanup =>
      s.(commands := Fresh(s.commands, s.clock),
         gone := map id | id in s.gone.Keys + s.commands.Keys && (id in s.gone || Expired(s.commands[id], s.clock)) ::
           if id in s.gone then s.gone[id] else s.clock)
  }

  const START := State(0, map[], map[], {}, {}, map[], map[], map[])

  // ---------- invariant ----------

  predicate CommandOk(s: State, id: CommandId)
  {
    id in s.commands ==>
      var c := s.commands[id];
      && id in s.owners && id !in s.gone && c.status != Executing
      && (c.completedAt.Some? <==> Terminal(c.status))
      && (id in s.since <==> Terminal(c.status))
      && (Terminal(c.status) ==> s.since[id] <= c.completedAt.value <= s.clock)
      && (Terminal(c.status) && c.status != Cancelled ==> id in s.outcome && s.outcome[id] == c.status)
  }

  predicate HistoryOk(s: State, id: CommandId)
  {
    && (id in s.owners ==> id in s.commands || id in s.gone)
    && (id in s.outcome ==> id in s.owners && s.owners[id].Over?)
    && (id in s.since ==> id in s.owners && s.since[id] <= s.clock)
    && (id in s.gone ==> id in s.owners && id in s.since && s.since[id] + MAX_COMMAND_AGE < s.gone[id] <= s.clock)
  }

  predicate Ok(s: State, id: CommandId) { CommandOk(s, id) && HistoryOk(s, id) }

  ghost predicate Inv(s: State) { forall id :: Ok(s, id) }

  lemma StepKeepsCommand(s: State, e: Event, id: CommandId)
    requires Ok(s, id)
    ensures CommandOk(Step(s, e), id)
  {
  }

  lemma StepKeepsHistory(s: State, e: Event, id: CommandId)
    requires Ok(s, id)
    ensures HistoryOk(Step(s, e), id)
  {
  }

  lemma StepKeepsOk(s: State, e: Event, id: CommandId)
    requires Ok(s, id)
    ensures Ok(Step(s, e), id)
  {
    hide Step, CommandOk, HistoryOk;
    StepKeepsCommand(s, e, id);
    StepKeepsHistory(s, e, id);
  }

  // What no step takes back.
  predicate Grown(s: State, t: State, id: CommandId)
  {
    && (id in s.commands ==> id in t.commands || id in t.gone)
    && (id in s.commands && id in t.commands ==> Terminal(s.commands[id].status) ==> Terminal(t.commands[id].status))
    && (id in s.outcome ==> id in t.outcome && t.outcome[id] == s.outcome[id])
    && (id in s.since ==> id in t.since && t.since[id] == s.since[id])
    && (id in s.gone ==> id in t.gone && t.gone[id] == s.gone[id] && (id in t.commands ==> id in s.commands))
  }

  ghost predicate Grows(s: State, t: State) { forall id :: Grown(s, t, id) }

  lemma StepGrows(s: State, e: Event, id: CommandId)
    requires Ok(s, id)
    ensures Grown(s, Step(s, e), id)
  {
  }

  lemma GrowsReflexive(s: State)
    ensures Grows(s, s)
  {
  }

  lemma GrowsTransitive(s: State, t: State, u: State)
    requires Grows(s, t) && Grows(t, u)
    ensures Grows(s, u)
  {
    forall id ensures Grown(s, u, id) { assert Grown(s, t, id) && Grown(t, u, id); }
  }

  lemma StepKeepsInv(s: State, e: Event)
    requires Inv(s)
    ensures Inv(Step(s, e)) && Grows(s, Step(s, e))
  {
    hide Ok, Step, Grown;
    forall id ensures Ok(Step(s, e), id) && Grown(s, Step(s, e), id) { StepKeepsOk(s, e, id); StepGrows(s, e, id); }
  }

  lemma {:induction false} RunGrows(es: seq<Event>, later: seq<Event>)
    ensures Inv(Run(Step, START, es)) && Inv(Run(Step, START, es + later))
    ensures Grows(Run(Step, START, es), Run(Step, START, es + later))
  {
    RunConcat(Step, START, es, later);
    assert Inv(START);
    hide Inv, Grows;
    forall s, e | Inv(s) ensures Inv(Step(s, e)) && Grows(s, Step(s, e)) { StepKeepsInv(s, e); }
    Invariant(Step, s => Inv(s), START, es);
    forall s, t, u | Grows(s, t) && Grows(t, u) ensures Grows(s, u) { GrowsTransitive(s, t, u); }
    forall s ensures Grows(s, s) { GrowsReflexive(s); }
    Preserved(Step, s => Inv(s), (s, t) => Grows(s, t), Run(Step, START, es), later);
  }

  // ---------- theorems over all interleavings ----------

  /** A command that is terminal never becomes non-terminal again, as long as it is in the table. */
  lemma {:induction false} TerminalStays(es: seq<Event>, later: seq<Event>, id: CommandId)
    requires var s := Run(Step, START, es); id in s.commands && Terminal(s.commands[id].status)
    ensures var t := Run(Step, START, es + later); id in t.commands ==> Terminal(t.commands[id].status)
  {
    RunGrows(es, later);
    assert Ok(Run(Step, START, es), id) && Ok(Run(Step, START, es + later), id);
    assert Grown(Run(Step, START, es), Run(Step, START, es + later), id);
  }

  /** A command has a completion time exactly when its status is terminal, and it is never Executing. */
  lemma {:induction false} CompletedAtIffTerminal(es: seq<Event>, id: CommandId)
    requires id in Run(Step, START, es).commands
    ensures var c := Run(Step, START, es).commands[id];
      (c.completedAt.Some? <==> Terminal(c.status)) && c.status != Executing
  {
    RunGrows(es, []);
    assert Ok(Run(Step, START, es), id);
  }

  /** A command leaves the table only after it has been terminal for longer than MAX_COMMAND_AGE, and
      it never comes back. */
  lemma {:induction false} LeavesOnlyWhenOld(es: seq<Event>, later: seq<Event>, id: CommandId)
    requires id in Run(Step, START, es).owners && id !in Run(Step, START, es).commands
    ensures var s := Run(Step, START, es);
      id in s.since && id in s.gone && s.gone[id] <= s.clock && s.gone[id] - s.since[id] > MAX_COMMAND_AGE
    ensures id !in Run(Step, START, es + later).commands
  {
    RunGrows(es, later);
    assert Ok(Run(Step, START, es), id) && Ok(Run(Step, START, es + later), id);
    assert Grown(Run(Step, START, es), Run(Step, START, es + later), id);
  }

  /** A cleanup leaves no command behind that has been completed for longer than half an hour, and it
      takes no other. */
  lemma {:induction false} CleanupIsExact(es: seq<Event>, id: CommandId)
    requires id in Run(Step, START, es).commands
    ensures var s, t := Run(Step, START, es), Run(Step, START, es + [Cleanup]);
      var c := s.commands[id];
      if c.completedAt.Some? && s.clock - c.completedAt.value > 1_800_000_000_000 then id !in t.commands
      else id in t.commands && t.commands[id] == c
  {
    CompletedAtIffTerminal(es, id);
    RunSnoc(Step, START, es, Cleanup);
  }

  // The owner, a cancellation or a multicast sender of `id` may take a step that writes `status`.
  predicate Writes(s: State, e: Event, id: CommandId, status: Status)
  {
    || (e == SendFails(id) && OwnedIn(s, id, Sending) && status == Failed)
    || (e == Answered(id, status) && OwnedIn(s, id, Waiting) && status in {Completed, Failed, Timeout})
    || (e == CancelWrites(id) && id in s.looked && status == Cancelled)
    || (e == SenderCancels(id) && id in s.senders && !OwnedIn(s, id, Sending) && status == Cancelled)
  }

  /** In every run a command in the table has the status that was written last: a failed send gives Failed,
      an answer its own status, a cancellation Cancelled, each with the time of the write, and no other step
      touches a command that stays. */
  lemma {:induction false} LastWriteCounts(es: seq<Event>, e: Event, id: CommandId)
    requires id in Run(Step, START, es).commands && id in Run(Step, START, es + [e]).commands
    ensures var s, c := Run(Step, START, es), Run(Step, START, es + [e]).commands[id];
      && (forall status :: Writes(s, e, id, status) ==> c == Command(status, Some(s.clock)))
      && ((forall status :: !Writes(s, e, id, status)) ==> c == s.commands[id])
  {
    RunSnoc(Step, START, es, e);
    RunGrows(es, []);
    var s := Run(Step, START, es);
    assert Ok(s, id);
    hide Run;
    if e == SendFails(id) && !Writes(s, e, id, Failed) { return; }
    if e.Answered? && !Writes(s, e, id, e.status) { return; }
    if (e.CancelWrites? || e.SenderCancels?) && !Writes(s, e, id, Cancelled) { return; }
  }

  /** In every run a command that is stored is in the table, pending and owned by its sender; a successful
      send makes its owner wait, a report or an empty response ends the waiting, and nothing else moves it; a
      cancellation that looks at an unfinished command is going to write. */
  lemma {:induction false} OwnersMoveOn(es: seq<Event>, e: Event, id: CommandId)
    ensures var s, t := Run(Step, START, es), Run(Step, START, es + [e]);
      && (e.Store? && e.id == id && id !in s.owners ==>
            && id in t.commands && t.commands[id] == Command(Pending, None) && OwnedIn(t, id, Sending)
            && (e.multicast ==> id in t.senders))
      && (OwnedIn(s, id, Sending) ==>
            OwnedIn(t, id, if e == SendFails(id) then Over else if e == SendSucceeds(id) then Waiting else Sending))
      && (OwnedIn(s, id, Waiting) ==>
            OwnedIn(t, id, if e == WaiterLeaves(id) || (e.Answered? && e.id == id
                              && e.status in {Completed, Failed, Timeout}) then Over else Waiting))
      && (e == CancelLooks(id) && id in s.commands && s.commands[id].status in {Pending, Executing} ==> id in t.looked)
  {
    RunSnoc(Step, START, es, e);
    hide Run;
  }

  /** Whatever races there are, a command is only ever seen with one terminal status besides Cancelled:
      the one its own sender or waiter reported. */
  lemma {:induction false} OutcomeIsUnique(es: seq<Event>, later: seq<Event>, id: CommandId)
    requires var s := Run(Step, START, es); id in s.commands && Terminal(s.commands[id].status)
    requires var t := Run(Step, START, es + later); id in t.commands
    ensures var a, b := Run(Step, START, es).commands[id].status, Run(Step, START, es + later).commands[id].status;
      a == b || a == Cancelled || b == Cancelled
  {
    RunGrows(es, later);
    assert Ok(Run(Step, START, es), id) && Ok(Run(Step, START, es + later), id);
    assert Grown(Run(Step, START, es), Run(Step, START, es + later), id);
  }

  lemma StepNeverCancels(s: State, e: Event, id: CommandId)
    requires e != CancelWrites(id) && e != SenderCancels(id)
    requires id in s.commands ==> s.commands[id].status != Cancelled
    ensures id in Step(s, e).commands ==> Step(s, e).commands[id].status != Cancelled
  {
  }

  lemma {:induction false} NeverCancelled(es: seq<Event>, id: CommandId)
    requires CancelWrites(id) !in es && SenderCancels(id) !in es
    ensures var s := Run(Step, START, es); id in s.commands ==> s.commands[id].status != Cancelled
  {
    if es != [] {
      NeverCancelled(es[..|es| - 1], id);
      assert es[|es| - 1] in es;
      StepNeverCancels(Run(Step, START, es[..|es| - 1]), es[|es| - 1], id);
    }
  }

  /** A command that no multicast task cancels keeps the first terminal status it gets. */
  lemma {:induction false} UncancelledIsFinal(es: seq<Event>, later: seq<Event>, id: CommandId)
    requires CancelWrites(id) !in es + later && SenderCancels(id) !in es + later
    requires var s := Run(Step, START, es); id in s.commands && Terminal(s.commands[id].status)
    requires id in Run(Step, START, es + later).commands
    ensures Run(Step, START, es + later).commands[id].status == Run(Step, START, es).commands[id].status
  {
    OutcomeIsUnique(es, later, id);
    NeverCancelled(es + later, id);
    assert forall e <- es :: e in es + later;
    NeverCancelled(es, id);
  }

  // A command in flight that a cancelled task has just seen unfinished.
  function SeenUnfinished(id: CommandId): State
  {
    START.(commands := map[id := Command(Pending, None)], owners := map[id := Waiting], senders := {id}, looked := {id})
  }

  lemma Sees(id: CommandId)
    ensures Run(Step, START, [Store(id, true), SendSucceeds(id), CancelLooks(id), Tick(0)]) == SeenUnfinished(id)
  {
    RunFour(Step, START, [Store(id, true), SendSucceeds(id), CancelLooks(id), Tick(0)]);
    hide Run;
    var s1 := Step(START, Store(id, true));
    assert s1 == START.(commands := map[id := Command(Pending, None)], owners := map[id := Sending], senders := {id});
    var s2 := Step(s1, SendSucceeds(id));
    assert s2 == s1.(owners := map[id := Waiting]);
  }

  /** With a cancellation both replacements happen, although it looks before it writes: a late
      acknowledgement overwrites Cancelled, and an acknowledgement between the look and the write is
      overwritten. */
  lemma {:induction false} CancelledAndCompletedRace(id: CommandId)
    ensures var seen := [Store(id, true), SendSucceeds(id), CancelLooks(id), Tick(0)];
      && var s := Run(Step, START, seen + [CancelWrites(id)] + [Answered(id, Completed)]);
      && var t := Run(Step, START, seen + [Answered(id, Completed)] + [CancelWrites(id)]);
      && id in s.commands && s.commands[id].status == Completed
      && id in t.commands && t.commands[id].status == Cancelled
  {
    var seen := [Store(id, true), SendSucceeds(id), CancelLooks(id), Tick(0)];
    Sees(id);
    RunSnoc(Step, START, seen, CancelWrites(id));
    RunSnoc(Step, START, seen, Answered(id, Completed));
    RunSnoc(Step, START, seen + [CancelWrites(id)], Answered(id, Completed));
    RunSnoc(Step, START, seen + [Answered(id, Completed)], CancelWrites(id));
    hide Run;
  }

  // Nobody is left who could change the status of a terminal command: its own goroutine is gone, and, unless
  // the status is Cancelled already, no cancellation that looked earlier is still to write, and its multicast
  // sender, if it has one, is done.
  predicate Settled(s: State, id: CommandId)
  {
    OwnedIn(s, id, Over) && id in s.commands && Terminal(s.commands[id].status)
    && (id in s.looked || id in s.senders ==> s.commands[id].status == Cancelled)
  }

  ghost predicate Final(es: seq<Event>, id: CommandId)
    requires id in Run(Step, START, es).commands
  {
    forall later :: id in Run(Step, START, es + later).commands ==>
      Run(Step, START, es + later).commands[id].status == Run(Step, START, es).commands[id].status
  }

  // What a settled command keeps, while it is in the table.
  predicate Kept(s: State, id: CommandId, status: Status)
  {
    OwnedIn(s, id, Over) && Terminal(status)
    && (id in s.looked || id in s.senders ==> status == Cancelled)
    && (id in s.commands ==> s.commands[id].status == status)
  }

  lemma {:induction false} KeptThroughout(s: State, id: CommandId, status: Status, later: seq<Event>)
    requires Kept(s, id, status)
    ensures Kept(Run(Step, s, later), id, status)
  {
    if later != [] {
      var front, last := later[..|later| - 1], later[|later| - 1];
      KeptThroughout(s, id, status, front);
      StepKeepsSettled(Run(Step, s, front), last, id, status);
    }
  }

  lemma StepKeepsSettled(s: State, e: Event, id: CommandId, status: Status)
    requires Kept(s, id, status)
    ensures Kept(Step(s, e), id, status)
  {
  }

  /** The terminal status of a command never changes again if and only if its own goroutine is gone, and it
      is Cancelled or neither a cancellation that has seen it unfinished nor its multicast sender can still
      write. */
  lemma {:induction false} FinalIffSettled(es: seq<Event>, id: CommandId)
    requires var s := Run(Step, START, es); id in s.commands && Terminal(s.commands[id].status)
    ensures Final(es, id) <==> Settled(Run(Step, START, es), id)
  {
    RunGrows(es, []);
    var s := Run(Step, START, es);
    assert Ok(s, id);
    if Settled(s, id) {
      forall later | id in Run(Step, START, es + later).commands
        ensures Run(Step, START, es + later).commands[id].status == s.commands[id].status
      {
        RunConcat(Step, START, es, later);
        KeptThroughout(s, id, s.commands[id].status, later);
      }
    } else {
      var e := if OwnedIn(s, id, Sending) then SendFails(id)
               else if OwnedIn(s, id, Waiting) then Answered(id, Completed)
               else if id in s.looked then CancelWrites(id)
               else SenderCancels(id);
      RunSnoc(Step, START, es, e);
    }
  }

  // ---------- the manager ----------

  datatype AckStatus = AckSuccess | AckFailure | AckTimeout | AckUnknown

  datatype Response = Error | Acknowledged(status: AckStatus) | Empty

  class CommandManager {
    var commands: map<CommandId, Command>

    constructor ()
      ensures commands == map[]
    {
      commands := map[];
    }

    /** waitForCommandResponse: an error counts as a timeout, an acknowledgement without a known status as
        a failure, and an empty response leaves the command as it is. */
    method WaitForCommandResponse(id: CommandId, response: Response, now: nat)
      modifies this
      ensures response == Empty || id !in old(commands) ==> commands == old(commands)
      ensures response != Empty && id in old(commands) ==>
        commands == old(commands)[id := Command(
          match response
            case Acknowledged(AckSuccess) => Completed
            case Acknowledged(AckFailure) => Failed
            case Acknowledged(AckTimeout) => Timeout
            case Acknowledged(AckUnknown) => Failed
            case _ => Timeout,
          Some(now))]
    {
      match response {
        case Error => UpdateCommandStatus(id, Timeout, now);
        case Acknowledged(AckSuccess) => UpdateCommandStatus(id, Completed, now);
        case Acknowledged(AckFailure) => UpdateCommandStatus(id, Failed, now);
        case Acknowledged(AckTimeout) => UpdateCommandStatus(id, Timeout, now);
        case Acknowledged(AckUnknown) => UpdateCommandStatus(id, Failed, now);
        case Empty =>
      }
    }

    /** A known command gets the status, and with a terminal one the time; no other command is touched. */
    method UpdateCommandStatus(id: CommandId, status: Status, now: nat)
      modifies this
      ensures commands == Updated(old(commands), id, status, now)
      ensures commands.Keys == old(commands).Keys
      ensures forall k <- commands :: k != id ==> commands[k] == old(commands)[k]
      ensures id in commands ==> commands[id].status == status
      ensures id in commands ==> (commands[id].completedAt ==
        if status in {Completed, Failed, Timeout, Cancelled} then Some(now) else old(commands)[id].completedAt)
    {
      if id in commands {
        var cmd := commands[id];
        cmd := cmd.(status := status);
        if status == Completed || status == Failed || status == Timeout || status == Cancelled {
          cmd := cmd.(completedAt := Some(now));
        }
        commands := commands[id := cmd];
      }
    }

    /** SendCommand, with a fresh id: the command is in the table whatever happens, unfinished when it was
        sent and failed when it could not be encoded or sent; no other command is touched. */
    method SendCommand(id: CommandId, encoded: bool, sent: bool, now: nat) returns (ok: bool)
      requires id !in commands
      modifies this
      ensures ok <==> encoded && sent
      ensures id in commands
      ensures commands[id] == if ok then Command(Pending, None) else Command(Failed, Some(now))
      ensures commands - {id} == old(commands)
    {
      commands := commands[id := Command(Pending, None)];
      if !encoded {
        UpdateCommandStatus(id, Failed, now);
        return false;
      }
      if !sent {
        UpdateCommandStatus(id, Failed, now);
        return false;
      }
      return true;
    }

    /** Two passes, as the map cannot be changed while it is walked: collect, then delete. Exactly the
        commands that have been terminal for longer than MAX_COMMAND_AGE go. */
    method Cleanup(now: nat)
      modifies this
      ensures commands == Fresh(old(commands), now)
      ensures forall id <- old(commands) :: (id !in commands <==>
        && old(commands)[id].status in {Completed, Failed, Timeout, Cancelled}
        && old(commands)[id].completedAt.Some?
        && now - old(commands)[id].completedAt.value > 1_800_000_000_000)
      ensures forall id <- commands :: id in old(commands) && commands[id] == old(commands)[id]
    {
      var toDelete: seq<CommandId> := [];
      var todo := commands.Keys;
      while todo != {}
        invariant todo <= commands.Keys && commands == old(commands)
        invariant forall id :: id in toDelete <==> id in commands.Keys - todo && Expired(commands[id], now)
      {
        var id :| id in todo;
        todo := todo - {id};
        var cmd := commands[id];
        if cmd.status == Completed || cmd.status == Failed || cmd.status == Timeout || cmd.status == Cancelled {
          if cmd.completedAt.Some? && now - cmd.completedAt.value > MAX_COMMAND_AGE {
            toDelete := toDelete + [id];
          }
        }
      }
      for i := 0 to |toDelete|
        invariant commands == old(commands) - set j | 0 <= j < i :: toDelete[j]
      {
        commands := commands - {toDelete[i]};
      }
    }

    /** The last part of CancelMultiCommand, without interference: of the listed commands, those still
        in the table and not terminal become Cancelled, and nothing else changes. */
    method CancelUnfinished(commandIds: seq<CommandId>, now: nat)
      modifies this
      ensures commands.Keys == old(commands).Keys
      ensures forall id <- commands :: (commands[id] ==
        if id in commandIds && old(commands)[id].status in {Pending, Executing} then Command(Cancelled, Some(now))
        else old(commands)[id])
    {
      for i := 0 to |commandIds|
        invariant commands.Keys == old(commands).Keys
        invariant forall id <- commands :: (commands[id] ==
          if id in commandIds[..i] && !Terminal(old(commands)[id].status) then Command(Cancelled, Some(now))
          else old(commands)[id])
      {
        var id := commandIds[i];
        if id in commands {
          match commands[id].status
          case Pending | Executing => UpdateCommandStatus(id, Cancelled, now);
          case _ =>
        }
      }
    }
  }
}
