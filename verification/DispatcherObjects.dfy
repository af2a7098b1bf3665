/** The dispatcher's objects: the queues with their ticket counter, the response channel, and the batch
    call that gathers one response per message. */
module DispatcherObjects {
  import opened Basics
  import opened Bytes
  import opened Counting
  import opened Dispatcher
  import opened Hashing
  import opened QueueShares
  import opened Runs

  // ---------- responses ----------

  class ResponseChannel {
    var buffer: seq<Response>
    ghost var received: seq<Response>
    ghost var dropped: nat

    ghost function Value(): Channel reads this { Channel(buffer, received, dropped) }

    constructor ()
      ensures Value() == Channel([], [], 0)
    {
      buffer, received, dropped := [], [], 0;
    }

    method SendResponse(response: Response) returns (sent: bool)
      modifies this
      ensures Value() == Send(old(Value()), response) && sent == (dropped == old(dropped))
      ensures sent <==> old(buffer) == []
      ensures buffer == if sent then [response] else old(buffer)
    {
      sent := |buffer| < 1;
      if sent { buffer := buffer + [response]; } else { dropped := dropped + 1; }
    }

    method Receive() returns (response: Response)
      requires buffer != []
      modifies this
      ensures response == old(buffer)[0] && buffer == old(buffer)[1..] && received == old(received) + [response]
      ensures dropped == old(dropped)
    {
      response := buffer[0];
      buffer := buffer[1..];
      received := received + [response];
    }
  }

  // ---------- submitting and taking ----------

  lemma NextTicket(calls: nat)
    ensures (calls % WRAP + 1) % WRAP == (calls + 1) % WRAP
  {
  }

  lemma NothingSentYet(s: State, q: nat, w: nat)
    requires Inv(s) && HandlesTask(s, q, w)
    ensures s.channels[s.queues[q].workers[w].task].buffer == []
  {
    HeldTask(s, q, w);
    assert LogOk(s, s.queues[q].workers[w].task) && ChannelOk(s, s.queues[q].workers[w].task);
    hide QueuesOk, TasksOk, ChannelsOk;
  }

  // What the end of a processing changes that the dispatcher object can see: one channel.
  lemma FinishSends(s: State, q: nat, w: nat, occasion: nat)
    requires HandlesTask(s, q, w)
    ensures var t, c := Step(s, Finish(q, w, occasion)), CallOf(s, q, w, occasion);
      && t.channels == s.channels[c.task := Send(s.channels[c.task], Outcome(s.world, c))]
      && t.calls == s.calls && t.handlers == s.handlers && t.default == s.default && t.world == s.world
      && |t.queues| == |s.queues|
      && forall k :: 0 <= k < |s.queues| ==>
           t.queues[k].waiting == s.queues[k].waiting && t.queues[k].capacity == s.queues[k].capacity
  {
  }

  class MultiQueueDispatcher {
    var dispatchIndex: uint64
    const capacities: seq<nat>
    const queues: array<seq<TaskId>>
    var handlers: map<MessageType, HandlerId>
    const defaultHandler: Option<HandlerId>
    const world: World
    ghost var st: State

    ghost predicate Valid() reads this, queues
    {
      && queues.Length == |capacities| == |st.queues| > 0
      && dispatchIndex == st.calls % WRAP
      && handlers == st.handlers && defaultHandler == st.default && world == st.world
      && (forall q :: 0 <= q < queues.Length ==> queues[q] == st.queues[q].waiting)
      && (forall q :: 0 <= q < queues.Length ==> capacities[q] == st.queues[q].capacity)
    }

    constructor (u: Setup)
      requires u.shares != []
      ensures Valid() && fresh(queues) && st == Begin(u)
    {
      dispatchIndex := 0;
      capacities := seq(|u.shares|, q requires 0 <= q < |u.shares| => u.shares[q].capacity);
      queues := new seq<TaskId>[|u.shares|](_ => []);
      handlers, defaultHandler, world := u.handlers, u.default, u.world;
      st := Begin(u);
    }

    method RegisterHandler(kind: MessageType, handler: HandlerId)
      requires Valid()
      modifies `handlers, `st
      ensures Valid() && st == Step(old(st), Register(kind, handler))
      ensures handlers == old(handlers)[kind := handler]
    {
      handlers := handlers[kind := handler];
      st := Step(st, Register(kind, handler));
    }

    /** The first half of Dispatch and DispatchByHash: the ticket counter wraps, the hash does not move it. */
    method ChooseQueue(message: Message, byHash: bool) returns (index: nat)
      requires Valid()
      modifies `dispatchIndex, `st
      ensures Valid() && st == Step(old(st), Offer(message, byHash))
      ensures index == st.tasks[|st.tasks| - 1].route < queues.Length
    {
      hide FnvHash;
      if byHash {
        var hash := ComputeFnvHash(message.id);
        index := hash % queues.Length;
      } else {
        NextTicket(st.calls);
        dispatchIndex := (dispatchIndex + 1) % 0x1_0000_0000_0000_0000;
        index := dispatchIndex % queues.Length;
      }
      st := Step(st, Offer(message, byHash));
    }

    /** The second half: a channel send that succeeds exactly when the queue has room. */
    method TrySend(i: TaskId, index: nat) returns (sent: bool)
      requires Valid() && IsOffered(st, i) && index == st.tasks[i].route
      modifies `st, queues
      ensures Valid() && st == Step(old(st), Accept(i)) && sent == old(HasRoom(st, i))
      ensures sent <==> |old(queues[index])| < capacities[index]
      ensures queues[index] == if sent then old(queues[index]) + [i] else old(queues[index])
      ensures forall q :: 0 <= q < queues.Length && q != index ==> queues[q] == old(queues[q])
    {
      sent := |queues[index]| < capacities[index];
      if sent { queues[index] := queues[index] + [i]; }
      st := Step(st, Accept(i));
    }

    /** The receive in multiQueueWorker, when its select finds the queue non-empty. */
    method WorkerTakes(queueIdx: nat, ghost workerIdx: nat) returns (task: TaskId)
      requires Valid() && queueIdx < queues.Length && CanTake(st.queues[queueIdx], workerIdx)
      modifies `st, queues
      ensures Valid() && st == Step(old(st), Take(queueIdx, workerIdx))
      ensures st.queues[queueIdx].workers[workerIdx] == Holding(task)
      ensures old(queues[queueIdx]) == [task] + queues[queueIdx]
    {
      task := queues[queueIdx][0];
      queues[queueIdx] := queues[queueIdx][1..];
      st := Step(st, Take(queueIdx, workerIdx));
    }

    /** findHandler, for the message of the task the worker has in hand. */
    method FindHandler(ghost q: nat, ghost w: nat, message: Message) returns (handler: Option<HandlerId>)
      requires Valid() && q < |st.queues| && Holds(st.queues[q], w) && st.queues[q].workers[w].task < |st.tasks|
      requires message == st.tasks[st.queues[q].workers[w].task].message
      modifies `st
      ensures Valid() && st == Step(old(st), Find(q, w))
      ensures st.queues[q].workers[w] == Handling(old(st.queues[q].workers[w].task), handler)
      ensures message.kind in handlers ==> handler == Some(handlers[message.kind])
      ensures message.kind !in handlers ==> handler == defaultHandler
    {
      if message.kind in handlers {
        handler := Some(handlers[message.kind]);
      } else {
        handler := defaultHandler;
      }
      st := Step(st, Find(q, w));
    }

    /** The rest of processTask. The one response that goes into the task's channel is what the handler
        makes of that task's message, or an error when none was found; in a reachable state the channel
        is empty and the response is not dropped. */
    method ProcessTask(ghost q: nat, ghost w: nat, message: Message, handler: Option<HandlerId>, occasion: nat,
        channel: ResponseChannel) returns (sent: bool)
      requires Valid() && Inv(st) && HandlesTask(st, q, w)
      requires st.queues[q].workers[w].handler == handler
      requires message == st.tasks[st.queues[q].workers[w].task].message
      requires channel.Value() == st.channels[st.queues[q].workers[w].task]
      modifies `st, channel
      ensures Valid() && st == Step(old(st), Finish(q, w, occasion))
      ensures sent && channel.Value() == st.channels[old(st.queues[q].workers[w].task)]
      ensures channel.buffer == [if handler.Some? then world(handler.value, message, occasion)
                                 else Response(None, Some("no handler for message type"))]
    {
      NothingSentYet(st, q, w);
      FinishSends(st, q, w, occasion);
      hide Inv, Step, FinishOne;
      var response;
      if handler.None? {
        response := Response(None, Some("no handler for message type"));
      } else {
        response := world(handler.value, message, occasion);
      }
      sent := channel.SendResponse(response);
      st := Step(st, Finish(q, w, occasion));
    }
  }

  // ---------- batches ----------

  type Nullable = Option<string>

  predicate Succeeded(r: Response) { r.error.None? }
  predicate Erred(r: Response) { r.error.Some? }

  // What a message whose handler ended with r leaves in the response list: nothing next to an error.
  function ResponseOf(r: Response): Nullable { if r.error.Some? then None else r.message }

  class BatchDispatchResult {
    var successCount: nat
    var failedCount: nat
    const responses: array<Nullable>
    const errors: array<Nullable>

    constructor (n: nat)
      ensures successCount == failedCount == 0 && responses.Length == errors.Length == n
      ensures responses != errors && fresh(responses) && fresh(errors)
      ensures forall i :: 0 <= i < n ==> responses[i] == None && errors[i] == None
    {
      successCount, failedCount := 0, 0;
      responses := new Nullable[n](_ => None);
      errors := new Nullable[n](_ => None);
    }

    method Record(i: nat, resp: Response)
      requires i < responses.Length == errors.Length && responses != errors && responses[i] == errors[i] == None
      modifies this, responses, errors
      ensures errors[..] == old(errors[..])[i := resp.error]
      ensures responses[..] == old(responses[..])[i := ResponseOf(resp)]
      ensures successCount == old(successCount) + (if resp.error.None? then 1 else 0)
      ensures failedCount == old(failedCount) + (if resp.error.Some? then 1 else 0)
    {
      if resp.error.Some? {
        failedCount := failedCount + 1;
        errors[i] := resp.error;
      } else {
        successCount := successCount + 1;
        responses[i] := resp.message;
      }
    }
  }

  predicate Unread(c: Channel, r: Response) { c == Channel([r], [], 0) }

  // The batch: message k was offered by the event at position at[k] of the run, and has been processed
  // since; nobody has read its response.
  ghost predicate BatchRan(u: Setup, es: seq<Event>, msgs: seq<Message>, at: seq<nat>)
  {
    && u.shares != [] && |at| == |msgs| && (forall e <- es :: !Registers(e))
    && (forall k :: 0 <= k < |msgs| ==> Offers(es, at[k], msgs[k]))
    && (forall j, k :: 0 <= j < k < |at| ==> at[j] < at[k])
    && var s := Run(Step, Begin(u), es);
       forall k :: 0 <= k < |msgs| ==>
         && Done(s, OfferedAt(u, es, at[k]))
         && (OfferedAt(u, es, at[k]) < |s.channels| ==> s.channels[OfferedAt(u, es, at[k])].received == [])
  }

  // r is the outcome for a message: its handler's, called with it on some occasion.
  ghost predicate IsOutcome(u: Setup, m: Message, r: Response)
  {
    exists occasion: nat :: HandledAs(u, m, r, occasion)
  }

  // The channel of a processed message whose response nobody has read.
  lemma {:induction false} MessageReady(u: Setup, es: seq<Event>, at: nat, m: Message) returns (r: Response)
    requires u.shares != [] && Offers(es, at, m) && forall e <- es :: !Registers(e)
    requires Done(Run(Step, Begin(u), es), OfferedAt(u, es, at))
    ensures IsOutcome(u, m, r)
    ensures var s, i := Run(Step, Begin(u), es), OfferedAt(u, es, at);
      i < |s.channels| && (s.channels[i].received == [] ==> Unread(s.channels[i], r))
  {
    var occasion := OutcomeIsTheHandlers(u, es, at, m);
    OfferStays(u, es, at, m);
    OneResponseEach(u, es, OfferedAt(u, es, at));
    var c := Run(Step, Begin(u), es).channels[OfferedAt(u, es, at)];
    hide Step, Run, Begin, Done, Offers, Logged, Lookup, Outcome, HandledAs;
    r := (c.buffer + c.received)[0];
    assert c.buffer + c.received == [r];
    assert c.received == [] ==> c.buffer == [r];
  }

  /** The messages of a batch are different tasks, and once they are processed, every one of its channels
      holds one response, the outcome for that very message, so collecting never waits. */
  lemma {:induction false} BatchReady(u: Setup, es: seq<Event>, msgs: seq<Message>, at: seq<nat>)
    returns (outcomes: seq<Response>)
    requires BatchRan(u, es, msgs, at)
    ensures |outcomes| == |msgs|
    ensures forall k :: 0 <= k < |msgs| ==> IsOutcome(u, msgs[k], outcomes[k])
    ensures forall j, k :: 0 <= j < k < |msgs| ==> OfferedAt(u, es, at[j]) < OfferedAt(u, es, at[k])
    ensures forall k :: 0 <= k < |msgs| ==> OfferedAt(u, es, at[k]) < |Run(Step, Begin(u), es).channels|
    ensures forall k :: 0 <= k < |msgs| ==>
      Unread(Run(Step, Begin(u), es).channels[OfferedAt(u, es, at[k])], outcomes[k])
  {
    hide Step, Run, Begin, Done, OfferedAt, IsOutcome, Unread;
    var s := Run(Step, Begin(u), es);
    forall j, k | 0 <= j < k < |msgs| ensures OfferedAt(u, es, at[j]) < OfferedAt(u, es, at[k]) {
      OffersDiffer(u, es, at[j], at[k], msgs[j], msgs[k]);
    }
    outcomes := [];
    for k := 0 to |msgs|
      invariant |outcomes| == k
      invariant forall j :: 0 <= j < k ==> IsOutcome(u, msgs[j], outcomes[j])
      invariant forall j :: 0 <= j < k ==> OfferedAt(u, es, at[j]) < |s.channels|
      invariant forall j :: 0 <= j < k ==> Unread(s.channels[OfferedAt(u, es, at[j])], outcomes[j])
    {
      assert Done(s, OfferedAt(u, es, at[k]));
      var r := MessageReady(u, es, at[k], msgs[k]);
      outcomes := outcomes + [r];
    }
  }

  lemma NoneYet(outcomes: seq<Response>)
    ensures CountOf(outcomes[..0], Succeeded) == 0 && CountOf(outcomes[..0], Erred) == 0
  {
  }

  lemma CountNext(outcomes: seq<Response>, i: nat)
    requires i < |outcomes|
    ensures CountOf(outcomes[..i + 1], Succeeded)
      == CountOf(outcomes[..i], Succeeded) + (if outcomes[i].error.None? then 1 else 0)
    ensures CountOf(outcomes[..i + 1], Erred)
      == CountOf(outcomes[..i], Erred) + (if outcomes[i].error.Some? then 1 else 0)
  {
    assert outcomes[..i + 1][..i] == outcomes[..i];
  }

  /** DispatchBatchSync: its calls of Dispatch are the offers of the run, which may have any other events
      among them, and the rest is the collecting loop. Slot k of the result is the outcome for message k, the
      response only next to no error; the two counts are those of the slots without and with an error. */
  method DispatchBatchSync(ghost u: Setup, ghost es: seq<Event>, msgs: seq<Message>, ghost at: seq<nat>,
      channels: seq<ResponseChannel>) returns (result: BatchDispatchResult, ghost outcomes: seq<Response>)
    requires BatchRan(u, es, msgs, at) && |channels| == |msgs|
    requires forall k :: 0 <= k < |msgs| ==>
      && OfferedAt(u, es, at[k]) < |Run(Step, Begin(u), es).channels|
      && channels[k].Value() == Run(Step, Begin(u), es).channels[OfferedAt(u, es, at[k])]
    requires forall i, j :: 0 <= i < j < |channels| ==> channels[i] != channels[j]
    modifies channels
    ensures fresh(result) && |outcomes| == |msgs|
    ensures forall k :: 0 <= k < |msgs| ==> IsOutcome(u, msgs[k], outcomes[k])
    ensures result.responses.Length == result.errors.Length == |msgs|
    ensures forall k :: 0 <= k < |msgs| ==> result.errors[k] == outcomes[k].error
    ensures forall k :: 0 <= k < |msgs| ==> result.responses[k] == ResponseOf(outcomes[k])
    ensures result.successCount == CountOf(result.errors[..], IsNil())
    ensures result.failedCount == CountOf(result.errors[..], NotNil())
    ensures result.successCount + result.failedCount == |msgs|
  {
    outcomes := BatchReady(u, es, msgs, at);
    hide *;
    result := CollectBatch(channels, outcomes);
    SlotsCount(outcomes, result.errors[..]);
  }

  function IsNil(): Nullable -> bool { (e: Nullable) => e.None? }
  function NotNil(): Nullable -> bool { (e: Nullable) => e.Some? }

  lemma SlotsCount(outcomes: seq<Response>, errors: seq<Nullable>)
    requires |errors| == |outcomes| && forall k :: 0 <= k < |outcomes| ==> errors[k] == outcomes[k].error
    ensures CountOf(errors, IsNil()) == CountOf(outcomes, Succeeded)
    ensures CountOf(errors, NotNil()) == CountOf(outcomes, Erred)
  {
    CountSame(errors, IsNil(), outcomes, Succeeded);
    CountSame(errors, NotNil(), outcomes, Erred);
  }

  // The loop itself, over channels that hold one response each.
  method CollectBatch(channels: seq<ResponseChannel>, ghost outcomes: seq<Response>)
    returns (result: BatchDispatchResult)
    requires |outcomes| == |channels| && forall i :: 0 <= i < |channels| ==> Unread(channels[i].Value(), outcomes[i])
    requires forall i, j :: 0 <= i < j < |channels| ==> channels[i] != channels[j]
    modifies channels
    ensures fresh(result) && result.responses.Length == result.errors.Length == |channels|
    ensures forall i :: 0 <= i < |channels| ==> result.errors[i] == outcomes[i].error
    ensures forall i :: 0 <= i < |channels| ==> result.responses[i] == ResponseOf(outcomes[i])
    ensures result.successCount == CountOf(outcomes, Succeeded)
    ensures result.failedCount == CountOf(outcomes, Erred)
    ensures result.successCount + result.failedCount == |channels|
    ensures forall i :: 0 <= i < |channels| ==> channels[i].received == [outcomes[i]] && channels[i].buffer == []
  {
    hide CountOf;
    result := new BatchDispatchResult(|channels|);
    NoneYet(outcomes);
    for i := 0 to |channels|
      invariant result.responses.Length == result.errors.Length == |channels| && result.responses != result.errors
      invariant fresh(result.responses) && fresh(result.errors)
      invariant forall j :: i <= j < |channels| ==> Unread(channels[j].Value(), outcomes[j])
      invariant forall j :: i <= j < |channels| ==> result.errors[j] == None && result.responses[j] == None
      invariant forall j :: 0 <= j < i ==> channels[j].received == [outcomes[j]] && channels[j].buffer == []
      invariant forall j :: 0 <= j < i ==> result.errors[j] == outcomes[j].error
      invariant forall j :: 0 <= j < i ==> result.responses[j] == ResponseOf(outcomes[j])
      invariant result.successCount == CountOf(outcomes[..i], Succeeded)
      invariant result.failedCount == CountOf(outcomes[..i], Erred)
      invariant result.successCount + result.failedCount == i
    {
      var resp := channels[i].Receive();
      CountNext(outcomes, i);
      result.Record(i, resp);
    }
    assert outcomes[..|channels|] == outcomes;
  }
}
