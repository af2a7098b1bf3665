/** The message dispatchers: bounded FIFO queues with workers, round-robin and hash routing, and one
    response per task. A dispatcher with a single queue is the case of one share.

    Atomic steps: choosing a queue, one channel send or receive, giving up, stopping. */
module Dispatcher {
  import opened Basics
  import opened Counting
  import opened Hashing
  import opened QueueShares
  import opened Runs

  type TaskId = nat
  type MessageId = seq<byte>
  type MessageType = int
  type HandlerId = nat

  datatype Message = Message(id: MessageId, kind: MessageType, payload: string)

  datatype Response = Response(message: Option<string>, error: Option<string>)

  // What each handler does with a message; the last argument is whatever else its outcome depends on.
  type World = (HandlerId, Message, nat) -> Response

  datatype Fate = Offered | Accepted | Refused

  // ordinal: the task came from the ordinal-th round-robin call.
  datatype Origin = ByHash | ByTicket(ordinal: nat)

  datatype Task = Task(message: Message, origin: Origin, route: nat, fate: Fate)

  // A worker that received a task first looks its handler up, then calls it.
  datatype Worker = Idle | Holding(task: TaskId) | Handling(task: TaskId, handler: Option<HandlerId>) | Gone

  datatype Queue = Queue(
    capacity: nat,
    waiting: seq<TaskId>,
    workers: seq<Worker>,
    accepted: seq<TaskId>,          // history, in channel order
    taken: seq<TaskId>,             // history
    processed: seq<TaskId>)         // history

  // The response channel of a task, of capacity one as in DispatchSync and DispatchBatchSync.
  datatype Channel = Channel(
    buffer: seq<Response>,
    received: seq<Response>,        // history
    dropped: nat)                   // history: responses that hit the default branch

  // History: one processing of a task.
  datatype Call = Call(task: TaskId, message: Message, handler: Option<HandlerId>, occasion: nat)

  datatype State = State(
    queues: seq<Queue>,
    tasks: seq<Task>,
    channels: seq<Channel>,
    calls: nat,                     // round-robin calls so far
    stopped: bool,
    handlers: map<MessageType, HandlerId>,
    default: Option<HandlerId>,
    world: World,
    log: seq<Call>)

  datatype Event =
    | Register(kind: MessageType, handler: HandlerId)
    | Unregister(kind: MessageType)
    | Offer(message: Message, byHash: bool)
    | Accept(i: TaskId)
    | Refuse(i: TaskId)
    | Take(q: nat, w: nat)
    | Find(q: nat, w: nat)
    | Finish(q: nat, w: nat, occasion: nat)
    | Receive(i: TaskId)
    | Stop
    | WorkerLeaves(q: nat, w: nat)

  // ---------- one queue ----------

  function Push(q: Queue, i: TaskId): Queue
  {
    if |q.waiting| < q.capacity then q.(waiting := q.waiting + [i], accepted := q.accepted + [i]) else q
  }

  predicate CanTake(q: Queue, w: nat) { w < |q.workers| && q.workers[w].Idle? && q.waiting != [] }

  function TakeOne(q: Queue, w: nat): Queue
  {
    if CanTake(q, w) then
      q.(waiting := q.waiting[1..], workers := q.workers[w := Holding(q.waiting[0])], taken := q.taken + [q.waiting[0]])
    else q
  }

  predicate Busy(w: Worker) { w.Holding? || w.Handling? }

  predicate Holds(q: Queue, w: nat) { w < |q.workers| && q.workers[w].Holding? }

  predicate Handles(q: Queue, w: nat) { w < |q.workers| && q.workers[w].Handling? }

  function FindOne(q: Queue, w: nat, handler: Option<HandlerId>): Queue
  {
    if Holds(q, w) then q.(workers := q.workers[w := Handling(q.workers[w].task, handler)]) else q
  }

  function FinishOne(q: Queue, w: nat): Queue
  {
    if Handles(q, w) then q.(workers := q.workers[w := Idle], processed := q.processed + [q.workers[w].task]) else q
  }

  function Leave(q: Queue, w: nat): Queue
  {
    if w < |q.workers| && q.workers[w].Idle? then q.(workers := q.workers[w := Gone]) else q
  }

  function HasInHand(i: TaskId): Worker -> bool { (w: Worker) => Busy(w) && w.task == i }

  // How many workers have task i in hand.
  function Held(ws: seq<Worker>, i: TaskId): nat { CountOf(ws, HasInHand(i)) }

  // Every taking of task i is a worker still holding it or a processing of it.
  predicate Balanced(q: Queue, i: TaskId) { multiset(q.taken)[i] == Held(q.workers, i) + multiset(q.processed)[i] }

  lemma HeldUpdate(ws: seq<Worker>, w: nat, h: Worker, i: TaskId)
    requires w < |ws|
    ensures Held(ws[w := h], i)
      == Held(ws, i) - (if HasInHand(i)(ws[w]) then 1 else 0) + (if HasInHand(i)(h) then 1 else 0)
  {
    CountUpdate(ws, HasInHand(i), w, h);
  }

  ghost predicate QueueOk(q: Queue)
  {
    && |q.waiting| <= q.capacity
    && q.accepted == q.taken + q.waiting
    && (forall i :: Balanced(q, i))
    && (|q.workers| == 1 ==> q.taken == q.processed + (if Busy(q.workers[0]) then [q.workers[0].task] else []))
  }

  lemma PushKeeps(q: Queue, i: TaskId)
    requires QueueOk(q)
    ensures QueueOk(Push(q, i))
  {
    forall j ensures Balanced(Push(q, i), j) { assert Balanced(q, j); }
  }

  lemma TakeKeeps(q: Queue, w: nat)
    requires QueueOk(q)
    ensures QueueOk(TakeOne(q, w))
  {
    if CanTake(q, w) {
      assert q.waiting == [q.waiting[0]] + q.waiting[1..];
      forall i ensures Balanced(TakeOne(q, w), i) {
        assert Balanced(q, i);
        HeldUpdate(q.workers, w, Holding(q.waiting[0]), i);
      }
    }
  }

  lemma FindKeeps(q: Queue, w: nat, handler: Option<HandlerId>)
    requires QueueOk(q)
    ensures QueueOk(FindOne(q, w, handler))
  {
    if Holds(q, w) {
      forall i ensures Balanced(FindOne(q, w, handler), i) {
        assert Balanced(q, i);
        HeldUpdate(q.workers, w, Handling(q.workers[w].task, handler), i);
      }
    }
  }

  lemma FinishKeeps(q: Queue, w: nat)
    requires QueueOk(q)
    ensures QueueOk(FinishOne(q, w))
  {
    if Handles(q, w) {
      forall i ensures Balanced(FinishOne(q, w), i) {
        assert Balanced(q, i);
        HeldUpdate(q.workers, w, Idle, i);
      }
    }
  }

  lemma LeaveKeeps(q: Queue, w: nat)
    requires QueueOk(q)
    ensures QueueOk(Leave(q, w))
  {
    if w < |q.workers| && q.workers[w].Idle? {
      forall i ensures Balanced(Leave(q, w), i) {
        assert Balanced(q, i);
        HeldUpdate(q.workers, w, Gone, i);
      }
    }
  }

  // ---------- the dispatcher ----------

  function HashQueue(m: MessageId, n: nat): nat
    requires n > 0
  {
    FnvHash(m) % n
  }

  function Route(m: MessageId, o: Origin, n: nat): (q: nat)
    requires n > 0
    ensures q < n
  {
    if o.ByHash? then HashQueue(m, n) else TicketQueue(o.ordinal, n)
  }

  predicate IsOffered(s: State, i: TaskId)
  {
    i < |s.tasks| && s.tasks[i].fate.Offered? && s.tasks[i].route < |s.queues|
  }

  predicate HasRoom(s: State, i: TaskId)
    requires IsOffered(s, i)
  {
    var q := s.queues[s.tasks[i].route];
    |q.waiting| < q.capacity
  }

  // sendResponse: a select with a default branch.
  function Send(c: Channel, r: Response): Channel
  {
    if |c.buffer| < 1 then c.(buffer := c.buffer + [r]) else c.(dropped := c.dropped + 1)
  }

  // findHandler: the handler of the message's own type, else the default handler.
  function Lookup(handlers: map<MessageType, HandlerId>, default: Option<HandlerId>, kind: MessageType)
    : Option<HandlerId>
  {
    if kind in handlers then Some(handlers[kind]) else default
  }

  // What a processing produces.
  function Outcome(world: World, c: Call): Response
  {
    match c.handler
    case Some(h) => world(h, c.message, c.occasion)
    case None => Response(None, Some("no handler for message type"))
  }

  predicate HandlesTask(s: State, q: nat, w: nat)
  {
    q < |s.queues| && Handles(s.queues[q], w) && s.queues[q].workers[w].task < |s.tasks| == |s.channels|
  }

  function CallOf(s: State, q: nat, w: nat, occasion: nat): Call
    requires HandlesTask(s, q, w)
  {
    var worker := s.queues[q].workers[w];
    Call(worker.task, s.tasks[worker.task].message, worker.handler, occasion)
  }

  function Step(s: State, e: Event): State
  {
    match e
    case Register(kind, handler) => s.(handlers := s.handlers[kind := handler])
    case Unregister(kind) => s.(handlers := s.handlers - {kind})
    case Offer(m, byHash) =>
      if |s.queues| == 0 then s else
        var o := if byHash then ByHash else ByTicket(s.calls + 1);
        s.(tasks := s.tasks + [Task(m, o, Route(m.id, o, |s.queues|), Offered)],
           channels := s.channels + [Channel([], [], 0)],
           calls := if byHash then s.calls else s.calls + 1)
    case Accept(i) =>
      if IsOffered(s, i) && HasRoom(s, i) then
        s.(tasks := s.tasks[i := s.tasks[i].(fate := Accepted)],
           queues := s.queues[s.tasks[i].route := Push(s.queues[s.tasks[i].route], i)])
      else s
    case Refuse(i) => if IsOffered(s, i) then s.(tasks := s.tasks[i := s.tasks[i].(fate := Refused)]) else s
    case Take(q, w) => if q < |s.queues| then s.(queues := s.queues[q := TakeOne(s.queues[q], w)]) else s
    case Find(q, w) =>
      if q < |s.queues| && Holds(s.queues[q], w) && s.queues[q].workers[w].task < |s.tasks| then
        var kind := s.tasks[s.queues[q].workers[w].task].message.kind;
        s.(queues := s.queues[q := FindOne(s.queues[q], w, Lookup(s.handlers, s.default, kind))])
      else s
    case Finish(q, w, occasion) =>
      if HandlesTask(s, q, w) then
        var c := CallOf(s, q, w, occasion);
        s.(queues := s.queues[q := FinishOne(s.queues[q], w)],
           channels := s.channels[c.task := Send(s.channels[c.task], Outcome(s.world, c))],
           log := s.log + [c])
      else s
    case Receive(i) =>
      if i < |s.channels| && s.channels[i].buffer != [] then
        var c := s.channels[i];
        s.(channels := s.channels[i := c.(buffer := c.buffer[1..], received := c.received + [c.buffer[0]])])
      else s
    case Stop => s.(stopped := true)
    case WorkerLeaves(q, w) =>
      if q < |s.queues| && s.stopped then s.(queues := s.queues[q := Leave(s.queues[q], w)]) else s
  }

  function Fresh(share: Share): Queue
  {
    Queue(share.capacity, [], seq(share.workers, _ => Idle), [], [], [])
  }

  /** A dispatcher as it is configured: the shares of its queues, its handlers, and what those do. */
  datatype Setup = Setup(
    shares: seq<Share>, handlers: map<MessageType, HandlerId>, default: Option<HandlerId>, world: World)

  function Begin(u: Setup): State
  {
    State(seq(|u.shares|, q requires 0 <= q < |u.shares| => Fresh(u.shares[q])), [], [], 0, false,
          u.handlers, u.default, u.world, [])
  }

  // ---------- invariant ----------

  ghost predicate QueuesOk(s: State) { forall q :: 0 <= q < |s.queues| ==> QueueOk(s.queues[q]) }

  predicate TaskOk(s: State, i: TaskId)
  {
    i < |s.tasks| ==>
      var t := s.tasks[i];
      && t.route < |s.queues|
      && t.route == Route(t.message.id, t.origin, |s.queues|)
      && (t.origin.ByTicket? ==> 1 <= t.origin.ordinal <= s.calls)
  }

  predicate AcceptedAt(s: State, q: nat, i: TaskId)
  {
    i < |s.tasks| && s.tasks[i].fate.Accepted? && s.tasks[i].route == q
  }

  // An accepted task entered its own queue once, and no other.
  predicate EnteredOk(s: State, q: nat, i: TaskId)
  {
    q < |s.queues| ==> multiset(s.queues[q].accepted)[i] == if AcceptedAt(s, q, i) then 1 else 0
  }

  predicate Done(s: State, i: TaskId)
  {
    i < |s.tasks| && s.tasks[i].route < |s.queues| && i in s.queues[s.tasks[i].route].processed
  }

  // The position of the first processing of a task in the log, or |log|.
  function Logged(log: seq<Call>, i: TaskId): (k: nat)
    ensures k <= |log| && (k < |log| ==> log[k].task == i)
    ensures forall j :: 0 <= j < k ==> log[j].task != i
  {
    if log == [] || log[0].task == i then 0 else 1 + Logged(log[1..], i)
  }

  // A task is in the log exactly once if it is processed, with its own message, and else not at all.
  predicate LogOk(s: State, i: TaskId)
  {
    var k := Logged(s.log, i);
    && (k < |s.log| <==> Done(s, i))
    && (k < |s.log| ==>
          && s.log[k].message == s.tasks[i].message
          && forall j :: k < j < |s.log| ==> s.log[j].task != i)
  }

  predicate ChannelOk(s: State, i: TaskId)
  {
    i < |s.channels| ==>
      var c := s.channels[i];
      var k := Logged(s.log, i);
      && c.dropped == 0
      && c.buffer + c.received == if k < |s.log| then [Outcome(s.world, s.log[k])] else []
  }

  ghost predicate TasksOk(s: State)
  {
    && |s.tasks| == |s.channels|
    && (forall i :: TaskOk(s, i))
    && (forall q, i :: EnteredOk(s, q, i))
  }

  ghost predicate ChannelsOk(s: State) { forall i :: LogOk(s, i) && ChannelOk(s, i) }

  ghost predicate Inv(s: State) { QueuesOk(s) && TasksOk(s) && ChannelsOk(s) }

  lemma StepKeepsQueues(s: State, e: Event)
    requires QueuesOk(s)
    ensures QueuesOk(Step(s, e))
  {
    hide QueueOk, Push, TakeOne, FindOne, FinishOne, Leave, Route, Send;
    match e
    case Accept(i) => if IsOffered(s, i) { PushKeeps(s.queues[s.tasks[i].route], i); }
    case Take(q, w) => if q < |s.queues| { TakeKeeps(s.queues[q], w); }
    case Find(q, w) =>
      if q < |s.queues| && Holds(s.queues[q], w) && s.queues[q].workers[w].task < |s.tasks| {
        FindKeeps(s.queues[q], w, Lookup(s.handlers, s.default, s.tasks[s.queues[q].workers[w].task].message.kind));
      }
    case Finish(q, w, _) => if q < |s.queues| { FinishKeeps(s.queues[q], w); }
    case WorkerLeaves(q, w) => if q < |s.queues| { LeaveKeeps(s.queues[q], w); }
    case _ =>
  }

  lemma StepKeepsTask(s: State, e: Event, i: TaskId)
    requires TaskOk(s, i)
    ensures TaskOk(Step(s, e), i)
  {
    hide Route, Push, TakeOne, FindOne, FinishOne, Leave, Send;
  }

  lemma OthersAcceptNothing(s: State, e: Event, q: nat, i: TaskId)
    requires !e.Accept?
    ensures var t := Step(s, e);
      && |t.queues| == |s.queues|
      && (q < |s.queues| ==> t.queues[q].accepted == s.queues[q].accepted)
      && (AcceptedAt(t, q, i) <==> AcceptedAt(s, q, i))
  {
    hide Route, Send, Lookup, Outcome;
  }

  lemma StepKeepsEntered(s: State, e: Event, q: nat, i: TaskId)
    requires EnteredOk(s, q, i)
    ensures EnteredOk(Step(s, e), q, i)
  {
    hide Route, Send, Lookup, Outcome;
    if !e.Accept? {
      OthersAcceptNothing(s, e, q, i);
      hide Step, AcceptedAt;
    }
  }

  lemma StepKeepsTasks(s: State, e: Event)
    requires TasksOk(s)
    ensures TasksOk(Step(s, e))
  {
    forall i ensures TaskOk(Step(s, e), i) { StepKeepsTask(s, e, i); }
    forall q, i ensures EnteredOk(Step(s, e), q, i) { StepKeepsEntered(s, e, q, i); }
    hide TaskOk, EnteredOk, Route, Push, TakeOne, FindOne, FinishOne, Leave, Send;
  }

  /** A task in a worker's hand has been accepted by that worker's queue, and not been processed yet. */
  lemma HeldTask(s: State, q: nat, w: nat)
    requires QueuesOk(s) && TasksOk(s) && q < |s.queues| && w < |s.queues[q].workers| && Busy(s.queues[q].workers[w])
    ensures var i := s.queues[q].workers[w].task;
      AcceptedAt(s, q, i) && i !in s.queues[q].processed
  {
    var k := s.queues[q];
    var i := k.workers[w].task;
    assert QueueOk(k) && Balanced(k, i) && EnteredOk(s, q, i);
    HeldUpdate(k.workers, w, Idle, i);
    assert multiset(k.accepted)[i] == multiset(k.taken)[i] + multiset(k.waiting)[i];
  }

  lemma NotYetProcessed(s: State, q: nat)
    requires QueuesOk(s) && TasksOk(s) && q < |s.queues|
    ensures |s.tasks| !in s.queues[q].processed
  {
    var k, i := s.queues[q], |s.tasks|;
    assert QueueOk(k) && Balanced(k, i) && EnteredOk(s, q, i);
    assert multiset(k.accepted)[i] == multiset(k.taken)[i] + multiset(k.waiting)[i];
  }

  // One more processing goes to the end of the log.
  lemma LoggedNext(log: seq<Call>, c: Call, i: TaskId)
    ensures Logged(log + [c], i) ==
      if Logged(log, i) < |log| then Logged(log, i) else if c.task == i then |log| else |log| + 1
  {
    var k, n := Logged(log, i), Logged(log + [c], i);
    if k < |log| { assert (log + [c])[k].task == i; }
    if k == |log| && c.task == i { assert (log + [c])[|log|].task == i; }
    if n < |log| { assert (log + [c])[n] == log[n]; }
  }

  lemma FinishKeepsLog(s: State, q: nat, w: nat, occasion: nat, i: TaskId)
    requires QueuesOk(s) && TasksOk(s) && LogOk(s, i)
    ensures LogOk(Step(s, Finish(q, w, occasion)), i)
  {
    assert TaskOk(s, i);
    if HandlesTask(s, q, w) {
      HeldTask(s, q, w);
      LoggedNext(s.log, CallOf(s, q, w, occasion), i);
    }
    hide QueuesOk, TasksOk, Route, Logged, Lookup, Outcome, Send;
  }

  lemma FinishKeepsChannel(s: State, q: nat, w: nat, occasion: nat, i: TaskId)
    requires QueuesOk(s) && TasksOk(s) && LogOk(s, i) && ChannelOk(s, i)
    ensures LogOk(Step(s, Finish(q, w, occasion)), i) && ChannelOk(Step(s, Finish(q, w, occasion)), i)
  {
    FinishKeepsLog(s, q, w, occasion, i);
    if HandlesTask(s, q, w) {
      HeldTask(s, q, w);
      LoggedNext(s.log, CallOf(s, q, w, occasion), i);
    }
    hide QueuesOk, TasksOk, Route, Logged, Lookup, Outcome, FinishOne;
  }

  lemma OfferKeepsChannel(s: State, m: Message, byHash: bool, i: TaskId)
    requires QueuesOk(s) && TasksOk(s) && LogOk(s, i) && ChannelOk(s, i)
    ensures LogOk(Step(s, Offer(m, byHash)), i) && ChannelOk(Step(s, Offer(m, byHash)), i)
  {
    if |s.queues| > 0 { NotYetProcessed(s, Step(s, Offer(m, byHash)).tasks[|s.tasks|].route); }
    hide QueuesOk, TasksOk, Route, Logged;
  }

  // The other events process nothing.
  lemma OthersProcessNothing(s: State, e: Event, i: TaskId)
    requires !e.Finish? && !e.Offer?
    ensures var t := Step(s, e);
      && t.log == s.log && t.world == s.world && |t.tasks| == |s.tasks| && |t.channels| == |s.channels|
      && (Done(t, i) <==> Done(s, i))
      && (i < |s.tasks| ==> t.tasks[i].message == s.tasks[i].message)
      && (i < |s.channels| && e != Receive(i) ==> t.channels[i] == s.channels[i])
  {
    hide Lookup, Outcome;
  }

  lemma OthersKeepChannel(s: State, e: Event, i: TaskId)
    requires !e.Finish? && !e.Offer? && |s.tasks| == |s.channels| && LogOk(s, i) && ChannelOk(s, i)
    ensures LogOk(Step(s, e), i) && ChannelOk(Step(s, e), i)
  {
    OthersProcessNothing(s, e, i);
    hide Logged, Lookup, Outcome, Done;
    if e != Receive(i) { hide Step; }
  }

  lemma StepKeepsChannel(s: State, e: Event, i: TaskId)
    requires QueuesOk(s) && TasksOk(s) && LogOk(s, i) && ChannelOk(s, i)
    ensures LogOk(Step(s, e), i) && ChannelOk(Step(s, e), i)
  {
    hide Step, ChannelOk, LogOk, QueuesOk;
    match e
    case Finish(q, w, occasion) => FinishKeepsChannel(s, q, w, occasion, i);
    case Offer(m, byHash) => OfferKeepsChannel(s, m, byHash, i);
    case _ => OthersKeepChannel(s, e, i);
  }

  lemma StepKeepsInv(s: State, e: Event)
    requires Inv(s)
    ensures Inv(Step(s, e)) && |Step(s, e).queues| == |s.queues| && Step(s, e).world == s.world
  {
    StepKeepsQueues(s, e);
    StepKeepsTasks(s, e);
    forall i ensures LogOk(Step(s, e), i) && ChannelOk(Step(s, e), i) {
      assert LogOk(s, i) && ChannelOk(s, i);
      StepKeepsChannel(s, e, i);
    }
    hide QueuesOk, TasksOk, LogOk, ChannelOk, Push, TakeOne, FindOne, FinishOne, Leave, Send, Route;
  }

  lemma BeginOk(u: Setup)
    ensures Inv(Begin(u))
  {
    forall q, i | 0 <= q < |u.shares| ensures Balanced(Begin(u).queues[q], i) {
      CountAll(Begin(u).queues[q].workers, HasInHand(i));
    }
  }

  lemma {:induction false} AllRuns(u: Setup, es: seq<Event>)
    ensures var s := Run(Step, Begin(u), es); Inv(s) && |s.queues| == |u.shares| && s.world == u.world
  {
    var inv := (s: State) => Inv(s) && |s.queues| == |u.shares| && s.world == u.world;
    BeginOk(u);
    hide Inv;
    forall s, e | inv(s) ensures inv(Step(s, e)) { StepKeepsInv(s, e); }
    Invariant(Step, inv, Begin(u), es);
  }

  // ---------- theorems over all interleavings ----------

  function Places(q: Queue, i: TaskId): nat
  {
    multiset(q.waiting)[i] + Held(q.workers, i) + multiset(q.processed)[i]
  }

  /** An accepted task is in exactly one place of its own queue: waiting, in one worker's hand, or
      processed, and it is processed at most once; a task that was not accepted is nowhere. */
  lemma {:induction false} ExactlyOnePlace(u: Setup, es: seq<Event>, q: nat, i: TaskId)
    requires q < |u.shares|
    ensures var s := Run(Step, Begin(u), es);
      |s.queues| == |u.shares| && Places(s.queues[q], i) == if AcceptedAt(s, q, i) then 1 else 0
  {
    AllRuns(u, es);
    var s := Run(Step, Begin(u), es);
    var k := s.queues[q];
    assert QueueOk(k) && Balanced(k, i) && EnteredOk(s, q, i);
    assert multiset(k.accepted)[i] == multiset(k.taken)[i] + multiset(k.waiting)[i];
  }

  predicate Precedes(s: seq<TaskId>, i: TaskId, j: TaskId)
  {
    exists a, b :: 0 <= a < b < |s| && s[a] == i && s[b] == j
  }

  lemma TwiceIn(s: seq<TaskId>, a: nat, b: nat)
    requires a < b < |s| && s[a] == s[b]
    ensures multiset(s)[s[a]] >= 2
  {
    assert s == s[..b] + [s[b]] + s[b + 1..];
    assert s[a] == s[..b][a];
    assert s[a] in multiset(s[..b]);
  }

  // In a duplicate-free sequence, a prefix that has reached j has passed everything before j.
  lemma PrefixPrecedes(prefix: seq<TaskId>, s: seq<TaskId>, i: TaskId, j: TaskId)
    requires prefix <= s && Precedes(s, i, j) && j in prefix && multiset(s)[j] <= 1
    ensures Precedes(prefix, i, j)
  {
    var a, b :| 0 <= a < b < |s| && s[a] == i && s[b] == j;
    var c :| 0 <= c < |prefix| && prefix[c] == j;
    if c < b { TwiceIn(s, c, b); } else if b < c { TwiceIn(s, b, c); }
    assert 0 <= a < c < |prefix| && prefix[a] == i && prefix[c] == j;
  }

  /** Tasks with the same message id sent by DispatchByHash go to the same queue; they are taken from it
      in the order of acceptance, and processed in that order when the queue has one worker. */
  lemma {:induction false} SameMessageInOrder(u: Setup, es: seq<Event>, i: TaskId, j: TaskId)
    requires var s := Run(Step, Begin(u), es);
      && i < |s.tasks| && j < |s.tasks| && s.tasks[i].message.id == s.tasks[j].message.id
      && s.tasks[i].origin.ByHash? && s.tasks[j].origin.ByHash?
    ensures var s := Run(Step, Begin(u), es);
      && s.tasks[i].route == s.tasks[j].route < |s.queues|
      && var q := s.queues[s.tasks[i].route];
      && (Precedes(q.accepted, i, j) && j in q.taken ==> Precedes(q.taken, i, j))
      && (Precedes(q.accepted, i, j) && j in q.processed && |q.workers| == 1 ==> Precedes(q.processed, i, j))
  {
    AllRuns(u, es);
    var s := Run(Step, Begin(u), es);
    assert TaskOk(s, i) && TaskOk(s, j);
    var q := s.queues[s.tasks[i].route];
    assert QueueOk(q) && EnteredOk(s, s.tasks[i].route, j);
    hide TaskOk, Step, QueuesOk;
    if Precedes(q.accepted, i, j) && j in q.taken { PrefixPrecedes(q.taken, q.accepted, i, j); }
    if Precedes(q.accepted, i, j) && j in q.processed && |q.workers| == 1 {
      PrefixPrecedes(q.processed, q.accepted, i, j);
    }
  }

  /** When no queue has a task waiting and no worker has one in hand, every accepted task is processed. */
  lemma {:induction false} QuietIsDone(u: Setup, es: seq<Event>, i: TaskId)
    requires var s := Run(Step, Begin(u), es);
      && i < |s.tasks| && s.tasks[i].fate.Accepted?
      && forall q :: 0 <= q < |s.queues| ==> Quiet(s.queues[q])
    ensures Done(Run(Step, Begin(u), es), i)
  {
    AllRuns(u, es);
    var s := Run(Step, Begin(u), es);
    assert TaskOk(s, i);
    var q := s.tasks[i].route;
    ExactlyOnePlace(u, es, q, i);
    assert Quiet(s.queues[q]);
    CountAll(s.queues[q].workers, HasInHand(i));
  }

  predicate Quiet(q: Queue) { q.waiting == [] && forall w :: 0 <= w < |q.workers| ==> !Busy(q.workers[w]) }

  /** A processed task has been handled exactly once, with its own message, and has sent exactly one
      response, the outcome of that handling; none was dropped. A task not processed has sent none. */
  lemma {:induction false} OneResponseEach(u: Setup, es: seq<Event>, i: TaskId)
    requires i < |Run(Step, Begin(u), es).tasks|
    ensures var s := Run(Step, Begin(u), es);
      var k := Logged(s.log, i);
      && i < |s.channels| && s.channels[i].dropped == 0
      && (k < |s.log| <==> Done(s, i))
      && (k < |s.log| ==>
            && s.log[k].message == s.tasks[i].message
            && (forall j :: 0 <= j < |s.log| && s.log[j].task == i ==> j == k)
            && s.channels[i].buffer + s.channels[i].received == [Outcome(u.world, s.log[k])])
      && (k == |s.log| ==> s.channels[i].buffer == s.channels[i].received == [])
  {
    AllRuns(u, es);
    var s := Run(Step, Begin(u), es);
    assert LogOk(s, i) && ChannelOk(s, i);
  }

  // ---------- which handler, which message ----------

  predicate Registers(e: Event) { e.Register? || e.Unregister? }

  // Every handler found so far is the one the setup gives for the type of the task's message.
  ghost predicate HandlersOk(u: Setup, s: State)
  {
    && s.handlers == u.handlers && s.default == u.default
    && (forall q: nat, w: nat :: HandlesTask(s, q, w) ==>
          var c := s.queues[q].workers[w];
          c.handler == Lookup(u.handlers, u.default, s.tasks[c.task].message.kind))
    && (forall k :: 0 <= k < |s.log| ==>
          s.log[k].handler == Lookup(u.handlers, u.default, s.log[k].message.kind))
  }

  // A worker that is handling a task after a step was handling it before, or has just found its handler.
  lemma StepHandles(s: State, e: Event, q: nat, w: nat)
    requires HandlesTask(Step(s, e), q, w) && |s.tasks| == |s.channels| && !Registers(e)
    requires q < |s.queues| && w < |s.queues[q].workers| && Busy(s.queues[q].workers[w]) ==>
      s.queues[q].workers[w].task < |s.tasks|
    ensures var t := Step(s, e);
      var c := t.queues[q].workers[w];
      && c.task < |s.tasks| && t.tasks[c.task].message == s.tasks[c.task].message
      && ((HandlesTask(s, q, w) && s.queues[q].workers[w] == c)
          || c.handler == Lookup(s.handlers, s.default, s.tasks[c.task].message.kind))
  {
    hide Lookup, Outcome, Route;
  }

  lemma StepKeepsHandlers(u: Setup, s: State, e: Event)
    requires Inv(s) && HandlersOk(u, s) && !Registers(e)
    ensures HandlersOk(u, Step(s, e))
  {
    var t := Step(s, e);
    forall q: nat, w: nat | HandlesTask(t, q, w)
      ensures var c := t.queues[q].workers[w]; c.handler == Lookup(u.handlers, u.default, t.tasks[c.task].message.kind)
    {
      if q < |s.queues| && w < |s.queues[q].workers| && Busy(s.queues[q].workers[w]) { HeldTask(s, q, w); }
      StepHandles(s, e, q, w);
    }
    if e.Finish? && HandlesTask(s, e.q, e.w) {
      assert t.log == s.log + [CallOf(s, e.q, e.w, e.occasion)];
    }
    hide Inv, Lookup, Outcome, Route;
  }

  lemma {:induction false} HandlersStay(u: Setup, es: seq<Event>)
    requires forall e <- es :: !Registers(e)
    ensures HandlersOk(u, Run(Step, Begin(u), es))
  {
    if es != [] {
      var front, last := es[..|es| - 1], es[|es| - 1];
      assert last in es;
      HandlersStay(u, front);
      AllRuns(u, front);
      StepKeepsHandlers(u, Run(Step, Begin(u), front), last);
    }
  }

  // Tasks are only added, and keep their messages.
  ghost predicate KeepsTasks(s: State, t: State)
  {
    && |s.tasks| <= |t.tasks|
    && (forall i :: 0 <= i < |s.tasks| ==> t.tasks[i].message == s.tasks[i].message)
    && (|s.queues| == |t.queues|)
  }

  lemma StepKeepsTasksThere(s: State, e: Event)
    ensures KeepsTasks(s, Step(s, e))
  {
    hide Route, Lookup, Outcome;
  }

  // The id of the task that the event at a position of a run offers.
  function OfferedAt(u: Setup, es: seq<Event>, at: nat): TaskId
    requires at < |es|
  {
    |Run(Step, Begin(u), es[..at]).tasks|
  }

  predicate Offers(es: seq<Event>, at: nat, m: Message) { at < |es| && es[at].Offer? && es[at].message == m }

  lemma OfferAdds(s: State, e: Event)
    requires e.Offer? && |s.queues| > 0
    ensures |Step(s, e).tasks| == |s.tasks| + 1 && Step(s, e).tasks[|s.tasks|].message == e.message
  {
  }

  lemma {:induction false} OfferStays(u: Setup, es: seq<Event>, at: nat, m: Message)
    requires u.shares != [] && Offers(es, at, m)
    ensures var i, s := OfferedAt(u, es, at), Run(Step, Begin(u), es);
      i < |s.tasks| && s.tasks[i].message == m
    ensures at + 1 <= |es| && OfferedAt(u, es, at) < |Run(Step, Begin(u), es[..at + 1]).tasks|
  {
    hide Step, Run, Begin, Inv;
    var before := Run(Step, Begin(u), es[..at]);
    AllRuns(u, es[..at]);
    OfferAdds(before, es[at]);
    assert es[..at + 1] == es[..at] + [es[at]];
    RunSnoc(Step, Begin(u), es[..at], es[at]);
    assert es == es[..at + 1] + es[at + 1..];
    RunConcat(Step, Begin(u), es[..at + 1], es[at + 1..]);
    RunKeepsTasks(Run(Step, Begin(u), es[..at + 1]), es[at + 1..]);
  }

  lemma {:induction false} RunKeepsTasks(s: State, es: seq<Event>)
    ensures KeepsTasks(s, Run(Step, s, es))
  {
    forall t, e ensures KeepsTasks(t, Step(t, e)) { StepKeepsTasksThere(t, e); }
    Preserved(Step, t => true, (t, v) => KeepsTasks(t, v), s, es);
  }

  // Different offers of a run make different tasks.
  lemma {:induction false} OffersDiffer(u: Setup, es: seq<Event>, a: nat, b: nat, m: Message, n: Message)
    requires u.shares != [] && a < b && Offers(es, a, m) && Offers(es, b, n)
    ensures OfferedAt(u, es, a) < OfferedAt(u, es, b)
  {
    OfferStays(u, es, a, m);
    assert es[..b] == es[..a + 1] + es[a + 1..b];
    RunConcat(Step, Begin(u), es[..a + 1], es[a + 1..b]);
    RunKeepsTasks(Run(Step, Begin(u), es[..a + 1]), es[a + 1..b]);
  }

  // r is what becomes of a message: its type's own handler is asked, the default handler if the type has
  // none, and without either it is an error.
  predicate HandledAs(u: Setup, m: Message, r: Response, occasion: nat)
  {
    if m.kind in u.handlers then r == u.world(u.handlers[m.kind], m, occasion)
    else if u.default.Some? then r == u.world(u.default.value, m, occasion)
    else r.message.None? && r.error.Some?
  }

  /** In a run whose handlers are set up beforehand, the one response of a processed task comes from the
      handler of its own message's type, called with that message, else from the default handler, and is an
      error without either. */
  lemma {:induction false} OutcomeIsTheHandlers(u: Setup, es: seq<Event>, at: nat, m: Message) returns (occasion: nat)
    requires u.shares != [] && Offers(es, at, m) && forall e <- es :: !Registers(e)
    requires Done(Run(Step, Begin(u), es), OfferedAt(u, es, at))
    ensures var s, i := Run(Step, Begin(u), es), OfferedAt(u, es, at);
      && i < |s.channels| && |s.channels[i].buffer + s.channels[i].received| == 1
      && HandledAs(u, m, (s.channels[i].buffer + s.channels[i].received)[0], occasion)
  {
    var s, i := Run(Step, Begin(u), es), OfferedAt(u, es, at);
    OfferStays(u, es, at, m);
    OneResponseEach(u, es, i);
    HandlersStay(u, es);
    occasion := s.log[Logged(s.log, i)].occasion;
  }

  // The handler that the latest registration for a type, or its removal, leaves.
  function Registered(u: Setup, es: seq<Event>, kind: MessageType): Option<HandlerId>
  {
    if es == [] then (if kind in u.handlers then Some(u.handlers[kind]) else None)
    else
      match es[|es| - 1]
      case Register(k, handler) => if k == kind then Some(handler) else Registered(u, es[..|es| - 1], kind)
      case Unregister(k) => if k == kind then None else Registered(u, es[..|es| - 1], kind)
      case _ => Registered(u, es[..|es| - 1], kind)
  }

  lemma {:induction false} HandlersAreRegistered(u: Setup, es: seq<Event>, kind: MessageType)
    ensures var s := Run(Step, Begin(u), es);
      && s.default == u.default
      && Registered(u, es, kind) == if kind in s.handlers then Some(s.handlers[kind]) else None
  {
    if es != [] {
      HandlersAreRegistered(u, es[..|es| - 1], kind);
      hide Begin, Route, Send, TakeOne, Leave, FindOne, FinishOne;
    }
  }

  /** In every run a worker looks up the handler registered last for the type of the message in its hand, and
      falls back on the default handler when there is none or it was removed. */
  lemma {:induction false} LatestHandlerIsFound(u: Setup, es: seq<Event>, q: nat, w: nat)
    requires var s := Run(Step, Begin(u), es);
      q < |s.queues| && Holds(s.queues[q], w) && s.queues[q].workers[w].task < |s.tasks|
    ensures var s := Run(Step, Begin(u), es);
      var t, i := Step(s, Find(q, w)), s.queues[q].workers[w].task;
      var latest := Registered(u, es, s.tasks[i].message.kind);
      && q < |t.queues| && w < |t.queues[q].workers|
      && t.queues[q].workers[w] == Handling(i, if latest.Some? then latest else u.default)
  {
    var s := Run(Step, Begin(u), es);
    HandlersAreRegistered(u, es, s.tasks[s.queues[q].workers[w].task].message.kind);
    hide Run, Begin;
  }

  // ---------- how round-robin calls spread ----------

  function InWindow(lo: nat, m: nat, q: nat): Task -> bool
  {
    (t: Task) => t.origin.ByTicket? && lo <= t.origin.ordinal < lo + m && t.route == q
  }

  // How many of the m ordinals from lo on have been given out.
  function GivenOut(calls: nat, lo: nat, m: nat): nat { if calls + 1 < lo then 0 else Min(m, calls + 1 - lo) }

  ghost predicate WindowOk(s: State, lo: nat, m: nat, q: nat)
  {
    |s.queues| > 0 ==> CountOf(s.tasks, InWindow(lo, m, q)) == Hits(lo, GivenOut(s.calls, lo, m), |s.queues|, q)
  }

  lemma StepKeepsWindow(s: State, e: Event, lo: nat, m: nat, q: nat)
    requires WindowOk(s, lo, m, q)
    ensures WindowOk(Step(s, e), lo, m, q)
  {
    if e.Offer? && |s.queues| > 0 {
      assert Step(s, e).tasks[..|s.tasks|] == s.tasks;
      hide TicketQueue, HashQueue, Lookup, Outcome;
    } else if (e.Accept? || e.Refuse?) && IsOffered(s, e.i) {
      var fate := if e.Accept? then Accepted else Refused;
      CountUpdate(s.tasks, InWindow(lo, m, q), e.i, s.tasks[e.i].(fate := fate));
      hide CountOf, Hits, Lookup, Outcome, GivenOut;
    } else {
      hide CountOf, Hits, Lookup, Outcome, GivenOut, Route;
    }
  }

  lemma {:induction false} WindowHolds(u: Setup, es: seq<Event>, lo: nat, m: nat, q: nat)
    requires lo >= 1
    ensures WindowOk(Run(Step, Begin(u), es), lo, m, q)
  {
    assert WindowOk(Begin(u), lo, m, q);
    hide WindowOk, Step;
    forall s, e | WindowOk(s, lo, m, q) ensures WindowOk(Step(s, e), lo, m, q) { StepKeepsWindow(s, e, lo, m, q); }
    Invariant(Step, s => WindowOk(s, lo, m, q), Begin(u), es);
  }

  /** In every run, of any m round-robin calls in a row that have been made, and over which the ticket
      counter did not wrap, each queue was given the floor or the ceiling of its even share. */
  lemma {:induction false} CallsSpreadEvenly(u: Setup, es: seq<Event>, lo: nat, m: nat, q: nat)
    requires lo >= 1 && !Crosses(lo, m) && q < |u.shares|
    requires lo + m <= Run(Step, Begin(u), es).calls + 1
    ensures Each(m, |u.shares|) <= CountOf(Run(Step, Begin(u), es).tasks, InWindow(lo, m, q)) <= Ceiling(m, |u.shares|)
  {
    WindowHolds(u, es, lo, m, q);
    AllRuns(u, es);
    FairBetweenWraps(lo, m, |u.shares|);
    hide Step, Run, Inv, Begin, CountOf, Hits, Each, Ceiling, Crosses;
  }

  /** Where tasks go: by hash to the queue of the FNV hash of their message id, and by ticket in turn, the
      ordinals being those of the round-robin calls, each used once. */
  lemma {:induction false} RoutesInFull(u: Setup, es: seq<Event>, i: TaskId)
    requires i < |Run(Step, Begin(u), es).tasks|
    ensures var s, t, n := Run(Step, Begin(u), es), Run(Step, Begin(u), es).tasks[i], |u.shares|;
      && n > 0
      && (t.origin.ByHash? ==> t.route == FnvHash(t.message.id) % n)
      && (t.origin.ByTicket? ==> 1 <= t.origin.ordinal <= s.calls)
      && (t.origin.ByTicket? ==> t.route == t.origin.ordinal % 0x1_0000_0000_0000_0000 % n)
  {
    AllRuns(u, es);
    assert TaskOk(Run(Step, Begin(u), es), i);
  }
}
