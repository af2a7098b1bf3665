/** Promises and their manager: each promise is raced by Complete, Fail, its timer, the
    delayed-removal loop and the cleanup loop. Every mutex section, map operation and atomic
    counter operation is one event; a run is any interleaving of them. */
module PromiseLifecycle {
  import opened Runs

  type MsgId = string
  type Time = int

  const DELAYED_REMOVE_CAPACITY := 1000

  datatype Response = Acked(ack: string) | TimedOut | Failed(err: string)

  // Armed; fired with onTimeout still to run; fired with Timeout still to run; stopped in time; finished.
  datatype Timer = Armed | Firing | Expiring | Stopped | Done

  /** A promise. `taken` is what its waiter has received from the one-slot response channel,
      `dropped` counts answers that found the channel full. */
  datatype Promise = Promise(completed: bool, timer: Timer, respChan: seq<Response>, taken: seq<Response>, dropped: nat)
  {
    function Answers(): seq<Response> { taken + respChan }
    predicate CallbackInFlight() { timer.Firing? || timer.Expiring? }
  }

  const NEW_PROMISE := Promise(false, Armed, [], [], 0)

  // The non-blocking send of the response.
  function Answer(p: Promise, r: Response): Promise
  {
    if |p.respChan| < 1 then p.(completed := true, respChan := p.respChan + [r])
    else p.(completed := true, dropped := p.dropped + 1)
  }

  function StopTimer(p: Promise): Promise { if p.timer.Armed? then p.(timer := Stopped) else p }

  // Complete and Fail.
  function Settle(p: Promise, r: Response): Promise { if p.completed then p else StopTimer(Answer(p, r)) }

  // Timeout, the last thing the timer callback does.
  function Expire(p: Promise): Promise { (if p.completed then p else Answer(p, TimedOut)).(timer := Done) }

  datatype DelayedRemove = DelayedRemove(msgId: MsgId, removeAt: Time)

  predicate IsDue(item: DelayedRemove, now: Time) { now >= item.removeAt }

  function Due(items: seq<DelayedRemove>, now: Time): seq<MsgId>
  {
    if items == [] then []
    else
      var rest := Due(items[..|items| - 1], now);
      var last := items[|items| - 1];
      if IsDue(last, now) then rest + [last.msgId] else rest
  }

  function NotDue(items: seq<DelayedRemove>, now: Time): (kept: seq<DelayedRemove>)
    ensures |kept| <= |items|
  {
    if items == [] then []
    else
      var rest := NotDue(items[..|items| - 1], now);
      var last := items[|items| - 1];
      if IsDue(last, now) then rest else rest + [last]
  }

  datatype State = State(
    maxCapacity: int,
    creators: nat,                      // how many Create calls may be in flight at once
    promises: map<MsgId, Promise>,      // every promise ever made
    table: set<MsgId>,                  // the keys of the sync.Map
    count: int,
    checked: nat,                       // Create calls past the capacity check, promise not made yet
    creating: set<MsgId>,               // made, not stored
    adding: set<MsgId>,                 // stored, not counted
    found: set<MsgId>,                  // some call has loaded it from the map
    finishing: set<MsgId>,              // settled by the manager, removal not scheduled yet
    removeCh: seq<DelayedRemove>,
    pending: seq<DelayedRemove>,        // the loop's own slice
    removing: set<MsgId>,               // some Remove call has been made for it
    subtracting: set<MsgId>,            // deleted from the map, count not lowered yet
    lowered: multiset<MsgId>,           // ghost: on whose behalf count was lowered
    outside: set<MsgId>)                // ghost: someone outside the manager called Remove for it

  datatype Event =
    | Check
    | New(id: MsgId)
    | Store(id: MsgId)
    | Add(id: MsgId)
    | Lookup(id: MsgId)
    | SettleWith(id: MsgId, r: Response)  // Complete or Fail on a promise that was looked up
    | Schedule(id: MsgId, removeAt: Time)
    | TimerFires(id: MsgId)
    | OnTimeout(id: MsgId, removeAt: Time)
    | Timeout(id: MsgId)
    | LoopReceive
    | LoopTick(now: Time)
    | CleanupSees(id: MsgId)
    | OutsideRemove(id: MsgId)
    | Delete(id: MsgId)
    | Subtract(id: MsgId)
    | Take(id: MsgId)

  function InFlight(s: State): nat { s.checked + |s.creating| + |s.adding| }

  function Update(s: State, id: MsgId, p: Promise): State { s.(promises := s.promises[id := p]) }

  // The select that hands an id to the loop, or removes it directly when the channel is full.
  function ScheduleRemoval(s: State, item: DelayedRemove): State
  {
    if |s.removeCh| < DELAYED_REMOVE_CAPACITY then s.(removeCh := s.removeCh + [item])
    else s.(removing := s.removing + {item.msgId})
  }

  // One atomic step; an event that is not enabled changes nothing.
  function Step(s: State, e: Event): State
  {
    match e
    case Check => if s.count < s.maxCapacity && InFlight(s) < s.creators then s.(checked := s.checked + 1) else s
    case New(id) =>
      if s.checked > 0 && id !in s.promises
      then Update(s, id, NEW_PROMISE).(checked := s.checked - 1, creating := s.creating + {id}) else s
    case Store(id) =>
      if id in s.creating
      then s.(creating := s.creating - {id}, table := s.table + {id}, adding := s.adding + {id}) else s
    case Add(id) => if id in s.adding then s.(adding := s.adding - {id}, count := s.count + 1) else s
    case Lookup(id) => if id in s.table then s.(found := s.found + {id}) else s
    case SettleWith(id, r) =>
      if id in s.found && id in s.promises && !s.promises[id].completed
      then Update(s, id, Settle(s.promises[id], r)).(finishing := s.finishing + {id}) else s
    case Schedule(id, removeAt) =>
      if id in s.finishing
      then ScheduleRemoval(s.(finishing := s.finishing - {id}), DelayedRemove(id, removeAt)) else s
    case TimerFires(id) =>
      if id in s.promises && s.promises[id].timer.Armed?
      then Update(s, id, s.promises[id].(timer := Firing)) else s
    case OnTimeout(id, removeAt) =>
      if id in s.promises && s.promises[id].timer.Firing?
      then ScheduleRemoval(Update(s, id, s.promises[id].(timer := Expiring)), DelayedRemove(id, removeAt)) else s
    case Timeout(id) =>
      if id in s.promises && s.promises[id].timer.Expiring? then Update(s, id, Expire(s.promises[id])) else s
    case LoopReceive =>
      if s.removeCh != [] then s.(pending := s.pending + [s.removeCh[0]], removeCh := s.removeCh[1..]) else s
    case LoopTick(now) =>
      s.(pending := NotDue(s.pending, now), removing := s.removing + (set id | id in Due(s.pending, now)))
    case CleanupSees(id) =>
      if id in s.table && id in s.promises && s.promises[id].completed then s.(removing := s.removing + {id}) else s
    case OutsideRemove(id) => s.(removing := s.removing + {id}, outside := s.outside + {id})
    case Delete(id) =>
      if id in s.removing && id in s.table
      then s.(table := s.table - {id}, subtracting := s.subtracting + {id}) else s
    case Subtract(id) =>
      if id in s.subtracting
      then s.(subtracting := s.subtracting - {id}, count := s.count - 1, lowered := s.lowered + multiset{id}) else s
    case Take(id) =>
      if id in s.promises && |s.promises[id].respChan| > 0 then
        var p := s.promises[id];
        Update(s, id, p.(taken := p.taken + [p.respChan[0]], respChan := p.respChan[1..]))
      else s
  }

  function Empty(maxCapacity: int, creators: nat): State
  {
    State(maxCapacity, creators, map[], {}, 0, 0, {}, {}, {}, {}, [], [], {}, {}, multiset{}, {})
  }

  // ---------- invariants ----------

  ghost predicate PromiseOk(p: Promise)
  {
    && p.dropped == 0
    && |p.Answers()| == (if p.completed then 1 else 0)
    && (!p.completed ==> p.timer.Armed? || p.CallbackInFlight())
  }

  predicate Placed(s: State, id: MsgId)
  {
    id in s.creating || id in s.table || id in s.adding || id in s.subtracting || id in s.lowered
  }

  // Where a promise is on its way from Create to the lowering of count.
  predicate PlaceOk(s: State, id: MsgId)
  {
    && (id in s.promises ==> id in s.creating || id in s.table || id in s.subtracting || id in s.lowered)
    && (Placed(s, id) ==> id in s.promises)
    && (id in s.creating ==> id !in s.table && id !in s.adding)
    && (id in s.creating || id in s.table ==> id !in s.subtracting && id !in s.lowered)
    && (id in s.subtracting ==> id !in s.lowered)
    && s.lowered[id] <= 1
  }

  // Removal is under way only for promises that are completed or in the middle of timing out.
  ghost predicate MayGo(s: State, id: MsgId)
  {
    id in s.promises && (s.promises[id].completed || s.promises[id].timer.Expiring?)
  }

  ghost predicate PromisesOk(s: State) { forall id <- s.promises :: PromiseOk(s.promises[id]) }

  ghost predicate PlacesOk(s: State) { forall id :: PlaceOk(s, id) }

  ghost predicate SizesOk(s: State)
  {
    && |s.table| == s.count + |s.adding| - |s.subtracting|
    && s.count + InFlight(s) <= s.maxCapacity + s.creators - 1
  }

  ghost predicate Inv(s: State) { PromisesOk(s) && PlacesOk(s) && SizesOk(s) }

  // Somebody is about to remove id, or has.
  ghost predicate Scheduled(s: State, id: MsgId)
  {
    || id in s.finishing || id in s.removing || id in s.subtracting || id in s.lowered
    || (exists item <- s.removeCh :: item.msgId == id)
    || (exists item <- s.pending :: item.msgId == id)
  }

  ghost predicate RemovalOk(s: State, id: MsgId) { id !in s.outside && Scheduled(s, id) ==> MayGo(s, id) }

  ghost predicate RemovalInv(s: State) { forall id :: RemovalOk(s, id) }

  lemma {:induction false} DueOrKept(items: seq<DelayedRemove>, now: Time)
    ensures forall item <- NotDue(items, now) :: item in items && now < item.removeAt
    ensures forall id <- Due(items, now) :: exists item :: item in items && item.msgId == id && item.removeAt <= now
    ensures forall item <- items :: item in NotDue(items, now) || item.msgId in Due(items, now)
  {
    if items != [] {
      DueOrKept(items[..|items| - 1], now);
      assert items == items[..|items| - 1] + [items[|items| - 1]];
    }
  }

  /** What is kept keeps its order: keeping is done item by item. */
  lemma {:induction false} KeptInOrder(items: seq<DelayedRemove>, more: seq<DelayedRemove>, now: Time)
    ensures NotDue(items + more, now) == NotDue(items, now) + NotDue(more, now)
    ensures |items| == 1 ==> NotDue(items, now) == if items[0].removeAt <= now then [] else items
  {
    if more == [] {
      assert items + more == items;
    } else {
      var front := more[..|more| - 1];
      assert (items + more)[..|items + more| - 1] == items + front;
      KeptInOrder(items, front, now);
    }
  }

  lemma StepKeepsPromises(s: State, e: Event)
    requires PromisesOk(s)
    ensures PromisesOk(Step(s, e))
  {
  }

  lemma StepKeepsPlace(s: State, e: Event, id: MsgId)
    requires PlaceOk(s, id)
    ensures PlaceOk(Step(s, e), id)
  {
    hide Settle, Expire, Due, NotDue, InFlight;
  }

  lemma StepKeepsPlaces(s: State, e: Event)
    requires PlacesOk(s)
    ensures PlacesOk(Step(s, e))
  {
    hide Step, PlaceOk;
    forall id ensures PlaceOk(Step(s, e), id) { StepKeepsPlace(s, e, id); }
  }

  lemma CreateKeepsSizes(s: State, e: Event)
    requires PlacesOk(s) && SizesOk(s)
    requires e.Check? || e.New? || e.Store? || e.Add?
    ensures SizesOk(Step(s, e))
  {
    if e.New? || e.Store? { assert PlaceOk(s, e.id); }
  }

  lemma RemoveKeepsSizes(s: State, e: Event)
    requires PlacesOk(s) && SizesOk(s)
    requires e.Delete? || e.Subtract?
    ensures SizesOk(Step(s, e))
  {
    if e.Delete? && e.id in s.table { assert PlaceOk(s, e.id); }
  }

  lemma StepKeepsSizes(s: State, e: Event)
    requires PlacesOk(s) && SizesOk(s)
    ensures SizesOk(Step(s, e))
  {
    if e.Check? || e.New? || e.Store? || e.Add? {
      CreateKeepsSizes(s, e);
    } else if e.Delete? || e.Subtract? {
      RemoveKeepsSizes(s, e);
    } else {
      OthersKeepSizes(s, e);
    }
  }

  lemma OthersKeepSizes(s: State, e: Event)
    requires SizesOk(s)
    requires !(e.Check? || e.New? || e.Store? || e.Add? || e.Delete? || e.Subtract?)
    ensures SizesOk(Step(s, e))
  {
    hide Settle, Expire, Due, NotDue;
  }

  lemma TickKeepsRemoval(s: State, now: Time, id: MsgId)
    requires RemovalOk(s, id)
    ensures RemovalOk(Step(s, LoopTick(now)), id)
  {
    hide Due, NotDue;
    DueOrKept(s.pending, now);
  }

  lemma StepKeepsRemoval(s: State, e: Event, id: MsgId)
    requires RemovalOk(s, id) && PlaceOk(s, id)
    ensures RemovalOk(Step(s, e), id)
  {
    if e.LoopTick? {
      hide *;
      TickKeepsRemoval(s, e.now, id);
    } else {
      hide Due, NotDue, InFlight;
    }
  }

  ghost predicate FullInv(s: State) { Inv(s) && RemovalInv(s) }

  lemma {:induction false} AllRuns(maxCapacity: int, creators: nat, es: seq<Event>)
    requires maxCapacity >= 1 && creators >= 1
    ensures FullInv(Run(Step, Empty(maxCapacity, creators), es))
  {
    forall s, e | FullInv(s) ensures FullInv(Step(s, e)) { FullInvKept(s, e); }
    Invariant(Step, FullInv, Empty(maxCapacity, creators), es);
  }

  // ---------- theorems over all interleavings ----------

  /** A promise is answered at most once, its answer is never dropped, and until then its timer is
      armed or its callback under way; a timer that was stopped or has finished means one answer. */
  lemma {:induction false} AnsweredExactlyOnce(maxCapacity: int, creators: nat, es: seq<Event>, id: MsgId)
    requires maxCapacity >= 1 && creators >= 1
    requires id in Run(Step, Empty(maxCapacity, creators), es).promises
    ensures var p := Run(Step, Empty(maxCapacity, creators), es).promises[id];
      && p.dropped == 0
      && |p.Answers()| == (if p.completed then 1 else 0)
      && (!p.completed ==> p.timer.Armed? || p.CallbackInFlight())
      && (p.timer.Stopped? || p.timer.Done? ==> |p.Answers()| == 1)
  {
    AllRuns(maxCapacity, creators, es);
    assert PromiseOk(Run(Step, Empty(maxCapacity, creators), es).promises[id]);
  }

  /** While nobody outside the manager calls Remove for its id, a promise that Create has stored and that is
      not completed is still in the map, or its timer callback is in flight. */
  lemma {:induction false} UncompletedStaysFindable(maxCapacity: int, creators: nat, es: seq<Event>, id: MsgId)
    requires maxCapacity >= 1 && creators >= 1
    requires var s := Run(Step, Empty(maxCapacity, creators), es);
      id !in s.outside && id in s.promises && id !in s.creating && !s.promises[id].completed
    ensures var s := Run(Step, Empty(maxCapacity, creators), es);
      id in s.table || s.promises[id].CallbackInFlight()
  {
    AllRuns(maxCapacity, creators, es);
    var s := Run(Step, Empty(maxCapacity, creators), es);
    assert PlaceOk(s, id) && RemovalOk(s, id);
  }

  /** The size of the map against the counter, and the bound on both: with at most n creators in
      flight neither exceeds maxCapacity + n - 1. */
  lemma {:induction false} CapacityBound(maxCapacity: int, creators: nat, es: seq<Event>)
    requires maxCapacity >= 1 && creators >= 1
    ensures var s := Run(Step, Empty(maxCapacity, creators), es);
      && |s.table| == s.count + |s.adding| - |s.subtracting|
      && s.count <= maxCapacity + creators - 1
      && |s.table| <= maxCapacity + creators - 1
  {
    AllRuns(maxCapacity, creators, es);
    ParametersStay(Empty(maxCapacity, creators), es);
  }

  lemma {:induction false} ParametersStay(s: State, es: seq<Event>)
    ensures var t := Run(Step, s, es); t.maxCapacity == s.maxCapacity && t.creators == s.creators
  {
    if es != [] {
      ParametersStay(s, es[..|es| - 1]);
      StepKeepsParameters(Run(Step, s, es[..|es| - 1]), es[|es| - 1]);
    }
  }

  lemma StepKeepsParameters(s: State, e: Event)
    ensures Step(s, e).maxCapacity == s.maxCapacity && Step(s, e).creators == s.creators
  {
  }

  /** However many removal paths hit a promise, count is lowered for it at most once: exactly once
      when it has left the map and no Remove is between its two operations, never before. */
  lemma {:induction false} LoweredOnce(maxCapacity: int, creators: nat, es: seq<Event>, id: MsgId)
    requires maxCapacity >= 1 && creators >= 1
    requires id in Run(Step, Empty(maxCapacity, creators), es).promises
    ensures var s := Run(Step, Empty(maxCapacity, creators), es);
      s.lowered[id] == if id in s.creating || id in s.table || id in s.subtracting then 0 else 1
  {
    AllRuns(maxCapacity, creators, es);
    assert PlaceOk(Run(Step, Empty(maxCapacity, creators), es), id);
  }

  ghost predicate KeepsAnswers(s: State, t: State)
  {
    forall id <- s.promises :: id in t.promises && s.promises[id].Answers() <= t.promises[id].Answers()
  }

  lemma StepKeepsAnswers(s: State, e: Event)
    ensures KeepsAnswers(s, Step(s, e))
  {
    hide Due, NotDue;
    if e.Take? && e.id in s.promises && |s.promises[e.id].respChan| > 0 {
      var p := s.promises[e.id];
      assert p.taken + p.respChan == p.taken + [p.respChan[0]] + p.respChan[1..];
    }
  }

  /** An answer once given is final: whatever happens later, the promise keeps that one answer. */
  lemma {:induction false} AnswerIsFinal(maxCapacity: int, creators: nat, es: seq<Event>, later: seq<Event>, id: MsgId)
    requires maxCapacity >= 1 && creators >= 1
    requires var s := Run(Step, Empty(maxCapacity, creators), es); id in s.promises && s.promises[id].completed
    ensures
      var start := Empty(maxCapacity, creators);
      var s, t := Run(Step, start, es), Run(Step, start, es + later);
      id in t.promises && t.promises[id].Answers() == s.promises[id].Answers()
  {
    var start := Empty(maxCapacity, creators);
    var s, t := Run(Step, start, es), Run(Step, start, es + later);
    AllRuns(maxCapacity, creators, es);
    AllRuns(maxCapacity, creators, es + later);
    RunConcat(Step, start, es, later);
    forall u, e | FullInv(u) ensures FullInv(Step(u, e)) && KeepsAnswers(u, Step(u, e)) {
      FullInvKept(u, e);
      StepKeepsAnswers(u, e);
    }
    Preserved(Step, FullInv, KeepsAnswers, s, later);
    assert PromiseOk(s.promises[id]) && PromiseOk(t.promises[id]);
  }

  lemma FullInvKept(s: State, e: Event)
    requires FullInv(s)
    ensures FullInv(Step(s, e))
  {
    StepKeepsPromises(s, e);
    StepKeepsPlaces(s, e);
    StepKeepsSizes(s, e);
    forall id ensures RemovalOk(Step(s, e), id) {
      assert PlaceOk(s, id) && RemovalOk(s, id);
      StepKeepsRemoval(s, e, id);
    }
  }

  lemma TimerSteps(s: State, id: MsgId, removeAt: Time)
    requires PromisesOk(s) && id in s.promises
    ensures var t := Step(Step(Step(s, TimerFires(id)), OnTimeout(id, removeAt)), Timeout(id));
      && id in t.promises && t.promises[id].completed
      && (s.promises[id].completed || t.promises[id].Answers() == [TimedOut])
  {
    assert PromiseOk(s.promises[id]);
    hide Due, NotDue, InFlight, PromisesOk;
    var t := Step(s, TimerFires(id));
    assert t.promises[id].completed || t.promises[id].CallbackInFlight();
    var u := Step(t, OnTimeout(id, removeAt));
    assert u.promises[id].completed || u.promises[id].timer.Expiring?;
  }

  lemma RunThree(s: State, a: Event, b: Event, c: Event)
    ensures Run(Step, s, [a, b, c]) == Step(Step(Step(s, a), b), c)
  {
    assert [a, b, c] == ([] + [a]) + [b] + [c];
    RunSnoc(Step, s, [], a);
    RunSnoc(Step, s, [a], b);
    RunSnoc(Step, s, [a] + [b], c);
  }

  /** No promise waits for ever on others: from any reachable state, its own timer answers it. */
  lemma {:induction false} TimerAlwaysAnswers(
      maxCapacity: int, creators: nat, es: seq<Event>, id: MsgId, removeAt: Time)
    requires maxCapacity >= 1 && creators >= 1
    requires id in Run(Step, Empty(maxCapacity, creators), es).promises
    ensures
      var timer := [TimerFires(id), OnTimeout(id, removeAt), Timeout(id)];
      var t := Run(Step, Empty(maxCapacity, creators), es + timer);
      && id in t.promises && |t.promises[id].Answers()| == 1
      && (Run(Step, Empty(maxCapacity, creators), es).promises[id].completed
          || t.promises[id].Answers() == [TimedOut])
  {
    hide Step;
    var start, timer := Empty(maxCapacity, creators), [TimerFires(id), OnTimeout(id, removeAt), Timeout(id)];
    AllRuns(maxCapacity, creators, es);
    TimerSteps(Run(Step, start, es), id, removeAt);
    RunThree(Run(Step, start, es), timer[0], timer[1], timer[2]);
    RunConcat(Step, start, es, timer);
    AllRuns(maxCapacity, creators, es + timer);
    assert PromiseOk(Run(Step, start, es + timer).promises[id]);
  }

  // ---------- the capacity bound is reached ----------

  // Ids for as many promises as one likes.
  function Name(j: nat): (id: MsgId)
    ensures |id| == j
  {
    seq(j, _ => 'm')
  }

  // c promises are stored and counted, k calls of Create have passed the capacity check, and nothing else goes on.
  ghost predicate Waiting(s: State, maxCapacity: int, creators: nat, c: nat, k: nat)
  {
    && s.maxCapacity == maxCapacity && s.creators == creators
    && s.count == c && s.checked == k && s.creating == s.adding == s.subtracting == {}
    && forall id <- s.promises :: |id| < c
  }

  lemma OneMoreChecks(s: State, maxCapacity: int, creators: nat, c: nat, k: nat)
    requires Waiting(s, maxCapacity, creators, c, k) && c < maxCapacity && k < creators
    ensures Waiting(Step(s, Check), maxCapacity, creators, c, k + 1)
  {
  }

  lemma OneMoreStores(s: State, maxCapacity: int, creators: nat, c: nat, k: nat)
    requires Waiting(s, maxCapacity, creators, c, k + 1)
    ensures Waiting(Run(Step, s, [New(Name(c)), Store(Name(c)), Add(Name(c))]), maxCapacity, creators, c + 1, k)
  {
    var id := Name(c);
    RunThree(s, New(id), Store(id), Add(id));
    hide Run;
    var s1 := Step(s, New(id));
    assert s1.creating == {id} && s1.checked == k && s1.promises == s.promises[id := NEW_PROMISE];
    var s2 := Step(s1, Store(id));
    assert s2.creating == {} && s2.adding == {id};
    var s3 := Step(s2, Add(id));
    assert s3.adding == {};
  }

  // k calls pass the check one after the other.
  lemma {:induction false} ManyCheck(s: State, maxCapacity: int, creators: nat, c: nat, k: nat) returns (es: seq<Event>)
    requires Waiting(s, maxCapacity, creators, c, 0) && c < maxCapacity && k <= creators
    ensures Waiting(Run(Step, s, es), maxCapacity, creators, c, k)
  {
    if k == 0 {
      es := [];
    } else {
      es := ManyCheck(s, maxCapacity, creators, c, k - 1);
      OneMoreChecks(Run(Step, s, es), maxCapacity, creators, c, k - 1);
      RunSnoc(Step, s, es, Check);
      es := es + [Check];
    }
  }

  // The k calls that have passed the check go on to store their promises.
  lemma {:induction false} ManyStore(s: State, maxCapacity: int, creators: nat, c: nat, k: nat) returns (es: seq<Event>)
    requires Waiting(s, maxCapacity, creators, c, k)
    ensures Waiting(Run(Step, s, es), maxCapacity, creators, c + k, 0)
    decreases k
  {
    if k == 0 {
      es := [];
    } else {
      var one := [New(Name(c)), Store(Name(c)), Add(Name(c))];
      OneMoreStores(s, maxCapacity, creators, c, k - 1);
      var others := ManyStore(Run(Step, s, one), maxCapacity, creators, c + 1, k - 1);
      RunConcat(Step, s, one, others);
      es := one + others;
    }
  }

  // Calls that come one at a time fill the map up to one below capacity.
  lemma {:induction false} FillUp(maxCapacity: int, creators: nat, c: nat) returns (es: seq<Event>)
    requires c < maxCapacity && creators >= 1
    ensures Waiting(Run(Step, Empty(maxCapacity, creators), es), maxCapacity, creators, c, 0)
  {
    if c == 0 {
      es := [];
    } else {
      es := FillUp(maxCapacity, creators, c - 1);
      var start := Empty(maxCapacity, creators);
      var s := Run(Step, start, es);
      var check := ManyCheck(s, maxCapacity, creators, c - 1, 1);
      var store := ManyStore(Run(Step, s, check), maxCapacity, creators, c - 1, 1);
      RunConcat(Step, start, es, check);
      RunConcat(Step, start, es + check, store);
      es := es + check + store;
    }
  }

  /** For every capacity and every number n of creators there is a run that reaches the bound: the map and
      count hold maxCapacity + n - 1. */
  lemma {:induction false} BoundIsReached(maxCapacity: int, creators: nat) returns (es: seq<Event>)
    requires maxCapacity >= 1 && creators >= 1
    ensures var s := Run(Step, Empty(maxCapacity, creators), es);
      s.count == |s.table| == maxCapacity + creators - 1
  {
    var start := Empty(maxCapacity, creators);
    es := FillUp(maxCapacity, creators, maxCapacity - 1);
    var s := Run(Step, start, es);
    var check := ManyCheck(s, maxCapacity, creators, maxCapacity - 1, creators);
    var store := ManyStore(Run(Step, s, check), maxCapacity, creators, maxCapacity - 1, creators);
    RunConcat(Step, start, es, check);
    RunConcat(Step, start, es + check, store);
    es := es + check + store;
    CapacityBound(maxCapacity, creators, es);
  }

  // ---------- which answer a promise gets ----------

  // From here on and for ever, the promise has this one answer.
  ghost predicate AnsweredWith(maxCapacity: int, creators: nat, es: seq<Event>, id: MsgId, r: Response)
  {
    forall later ::
      var t := Run(Step, Empty(maxCapacity, creators), es + later);
      id in t.promises && t.promises[id].completed && t.promises[id].taken + t.promises[id].respChan == [r]
  }

  lemma {:induction false} AnsweredForEver(maxCapacity: int, creators: nat, es: seq<Event>, id: MsgId, r: Response)
    requires maxCapacity >= 1 && creators >= 1
    requires var s := Run(Step, Empty(maxCapacity, creators), es);
      id in s.promises && s.promises[id].completed && s.promises[id].Answers() == [r]
    ensures AnsweredWith(maxCapacity, creators, es, id, r)
  {
    hide Step, Run;
    forall later ensures
      var t := Run(Step, Empty(maxCapacity, creators), es + later);
      id in t.promises && t.promises[id].completed && t.promises[id].taken + t.promises[id].respChan == [r]
    {
      AnswerIsFinal(maxCapacity, creators, es, later, id);
      AnsweredExactlyOnce(maxCapacity, creators, es + later, id);
    }
  }

  /** Complete and Fail on an unanswered promise that was found give it their own response, once and for all,
      and stop its timer; on an answered one they change nothing. */
  lemma {:induction false} FirstAnswerWins(maxCapacity: int, creators: nat, es: seq<Event>, id: MsgId, r: Response)
    requires maxCapacity >= 1 && creators >= 1
    requires var s := Run(Step, Empty(maxCapacity, creators), es); id in s.promises && id in s.found
    ensures
      var start := Empty(maxCapacity, creators);
      var s, t := Run(Step, start, es), Run(Step, start, es + [SettleWith(id, r)]);
      if s.promises[id].completed then t == s
      else
        && AnsweredWith(maxCapacity, creators, es + [SettleWith(id, r)], id, r)
        && id in t.promises && id in t.finishing && !t.promises[id].timer.Armed?
  {
    AllRuns(maxCapacity, creators, es);
    var start := Empty(maxCapacity, creators);
    var s := Run(Step, start, es);
    assert PromiseOk(s.promises[id]);
    RunSnoc(Step, start, es, SettleWith(id, r));
    hide Run, PromisesOk, PlacesOk, RemovalInv, SizesOk;
    if !s.promises[id].completed {
      AnsweredForEver(maxCapacity, creators, es + [SettleWith(id, r)], id, r);
    }
  }

  /** The end of the timer callback gives an unanswered promise a timeout, once and for all. */
  lemma {:induction false} TimeoutAnswers(maxCapacity: int, creators: nat, es: seq<Event>, id: MsgId)
    requires maxCapacity >= 1 && creators >= 1
    requires var s := Run(Step, Empty(maxCapacity, creators), es); id in s.promises && s.promises[id].timer.Expiring?
    ensures
      var start := Empty(maxCapacity, creators);
      var s, t := Run(Step, start, es), Run(Step, start, es + [Timeout(id)]);
      && id in t.promises && t.promises[id].timer == Done
      && (if s.promises[id].completed
          then t.promises[id].taken == s.promises[id].taken && t.promises[id].respChan == s.promises[id].respChan
          else AnsweredWith(maxCapacity, creators, es + [Timeout(id)], id, TimedOut))
  {
    AllRuns(maxCapacity, creators, es);
    var start := Empty(maxCapacity, creators);
    var s := Run(Step, start, es);
    assert PromiseOk(s.promises[id]);
    RunSnoc(Step, start, es, Timeout(id));
    hide Run, PromisesOk, PlacesOk, RemovalInv, SizesOk;
    if !s.promises[id].completed {
      AnsweredForEver(maxCapacity, creators, es + [Timeout(id)], id, TimedOut);
    }
  }

  /** The waiter of an answered promise receives its answer, the next time it looks. */
  lemma {:induction false} WaiterReceives(maxCapacity: int, creators: nat, es: seq<Event>, id: MsgId)
    requires maxCapacity >= 1 && creators >= 1
    requires var s := Run(Step, Empty(maxCapacity, creators), es); id in s.promises && s.promises[id].completed
    ensures
      var s := Run(Step, Empty(maxCapacity, creators), es);
      var t := Step(s, Take(id));
      && id in t.promises && t.promises[id].respChan == [] && |t.promises[id].taken| == 1
      && t.promises[id].taken == s.promises[id].taken + s.promises[id].respChan
  {
    AllRuns(maxCapacity, creators, es);
    assert PromiseOk(Run(Step, Empty(maxCapacity, creators), es).promises[id]);
    hide Run, PromisesOk, PlacesOk, RemovalInv, SizesOk;
  }

  // ---------- nothing answered is forgotten ----------

  // A promise that is answered or about to time out is on its way out of the map, or has left it.
  ghost predicate NotForgotten(s: State, id: MsgId)
  {
    id in s.promises && (s.promises[id].completed || s.promises[id].timer.Expiring? || s.promises[id].timer.Done?) ==>
      Scheduled(s, id)
  }

  lemma {:induction false} TickForgetsNothing(s: State, now: Time, id: MsgId)
    requires NotForgotten(s, id)
    ensures NotForgotten(Step(s, LoopTick(now)), id)
  {
    hide Due, NotDue;
    DueOrKept(s.pending, now);
  }

  lemma StepForgetsNothing(s: State, e: Event, id: MsgId)
    requires NotForgotten(s, id)
    ensures NotForgotten(Step(s, e), id)
  {
    if e.LoopTick? {
      hide *;
      TickForgetsNothing(s, e.now, id);
    } else {
      hide Due, NotDue, InFlight;
      if e.LoopReceive? && s.removeCh != [] {
        assert s.removeCh == [s.removeCh[0]] + s.removeCh[1..];
        assert (s.pending + [s.removeCh[0]])[|s.pending|] == s.removeCh[0];
      }
    }
  }

  /** In every run an answered promise has been removed from the map, or its removal is scheduled, pending or
      under way: none is left behind. */
  lemma {:induction false} AnsweredIsScheduled(maxCapacity: int, creators: nat, es: seq<Event>, id: MsgId)
    requires var s := Run(Step, Empty(maxCapacity, creators), es); id in s.promises && s.promises[id].completed
    ensures Scheduled(Run(Step, Empty(maxCapacity, creators), es), id)
  {
    forall s, e | NotForgotten(s, id) ensures NotForgotten(Step(s, e), id) { StepForgetsNothing(s, e, id); }
    Invariant(Step, s => NotForgotten(s, id), Empty(maxCapacity, creators), es);
  }
}
