/** The promise objects and their manager as they are written: fields updated in place, with the
    state machine of PromiseLifecycle kept beside them as a ghost. Each method's contract says
    which events of that machine it performs. */
module PromiseManagement {
  import opened Runs
  import opened L = PromiseLifecycle

  class PromiseObject {
    const msgId: MsgId
    var completed: bool
    var timer: Timer
    var respChan: seq<Response>
    ghost var taken: seq<Response>
    ghost var dropped: nat

    ghost function Value(): Promise reads this { Promise(completed, timer, respChan, taken, dropped) }

    constructor (msgId: MsgId)
      ensures Value() == NEW_PROMISE && this.msgId == msgId
    {
      this.msgId := msgId;
      completed, timer, respChan, taken, dropped := false, Armed, [], [], 0;
    }

    // The non-blocking send on the one-slot channel.
    method Send(r: Response)
      modifies this
      ensures Value() == Answer(old(Value()), r).(completed := old(completed))
    {
      if |respChan| < 1 {
        respChan := respChan + [r];
      } else {
        dropped := dropped + 1;
      }
    }

    method Complete(ack: string) returns (won: bool)
      modifies this
      ensures Value() == Settle(old(Value()), Acked(ack)) && won == !old(completed) && completed
      ensures won && old(respChan) == [] ==> respChan == [Acked(ack)]
      ensures won ==> timer == if old(timer) == Armed then Stopped else old(timer)
      ensures !won ==> Value() == old(Value())
    {
      if completed { return false; }
      completed := true;
      if timer.Armed? { timer := Stopped; }
      Send(Acked(ack));
      return true;
    }

    method Fail(err: string) returns (won: bool)
      modifies this
      ensures Value() == Settle(old(Value()), Failed(err)) && won == !old(completed) && completed
      ensures won && old(respChan) == [] ==> respChan == [Failed(err)]
      ensures won ==> timer == if old(timer) == Armed then Stopped else old(timer)
      ensures !won ==> Value() == old(Value())
    {
      if completed { return false; }
      completed := true;
      if timer.Armed? { timer := Stopped; }
      Send(Failed(err));
      return true;
    }

    method Timeout() returns (won: bool)
      modifies this
      ensures Value() == Expire(old(Value())) && won == !old(completed) && completed && timer == Done
      ensures won && old(respChan) == [] ==> respChan == [TimedOut]
      ensures !won ==> respChan == old(respChan)
    {
      timer := Done;
      if completed { return false; }
      completed := true;
      Send(TimedOut);
      return true;
    }
  }

  // Lookup, then the settling of the promise.
  ghost function Settled(s: State, id: MsgId, r: Response): State { Step(Step(s, Lookup(id)), SettleWith(id, r)) }

  // When the channel was full, the removal follows at once.
  ghost function WithRemoval(full: bool, s: State, id: MsgId): State
  {
    if full then Removed(s, id) else s
  }

  // A Remove call for an id that the manager has not decided to remove comes from outside.
  ghost function Asked(s: State, id: MsgId): State { if id in s.removing then s else Step(s, OutsideRemove(id)) }

  ghost function Removed(s: State, id: MsgId): State
  {
    if id in s.table then Step(Step(s, Delete(id)), Subtract(id)) else s
  }

  ghost function AfterSchedule(s: State, id: MsgId, removeAt: Time): State
  {
    WithRemoval(|s.removeCh| >= DELAYED_REMOVE_CAPACITY, Step(s, Schedule(id, removeAt)), id)
  }

  ghost function AfterOnTimeout(s: State, id: MsgId, removeAt: Time): State
  {
    WithRemoval(|s.removeCh| >= DELAYED_REMOVE_CAPACITY, Step(s, L.Event.OnTimeout(id, removeAt)), id)
  }

  // The id is put last into the channel of 1000 slots, or leaves the map at once when that is full.
  predicate HandedOn(ch: seq<DelayedRemove>, ch': seq<DelayedRemove>,
      promises: map<MsgId, PromiseObject>, promises': map<MsgId, PromiseObject>, id: MsgId, removeAt: Time)
  {
    if |ch| < 1000 then ch' == ch + [DelayedRemove(id, removeAt)] && promises' == promises
    else ch' == ch && promises' == promises - {id}
  }

  datatype Outcome = Ok | NotFound | AlreadyCompleted

  class PromiseManager {
    const maxCapacity: int
    var promises: map<MsgId, PromiseObject>
    var count: int
    var delayedRemoveCh: seq<DelayedRemove>
    ghost var st: State

    ghost predicate Valid() reads this, promises.Values
    {
      && st.maxCapacity == maxCapacity
      && st.table == promises.Keys
      && st.count == count
      && st.removeCh == delayedRemoveCh
      && (forall id <- promises ::
            id in st.promises && promises[id].Value() == st.promises[id] && promises[id].msgId == id)
    }

    constructor (maxCapacity: int, ghost creators: nat)
      ensures Valid() && promises == map[]
      ensures this.maxCapacity == if maxCapacity <= 0 then 50000 else maxCapacity
      ensures st == Empty(this.maxCapacity, creators)
    {
      var capacity := if maxCapacity <= 0 then 50000 else maxCapacity;
      this.maxCapacity := capacity;
      promises, count, delayedRemoveCh := map[], 0, [];
      st := Empty(capacity, creators);
    }

    // Storing a promise and counting it.
    method StoreAndCount(p: PromiseObject, msgId: MsgId)
      requires Valid() && count < maxCapacity && p.Value() == NEW_PROMISE && p.msgId == msgId
      modifies this
      ensures promises == old(promises)[msgId := p] && count == old(count) + 1
      ensures old(msgId !in st.promises && InFlight(st) < st.creators) ==> Valid() && st == Created(old(st), msgId)
    {
      hide Created, Step, InFlight;
      if msgId !in st.promises && InFlight(st) < st.creators { CreateSteps(st, msgId); }
      st := Created(st, msgId);
      promises := promises[msgId := p];
      count := count + 1;
      assert promises.Keys == old(promises).Keys + {msgId};
    }

    /** Create refuses exactly when count is at capacity. Otherwise it stores and counts a new promise; the
        map grows with count exactly when the id was not in it, and for an id never used before, within the
        calls allowed in flight, this is a run of the machine's steps. */
    method Create(msgId: MsgId) returns (p: PromiseObject?)
      requires Valid()
      modifies this
      ensures p == null <==> old(count) >= maxCapacity
      ensures p == null ==> Valid() && promises == old(promises) && st == old(st)
      ensures p != null ==> fresh(p) && promises == old(promises)[msgId := p] && count == old(count) + 1
      ensures p != null ==> (|promises| - count == old(|promises| - count) <==> msgId !in old(promises))
      ensures p != null && old(msgId !in st.promises && InFlight(st) < st.creators) ==>
        Valid() && st == Created(old(st), msgId)
    {
      var currentCount := count;
      if currentCount >= maxCapacity { return null; }
      p := new PromiseObject(msgId);
      StoreAndCount(p, msgId);
    }

    /** Remove deletes the entry and lowers count, both or neither, whether the manager calls it for a
        removal under way or somebody outside for any id. */
    method Remove(msgId: MsgId)
      requires Valid()
      modifies this
      ensures Valid() && delayedRemoveCh == old(delayedRemoveCh)
      ensures promises == old(promises) - {msgId}
      ensures count == old(count) - (if msgId in old(promises) then 1 else 0)
      ensures st == Removed(Asked(old(st), msgId), msgId)
      ensures st.removing == old(st.removing) + {msgId} && st.pending == old(st.pending)
      ensures st.promises == old(st.promises)
    {
      hide Step, Removed, Asked;
      NoteAsked(msgId);
      RemovalSteps(st, msgId);
      if msgId in promises {
        promises := promises - {msgId};
        count := count - 1;
      }
      st := Removed(st, msgId);
    }

    // A call from outside is an event of its own; a call of the manager follows from an earlier one.
    ghost method NoteAsked(msgId: MsgId)
      requires Valid()
      modifies this`st
      ensures Valid() && st == Asked(old(st), msgId)
      ensures st.removing == old(st.removing) + {msgId} && st.pending == old(st.pending)
      ensures st.promises == old(st.promises)
    {
      st := Asked(st, msgId);
    }

    // The select at the end of Complete and Fail: hand the id to the loop, or remove it when the channel is full.
    method ScheduleOrRemove(msgId: MsgId, removeAt: Time)
      requires Valid() && msgId in st.finishing
      modifies this
      ensures Valid()
      ensures st == AfterSchedule(old(st), msgId, removeAt)
      ensures HandedOn(old(delayedRemoveCh), delayedRemoveCh, old(promises), promises, msgId, removeAt)
    {
      if |delayedRemoveCh| < DELAYED_REMOVE_CAPACITY {
        delayedRemoveCh := delayedRemoveCh + [DelayedRemove(msgId, removeAt)];
        st := Step(st, Schedule(msgId, removeAt));
      } else {
        st := Step(st, Schedule(msgId, removeAt));
        Remove(msgId);
      }
    }

    /** Complete settles the promise it finds; only the call that wins schedules the removal. */
    method Complete(msgId: MsgId, ack: string, removeAt: Time) returns (r: Outcome)
      requires Valid()
      modifies this, promises.Values
      ensures Valid()
      ensures r == if msgId !in old(promises) then NotFound
                   else if old(promises[msgId].completed) then AlreadyCompleted else Ok
      ensures st == if r.NotFound? then old(st)
                    else if r.AlreadyCompleted? then Step(old(st), Lookup(msgId))
                    else AfterSchedule(Settled(old(st), msgId, Acked(ack)), msgId, removeAt)
      ensures r.Ok? ==> old(promises)[msgId].completed
      ensures r.Ok? && old(promises[msgId].respChan) == [] ==> old(promises)[msgId].respChan == [Acked(ack)]
      ensures r.Ok? ==> HandedOn(old(delayedRemoveCh), delayedRemoveCh, old(promises), promises, msgId, removeAt)
      ensures !r.Ok? ==> promises == old(promises) && delayedRemoveCh == old(delayedRemoveCh)
    {
      if msgId !in promises { return NotFound; }
      var promise := promises[msgId];
      SettleSteps(st, msgId, Acked(ack));
      hide Step;
      var won := promise.Complete(ack);
      st := if won then Settled(st, msgId, Acked(ack)) else Step(st, Lookup(msgId));
      if won {
        ScheduleOrRemove(msgId, removeAt);
        return Ok;
      }
      return AlreadyCompleted;
    }

    method Fail(msgId: MsgId, err: string, removeAt: Time) returns (r: Outcome)
      requires Valid()
      modifies this, promises.Values
      ensures Valid()
      ensures r == if msgId !in old(promises) then NotFound
                   else if old(promises[msgId].completed) then AlreadyCompleted else Ok
      ensures st == if r.NotFound? then old(st)
                    else if r.AlreadyCompleted? then Step(old(st), Lookup(msgId))
                    else AfterSchedule(Settled(old(st), msgId, Failed(err)), msgId, removeAt)
      ensures r.Ok? ==> old(promises)[msgId].completed
      ensures r.Ok? && old(promises[msgId].respChan) == [] ==> old(promises)[msgId].respChan == [Failed(err)]
      ensures r.Ok? ==> HandedOn(old(delayedRemoveCh), delayedRemoveCh, old(promises), promises, msgId, removeAt)
      ensures !r.Ok? ==> promises == old(promises) && delayedRemoveCh == old(delayedRemoveCh)
    {
      if msgId !in promises { return NotFound; }
      var promise := promises[msgId];
      SettleSteps(st, msgId, Failed(err));
      hide Step;
      var won := promise.Fail(err);
      st := if won then Settled(st, msgId, Failed(err)) else Step(st, Lookup(msgId));
      if won {
        ScheduleOrRemove(msgId, removeAt);
        return Ok;
      }
      return AlreadyCompleted;
    }

    /** The manager's part of the timer callback, before Timeout. */
    method OnTimeout(promise: PromiseObject, msgId: MsgId, removeAt: Time)
      requires Valid() && msgId in st.promises && promise.Value() == st.promises[msgId] && promise.timer.Firing?
      requires promise.msgId == msgId && (msgId in promises ==> promises[msgId] == promise)
      modifies this, promise
      ensures Valid()
      ensures st == AfterOnTimeout(old(st), msgId, removeAt)
      ensures HandedOn(old(delayedRemoveCh), delayedRemoveCh, old(promises), promises, msgId, removeAt)
    {
      promise.timer := Expiring;
      if |delayedRemoveCh| < DELAYED_REMOVE_CAPACITY {
        delayedRemoveCh := delayedRemoveCh + [DelayedRemove(msgId, removeAt)];
        st := Step(st, L.Event.OnTimeout(msgId, removeAt));
      } else {
        st := Step(st, L.Event.OnTimeout(msgId, removeAt));
        Remove(msgId);
      }
    }

    ghost method NoteTick(now: Time)
      requires Valid()
      modifies this`st
      ensures Valid()
      ensures st.pending == NotDue(old(st.pending), now)
      ensures st.removing == old(st.removing) + Ids(Due(old(st.pending), now))
    {
      st := Step(st, LoopTick(now));
    }

    ghost method NoteCleanup(msgId: MsgId)
      requires Valid() && msgId in promises && promises[msgId].completed
      modifies this`st
      ensures Valid() && msgId in st.removing
    {
      st := Step(st, CleanupSees(msgId));
    }

    // One turn of the loop: items is the slice when the loop began, pending[..i] what it has kept so far.
    method TickItem(pending: array<DelayedRemove>, i: nat, k: nat, now: Time,
        ghost items: seq<DelayedRemove>, ghost start: map<MsgId, PromiseObject>)
      returns (j: nat)
      requires Valid() && i <= k < |items| <= pending.Length && pending[k] == items[k]
      requires pending[..i] == NotDue(items[..k], now) && promises == start - Ids(Due(items[..k], now))
      requires Ids(Due(items, now)) <= st.removing
      modifies this, pending
      ensures Valid() && st.removing == old(st.removing) && st.pending == old(st.pending)
      ensures j <= k + 1 && pending[..j] == NotDue(items[..k + 1], now)
      ensures promises == start - Ids(Due(items[..k + 1], now))
      ensures pending[k + 1..] == old(pending[k + 1..])
    {
      var item := pending[k];
      DueFrom(items, k, now);
      j := i;
      if IsDue(item, now) {
        DueGrows(items, k + 1, now);
        hide *;
        assert item.msgId in Ids(Due(items[..k + 1], now));
        Remove(item.msgId);
      } else {
        hide *;
        pending[i] := item;
        j := i + 1;
        assert pending[..j] == old(pending[..i]) + [item];
      }
    }

    /** The delayed-removal loop's tick: remove what is due, and keep the rest, compacted in place
        to the front of the slice in the same order. */
    method Tick(pending: array<DelayedRemove>, n: nat, now: Time) returns (i: nat)
      requires Valid() && n <= pending.Length && st.pending == pending[..n]
      modifies this, pending
      ensures Valid() && i <= n
      ensures pending[..i] == NotDue(old(pending[..n]), now) && st.pending == pending[..i]
      ensures pending[n..] == old(pending[n..])
      ensures promises == old(promises) - Ids(Due(old(pending[..n]), now))
      ensures promises == old(promises) - set item | item in old(pending[..n]) && item.removeAt <= now :: item.msgId
    {
      ghost var was := pending[..n];
      NoteTick(now);
      DueFrom(was, 0, now);
      hide *;
      i := 0;
      for k := 0 to n
        invariant Valid() && i <= k
        invariant pending[..i] == NotDue(was[..k], now)
        invariant pending[k..] == old(pending[k..])
        invariant st.pending == NotDue(was, now)
        invariant Ids(Due(was, now)) <= st.removing
        invariant promises == old(promises) - Ids(Due(was[..k], now))
      {
        assert old(pending[k..])[0] == was[k];
        assert pending[k] == pending[k..][0];
        ghost var before := pending[k..];
        i := TickItem(pending, i, k, now, was, old(promises));
        assert pending[k + 1..] == before[1..];
      }
      assert was[..n] == was;
      DueIds(was, now);
    }

    /** cleanup removes exactly the completed promises from the map. */
    method Cleanup()
      requires Valid()
      modifies this
      ensures Valid()
      ensures promises == map id | id in old(promises) && !old(promises[id].completed) :: old(promises)[id]
      ensures count == old(count) - |set id | id in old(promises) && old(promises[id].completed)|
    {
      hide Step, Valid;
      var toRemove: set<MsgId> := set id | id in promises && promises[id].completed;
      ghost var completed := toRemove;
      while toRemove != {}
        invariant Valid()
        invariant forall id <- toRemove :: id in promises
        invariant forall id <- promises :: id in old(promises) && promises[id] == old(promises)[id]
        invariant forall id <- old(promises) ::
          if old(promises[id].completed) then id in promises ==> id in toRemove
          else id in promises && id !in toRemove
        invariant count == old(count) - |completed| + |toRemove|
      {
        var msgId :| msgId in toRemove;
        NoteCleanup(msgId);
        Remove(msgId);
        toRemove := toRemove - {msgId};
      }
    }
  }

  ghost function Created(s: State, id: MsgId): State { Step(Step(Step(Step(s, Check), New(id)), Store(id)), Add(id)) }

  // What the four events of an undisturbed Create add up to.
  lemma CreateSteps(s: State, id: MsgId)
    requires s.count < s.maxCapacity && InFlight(s) < s.creators && id !in s.promises
    ensures var t := Created(s, id);
      && t.maxCapacity == s.maxCapacity && t.removeCh == s.removeCh
      && t.promises == s.promises[id := NEW_PROMISE]
      && t.table == s.table + {id} && t.count == s.count + 1
  {
  }

  // What the two events of an undisturbed Remove add up to.
  lemma RemovalSteps(s: State, id: MsgId)
    requires id in s.removing
    ensures var t := Removed(s, id);
      && t.maxCapacity == s.maxCapacity && t.removeCh == s.removeCh && t.promises == s.promises
      && t.removing == s.removing && t.pending == s.pending
      && t.table == s.table - {id} && t.count == s.count - (if id in s.table then 1 else 0)
  {
  }

  // What looking a promise up and settling it add up to.
  lemma SettleSteps(s: State, id: MsgId, r: Response)
    requires id in s.table && id in s.promises
    ensures Step(s, Lookup(id)) == s.(found := s.found + {id})
    ensures !s.promises[id].completed ==>
      Settled(s, id, r) == s.(found := s.found + {id}, finishing := s.finishing + {id},
                              promises := s.promises[id := Settle(s.promises[id], r)])
  {
  }

  ghost function Ids(ids: seq<MsgId>): set<MsgId> { set id | id in ids }

  lemma DueIds(items: seq<DelayedRemove>, now: Time)
    ensures Ids(Due(items, now)) == set item | item in items && item.removeAt <= now :: item.msgId
  {
    DueOrKept(items, now);
  }

  // One turn of the loop over the items.
  lemma DueFrom(items: seq<DelayedRemove>, k: nat, now: Time)
    ensures Due([], now) == [] && NotDue([], now) == [] && Ids([]) == {}
    ensures k < |items| ==>
      Ids(Due(items[..k + 1], now))
        == Ids(Due(items[..k], now)) + (if IsDue(items[k], now) then {items[k].msgId} else {})
    ensures k < |items| ==>
      && Due(items[..k + 1], now) == Due(items[..k], now) + (if IsDue(items[k], now) then [items[k].msgId] else [])
      && NotDue(items[..k + 1], now) == NotDue(items[..k], now) + (if IsDue(items[k], now) then [] else [items[k]])
  {
    if k < |items| { assert items[..k + 1][..k] == items[..k]; }
  }

  lemma {:induction false} DueGrows(items: seq<DelayedRemove>, k: nat, now: Time)
    requires k <= |items|
    ensures Ids(Due(items[..k], now)) <= Ids(Due(items, now))
    decreases |items|
  {
    if k < |items| {
      var front := items[..|items| - 1];
      assert items[..k] == front[..k];
      DueGrows(front, k, now);
    } else {
      assert items[..k] == items;
    }
  }
}
