/** The edit lock of the config center. An acquire is a chain of separate SQL statements, so
    acquires, releases and clean-ups of any number of requests interleave between them; the
    model runs all of them against one table and one clock. */
module EditLock {
  import opened Basics
  import opened Runs

  type ConfigId = nat
  type RowId = nat
  type Time = int
  type Request = nat

  /** A row of config_edit_locks. `id` is the primary key; config_id is a unique index. */
  datatype Row = Row(id: RowId, config: ConfigId, lockedBy: string, lockedAt: Time, expiresAt: Time, session: string)

  // Where an AcquireEditLock call stands between two of its statements.
  datatype Progress =
    | Started                          // now and expiresAt computed
    | CleanedUp                        // CleanupExpiredLocks done
    | Found(existing: Row)             // First returned a row
    | Expired(existing: Row)           // IsExpired said yes
    | ReadyToCreate                    // no row found, or the expired one deleted
    | Refused                          // locked by someone else, or the insert hit the unique index
    | Acquired(lock: Row)

  datatype Acquire = Acquire(
    config: ConfigId, lockedBy: string, session: string, now: Time, expiresAt: Time, progress: Progress)

  // How a row left the table.
  datatype Removal = ByExpiry | BySession(session: string)

  /** Ghost history: one lease per successful insert. */
  datatype Lease = Lease(row: Row, createdAt: Time, removal: Option<(Time, Removal)>)

  datatype State = State(
    clock: Time,
    nextId: RowId,                     // auto-increment: a row id is never reused
    rows: map<ConfigId, Row>,          // the unique index on config_id
    requests: map<Request, Acquire>,
    leases: seq<Lease>)

  datatype Event =
    | Tick(d: nat)
    | Begin(r: Request, config: ConfigId, lockedBy: string, session: string, ttl: int)
    | Cleanup(asOf: Time)              // DELETE WHERE expires_at < asOf, asOf read at some earlier moment
    | CleanupIn(r: Request, asOf: Time)
    | Select(r: Request)
    | SelectFails(r: Request)          // a database error is treated like no row found
    | Check(r: Request)
    | DeleteOld(r: Request)
    | DeleteFails(r: Request)          // and this delete's result is not looked at
    | Insert(r: Request)
    | Release(config: ConfigId, session: string)

  // ---------- the SQL statements ----------

  function DeleteExpired(rows: map<ConfigId, Row>, asOf: Time): map<ConfigId, Row>
  {
    map c | c in rows && rows[c].expiresAt >= asOf :: rows[c]
  }

  function DeleteById(rows: map<ConfigId, Row>, id: RowId): map<ConfigId, Row>
  {
    map c | c in rows && rows[c].id != id :: rows[c]
  }

  function DeleteBySession(rows: map<ConfigId, Row>, config: ConfigId, session: string): map<ConfigId, Row>
  {
    map c | c in rows && !(c == config && rows[c].session == session) :: rows[c]
  }

  // The history records when and how each lease that was open lost its row.
  function Close(leases: seq<Lease>, rows: map<ConfigId, Row>, at: Time, how: Removal): seq<Lease>
  {
    seq(|leases|, i requires 0 <= i < |leases| =>
      var l := leases[i];
      if l.removal.None? && l.row !in rows.Values then l.(removal := Some((at, how))) else l)
  }

  // The table after a delete, with the history brought up to date.
  function Delete(s: State, rows: map<ConfigId, Row>, how: Removal): State
  {
    s.(rows := rows, leases := Close(s.leases, rows, s.clock, how))
  }

  function Move(s: State, r: Request, p: Progress): State
    requires r in s.requests
  {
    s.(requests := s.requests[r := s.requests[r].(progress := p)])
  }

  predicate At(s: State, r: Request, p: Progress) { r in s.requests && s.requests[r].progress == p }

  // One atomic step; an event that is not enabled changes nothing.
  function Step(s: State, e: Event): State
  {
    match e
    case Tick(d) => s.(clock := s.clock + d)
    case Begin(r, config, lockedBy, session, ttl) =>
      if r in s.requests then s
      else s.(requests := s.requests[r := Acquire(config, lockedBy, session, s.clock, s.clock + ttl, Started)])
    case Cleanup(asOf) =>
      if asOf <= s.clock then Delete(s, DeleteExpired(s.rows, asOf), ByExpiry) else s
    case CleanupIn(r, asOf) =>
      if At(s, r, Started) && asOf <= s.clock
      then Move(Delete(s, DeleteExpired(s.rows, asOf), ByExpiry), r, CleanedUp) else s
    case Select(r) =>
      if !At(s, r, CleanedUp) then s
      else
        var config := s.requests[r].config;
        Move(s, r, if config in s.rows then Found(s.rows[config]) else ReadyToCreate)
    case SelectFails(r) => if At(s, r, CleanedUp) then Move(s, r, ReadyToCreate) else s
    case DeleteFails(r) =>
      if r in s.requests && s.requests[r].progress.Expired? then Move(s, r, ReadyToCreate) else s
    case Check(r) =>
      if r in s.requests && s.requests[r].progress.Found? then
        var row := s.requests[r].progress.existing;
        Move(s, r, if s.clock > row.expiresAt then Expired(row) else Refused)
      else s
    case DeleteOld(r) =>
      if r in s.requests && s.requests[r].progress.Expired? then
        Move(Delete(s, DeleteById(s.rows, s.requests[r].progress.existing.id), ByExpiry), r, ReadyToCreate)
      else s
    case Insert(r) =>
      if !At(s, r, ReadyToCreate) then s
      else
        var a := s.requests[r];
        if a.config in s.rows then Move(s, r, Refused)
        else
          var row := Row(s.nextId, a.config, a.lockedBy, a.now, a.expiresAt, a.session);
          Move(s.(nextId := s.nextId + 1, rows := s.rows[a.config := row],
                  leases := s.leases + [Lease(row, s.clock, None)]), r, Acquired(row))
    case Release(config, session) =>
      Delete(s, DeleteBySession(s.rows, config, session), BySession(session))
  }

  const EMPTY := State(0, 0, map[], map[], [])

  /** The store's methods, each SQL statement a change of the table; clock readings are parameters. */
  class EditLockStore {
    var rows: map<ConfigId, Row>
    var nextId: RowId

    constructor ()
      ensures rows == map[] && nextId == 0
    {
      rows, nextId := map[], 0;
    }

    /** The locks that expired before now go, no other does, and they are counted. */
    method CleanupExpiredLocks(now: Time) returns (affected: nat)
      modifies this
      ensures forall c :: c in rows <==> c in old(rows) && !(old(rows)[c].expiresAt < now)
      ensures forall c <- rows :: rows[c] == old(rows)[c]
      ensures affected == |set c | c in old(rows) && old(rows)[c].expiresAt < now|
      ensures nextId == old(nextId)
    {
      var expired := set c | c in rows && rows[c].expiresAt < now;
      affected := |expired|;
      rows := rows - expired;
      assert expired == set c | c in old(rows) && old(rows)[c].expiresAt < now;
    }

    // First fails without a row.
    method GetEditLock(config: ConfigId) returns (lock: Option<Row>)
      ensures lock.Some? <==> config in rows
      ensures lock.Some? ==> lock.value == rows[config]
    {
      lock := if config in rows then Some(rows[config]) else None;
    }

    method Create(config: ConfigId, lockedBy: string, session: string, now: Time, expiresAt: Time)
      returns (lock: Option<Row>)
      modifies this
      ensures lock.Some? <==> config !in old(rows)
      ensures lock.Some? ==> lock.value == Row(old(nextId), config, lockedBy, now, expiresAt, session)
      ensures rows == if lock.Some? then old(rows)[config := lock.value] else old(rows)
      ensures nextId == if lock.Some? then old(nextId) + 1 else old(nextId)
    {
      if config in rows { return None; }
      lock := Some(Row(nextId, config, lockedBy, now, expiresAt, session));
      rows := rows[config := lock.value];
      nextId := nextId + 1;
    }

    /** The lock of the config goes exactly when it is held by this session; no other lock is touched. */
    method ReleaseEditLock(config: ConfigId, session: string)
      modifies this
      ensures config in rows <==> config in old(rows) && old(rows)[config].session != session
      ensures forall c :: c != config ==> (c in rows <==> c in old(rows))
      ensures forall c <- rows :: rows[c] == old(rows)[c]
      ensures nextId == old(nextId)
    {
      rows := DeleteBySession(rows, config, session);
    }

    /** An acquire that nobody interleaves with, with its three clock readings: it succeeds exactly
        when the config has no lock that is still valid at the last reading. */
    method AcquireEditLock(config: ConfigId, lockedBy: string, session: string, ttl: int,
        now: Time, cleanedAt: Time, checkedAt: Time)
      returns (lock: Option<Row>)
      requires now <= cleanedAt <= checkedAt
      requires forall c <- rows :: rows[c].config == c
      requires forall c, d :: c in rows && d in rows && c != d ==> rows[c].id != rows[d].id
      modifies this
      ensures lock.Some? <==> (config in old(rows) ==> old(rows)[config].expiresAt < checkedAt)
      ensures lock.Some? ==> lock.value == Row(old(nextId), config, lockedBy, now, now + ttl, session)
      ensures var swept := DeleteExpired(old(rows), cleanedAt);
        rows == if lock.Some? then swept[config := lock.value] else swept
    {
      var expiresAt := now + ttl;
      var _ := CleanupExpiredLocks(cleanedAt);
      var existing := GetEditLock(config);
      if existing.Some? {
        if !(checkedAt > existing.value.expiresAt) {
          return None;
        }
        rows := DeleteById(rows, existing.value.id);
      }
      lock := Create(config, lockedBy, session, now, expiresAt);
    }
  }

  // ---------- the invariant ----------

  ghost predicate TableOk(s: State)
  {
    && (forall c <- s.rows :: s.rows[c].config == c)
    && (forall c <- s.rows :: exists i ::
          0 <= i < |s.leases| && s.leases[i].row == s.rows[c] && s.leases[i].removal.None?)
  }

  ghost predicate LeaseOk(s: State, l: Lease)
  {
    && l.row.lockedAt <= l.createdAt <= s.clock
    && l.row.id < s.nextId
    && (l.removal.None? ==> l.row.config in s.rows && s.rows[l.row.config] == l.row)
    && (l.removal.Some? ==>
          && l.createdAt <= l.removal.value.0 <= s.clock
          && match l.removal.value.1
             case BySession(session) => session == l.row.session
             case ByExpiry => l.removal.value.0 > l.row.expiresAt)
  }

  // A request about to delete a row saw that very row expired.
  ghost predicate RequestOk(s: State, a: Acquire)
  {
    && a.now <= s.clock
    && match a.progress
       case Found(row) => Leased(s, row)
       case Expired(row) => row.expiresAt < s.clock && Leased(s, row)
       case Acquired(row) =>
         Leased(s, row) && row == Row(row.id, a.config, a.lockedBy, a.now, a.expiresAt, a.session)
       case _ => true
  }

  ghost predicate Leased(s: State, row: Row) { exists i :: 0 <= i < |s.leases| && s.leases[i].row == row }

  // An earlier lease on the same config had lost its row when the later one was created.
  ghost predicate Successive(a: Lease, b: Lease)
  {
    a.row.config == b.row.config ==> a.removal.Some? && a.removal.value.0 <= b.createdAt
  }

  ghost predicate Inv(s: State)
  {
    && TableOk(s)
    && (forall i :: 0 <= i < |s.leases| ==> LeaseOk(s, s.leases[i]))
    && (forall i, j :: 0 <= i < j < |s.leases| ==> s.leases[i].row.id != s.leases[j].row.id)
    && (forall i, j :: 0 <= i < j < |s.leases| ==> Successive(s.leases[i], s.leases[j]))
    && (forall r <- s.requests :: RequestOk(s, s.requests[r]))
  }

  // A delete keeps the invariant if every row it removes may be removed in that way.
  lemma DeleteKeepsInv(s: State, rows: map<ConfigId, Row>, how: Removal)
    requires Inv(s)
    requires forall c <- rows :: c in s.rows && rows[c] == s.rows[c]
    requires forall c <- s.rows :: c !in rows ==>
      match how case BySession(x) => x == s.rows[c].session case ByExpiry => s.clock > s.rows[c].expiresAt
    ensures Inv(Delete(s, rows, how))
  {
    var t := Delete(s, rows, how);
    forall i | 0 <= i < |t.leases| ensures LeaseOk(t, t.leases[i]) && t.leases[i].row == s.leases[i].row {
      assert LeaseOk(s, s.leases[i]);
      var l := s.leases[i];
      if l.removal.None? && l.row.config in rows {
        assert rows[l.row.config] == l.row;
        assert l.row in rows.Values;
      }
    }
    forall c | c in t.rows
      ensures exists i :: 0 <= i < |t.leases| && t.leases[i].row == t.rows[c] && t.leases[i].removal.None?
    {
      var i :| 0 <= i < |s.leases| && s.leases[i].row == s.rows[c] && s.leases[i].removal.None?;
      assert s.rows[c] in rows.Values;
      assert t.leases[i].row == t.rows[c] && t.leases[i].removal.None?;
    }
    forall i, j | 0 <= i < j < |t.leases| ensures Successive(t.leases[i], t.leases[j]) {
      assert Successive(s.leases[i], s.leases[j]);
    }
    forall r | r in t.requests ensures RequestOk(t, t.requests[r]) {
      KeepRequest(s, t, s.requests[r]);
    }
  }

  lemma KeepRequest(s: State, t: State, a: Acquire)
    requires RequestOk(s, a) && s.clock <= t.clock && |s.leases| <= |t.leases|
    requires forall i :: 0 <= i < |s.leases| ==> t.leases[i].row == s.leases[i].row
    ensures RequestOk(t, a)
  {
    if a.progress.Found? || a.progress.Expired? {
      KeepLeased(s, t, a.progress.existing);
    } else if a.progress.Acquired? {
      KeepLeased(s, t, a.progress.lock);
    }
  }

  lemma KeepLeased(s: State, t: State, row: Row)
    requires Leased(s, row) && |s.leases| <= |t.leases|
    requires forall i :: 0 <= i < |s.leases| ==> t.leases[i].row == s.leases[i].row
    ensures Leased(t, row)
  {
    var i :| 0 <= i < |s.leases| && s.leases[i].row == row;
    assert t.leases[i].row == row;
  }

  lemma InsertKeepsTable(s: State, r: Request)
    requires Inv(s) && At(s, r, ReadyToCreate) && s.requests[r].config !in s.rows
    ensures TableOk(Step(s, Insert(r)))
  {
    var t := Step(s, Insert(r));
    var n := |s.leases|;
    forall c | c in t.rows
      ensures exists i :: 0 <= i < |t.leases| && t.leases[i].row == t.rows[c] && t.leases[i].removal.None?
    {
      if c in s.rows {
        var i :| 0 <= i < |s.leases| && s.leases[i].row == s.rows[c] && s.leases[i].removal.None?;
        assert t.leases[i] == s.leases[i];
      } else {
        assert t.leases[n].row == t.rows[c];
      }
    }
  }

  lemma InsertKeepsLeases(s: State, r: Request)
    requires Inv(s) && At(s, r, ReadyToCreate) && s.requests[r].config !in s.rows
    ensures var t := Step(s, Insert(r));
      && (forall i :: 0 <= i < |t.leases| ==> LeaseOk(t, t.leases[i]))
      && (forall i, j :: 0 <= i < j < |t.leases| ==> Successive(t.leases[i], t.leases[j]))
  {
    assert s.requests[r].now <= s.clock by { assert RequestOk(s, s.requests[r]); }
    hide TableOk, RequestOk;
    var t := Step(s, Insert(r));
    var n := |s.leases|;
    forall i | 0 <= i < n ensures LeaseOk(t, t.leases[i]) && Successive(t.leases[i], t.leases[n]) {
      assert LeaseOk(s, s.leases[i]);
    }
    forall i, j | 0 <= i < j < |t.leases| ensures Successive(t.leases[i], t.leases[j]) {
      assert j < n ==> Successive(s.leases[i], s.leases[j]);
    }
  }

  lemma InsertKeepsInv(s: State, r: Request)
    requires Inv(s) && At(s, r, ReadyToCreate) && s.requests[r].config !in s.rows
    ensures Inv(Step(s, Insert(r)))
  {
    InsertKeepsTable(s, r);
    InsertKeepsLeases(s, r);
    assert forall i :: 0 <= i < |s.leases| ==> LeaseOk(s, s.leases[i]) && s.leases[i].row.id < s.nextId;
    hide TableOk, LeaseOk, Successive;
    var t := Step(s, Insert(r));
    assert Leased(t, t.requests[r].progress.lock) by { assert t.leases[|s.leases|].row == t.requests[r].progress.lock; }
    assert RequestOk(s, s.requests[r]);
    forall q | q in t.requests ensures RequestOk(t, t.requests[q]) {
      if q != r { KeepRequest(s, t, s.requests[q]); }
    }
  }

  lemma TickKeepsInv(s: State, d: nat)
    requires Inv(s)
    ensures Inv(Step(s, Tick(d)))
  {
    var t := Step(s, Tick(d));
    forall i | 0 <= i < |t.leases| ensures LeaseOk(t, t.leases[i]) { assert LeaseOk(s, s.leases[i]); }
    forall r | r in t.requests ensures RequestOk(t, t.requests[r]) { KeepRequest(s, t, s.requests[r]); }
  }

  lemma CleanupKeepsInv(s: State, r: Request, asOf: Time)
    requires Inv(s)
    ensures Inv(Step(s, Cleanup(asOf))) && Inv(Step(s, CleanupIn(r, asOf)))
  {
    if asOf <= s.clock {
      DeleteKeepsInv(s, DeleteExpired(s.rows, asOf), ByExpiry);
      if At(s, r, Started) {
        MoveKeepsInv(Delete(s, DeleteExpired(s.rows, asOf), ByExpiry), Step(s, CleanupIn(r, asOf)));
      }
    }
  }

  lemma SelectKeepsInv(s: State, r: Request)
    requires Inv(s)
    ensures Inv(Step(s, Select(r)))
  {
    var t := Step(s, Select(r));
    if At(s, r, CleanedUp) && s.requests[r].config in s.rows {
      var i :| 0 <= i < |s.leases| && s.leases[i].row == s.rows[s.requests[r].config];
      assert RequestOk(t, t.requests[r]);
    }
    MoveKeepsInv(s, t);
  }

  lemma DeleteOldKeepsInv(s: State, r: Request)
    requires Inv(s)
    ensures Inv(Step(s, DeleteOld(r)))
  {
    if r in s.requests && s.requests[r].progress.Expired? {
      DeleteOldOnlyExpired(s, r);
      var rows := DeleteById(s.rows, s.requests[r].progress.existing.id);
      DeleteKeepsInv(s, rows, ByExpiry);
      MoveKeepsInv(Delete(s, rows, ByExpiry), Step(s, DeleteOld(r)));
    }
  }

  lemma StepKeepsInv(s: State, e: Event)
    requires Inv(s)
    ensures Inv(Step(s, e))
  {
    hide TableOk, LeaseOk, RequestOk, Successive;
    match e
    case Tick(d) => TickKeepsInv(s, d);
    case Begin(r, config, who, session, ttl) => BeginKeepsInv(s, r, config, who, session, ttl);
    case Cleanup(asOf) => CleanupKeepsInv(s, 0, asOf);
    case CleanupIn(r, asOf) => CleanupKeepsInv(s, r, asOf);
    case Select(r) => SelectKeepsInv(s, r);
    case SelectFails(_) | DeleteFails(_) => FailureKeepsInv(s, e);
    case Check(r) => CheckKeepsInv(s, r);
    case DeleteOld(r) => DeleteOldKeepsInv(s, r);
    case Insert(r) => InsertOrRefuseKeepsInv(s, r);
    case Release(config, session) =>
      DeleteKeepsInv(s, DeleteBySession(s.rows, config, session), BySession(session));
  }

  lemma BeginKeepsInv(s: State, r: Request, config: ConfigId, who: string, session: string, ttl: int)
    requires Inv(s)
    ensures Inv(Step(s, Begin(r, config, who, session, ttl)))
  {
    MoveKeepsInv(s, Step(s, Begin(r, config, who, session, ttl)));
  }

  lemma FailureKeepsInv(s: State, e: Event)
    requires Inv(s) && (e.SelectFails? || e.DeleteFails?)
    ensures Inv(Step(s, e))
  {
    MoveKeepsInv(s, Step(s, e));
  }

  lemma CheckKeepsInv(s: State, r: Request)
    requires Inv(s)
    ensures Inv(Step(s, Check(r)))
  {
    if r in s.requests {
      assert RequestOk(s, s.requests[r]);
      MoveKeepsInv(s, Step(s, Check(r)));
    }
  }

  lemma InsertOrRefuseKeepsInv(s: State, r: Request)
    requires Inv(s)
    ensures Inv(Step(s, Insert(r)))
  {
    if At(s, r, ReadyToCreate) {
      if s.requests[r].config in s.rows { MoveKeepsInv(s, Step(s, Insert(r))); } else { InsertKeepsInv(s, r); }
    }
  }

  // Deleting by the id of a row seen expired removes that row or nothing.
  lemma DeleteOldOnlyExpired(s: State, r: Request)
    requires Inv(s) && r in s.requests && s.requests[r].progress.Expired?
    ensures forall c <- s.rows :: s.rows[c].id == s.requests[r].progress.existing.id ==> s.clock > s.rows[c].expiresAt
  {
    var row := s.requests[r].progress.existing;
    assert RequestOk(s, s.requests[r]);
    var i :| 0 <= i < |s.leases| && s.leases[i].row == row;
    forall c | c in s.rows && s.rows[c].id == row.id ensures s.clock > s.rows[c].expiresAt {
      var j :| 0 <= j < |s.leases| && s.leases[j].row == s.rows[c];
      assert i == j;
    }
  }

  // Steps that only move one request along.
  lemma MoveKeepsInv(s: State, t: State)
    requires Inv(s)
    requires t == s.(requests := t.requests)
    requires forall r <- t.requests ::
      (r in s.requests && t.requests[r] == s.requests[r]) || RequestOk(t, t.requests[r])
    ensures Inv(t)
  {
    forall i | 0 <= i < |t.leases| ensures LeaseOk(t, t.leases[i]) { assert LeaseOk(s, s.leases[i]); }
    forall r | r in t.requests ensures RequestOk(t, t.requests[r]) {
      if r in s.requests && t.requests[r] == s.requests[r] { KeepRequest(s, t, s.requests[r]); }
    }
  }

  // ---------- theorems over all interleavings ----------

  lemma {:induction false} AllRuns(es: seq<Event>)
    ensures Inv(Run(Step, EMPTY, es))
  {
    forall s, e | Inv(s) ensures Inv(Step(s, e)) { StepKeepsInv(s, e); }
    Invariant(Step, Inv, EMPTY, es);
  }

  /** A lock row leaves the table before its expiry only through a release with its own session id. */
  lemma {:induction false} RemovedEarlyOnlyByOwner(es: seq<Event>, i: nat)
    requires var s := Run(Step, EMPTY, es); i < |s.leases| && s.leases[i].removal.Some?
    ensures var l := Run(Step, EMPTY, es).leases[i];
      l.removal.value.0 > l.row.expiresAt || l.removal.value.1 == BySession(l.row.session)
  {
    AllRuns(es);
    assert LeaseOk(Run(Step, EMPTY, es), Run(Step, EMPTY, es).leases[i]);
  }

  // One acquire that nobody interleaves with, while d ticks pass between its clean-up and its check.
  function Alone(s: State, r: Request, config: ConfigId, who: string, session: string, ttl: int, d: nat): seq<Event>
  {
    [Begin(r, config, who, session, ttl), CleanupIn(r, s.clock), Tick(d), Select(r)] +
    [Check(r), DeleteOld(r), Insert(r), Tick(0)]
  }

  lemma AloneSelects(s: State, r: Request, config: ConfigId, who: string, session: string, ttl: int, d: nat)
    requires r !in s.requests
    ensures var t := Run(Step, s, Alone(s, r, config, who, session, ttl, d)[..4]);
      && t.rows == DeleteExpired(s.rows, s.clock) && t.clock == s.clock + d
      && r in t.requests
      && t.requests[r] == Acquire(config, who, session, s.clock, s.clock + ttl,
                                  if config in t.rows then Found(t.rows[config]) else ReadyToCreate)
  {
    RunFour(Step, s, Alone(s, r, config, who, session, ttl, d)[..4]);
    hide Close;
  }

  lemma AloneCreates(t: State, r: Request)
    requires r in t.requests && (forall c <- t.rows :: t.rows[c].config == c)
    requires t.requests[r].progress
      == if t.requests[r].config in t.rows then Found(t.rows[t.requests[r].config]) else ReadyToCreate
    ensures var u := Run(Step, t, [Check(r), DeleteOld(r), Insert(r), Tick(0)]);
      var a := t.requests[r];
      && r in u.requests
      && (u.requests[r].progress.Acquired? <==> a.config in t.rows ==> t.rows[a.config].expiresAt < t.clock)
      && (u.requests[r].progress.Acquired? ==>
            && a.config in u.rows
            && u.rows[a.config] == u.requests[r].progress.lock
            && u.rows[a.config] == Row(t.nextId, a.config, a.lockedBy, a.now, a.expiresAt, a.session))
  {
    RunFour(Step, t, [Check(r), DeleteOld(r), Insert(r), Tick(0)]);
    hide Close;
  }

  /** Left alone, an acquire gets the lock exactly when the config has none that is still valid when it
      looks, and then the row in the table is its own. */
  lemma {:induction false} AcquireAlone(es: seq<Event>, r: Request, config: ConfigId, who: string, session: string,
      ttl: int, d: nat)
    requires r !in Run(Step, EMPTY, es).requests
    ensures var s := Run(Step, EMPTY, es);
      var t := Run(Step, s, Alone(s, r, config, who, session, ttl, d));
      && r in t.requests
      && (t.requests[r].progress.Acquired? <==> config in s.rows ==> s.rows[config].expiresAt < s.clock + d)
      && (t.requests[r].progress.Acquired? ==>
            && config in t.rows && t.rows[config] == t.requests[r].progress.lock
            && t.rows[config].session == session
            && t.rows[config].lockedBy == who && t.rows[config].expiresAt == s.clock + ttl)
  {
    AllRuns(es);
    var s := Run(Step, EMPTY, es);
    var alone := Alone(s, r, config, who, session, ttl, d);
    AloneSelects(s, r, config, who, session, ttl, d);
    var mid := Run(Step, s, alone[..4]);
    assert forall c <- mid.rows :: mid.rows[c].config == c;
    assert alone == alone[..4] + [Check(r), DeleteOld(r), Insert(r), Tick(0)];
    RunConcat(Step, s, alone[..4], [Check(r), DeleteOld(r), Insert(r), Tick(0)]);
    AloneCreates(mid, r);
  }

  // The lease is in force from the insert until expiry or removal, whichever is first.
  function End(l: Lease): Time
  {
    if l.removal.Some? && l.removal.value.0 < l.row.expiresAt then l.removal.value.0 else l.row.expiresAt
  }

  ghost predicate InForce(l: Lease, t: Time) { l.createdAt <= t < End(l) }

  /** No two leases on one config are ever in force together, and a lease that its own session
      did not release is over before the next one on that config begins. */
  lemma {:induction false} LeasesAreDisjoint(es: seq<Event>, i: nat, j: nat, t: Time)
    requires var s := Run(Step, EMPTY, es);
      i < j < |s.leases| && s.leases[i].row.config == s.leases[j].row.config
    ensures var s := Run(Step, EMPTY, es);
      var a, b := s.leases[i], s.leases[j];
      && !(InForce(a, t) && InForce(b, t))
      && a.removal.Some?
      && (a.row.expiresAt < b.createdAt || a.removal.value.1 == BySession(a.row.session))
  {
    AllRuns(es);
    var s := Run(Step, EMPTY, es);
    assert Successive(s.leases[i], s.leases[j]);
    assert LeaseOk(s, s.leases[i]);
  }

  // ---------- the stored dates ----------

  /** The interval a lock row claims, from its LockedAt on, as long as the lease lasts. */
  predicate Stored(l: Lease, t: Time) { l.row.lockedAt <= t < End(l) }

  ghost predicate Disjoint(a: Lease, b: Lease) { forall t :: !(Stored(a, t) && Stored(b, t)) }

  predicate EverInForce(l: Lease) { l.createdAt < End(l) }

  /** The stored intervals of two locks on one config, both ever in force, are disjoint exactly when the
      first was over when the call that made the second began. */
  lemma {:induction false} StoredDisjointIff(es: seq<Event>, i: nat, j: nat)
    requires var s := Run(Step, EMPTY, es);
      && i < j < |s.leases| && s.leases[i].row.config == s.leases[j].row.config
      && EverInForce(s.leases[i]) && EverInForce(s.leases[j])
    ensures var a, b := Run(Step, EMPTY, es).leases[i], Run(Step, EMPTY, es).leases[j];
      Disjoint(a, b) <==> End(a) <= b.row.lockedAt
  {
    AllRuns(es);
    var s := Run(Step, EMPTY, es);
    var a, b := s.leases[i], s.leases[j];
    assert Successive(a, b) && LeaseOk(s, a) && LeaseOk(s, b);
    var t := if a.row.lockedAt < b.row.lockedAt then b.row.lockedAt else a.row.lockedAt;
    assert End(a) > b.row.lockedAt ==> Stored(a, t) && Stored(b, t);
  }

  // What no step takes back.
  ghost predicate Later(s: State, t: State)
  {
    && s.clock <= t.clock && s.nextId <= t.nextId && |s.leases| <= |t.leases|
    && (forall i :: 0 <= i < |s.leases| ==> LaterLease(s, s.leases[i], t.leases[i]))
    && (forall i :: |s.leases| <= i < |t.leases| ==> s.clock <= t.leases[i].createdAt)
    && (forall r <- s.requests :: r in t.requests && LaterRequest(s, s.requests[r], t.requests[r]))
  }

  predicate LaterLease(s: State, a: Lease, b: Lease)
  {
    && b.row == a.row && b.createdAt == a.createdAt
    && (a.removal.Some? ==> b.removal == a.removal)
    && (a.removal.None? && b.removal.Some? ==> s.clock <= b.removal.value.0)
  }

  predicate LaterRequest(s: State, a: Acquire, b: Acquire)
  {
    && b == a.(progress := b.progress)
    && (a.progress.Acquired? ==> b.progress == a.progress)
    && (!a.progress.Acquired? && b.progress.Acquired? ==> s.nextId <= b.progress.lock.id)
  }

  lemma StepIsLater(s: State, e: Event)
    ensures Later(s, Step(s, e))
  {
    hide DeleteExpired, DeleteById, DeleteBySession;
  }

  lemma LaterTransitive(s: State, t: State, u: State)
    requires Later(s, t) && Later(t, u)
    ensures Later(s, u)
  {
    forall i | 0 <= i < |s.leases| ensures LaterLease(s, s.leases[i], u.leases[i]) {
      assert LaterLease(s, s.leases[i], t.leases[i]) && LaterLease(t, t.leases[i], u.leases[i]);
    }
    forall i | |s.leases| <= i < |u.leases| ensures s.clock <= u.leases[i].createdAt {
      if i < |t.leases| { assert LaterLease(t, t.leases[i], u.leases[i]); }
    }
    forall r | r in s.requests ensures r in u.requests && LaterRequest(s, s.requests[r], u.requests[r]) {
      assert LaterRequest(s, s.requests[r], t.requests[r]) && LaterRequest(t, t.requests[r], u.requests[r]);
    }
  }

  lemma {:induction false} RunIsLater(s: State, es: seq<Event>)
    ensures Later(s, Run(Step, s, es))
  {
    forall t, e ensures Later(t, Step(t, e)) { StepIsLater(t, e); }
    forall t ensures Later(t, t) { }
    forall t, u, v | Later(t, u) && Later(u, v) ensures Later(t, v) { LaterTransitive(t, u, v); }
    hide Later, Step;
    Preserved(Step, t => true, (t, u) => Later(t, u), s, es);
  }

  // What GetEditLock shows when the call begins: a lock that is still valid.
  predicate Locked(s: State, config: ConfigId) { config in s.rows && s.rows[config].expiresAt > s.clock }

  // The lease that request r won.
  predicate Won(s: State, r: Request, j: nat)
  {
    && r in s.requests && s.requests[r].progress.Acquired?
    && j < |s.leases| && s.leases[j].row == s.requests[r].progress.lock
  }

  // A call of AcquireEditLock somewhere in a run: `pre` before it begins, `post` from then on.
  function Whole(pre: seq<Event>, b: Event, post: seq<Event>): seq<Event> { pre + [b] + post }

  // What the call leaves behind when it wins: a lease made since it began, dated by its beginning.
  lemma {:induction false} WonSince(pre: seq<Event>, b: Event, post: seq<Event>, j: nat)
    requires b.Begin? && b.r !in Run(Step, EMPTY, pre).requests
    requires Won(Run(Step, EMPTY, Whole(pre, b, post)), b.r, j)
    ensures var s, t := Run(Step, EMPTY, pre), Run(Step, EMPTY, Whole(pre, b, post));
      && Inv(s) && Inv(t) && Later(s, t) && |s.leases| <= j
      && t.leases[j].row.config == b.config
      && t.leases[j].row.lockedAt == s.clock && t.leases[j].row.expiresAt == s.clock + b.ttl
  {
    var s, t := Run(Step, EMPTY, pre), Run(Step, EMPTY, Whole(pre, b, post));
    AllRuns(pre);
    AllRuns(Whole(pre, b, post));
    RunSnoc(Step, EMPTY, pre, b);
    RunConcat(Step, EMPTY, pre + [b], post);
    var s1 := Step(s, b);
    RunIsLater(s1, post);
    StepIsLater(s, b);
    LaterTransitive(s, s1, t);
    assert LaterRequest(s1, s1.requests[b.r], t.requests[b.r]);
    assert RequestOk(t, t.requests[b.r]);
    forall i | 0 <= i < |s.leases| ensures t.leases[i].row.id < s.nextId {
      assert LaterLease(s, s.leases[i], t.leases[i]) && LeaseOk(s, s.leases[i]);
    }
  }

  // If no lock was valid when the call began, every earlier lease was over by then.
  lemma EarlierIsOver(s: State, t: State, i: nat, config: ConfigId)
    requires Inv(s) && Inv(t) && Later(s, t) && i < |s.leases| && s.leases[i].row.config == config && !Locked(s, config)
    ensures End(t.leases[i]) <= s.clock
  {
    assert LeaseOk(s, s.leases[i]) && LaterLease(s, s.leases[i], t.leases[i]);
  }

  // The stored interval of the lease a call wins is disjoint from those of all leases that were there when it began.
  ghost predicate ClearOfEarlier(pre: seq<Event>, b: Event, post: seq<Event>)
    requires b.Begin?
  {
    var s, t := Run(Step, EMPTY, pre), Run(Step, EMPTY, Whole(pre, b, post));
    forall i: nat, j: nat ::
      i < |s.leases| && i < |t.leases| && t.leases[i].row.config == b.config && Won(t, b.r, j) ==>
        Disjoint(t.leases[i], t.leases[j])
  }

  /** However a run goes on from the beginning of a call, the stored interval of the lock it wins is
      disjoint from those of all earlier locks, if and only if no lock was valid when the call began
      (or the call asks for no time at all). */
  lemma {:induction false} ClearOfEarlierIff(pre: seq<Event>, b: Event)
    requires b.Begin? && b.r !in Run(Step, EMPTY, pre).requests
    ensures (forall post :: ClearOfEarlier(pre, b, post)) <==> b.ttl <= 0 || !Locked(Run(Step, EMPTY, pre), b.config)
  {
    var s := Run(Step, EMPTY, pre);
    if b.ttl <= 0 || !Locked(s, b.config) {
      forall post ensures ClearOfEarlier(pre, b, post) { ClearWhenFree(pre, b, post); }
    } else {
      var d := s.rows[b.config].expiresAt - s.clock + 1;
      NotClearWhenLocked(pre, b, d);
      assert !ClearOfEarlier(pre, b, Alone(s, b.r, b.config, b.lockedBy, b.session, b.ttl, d)[1..]);
    }
  }

  lemma ClearWhenFree(pre: seq<Event>, b: Event, post: seq<Event>)
    requires b.Begin? && b.r !in Run(Step, EMPTY, pre).requests
    requires b.ttl <= 0 || !Locked(Run(Step, EMPTY, pre), b.config)
    ensures ClearOfEarlier(pre, b, post)
  {
    var s, t := Run(Step, EMPTY, pre), Run(Step, EMPTY, Whole(pre, b, post));
    forall i: nat, j: nat | i < |s.leases| && i < |t.leases| && t.leases[i].row.config == b.config && Won(t, b.r, j)
      ensures Disjoint(t.leases[i], t.leases[j])
    {
      WonSince(pre, b, post, j);
      assert LaterLease(s, s.leases[i], t.leases[i]);
      if b.ttl > 0 { EarlierIsOver(s, t, i, b.config); }
    }
  }

  // The row in the table is that of an open lease, and of no other.
  lemma OpenLease(s: State, config: ConfigId) returns (i: nat)
    requires Inv(s) && config in s.rows
    ensures i < |s.leases| && s.leases[i].row == s.rows[config] && s.leases[i].removal.None?
  {
    i :| 0 <= i < |s.leases| && s.leases[i].row == s.rows[config] && s.leases[i].removal.None?;
  }

  lemma RowIsOpen(s: State, config: ConfigId, i: nat)
    requires Inv(s) && config in s.rows && i < |s.leases| && s.leases[i].row == s.rows[config]
    ensures s.leases[i].removal.None?
  {
    var k := OpenLease(s, config);
    assert s.leases[k].row.id == s.leases[i].row.id;
  }

  // A valid lock outlives the clean-up of the call, and whatever removes it comes after the wait.
  lemma StillOpen(s: State, r: Request, config: ConfigId, who: string, session: string, ttl: int, d: nat, i: nat)
    requires Inv(s) && r !in s.requests && Locked(s, config) && i < |s.leases| && s.leases[i].row == s.rows[config]
    ensures var t := Run(Step, s, Alone(s, r, config, who, session, ttl, d));
      && Later(s, t)
      && (t.leases[i].removal.Some? ==> t.leases[i].removal.value.0 >= s.clock + d)
  {
    var alone := Alone(s, r, config, who, session, ttl, d);
    AloneSelects(s, r, config, who, session, ttl, d);
    var m := Run(Step, s, alone[..4]);
    assert alone == alone[..4] + alone[4..];
    RunConcat(Step, s, alone[..4], alone[4..]);
    RunIsLater(s, alone[..4]);
    RunIsLater(m, alone[4..]);
    RunKeepsInv(s, alone[..4]);
    var t := Run(Step, s, alone);
    assert m.rows[config] == s.rows[config];
    hide Step, Run, Inv, Alone;
    LaterTransitive(s, m, t);
    assert LaterLease(s, s.leases[i], m.leases[i]) && LaterLease(m, m.leases[i], t.leases[i]);
    RowIsOpen(m, config, i);
  }

  // At the instant the call begins, the valid lock's interval and the one the call wins overlap.
  lemma BothAtBegin(s: State, t: State, i: nat, j: nat)
    requires Inv(s) && Inv(t) && Later(s, t) && i < |s.leases| && j < |t.leases|
    requires s.leases[i].row.expiresAt > s.clock
    requires t.leases[i].removal.Some? ==> t.leases[i].removal.value.0 > s.clock
    requires t.leases[j].row.lockedAt == s.clock < t.leases[j].row.expiresAt && t.leases[j].removal.None?
    ensures !Disjoint(t.leases[i], t.leases[j])
  {
    assert LeaseOk(s, s.leases[i]) && LaterLease(s, s.leases[i], t.leases[i]);
    assert Stored(t.leases[i], s.clock) && Stored(t.leases[j], s.clock);
  }

  // With a valid lock in the table the call can wait until it has expired, and then win.
  lemma NotClearWhenLocked(pre: seq<Event>, b: Event, d: nat)
    requires b.Begin? && b.r !in Run(Step, EMPTY, pre).requests && b.ttl > 0
    requires var s := Run(Step, EMPTY, pre); Locked(s, b.config) && d == s.rows[b.config].expiresAt - s.clock + 1
    ensures var s := Run(Step, EMPTY, pre);
      !ClearOfEarlier(pre, b, Alone(s, b.r, b.config, b.lockedBy, b.session, b.ttl, d)[1..])
  {
    var s := Run(Step, EMPTY, pre);
    var alone := Alone(s, b.r, b.config, b.lockedBy, b.session, b.ttl, d);
    AllRuns(pre);
    AcquireAlone(pre, b.r, b.config, b.lockedBy, b.session, b.ttl, d);
    assert alone == [b] + alone[1..];
    assert Whole(pre, b, alone[1..]) == pre + alone;
    hide Alone, Step;
    RunConcat(Step, EMPTY, pre, alone);
    AllRuns(pre + alone);
    var t := Run(Step, s, alone);
    var i := OpenLease(s, b.config);
    var j := OpenLease(t, b.config);
    StillOpen(s, b.r, b.config, b.lockedBy, b.session, b.ttl, d, i);
    hide Inv, Later, Disjoint;
    WonSince(pre, b, alone[1..], j);
    BothAtBegin(s, t, i, j);
    assert t.leases[i].row.config == b.config by { SameRow(s, t, i, b.config); }
    assert Won(t, b.r, j);
  }

  lemma SameRow(s: State, t: State, i: nat, config: ConfigId)
    requires Inv(s) && Later(s, t) && i < |s.leases| && config in s.rows && s.leases[i].row == s.rows[config]
    ensures t.leases[i].row.config == config
  {
    assert LaterLease(s, s.leases[i], t.leases[i]);
  }

  lemma {:induction false} RunKeepsInv(s: State, es: seq<Event>)
    requires Inv(s)
    ensures Inv(Run(Step, s, es))
  {
    forall t, e | Inv(t) ensures Inv(Step(t, e)) { StepKeepsInv(t, e); }
    Invariant(Step, Inv, s, es);
  }

  /** And if none was valid when the call began, the stored interval of the lock it wins is disjoint from
      those of all others before it, if and only if nobody else held the config between the beginning of
      the call and its insert. */
  lemma {:induction false} ClearOfAllIff(pre: seq<Event>, b: Event, post: seq<Event>, j: nat)
    requires b.Begin? && b.r !in Run(Step, EMPTY, pre).requests && !Locked(Run(Step, EMPTY, pre), b.config)
    requires var t := Run(Step, EMPTY, Whole(pre, b, post)); Won(t, b.r, j) && EverInForce(t.leases[j])
    ensures var s, t := Run(Step, EMPTY, pre), Run(Step, EMPTY, Whole(pre, b, post));
      (forall i :: 0 <= i < j && HeldBy(t, i, b.config) ==> Disjoint(t.leases[i], t.leases[j]))
      <==> (forall i :: |s.leases| <= i < j ==> !HeldBy(t, i, b.config))
  {
    var s, t := Run(Step, EMPTY, pre), Run(Step, EMPTY, Whole(pre, b, post));
    WonSince(pre, b, post, j);
    forall i | 0 <= i < j && HeldBy(t, i, b.config)
      ensures Disjoint(t.leases[i], t.leases[j]) <==> i < |s.leases|
    {
      StoredDisjointIff(Whole(pre, b, post), i, j);
      if i < |s.leases| {
        assert LaterLease(s, s.leases[i], t.leases[i]);
        EarlierIsOver(s, t, i, b.config);
      }
    }
  }

  // Lease i locked the config for some time.
  predicate HeldBy(s: State, i: nat, config: ConfigId)
  {
    i < |s.leases| && s.leases[i].row.config == config && EverInForce(s.leases[i])
  }

  // Lease i of the config has not lost its row.
  predicate OpenOn(s: State, i: nat, config: ConfigId)
  {
    i < |s.leases| && s.leases[i].row.config == config && s.leases[i].removal.None?
  }

  /** GetEditLock shows the row of the one lease of the config that has not lost its row, and shows none
      exactly when there is no such lease. */
  lemma {:induction false} ShownLockIsOpen(es: seq<Event>, config: ConfigId)
    ensures var s := Run(Step, EMPTY, es);
      && (config in s.rows <==> exists i: nat :: OpenOn(s, i, config))
      && (forall i: nat :: OpenOn(s, i, config) ==> config in s.rows && s.rows[config] == s.leases[i].row)
      && (forall i: nat, j: nat :: OpenOn(s, i, config) && OpenOn(s, j, config) ==> i == j)
  {
    AllRuns(es);
    var s := Run(Step, EMPTY, es);
    if config in s.rows {
      var i := OpenLease(s, config);
      assert OpenOn(s, i, config);
    }
    forall i: nat | OpenOn(s, i, config) ensures config in s.rows && s.rows[config] == s.leases[i].row {
      assert LeaseOk(s, s.leases[i]);
    }
    forall i: nat, j: nat | OpenOn(s, i, config) && OpenOn(s, j, config) ensures i == j {
      assert s.leases[i].row.id == s.leases[j].row.id;
    }
  }

  /** In the machine too a release frees the config exactly when the lock is held by its session, whose lease
      then ends, and a clean-up takes exactly the locks that expired before its reading of the clock. */
  lemma {:induction false} RemovalsAreExact(es: seq<Event>, config: ConfigId, session: string, asOf: Time, c: ConfigId)
    requires asOf <= Run(Step, EMPTY, es).clock
    ensures var s, t := Run(Step, EMPTY, es), Run(Step, EMPTY, es + [Release(config, session)]);
      && (c in t.rows <==> c in s.rows && !(c == config && s.rows[c].session == session))
      && (c in t.rows ==> t.rows[c] == s.rows[c])
    ensures var s, t := Run(Step, EMPTY, es), Run(Step, EMPTY, es + [Cleanup(asOf)]);
      && (c in t.rows <==> c in s.rows && !(s.rows[c].expiresAt < asOf))
      && (c in t.rows ==> t.rows[c] == s.rows[c])
  {
    RunSnoc(Step, EMPTY, es, Release(config, session));
    RunSnoc(Step, EMPTY, es, Cleanup(asOf));
    hide Run, Close;
  }

  /** A lease that is released is over from then on. */
  lemma {:induction false} ReleaseEndsLease(es: seq<Event>, config: ConfigId, session: string, i: nat)
    requires var s := Run(Step, EMPTY, es); OpenOn(s, i, config) && s.leases[i].row.session == session
    ensures var s, t := Run(Step, EMPTY, es), Run(Step, EMPTY, es + [Release(config, session)]);
      i < |t.leases| && t.leases[i] == s.leases[i].(removal := Some((s.clock, BySession(session))))
  {
    ShownLockIsOpen(es, config);
    RunSnoc(Step, EMPTY, es, Release(config, session));
    var s := Run(Step, EMPTY, es);
    AllRuns(es);
    hide Run;
    assert LeaseOk(s, s.leases[i]);
    forall c | c in DeleteBySession(s.rows, config, session)
      ensures DeleteBySession(s.rows, config, session)[c] != s.leases[i].row
    {
      assert s.rows[c].config == c;
    }
  }
}
