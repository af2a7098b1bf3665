/** The metadata rows behind local storage: the per-user quota check of Store, its deduplication by
    content hash, and the soft delete. */
module Quota {
  import opened Runs

  // A user id as the caller gives it: "anonymous", a UUID (0 is the nil UUID), or text that is neither.
  datatype User = Anonymous | Id(uuid: nat) | Malformed

  const NIL_UUID: nat := 0

  /** A row of file_metadata. file_path and file_hash are unique indexes over all rows, deleted ones included. */
  datatype Row = Row(path: string, hash: string, size: nat, owner: nat, deleted: bool)

  datatype State = State(userQuota: int, rows: seq<Row>)

  datatype Outcome =
    | Stored | Duplicate | QuotaExceeded | IoFailed | SizeMismatch | BadUser | Conflict | Deleted | NotFound

  // `written` is what io.Copy delivered; ioOk says whether the file-system steps succeeded.
  datatype Call =
    | Store(path: string, hash: string, size: int, user: User, written: nat, ioOk: bool)
    | Delete(path: string, ioOk: bool)

  // SUM(file_size) over the owner's live rows.
  function Used(rows: seq<Row>, owner: nat): nat
  {
    if rows == [] then 0
    else
      var last := rows[|rows| - 1];
      Used(rows[..|rows| - 1], owner) + (if last.owner == owner && !last.deleted then last.size else 0)
  }

  predicate WithinQuota(s: State, user: User, size: int)
  {
    match user
    case Anonymous => !(s.userQuota > 0 && size > s.userQuota)
    case Id(uuid) => s.userQuota <= 0 || Used(s.rows, uuid) + size <= s.userQuota
    case Malformed => s.userQuota <= 0   // comparing the text with a uuid column fails
  }

  predicate HasLiveHash(rows: seq<Row>, hash: string) { exists r <- rows :: r.hash == hash && !r.deleted }

  // What INSERT would violate.
  predicate Conflicts(rows: seq<Row>, path: string, hash: string)
  {
    exists r <- rows :: r.path == path || r.hash == hash
  }

  // The live row at a path, or |rows|.
  function LiveAt(rows: seq<Row>, path: string): (i: nat)
    ensures i <= |rows| && (i < |rows| ==> rows[i].path == path && !rows[i].deleted)
    ensures i == |rows| ==> forall k :: 0 <= k < |rows| ==> rows[k].path != path || rows[k].deleted
  {
    if rows == [] then 0
    else if rows[0].path == path && !rows[0].deleted then 0
    else 1 + LiveAt(rows[1..], path)
  }

  // Store and Delete, decision by decision.
  function Apply(s: State, c: Call): (State, Outcome)
  {
    match c
    case Store(path, hash, size, user, written, ioOk) =>
      if !WithinQuota(s, user, size) then (s, QuotaExceeded)
      else if !ioOk then (s, IoFailed)
      else if written != size then (s, SizeMismatch)
      else if user.Malformed? then (s, BadUser)
      else if HasLiveHash(s.rows, hash) then (s, Duplicate)
      else if Conflicts(s.rows, path, hash) then (s, Conflict)
      else
        var owner := if user.Id? then user.uuid else NIL_UUID;
        (s.(rows := s.rows + [Row(path, hash, size, owner, false)]), Stored)
    case Delete(path, ioOk) =>
      var i := LiveAt(s.rows, path);
      if i == |s.rows| then (s, NotFound)
      else if !ioOk then (s, IoFailed)
      else (s.(rows := s.rows[i := s.rows[i].(deleted := true)]), Deleted)
  }

  function Step(s: State, c: Call): State { Apply(s, c).0 }

  /** The storage object; Store and Delete run under its lock, one at a time. */
  class LocalStorage {
    const userQuota: int
    var rows: seq<Row>

    ghost function Abs(): State reads this { State(userQuota, rows) }

    constructor (userQuota: int)
      ensures Abs() == State(userQuota, [])
    {
      this.userQuota := userQuota;
      rows := [];
    }

    // SELECT COALESCE(SUM(file_size), 0) ... AND is_deleted = false
    method UsedSpace(owner: nat) returns (used: nat)
      ensures used == Used(rows, owner)
      ensures (forall r <- rows :: r.owner != owner || r.deleted) ==> used == 0
    {
      used := 0;
      for i := 0 to |rows|
        invariant used == Used(rows[..i], owner)
        invariant (forall r <- rows[..i] :: r.owner != owner || r.deleted) ==> used == 0
      {
        assert rows[..i + 1][..i] == rows[..i];
        if rows[i].owner == owner && !rows[i].deleted { used := used + rows[i].size; }
      }
      assert rows[..|rows|] == rows;
    }

    /** An anonymous file is only compared with the quota by itself, and a quota that is not positive allows
        every file. */
    method CheckQuota(user: User, size: int) returns (ok: bool)
      ensures ok <==> WithinQuota(Abs(), user, size)
      ensures user.Anonymous? ==> (ok <==> userQuota <= 0 || size <= userQuota)
      ensures user.Id? ==> (ok <==> userQuota <= 0 || Used(rows, user.uuid) + size <= userQuota)
      ensures user.Malformed? ==> (ok <==> userQuota <= 0)
    {
      if user.Anonymous? {
        return !(userQuota > 0 && size > userQuota);
      }
      if userQuota <= 0 { return true; }
      if user.Malformed? { return false; }
      var used := UsedSpace(user.uuid);
      return !(used + size > userQuota);
    }

    method StoreFile(path: string, hash: string, size: int, user: User, written: nat, ioOk: bool) returns (r: Outcome)
      modifies this
      ensures (Abs(), r) == Apply(old(Abs()), Store(path, hash, size, user, written, ioOk))
      ensures r == QuotaExceeded <==> userQuota > 0 && (match user
        case Anonymous => size > userQuota
        case Id(uuid) => Used(old(rows), uuid) + size > userQuota
        case Malformed => true)
      ensures r != QuotaExceeded ==>
        && (r == IoFailed <==> !ioOk)
        && (r == SizeMismatch <==> ioOk && written != size)
        && (r == BadUser <==> ioOk && written == size && user == Malformed)
      ensures r !in {QuotaExceeded, IoFailed, SizeMismatch, BadUser} ==>
        && (r == Duplicate <==> exists row <- old(rows) :: row.hash == hash && !row.deleted)
        && (r == Stored <==> forall row <- old(rows) :: row.hash != hash && row.path != path)
        && r in {Duplicate, Stored, Conflict}
      ensures rows == old(rows) +
        if r == Stored then [Row(path, hash, size, if user.Id? then user.uuid else 0, false)] else []
    {
      var ok := CheckQuota(user, size);
      if !ok { return QuotaExceeded; }
      if !ioOk { return IoFailed; }
      if written != size { return SizeMismatch; }
      var owner := NIL_UUID;
      if !user.Anonymous? {
        if user.Malformed? { return BadUser; }
        owner := user.uuid;
      }
      if HasLiveHash(rows, hash) { return Duplicate; }
      if Conflicts(rows, path, hash) { return Conflict; }
      rows := rows + [Row(path, hash, size, owner, false)];
      return Stored;
    }

    method DeleteFile(path: string, ioOk: bool) returns (r: Outcome)
      modifies this
      ensures (Abs(), r) == Apply(old(Abs()), Delete(path, ioOk))
      ensures r == NotFound <==> forall row <- old(rows) :: row.path != path || row.deleted
      ensures r != NotFound ==> r == if ioOk then Deleted else IoFailed
      ensures r != Deleted ==> rows == old(rows)
      ensures r == Deleted ==> |rows| == |old(rows)| && exists i :: (
        && 0 <= i < |rows| && old(rows)[i].path == path && !old(rows)[i].deleted
        && rows == old(rows)[i := old(rows)[i].(deleted := true)])
    {
      var i := LiveAt(rows, path);
      if i == |rows| { return NotFound; }
      if !ioOk { return IoFailed; }
      rows := rows[i := rows[i].(deleted := true)];
      return Deleted;
    }
  }

  // ---------- invariants ----------

  ghost predicate Inv(s: State)
  {
    && (s.userQuota > 0 ==> forall owner: nat :: owner != NIL_UUID ==> Used(s.rows, owner) <= s.userQuota)
    && (forall i, j :: 0 <= i < j < |s.rows| ==> s.rows[i].hash != s.rows[j].hash && s.rows[i].path != s.rows[j].path)
  }

  // What an owner holds falls by the size of a live row of theirs that is deleted.
  lemma {:induction false} UsedAfterDelete(rows: seq<Row>, i: nat, owner: nat)
    requires i < |rows|
    ensures Used(rows[i := rows[i].(deleted := true)], owner)
      == Used(rows, owner) - (if rows[i].owner == owner && !rows[i].deleted then rows[i].size else 0)
  {
    var n := |rows| - 1;
    var after := rows[i := rows[i].(deleted := true)];
    if i < n {
      assert after[..n] == rows[..n][i := rows[i].(deleted := true)];
      UsedAfterDelete(rows[..n], i, owner);
    } else {
      assert after[..n] == rows[..n];
    }
  }

  lemma StepKeepsInv(s: State, c: Call)
    requires Inv(s)
    ensures Inv(Step(s, c)) && Step(s, c).userQuota == s.userQuota
  {
    var t := Step(s, c);
    forall owner: nat | owner != NIL_UUID && s.userQuota > 0 ensures Used(t.rows, owner) <= s.userQuota {
      if c.Store? && t != s {
        assert t.rows[..|s.rows|] == s.rows;
      } else if c.Delete? && t != s {
        UsedAfterDelete(s.rows, LiveAt(s.rows, c.path), owner);
      }
    }
    if c.Store? && t != s {
      assert !Conflicts(s.rows, c.path, c.hash);
      assert forall i :: 0 <= i < |s.rows| ==> s.rows[i] in s.rows;
    }
  }

  lemma {:induction false} AllRuns(quota: int, calls: seq<Call>)
    ensures Inv(Run(Step, State(quota, []), calls)) && Run(Step, State(quota, []), calls).userQuota == quota
  {
    var inv := (s: State) => Inv(s) && s.userQuota == quota;
    forall s, c | inv(s) ensures inv(Step(s, c)) { StepKeepsInv(s, c); }
    Invariant(Step, inv, State(quota, []), calls);
  }

  /** Over any run of Store and Delete calls, succeeding or failing, no user but the anonymous one ever
      holds more live bytes than the quota. */
  lemma {:induction false} QuotaHolds(quota: int, calls: seq<Call>, owner: nat)
    requires quota > 0 && owner != NIL_UUID
    ensures Used(Run(Step, State(quota, []), calls).rows, owner) <= quota
  {
    AllRuns(quota, calls);
  }

  /** No two live rows share a hash or a path; indeed no two rows do, deleted ones included. */
  lemma {:induction false} HashesAreUnique(quota: int, calls: seq<Call>, i: nat, j: nat)
    requires i < j < |Run(Step, State(quota, []), calls).rows|
    ensures var rows := Run(Step, State(quota, []), calls).rows;
      rows[i].hash != rows[j].hash && rows[i].path != rows[j].path
  {
    AllRuns(quota, calls);
  }

  function OwnerOf(user: User): nat { if user.Id? then user.uuid else NIL_UUID }

  /** In every run a file with a new path and a new hash is stored exactly when it fits: by itself for the
      anonymous user, with all that the owner holds for a named one. Stored, it adds its size to what its
      owner holds, and nothing to what anybody else does. */
  lemma {:induction false} NewFileIsAdded(quota: int, calls: seq<Call>, c: Call, owner: nat)
    requires c.Store? && c.ioOk && c.written == c.size && !c.user.Malformed?
    requires forall r <- Run(Step, State(quota, []), calls).rows :: r.path != c.path && r.hash != c.hash
    ensures var s, t := Run(Step, State(quota, []), calls), Run(Step, State(quota, []), calls + [c]);
      var held := if c.user.Id? then Used(s.rows, c.user.uuid) else 0;
      if quota > 0 && held + c.size > quota then t == s
      else
        && t.rows == s.rows + [Row(c.path, c.hash, c.size, OwnerOf(c.user), false)]
        && Used(t.rows, owner) == Used(s.rows, owner) + (if owner == OwnerOf(c.user) then c.size else 0)
  {
    var s := Run(Step, State(quota, []), calls);
    RunSnoc(Step, State(quota, []), calls, c);
    AllRuns(quota, calls);
    var row := Row(c.path, c.hash, c.written, OwnerOf(c.user), false);
    assert (s.rows + [row])[..|s.rows|] == s.rows;
    assert !HasLiveHash(s.rows, c.hash);
  }

  /** In every run a deletion that goes through takes the one live row at its path out of what its owner
      holds, and leaves every other row and every other owner alone. */
  lemma {:induction false} DeletedFileIsFreed(quota: int, calls: seq<Call>, path: string, i: nat, owner: nat)
    requires var rows := Run(Step, State(quota, []), calls).rows;
      i < |rows| && rows[i].path == path && !rows[i].deleted
    ensures var rows := Run(Step, State(quota, []), calls).rows;
      var after := Run(Step, State(quota, []), calls + [Delete(path, true)]).rows;
      && after == rows[i := Row(path, rows[i].hash, rows[i].size, rows[i].owner, true)]
      && Used(after, owner) == Used(rows, owner) - (if owner == rows[i].owner then rows[i].size else 0)
  {
    var s := Run(Step, State(quota, []), calls);
    RunSnoc(Step, State(quota, []), calls, Delete(path, true));
    AllRuns(quota, calls);
    var k := LiveAt(s.rows, path);
    assert k == i;
    UsedAfterDelete(s.rows, i, owner);
  }

  // Without a check of the sum, two files of one size go through.
  lemma {:induction false} TwoFiles(quota: int, user: User, size: nat)
    requires !user.Malformed? && (quota <= 0 || (user.Anonymous? && size <= quota))
    ensures exists calls: seq<Call> :: Used(Run(Step, State(quota, []), calls).rows, OwnerOf(user)) == 2 * size
  {
    var a, b := Store("a", "x", size, user, size, true), Store("b", "y", size, user, size, true);
    var s0 := State(quota, []);
    RunNone(Step, s0);
    NewFileIsAdded(quota, [], a, OwnerOf(user));
    assert [] + [a] == [a];
    assert "x"[0] != "y"[0] && "a"[0] != "b"[0];
    NewFileIsAdded(quota, [a], b, OwnerOf(user));
  }

  /** The quota bounds what an owner holds in every run exactly when it is positive and the owner is not
      the anonymous user, whose files are only checked one by one. */
  lemma {:induction false} QuotaHoldsIff(quota: int, owner: nat)
    ensures (forall calls: seq<Call> :: Used(Run(Step, State(quota, []), calls).rows, owner) <= quota)
      <==> (quota > 0 && owner != NIL_UUID)
  {
    if quota > 0 && owner != NIL_UUID {
      forall calls: seq<Call> ensures Used(Run(Step, State(quota, []), calls).rows, owner) <= quota {
        QuotaHolds(quota, calls, owner);
      }
    } else {
      var user := if owner == NIL_UUID then Anonymous else Id(owner);
      TwoFiles(quota, user, if quota > 0 then quota else 1);
    }
  }

  ghost predicate Tombstone(s: State, hash: string) { exists r <- s.rows :: r.hash == hash && r.deleted }

  /** Deleting is final for the content: a hash once deleted can never be stored again, in any later run. */
  lemma {:induction false} DeletedHashNeverReturns(s: State, later: seq<Call>, c: Call)
    requires Inv(s) && c.Store? && Tombstone(s, c.hash)
    ensures Apply(Run(Step, s, later), c).1 != Stored && Apply(Run(Step, s, later), c).1 != Duplicate
  {
    var hash := c.hash;
    var inv := (t: State) => Inv(t) && Tombstone(t, hash);
    forall t, d | inv(t) ensures inv(Step(t, d)) {
      StepKeepsInv(t, d);
      var k :| 0 <= k < |t.rows| && t.rows[k].hash == hash && t.rows[k].deleted;
      assert Step(t, d).rows[k] == t.rows[k] && Step(t, d).rows[k] in Step(t, d).rows;
    }
    Invariant(Step, inv, s, later);
    var t := Run(Step, s, later);
    assert Conflicts(t.rows, c.path, hash);
  }
}
