/** An upload session: chunks are appended to a temporary file whatever their offset says, while
    `committed` follows the offsets and a streaming checksum follows the data. */
module Upload {
  import opened Basics
  import opened Runs

  // ---------- checksum strings ----------

  // The part after the first colon, or the whole string.
  function AfterColon(s: string): string
  {
    if s == "" then "" else if s[0] == ':' then s[1..] else
      var rest := AfterColon(s[1..]);
      if ':' in s[1..] then rest else s
  }

  method ExtractHash(checksum: string) returns (hash: string)
    ensures hash == AfterColon(checksum)
  {
    for i := 0 to |checksum|
      invariant ':' !in checksum[..i]
    {
      if checksum[i] == ':' {
        assert checksum == checksum[..i] + ":" + checksum[i + 1..];
        AfterPrefix(checksum[..i], checksum[i + 1..]);
        return checksum[i + 1..];
      }
    }
    NoColon(checksum);
    return checksum;
  }

  lemma {:induction false} AfterPrefix(prefix: string, hash: string)
    requires ':' !in prefix
    ensures AfterColon(prefix + ":" + hash) == hash
  {
    var s := prefix + ":" + hash;
    if prefix == "" {
      assert s[1..] == hash;
    } else {
      assert s[1..] == prefix[1..] + ":" + hash;
      assert s[1..][|prefix| - 1] == ':';
      AfterPrefix(prefix[1..], hash);
    }
  }

  lemma {:induction false} NoColon(s: string)
    requires ':' !in s
    ensures AfterColon(s) == s
  {
    if s != "" { NoColon(s[1..]); }
  }

  predicate CompareChecksum(actual: string, expected: string) { AfterColon(actual) == AfterColon(expected) }

  /** The comparison accepts the expected hash bare or behind any colon-free prefix, and nothing else. */
  lemma {:induction false} CompareAccepts(hash: string, expected: string)
    ensures CompareChecksum("sha256:" + hash, expected) <==>
      (':' !in expected && expected == hash) || (exists prefix :: ':' !in prefix && expected == prefix + ":" + hash)
  {
    assert "sha256:" + hash == "sha256" + ":" + hash;
    AfterPrefix("sha256", hash);
    if ':' !in expected {
      NoColon(expected);
      forall prefix: string ensures expected != prefix + ":" + hash { assert (prefix + ":" + hash)[|prefix|] == ':'; }
    } else {
      var i := FirstColon(expected);
      var prefix, rest := expected[..i], expected[i + 1..];
      assert expected == prefix + ":" + rest;
      AfterPrefix(prefix, rest);
      forall p: string | ':' !in p && expected == p + ":" + hash ensures rest == hash {
        AfterPrefix(p, hash);
      }
    }
  }

  function FirstColon(s: string): (i: nat)
    requires ':' in s
    ensures i < |s| && s[i] == ':' && ':' !in s[..i]
  {
    if s[0] == ':' then 0 else
      assert s == [s[0]] + s[1..];
      var i := 1 + FirstColon(s[1..]);
      assert s[..i] == [s[0]] + s[1..][..i - 1];
      i
  }

  // ---------- the session ----------

  /** An accepted chunk: where the client said it belongs, where it was written, and its bytes. */
  datatype Chunk = Chunk(offset: int, position: int, data: seq<byte>)

  /** `hashed` is the input of the streaming checksum; `torn` counts bytes that failed writes left behind. */
  datatype Session = Session(
    fileSize: int, open: bool, cancelled: bool, file: seq<byte>, hashed: seq<byte>, committed: int,
    accepted: seq<Chunk>, torn: nat)

  function NewSession(fileSize: int): Session { Session(fileSize, true, false, [], [], 0, [], 0) }

  datatype Event =
    | UploadChunk(offset: int, data: seq<byte>, written: nat)  // `written` bytes stored; fewer than all is an error
    | Cancel
    | CloseFile                                              // CompleteUpload closes the file, and may then give up

  function Step(s: Session, e: Event): Session
  {
    match e
    case UploadChunk(offset, data, written) =>
      if s.cancelled || offset < s.committed || !s.open then s
      else if written < |data| then s.(file := s.file + data[..written], torn := s.torn + written)
      else s.(file := s.file + data, hashed := s.hashed + data, committed := offset + |data|,
              accepted := s.accepted + [Chunk(offset, |s.file|, data)])
    case Cancel => s.(cancelled := true, open := false)
    case CloseFile => s.(open := false)
  }

  // The gap between what the client was told is committed and what accepted chunks have stored.
  function Gap(s: Session): int { s.committed - |s.hashed| }

  ghost predicate InPlace(s: Session) { forall c <- s.accepted :: c.offset == c.position }

  ghost predicate StoredAt(file: seq<byte>, at: int, data: seq<byte>)
  {
    0 <= at && at + |data| <= |file| && file[at..at + |data|] == data
  }

  // The client said that some accepted chunk belongs at position k.
  ghost predicate Claimed(s: Session, k: int) { exists c <- s.accepted :: c.offset <= k < c.offset + |c.data| }

  ghost predicate Covered(s: Session, k: int) { exists c <- s.accepted :: c.position <= k < c.position + |c.data| }

  ghost predicate Inv(s: Session)
  {
    && Gap(s) >= 0
    && |s.file| == |s.hashed| + s.torn
    && (s.torn == 0 ==> s.file == s.hashed)
    && (forall c <- s.accepted :: StoredAt(s.file, c.position, c.data))
    && (s.torn == 0 ==> forall k :: 0 <= k < |s.file| ==> Covered(s, k))
    && (s.torn == 0 ==> (Gap(s) == 0 <==> InPlace(s)))
    && EndsAtCommitted(s)
    && ClaimsOk(s)
  }

  // Accepted chunks lie below committed, and if they leave no position below it unclaimed, nothing was skipped.
  ghost predicate ClaimsOk(s: Session)
  {
    && s.committed >= 0
    && (forall c <- s.accepted :: 0 <= c.offset && c.offset + |c.data| <= s.committed)
    && ((forall k :: 0 <= k < s.committed ==> Claimed(s, k)) ==> Gap(s) == 0)
  }

  // What has been committed is the end of the last accepted chunk.
  predicate EndsAtCommitted(s: Session)
  {
    if s.accepted == [] then s.committed == 0
    else
      var last := s.accepted[|s.accepted| - 1];
      s.committed == last.offset + |last.data|
  }

  lemma AcceptKeepsClaims(s: Session, e: Event)
    requires ClaimsOk(s) && Gap(s) >= 0
    requires e.UploadChunk? && !s.cancelled && e.offset >= s.committed && s.open && e.written >= |e.data|
    ensures ClaimsOk(Step(s, e))
  {
    var t := Step(s, e);
    var c := Chunk(e.offset, |s.file|, e.data);
    assert t.accepted == s.accepted + [c];
    assert forall d :: d in t.accepted <==> d in s.accepted || d == c;
    assert e.offset > s.committed ==> !Claimed(t, s.committed);
    if forall k :: 0 <= k < t.committed ==> Claimed(t, k) {
      forall k | 0 <= k < s.committed ensures Claimed(s, k) {
        assert Claimed(t, k);
        var d :| d in t.accepted && d.offset <= k < d.offset + |d.data|;
        assert d in s.accepted;
      }
    }
  }

  lemma AcceptKeepsInv(s: Session, e: Event)
    requires Inv(s) && e.UploadChunk? && !s.cancelled && e.offset >= s.committed && s.open && e.written >= |e.data|
    ensures Inv(Step(s, e))
  {
    AcceptKeepsClaims(s, e);
    hide ClaimsOk;
    var t := Step(s, e);
    var c := Chunk(e.offset, |s.file|, e.data);
    assert t.accepted == s.accepted + [c];
    forall d | d in t.accepted ensures StoredAt(t.file, d.position, d.data) {
      if d in s.accepted {
        assert StoredAt(s.file, d.position, d.data);
        assert t.file[d.position..d.position + |d.data|] == s.file[d.position..d.position + |d.data|];
      }
    }
    if t.torn == 0 {
      forall k | 0 <= k < |t.file| ensures Covered(t, k) {
        if k < |s.file| {
          assert Covered(s, k);
          var d :| d in s.accepted && d.position <= k < d.position + |d.data|;
          assert d in t.accepted;
        } else {
          assert c in t.accepted;
        }
      }
      assert InPlace(t) <==> InPlace(s) && c.offset == c.position by {
        assert forall d :: d in t.accepted <==> d in s.accepted || d == c;
      }
    }
  }

  lemma TearKeepsInv(s: Session, e: Event)
    requires Inv(s) && e.UploadChunk? && !s.cancelled && e.offset >= s.committed && s.open && e.written < |e.data|
    ensures Inv(Step(s, e))
  {
    var t := Step(s, e);
    forall d | d in t.accepted ensures StoredAt(t.file, d.position, d.data) {
      assert StoredAt(s.file, d.position, d.data);
      assert t.file[d.position..d.position + |d.data|] == s.file[d.position..d.position + |d.data|];
    }
    assert forall k :: Claimed(t, k) <==> Claimed(s, k);
    if t.torn == 0 {
      assert t.file == s.file;
      assert forall k :: Covered(t, k) <==> Covered(s, k);
    }
  }

  lemma StepKeepsInv(s: Session, e: Event)
    requires Inv(s)
    ensures Inv(Step(s, e)) && Gap(s) <= Gap(Step(s, e)) && s.torn <= Step(s, e).torn
  {
    if e.UploadChunk? && !s.cancelled && e.offset >= s.committed && s.open {
      if e.written < |e.data| { TearKeepsInv(s, e); } else { AcceptKeepsInv(s, e); }
    } else {
      var t := Step(s, e);
      assert forall k :: (Covered(t, k) <==> Covered(s, k)) && (Claimed(t, k) <==> Claimed(s, k));
    }
  }

  lemma {:induction false} AllRuns(fileSize: int, es: seq<Event>)
    ensures Inv(Run(Step, NewSession(fileSize), es)) && Run(Step, NewSession(fileSize), es).fileSize == fileSize
  {
    var start := NewSession(fileSize);
    var inv := (s: Session) => Inv(s) && s.fileSize == fileSize;
    forall s, e | inv(s) ensures inv(Step(s, e)) { StepKeepsInv(s, e); }
    Invariant(Step, inv, start, es);
  }

  /** In every run the gap is never negative and never shrinks. */
  lemma {:induction false} GapNeverShrinks(fileSize: int, es: seq<Event>, later: seq<Event>)
    ensures var start := NewSession(fileSize);
      0 <= Gap(Run(Step, start, es)) <= Gap(Run(Step, start, es + later))
  {
    var start := NewSession(fileSize);
    AllRuns(fileSize, es);
    RunConcat(Step, start, es, later);
    var rel := (s: Session, t: Session) => Gap(s) <= Gap(t);
    forall s, e | Inv(s) ensures Inv(Step(s, e)) && rel(s, Step(s, e)) { StepKeepsInv(s, e); }
    Preserved(Step, Inv, rel, Run(Step, start, es), later);
  }

  /** The streaming checksum has hashed the file's content exactly when no failed write left bytes behind. */
  lemma {:induction false} ChecksumAgreesIff(fileSize: int, es: seq<Event>)
    ensures var s := Run(Step, NewSession(fileSize), es); s.hashed == s.file <==> s.torn == 0
  {
    AllRuns(fileSize, es);
  }

  /** Without torn writes the file is as long as the accepted chunks together, and committed equals its
      length exactly when every accepted chunk was written at its own offset. */
  lemma {:induction false} CommittedIffInPlace(fileSize: int, es: seq<Event>)
    requires Run(Step, NewSession(fileSize), es).torn == 0
    ensures var s := Run(Step, NewSession(fileSize), es);
      s.committed == |s.file| <==> forall c <- s.accepted :: c.offset == c.position
  {
    AllRuns(fileSize, es);
  }

  // ---------- completing ----------

  datatype Completion = StatFailed | SizeMismatch | InvalidChecksum | Passed

  // The checks of CompleteUpload before the file is handed to the store; H is the hash, as hex text.
  function Complete(s: Session, H: seq<byte> -> string, taskChecksum: string, reqChecksum: string): Completion
  {
    if !s.open then StatFailed
    else if |s.file| != s.fileSize then SizeMismatch
    else if taskChecksum != "" && reqChecksum != "" && !CompareChecksum("sha256:" + H(s.hashed), taskChecksum)
    then InvalidChecksum
    else Passed
  }

  // One of the checksums is missing, or the task's is the hash, bare or behind one colon-free prefix.
  ghost predicate Verified(hash: string, taskChecksum: string, reqChecksum: string)
  {
    || taskChecksum == "" || reqChecksum == ""
    || (':' !in taskChecksum && taskChecksum == hash)
    || (exists prefix :: ':' !in prefix && taskChecksum == prefix + ":" + hash)
  }

  lemma VerdictOf(s: Session, H: seq<byte> -> string, taskChecksum: string, reqChecksum: string)
    ensures var verified := Verified(H(s.hashed), taskChecksum, reqChecksum);
      Complete(s, H, taskChecksum, reqChecksum)
        == if !s.open then StatFailed
           else if |s.file| != s.fileSize then SizeMismatch
           else if !verified then InvalidChecksum
           else Passed
  {
    CompareAccepts(H(s.hashed), taskChecksum);
  }

  /** An upload passes if and only if its file has not been closed, has the size announced, and is verified:
      one of the two checksums is missing, or the task's is the hash of the file, bare or behind one
      colon-free prefix. That is when no failed write left bytes behind; otherwise the hash is that of the
      accepted chunks only. */
  lemma {:induction false} PassesIffVerified(
      fileSize: int, es: seq<Event>, H: seq<byte> -> string, taskChecksum: string, reqChecksum: string)
    ensures var s := Run(Step, NewSession(fileSize), es);
      && (Complete(s, H, taskChecksum, reqChecksum) == Passed
          <==> s.open && |s.file| == fileSize && Verified(H(s.hashed), taskChecksum, reqChecksum))
      && (s.torn == 0 ==> s.hashed == s.file)
  {
    AllRuns(fileSize, es);
    VerdictOf(Run(Step, NewSession(fileSize), es), H, taskChecksum, reqChecksum);
  }

  // Every accepted chunk is in the file at its own offset, and nothing else is.
  ghost predicate Assembled(s: Session)
  {
    && (forall c <- s.accepted :: StoredAt(s.file, c.offset, c.data))
    && (forall k :: 0 <= k < |s.file| ==> Claimed(s, k))
  }

  // With no position below committed left out, an assembled file has no torn bytes.
  lemma AssembledIsExact(s: Session)
    requires Inv(s) && Assembled(s)
    ensures s.torn == 0 && s.committed == |s.file|
  {
    if s.accepted != [] { assert s.accepted[|s.accepted| - 1] in s.accepted; }
    if s.file != [] {
      assert Claimed(s, |s.file| - 1);
    }
    assert forall k :: 0 <= k < s.committed ==> Claimed(s, k);
  }

  /** An upload that passes the checks of CompleteUpload is the exact assembly of its chunks if and only if
      no failed write left bytes behind and committed is the file size. Without such bytes, that is if and only
      if every chunk was written at its own offset, and what was hashed is the file. */
  lemma {:induction false} CompletedIsAssembled(
      fileSize: int, es: seq<Event>, H: seq<byte> -> string, taskChecksum: string, reqChecksum: string)
    requires Complete(Run(Step, NewSession(fileSize), es), H, taskChecksum, reqChecksum) == Passed
    ensures var s := Run(Step, NewSession(fileSize), es);
      && |s.file| == fileSize
      && (Assembled(s) <==> s.torn == 0 && s.committed == fileSize)
      && (s.torn == 0 ==>
            && s.hashed == s.file
            && (s.committed == fileSize <==> forall c <- s.accepted :: c.offset == c.position))
  {
    AllRuns(fileSize, es);
    var s := Run(Step, NewSession(fileSize), es);
    if Assembled(s) { AssembledIsExact(s); }
    if s.torn == 0 && s.committed == fileSize {
      assert InPlace(s);
      forall k | 0 <= k < |s.file| ensures Claimed(s, k) {
        assert Covered(s, k);
        var c :| c in s.accepted && c.position <= k < c.position + |c.data|;
        assert c.offset == c.position;
      }
    }
  }

  /** CompleteUpload does not look at committed: for every file size an upload can pass, its checksum
      verified too, with a chunk that was not written at its own offset. */
  lemma {:induction false} PassesOutOfPlace(fileSize: nat, H: seq<byte> -> string, reqChecksum: string)
    ensures exists es: seq<Event> :: var s := Run(Step, NewSession(fileSize), es);
      && Complete(s, H, "sha256:" + H(s.file), reqChecksum) == Passed
      && s.torn == 0 && s.committed != fileSize && !Assembled(s)
  {
    var data := seq(fileSize, _ => 65);
    var e := UploadChunk(fileSize + 1, data, fileSize);
    var s0 := NewSession(fileSize);
    RunSnoc(Step, s0, [], e);
    var s := Step(s0, e);
    assert Run(Step, s0, [] + [e]) == s;
    assert s.file == s.hashed == data;
    assert s.accepted[0] == Chunk(fileSize + 1, 0, data) && s.accepted[0] in s.accepted;
    assert !StoredAt(s.file, fileSize + 1, data);
    assert Complete(s, H, "sha256:" + H(s.file), reqChecksum) == Passed;
  }

  // ---------- the session object ----------

  class UploadSession {
    const fileSize: int
    var tempFile: seq<byte>
    var open: bool
    var cancelled: bool
    var checksumData: seq<byte>
    var committed: int
    ghost var accepted: seq<Chunk>
    ghost var torn: nat

    ghost function Abs(): Session reads this
    {
      Session(fileSize, open, cancelled, tempFile, checksumData, committed, accepted, torn)
    }

    constructor (fileSize: int)
      ensures Abs() == NewSession(fileSize)
    {
      this.fileSize := fileSize;
      tempFile, open, cancelled, checksumData, committed, accepted, torn := [], true, false, [], 0, [], 0;
    }

    /** UploadChunk; `written` is what the operating system's write manages to store. */
    method UploadChunk(offset: int, data: seq<byte>, written: nat) returns (total: int, ok: bool)
      modifies this
      ensures Abs() == Step(old(Abs()), Event.UploadChunk(offset, data, written))
      ensures ok <==> !old(cancelled) && offset >= old(committed) && old(open) && written >= |data|
      ensures ok ==> total == committed == offset + |data|
      ensures ok ==> tempFile == old(tempFile) + data && checksumData == old(checksumData) + data
      ensures !ok ==> committed == old(committed) && checksumData == old(checksumData)
      ensures !ok ==> (tempFile == old(tempFile) +
        if !cancelled && offset >= old(committed) && open then data[..written] else [])
    {
      if cancelled { return committed, false; }
      if offset < committed { return committed, false; }
      if !open { return committed, false; }
      if written < |data| {
        tempFile := tempFile + data[..written];
        torn := torn + written;
        return committed, false;
      }
      accepted := accepted + [Chunk(offset, |tempFile|, data)];
      tempFile := tempFile + data;
      checksumData := checksumData + data;
      committed := offset + |data|;
      return committed, true;
    }

    /** The checks of CompleteUpload; the temporary file is closed by the first of them. */
    method CompleteUpload(H: seq<byte> -> string, taskChecksum: string, reqChecksum: string) returns (r: Completion)
      modifies this
      ensures r == Complete(old(Abs()), H, taskChecksum, reqChecksum)
      ensures Abs() == Step(old(Abs()), CloseFile) && !open
      ensures r == StatFailed <==> !old(open)
      ensures r == SizeMismatch <==> old(open) && |old(tempFile)| != fileSize
      ensures old(open) && |old(tempFile)| == fileSize ==>
        r == if Verified(H(old(checksumData)), taskChecksum, reqChecksum) then Passed else InvalidChecksum
    {
      VerdictOf(Abs(), H, taskChecksum, reqChecksum);
      if !open { return StatFailed; }
      var size := |tempFile|;
      open := false;
      if size != fileSize { return SizeMismatch; }
      var actual := "sha256:" + H(checksumData);
      if taskChecksum != "" && reqChecksum != "" {
        if !CompareChecksum(actual, taskChecksum) { return InvalidChecksum; }
      }
      return Passed;
    }

    method CancelUpload()
      modifies this
      ensures Abs() == Step(old(Abs()), Cancel) && cancelled && !open && tempFile == old(tempFile)
    {
      cancelled := true;
      open := false;
    }
  }
}
