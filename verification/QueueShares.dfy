/** How the multi-queue dispatcher splits its workers and its capacity over the queues, and how evenly
    its wrapping ticket counter spreads messages over them. */
module QueueShares {
  import opened Basics

  // ---------- the constructor ----------

  datatype Share = Share(capacity: nat, workers: nat)

  function Min(a: int, b: int): int { if a < b then a else b }

  function OrDefault(n: int, default: nat): nat { if n <= 0 then default else n }

  function Workers(s: seq<Share>): nat { if s == [] then 0 else Workers(s[..|s| - 1]) + s[|s| - 1].workers }

  function Capacity(s: seq<Share>): nat { if s == [] then 0 else Capacity(s[..|s| - 1]) + s[|s| - 1].capacity }

  function Each(w: nat, n: nat): nat requires n > 0 { w / n }

  function Rest(w: nat, n: nat): nat requires n > 0 { w % n }

  function Ceiling(w: nat, n: nat): nat requires n > 0 { (w + n - 1) / n }

  // Share j of n when w workers and size slots are split: the remainder goes to the first queues.
  function ShareOf(w: nat, size: nat, n: nat, j: nat): Share
    requires n > 0
  {
    Share(Each(size, n) + 1, if j < Rest(w, n) then Each(w, n) + 1 else Each(w, n))
  }

  lemma Even(w: nat, n: nat)
    requires n > 0
    ensures Times(n, Each(w, n)) + Rest(w, n) == w && Rest(w, n) < n
    ensures w < Times(n, Each(w, n) + 1) <= w + n
    ensures n <= w ==> Each(w, n) >= 1
  {
    assert n * (w / n + 1) == n * (w / n) + n;
  }

  function Times(k: nat, x: nat): nat { k * x }

  lemma OneMore(k: nat, x: nat)
    ensures Times(k + 1, x) == Times(k, x) + x
  {
  }

  lemma {:induction false} TotalsOf(s: seq<Share>, w: nat, size: nat, n: nat)
    requires n > 0 && forall j :: 0 <= j < |s| ==> s[j] == ShareOf(w, size, n, j)
    ensures Workers(s) == Times(|s|, Each(w, n)) + Min(|s|, Rest(w, n))
    ensures Capacity(s) == Times(|s|, Each(size, n) + 1)
  {
    if s != [] {
      hide Each, Rest, Times;
      var k := |s| - 1;
      TotalsOf(s[..k], w, size, n);
      OneMore(k, Each(w, n));
      OneMore(k, Each(size, n) + 1);
    }
  }

  lemma SharesAddUp(s: seq<Share>, w: nat, size: nat)
    requires 0 < |s| <= w
    requires forall j :: 0 <= j < |s| ==> s[j] == ShareOf(w, size, |s|, j)
    ensures Workers(s) == w && size < Capacity(s) <= size + |s|
    ensures forall j :: 0 <= j < |s| ==> s[j].workers >= 1
  {
    hide Each, Rest, Times;
    TotalsOf(s, w, size, |s|);
    Even(w, |s|);
    Even(size, |s|);
  }

  method Split(workers: nat, size: nat, n: nat) returns (queues: array<Share>)
    requires 0 < n <= workers
    ensures queues.Length == n
    ensures forall i :: 0 <= i < n ==> queues[i].workers >= 1
    ensures forall i, j :: 0 <= i < j < n ==> 0 <= queues[i].workers - queues[j].workers <= 1
    ensures Workers(queues[..]) == workers
    ensures size < Capacity(queues[..]) <= size + n
  {
    hide Each, Rest;
    var perQueue, remaining := Each(workers, n), Rest(workers, n);
    queues := new Share[n];
    var i := 0;
    while i < n
      invariant 0 <= i <= n
      invariant forall j :: 0 <= j < i ==> queues[j] == ShareOf(workers, size, n, j)
    {
      var count := perQueue;
      if i < remaining { count := count + 1; }
      queues[i] := Share(Each(size, n) + 1, count);
      i := i + 1;
    }
    SharesAddUp(queues[..], workers, size);
  }

  /** Whatever the configuration, the worker counts are at least one each, differ by at most one and add
      up to the configured number; the capacities add up to a little more than the configured size. */
  method NewQueues(workerCount: int, taskQueueSize: int, queueCount: int) returns (queues: array<Share>)
    ensures queues.Length == Min(OrDefault(queueCount, 4), Min(OrDefault(workerCount, 10), 32)) >= 1
    ensures forall i :: 0 <= i < queues.Length ==> queues[i].workers >= 1
    ensures forall i, j :: 0 <= i < j < queues.Length ==> 0 <= queues[i].workers - queues[j].workers <= 1
    ensures Workers(queues[..]) == OrDefault(workerCount, 10)
    ensures OrDefault(taskQueueSize, 1000) < Capacity(queues[..]) <= OrDefault(taskQueueSize, 1000) + queues.Length
  {
    var workers, size, n := workerCount, taskQueueSize, queueCount;
    if workers <= 0 { workers := 10; }
    if size <= 0 { size := 1000; }
    if n <= 0 { n := 4; }
    if n > workers { n := workers; }
    if n > 32 { n := 32; }
    queues := Split(workers, size, n);
  }

  // ---------- round-robin tickets ----------

  const WRAP: nat := 0x1_0000_0000_0000_0000

  // The queue of the k-th call: the counter is a 64-bit integer that wraps.
  function TicketQueue(k: nat, n: nat): nat
    requires n > 0
  {
    (k % WRAP) % n
  }

  // How many of the m calls from the k-th on go to queue q.
  function Hits(k: nat, m: nat, n: nat, q: nat): nat
    requires n > 0
  {
    if m == 0 then 0 else Hits(k, m - 1, n, q) + if TicketQueue(k + m - 1, n) == q then 1 else 0
  }

  ghost predicate Fair(k: nat, m: nat, n: nat)
    requires n > 0
  {
    forall q :: 0 <= q < n ==> Each(m, n) <= Hits(k, m, n, q) <= Ceiling(m, n)
  }

  predicate Crosses(k: nat, m: nat) { k % WRAP + m > WRAP }

  // The number of multiples of n in (0, y] grows by one exactly at the multiples.
  lemma DivStep(y: nat, n: nat)
    requires n > 0
    ensures Each(y + 1, n) == Each(y, n) + (if (y + 1) % n == 0 then 1 else 0)
  {
    var d, r := y / n, y % n;
    if r + 1 < n { UniqueDiv(y + 1, n, d, r + 1); } else { UniqueDiv(y + 1, n, d + 1, 0); }
  }

  lemma SameResidue(x: nat, n: nat, q: nat)
    requires n > 0 && q < n
    ensures (x + (n - q)) % n == 0 <==> x % n == q
  {
    var d, r := x / n, x % n;
    if r == q { UniqueDiv(x + (n - q), n, d + 1, 0); }
    else if r > q { UniqueDiv(x + (n - q), n, d + 1, r - q); }
    else { UniqueDiv(x + (n - q), n, d, r + n - q); }
  }

  // Counting hits in closed form where tickets are consecutive integers.
  lemma {:induction false} HitsClosed(k: nat, m: nat, n: nat, q: nat, base: nat)
    requires n > 0 && q < n && base <= k
    requires forall t :: k <= t < k + m ==> TicketQueue(t, n) == (t - base) % n
    ensures Hits(k, m, n, q) == Each(k - base + m + (n - 1 - q), n) - Each(k - base + (n - 1 - q), n)
  {
    if m > 0 {
      hide Each;
      HitsClosed(k, m - 1, n, q, base);
      var x := k - base + m - 1;
      assert TicketQueue(k + m - 1, n) == x % n;
      SameResidue(x, n, q);
      DivStep(x + (n - 1 - q), n);
      assert x + (n - 1 - q) + 1 == x + (n - q);
    }
  }

  lemma DivWindow(y: nat, m: nat, n: nat)
    requires n > 0
    ensures Each(m, n) <= Each(y + m, n) - Each(y, n) <= Ceiling(m, n)
  {
    var d, r, e, f := y / n, y % n, m / n, m % n;
    assert y + m == (d + e) * n + (r + f);
    if r + f < n { UniqueDiv(y + m, n, d + e, r + f); } else { UniqueDiv(y + m, n, d + e + 1, r + f - n); }
    if f == 0 { UniqueDiv(m + n - 1, n, e, n - 1); } else { UniqueDiv(m + n - 1, n, e + 1, f - 1); }
  }

  lemma FairWhere(k: nat, m: nat, n: nat, base: nat)
    requires n > 0 && base <= k
    requires forall t :: k <= t < k + m ==> TicketQueue(t, n) == (t - base) % n
    ensures Fair(k, m, n)
  {
    forall q | 0 <= q < n ensures Each(m, n) <= Hits(k, m, n, q) <= Ceiling(m, n) {
      hide Each, Ceiling;
      HitsClosed(k, m, n, q, base);
      DivWindow(k - base + (n - 1 - q), m, n);
    }
  }

  /** A window of calls in which the counter does not wrap gives every queue the floor or the ceiling of
      its even share. */
  lemma {:induction false} FairBetweenWraps(k: nat, m: nat, n: nat)
    requires n > 0 && !Crosses(k, m)
    ensures Fair(k, m, n)
  {
    var base := k - k % WRAP;
    forall t | k <= t < k + m ensures TicketQueue(t, n) == (t - base) % n {
      UniqueDiv(t, WRAP, k / WRAP, k % WRAP + (t - k));
    }
    FairWhere(k, m, n, base);
  }

  lemma ModMod(t: nat, n: nat)
    requires n > 0 && WRAP % n == 0
    ensures (t % WRAP) % n == t % n
  {
    var d, r := t / WRAP, t % WRAP;
    var c := WRAP / n;
    assert t == (d * c + r / n) * n + r % n by {
      assert WRAP == c * n;
      assert d * WRAP == d * c * n;
    }
    UniqueDiv(t, n, d * c + r / n, r % n);
  }

  lemma {:induction false} HitsMember(k: nat, m: nat, n: nat, q: nat, t: nat)
    requires n > 0 && k <= t < k + m && TicketQueue(t, n) == q
    ensures Hits(k, m, n, q) >= 1
    ensures t > k && TicketQueue(k, n) == q ==> Hits(k, m, n, q) >= 2
  {
    if t < k + m - 1 {
      HitsMember(k, m - 1, n, q, t);
    } else if t > k && TicketQueue(k, n) == q {
      HitsMember(k, m - 1, n, q, k);
    }
  }

  lemma RoundedDown(w: nat, n: nat)
    requires n > 0
    ensures 0 <= w - w % n && (w - w % n) % n == 0
  {
    UniqueDiv(w - w % n, n, w / n, 0);
  }

  // The last multiple of n before the wrap, and the wrap itself, are tickets for queue 0.
  lemma TicketsForZero(n: nat)
    requires n > 0 && WRAP % n != 0
    ensures TicketQueue(WRAP - WRAP % n, n) == 0 && TicketQueue(WRAP, n) == 0
  {
    var last := WRAP - WRAP % n;
    RoundedDown(WRAP, n);
    UniqueDiv(last, WRAP, 0, last);
    UniqueDiv(WRAP, WRAP, 1, 0);
    UniqueDiv(0, n, 0, 0);
  }

  // Around the wrap, n consecutive calls send two messages to queue 0.
  lemma UnfairWindow(n: nat)
    requires n > 0 && WRAP % n != 0
    ensures !Fair(WRAP - WRAP % n, n, n)
  {
    TicketsForZero(n);
    RoundedDown(WRAP, n);
    assert WRAP % n < n;
    OneEach(n);
    hide TicketQueue, Ceiling, Each, Hits;
    HitsMember(WRAP - WRAP % n, n, n, 0, WRAP);
  }

  lemma OneEach(n: nat)
    requires n > 0
    ensures Ceiling(n, n) == 1
  {
    UniqueDiv(n + n - 1, n, 1, n - 1);
  }

  /** Every window is fair, also one in which the counter wraps, exactly when the number of queues
      divides 2^64. */
  lemma {:induction false} AlwaysFairIff(n: nat)
    requires n > 0
    ensures (forall k: nat, m: nat :: Fair(k, m, n)) <==> WRAP % n == 0
  {
    if WRAP % n == 0 {
      forall k: nat, m: nat ensures Fair(k, m, n) {
        forall t | k <= t < k + m ensures TicketQueue(t, n) == t % n { ModMod(t, n); }
        FairWhere(k, m, n, 0);
      }
    } else {
      UnfairWindow(n);
    }
  }

  /** With the at most 32 queues of the constructor, those are the powers of two. */
  lemma {:induction false} FairQueueCounts(n: nat)
    requires 1 <= n <= 32
    ensures (forall k: nat, m: nat :: Fair(k, m, n)) <==> n in {1, 2, 4, 8, 16, 32}
  {
    AlwaysFairIff(n);
  }
}
