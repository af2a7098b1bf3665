/** How many elements of a sequence satisfy a predicate. */
module Counting {

  function CountOf<T>(s: seq<T>, p: T -> bool): nat
  {
    if s == [] then 0 else CountOf(s[..|s| - 1], p) + (if p(s[|s| - 1]) then 1 else 0)
  }

  lemma {:induction false} CountUpdate<T>(s: seq<T>, p: T -> bool, i: nat, t: T)
    requires i < |s|
    ensures CountOf(s[i := t], p) == CountOf(s, p) - (if p(s[i]) then 1 else 0) + (if p(t) then 1 else 0)
  {
    var n := |s| - 1;
    if i < n {
      assert s[i := t][..n] == s[..n][i := t];
      CountUpdate(s[..n], p, i, t);
    } else {
      assert s[i := t][..n] == s[..n];
    }
  }

  lemma {:induction false} CountAll<T>(s: seq<T>, p: T -> bool)
    ensures (forall i :: 0 <= i < |s| ==> p(s[i])) ==> CountOf(s, p) == |s|
    ensures (forall i :: 0 <= i < |s| ==> !p(s[i])) ==> CountOf(s, p) == 0
    ensures CountOf(s, p) <= |s|
  {
    if s != [] { CountAll(s[..|s| - 1], p); }
  }

  // Disjoint predicates that fail from index n on are satisfied by at most n elements together.
  lemma {:induction false} CountDisjoint<T>(s: seq<T>, p: T -> bool, q: T -> bool, n: nat)
    requires forall i :: 0 <= i < |s| ==> !(p(s[i]) && q(s[i]))
    requires forall i :: n <= i < |s| ==> !p(s[i]) && !q(s[i])
    ensures CountOf(s, p) + CountOf(s, q) <= n
  {
    if s != [] { CountDisjoint(s[..|s| - 1], p, q, if n < |s| then n else |s| - 1); }
  }

  // Sequences that agree about their predicates, element by element, have the same count.
  lemma {:induction false} CountSame<T, U>(s: seq<T>, p: T -> bool, t: seq<U>, q: U -> bool)
    requires |s| == |t| && forall i :: 0 <= i < |s| ==> (p(s[i]) <==> q(t[i]))
    ensures CountOf(s, p) == CountOf(t, q)
  {
    if s != [] { CountSame(s[..|s| - 1], p, t[..|t| - 1], q); }
  }
}
