/** What most of the modules share. */
module Basics {
  type byte = x: int | 0 <= x < 256

  datatype Option<+T> = None | Some(value: T)
  {
    predicate IsFailure() { None? }
    function PropagateFailure<U>(): Option<U> requires None? { None }
    function Extract(): T requires Some? { value }
  }

  // ---------- quotients ----------

  lemma MultipleIsFar(x: int, n: int)
    requires n > 0
    ensures x > 0 ==> x * n >= n
    ensures x < 0 ==> x * n <= -n
  {
    if x > 0 { assert (x - 1) * n >= 0; } else if x < 0 { assert (-x - 1) * n >= 0; }
  }

  lemma UniqueDiv(a: int, n: int, d: int, r: int)
    requires n > 0 && 0 <= r < n && a == d * n + r
    ensures a / n == d && a % n == r
  {
    var e, f := a / n, a % n;
    assert a == e * n + f;
    assert (d - e) * n == d * n - e * n;
    MultipleIsFar(d - e, n);
  }
}
