/** Runs of a state machine: folding a step function over a finite sequence of events.

    Every concurrent component of the model is a total step function over the atomic
    events of its goroutines; a sequence of events is one interleaving. */
module Runs {

  function Run<S, E>(step: (S, E) -> S, s: S, es: seq<E>): S
  {
    if es == [] then s else step(Run(step, s, es[..|es| - 1]), es[|es| - 1])
  }

  lemma RunNone<S, E>(step: (S, E) -> S, s: S)
    ensures Run(step, s, []) == s
  {
  }

  lemma {:induction false} RunSnoc<S, E>(step: (S, E) -> S, s: S, es: seq<E>, e: E)
    ensures Run(step, s, es + [e]) == step(Run(step, s, es), e)
  {
    assert (es + [e])[..|es|] == es;
  }

  // Running a concatenation is running its two halves: how a stream is cut does not matter.
  lemma {:induction false} RunConcat<S, E>(step: (S, E) -> S, s: S, a: seq<E>, b: seq<E>)
    ensures Run(step, s, a + b) == Run(step, Run(step, s, a), b)
  {
    if b == [] {
      assert a + b == a;
    } else {
      var b' := b[..|b| - 1];
      assert (a + b)[..|a + b| - 1] == a + b';
      RunConcat(step, s, a, b');
    }
  }

  lemma {:induction false} RunCons<S, E>(step: (S, E) -> S, s: S, e: E, es: seq<E>)
    ensures Run(step, s, [e] + es) == Run(step, step(s, e), es)
  {
    RunConcat(step, s, [e], es);
    assert [e][..0] == [];
  }

  lemma {:induction false} RunFour<S, E>(step: (S, E) -> S, s: S, es: seq<E>)
    requires |es| == 4
    ensures Run(step, s, es) == step(step(step(step(s, es[0]), es[1]), es[2]), es[3])
  {
    assert es == ((([] + [es[0]]) + [es[1]]) + [es[2]]) + [es[3]];
    RunSnoc(step, s, [], es[0]);
    RunSnoc(step, s, [es[0]], es[1]);
    RunSnoc(step, s, [es[0], es[1]], es[2]);
    RunSnoc(step, s, [es[0], es[1], es[2]], es[3]);
  }

  // The induction principle for safety properties of all runs.
  lemma {:induction false} Invariant<S(!new), E(!new)>(step: (S, E) -> S, inv: S -> bool, s: S, es: seq<E>)
    requires inv(s)
    requires forall t, e :: inv(t) ==> inv(step(t, e))
    ensures inv(Run(step, s, es))
  {
    if es != [] {
      Invariant(step, inv, s, es[..|es| - 1]);
    }
  }

  // The induction principle for what a run keeps between its first and its last state.
  lemma {:induction false} Preserved<S(!new), E(!new)>(
      step: (S, E) -> S, inv: S -> bool, rel: (S, S) -> bool, s: S, es: seq<E>)
    requires inv(s)
    requires forall t, e :: inv(t) ==> inv(step(t, e)) && rel(t, step(t, e))
    requires forall t :: rel(t, t)
    requires forall t, u, v :: rel(t, u) && rel(u, v) ==> rel(t, v)
    ensures inv(Run(step, s, es)) && rel(s, Run(step, s, es))
  {
    if es != [] {
      var prefix := es[..|es| - 1];
      Preserved(step, inv, rel, s, prefix);
      var mid := Run(step, s, prefix);
      assert rel(mid, step(mid, es[|es| - 1]));
    }
  }
}
