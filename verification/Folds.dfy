/** Running a list of inputs through a step function, and the laws of such runs. */
module Folds {
  /** The final state, and what each input was answered. */
  function Fold<S, M, V>(step: (S, M) -> (S, V), s: S, ms: seq<M>): (r: (S, seq<V>))
    ensures |r.1| == |ms|
  {
    if ms == [] then (s, [])
    else
      var before := Fold(step, s, ms[..|ms| - 1]);
      var last := step(before.0, ms[|ms| - 1]);
      (last.0, before.1 + [last.1])
  }

  lemma {:induction false} AnswerOfPrefix<S, M, V>(step: (S, M) -> (S, V), s: S, ms: seq<M>, i: nat)
    requires i < |ms|
    ensures Fold(step, s, ms).1[i] == step(Fold(step, s, ms[..i]).0, ms[i]).1
    ensures Fold(step, s, ms[..i + 1]).0 == step(Fold(step, s, ms[..i]).0, ms[i]).0
  {
    assert ms[..i + 1][..i] == ms[..i];
    var last := |ms| - 1;
    if i < last {
      assert ms[..last][..i] == ms[..i] && ms[..last][..i + 1] == ms[..i + 1];
      AnswerOfPrefix(step, s, ms[..last], i);
    } else {
      assert ms[..i + 1] == ms;
    }
  }

  /** Five inputs, one after the other. */
  lemma {:induction false} FiveSteps<S, M, V>(step: (S, M) -> (S, V), s: S, ms: seq<M>)
    requires |ms| == 5
    ensures var s1 := step(s, ms[0]).0;
            var s2 := step(s1, ms[1]).0;
            var s3 := step(s2, ms[2]).0;
            var s4 := step(s3, ms[3]).0;
            var answers := Fold(step, s, ms).1;
            answers[1] == step(s1, ms[1]).1 && answers[2] == step(s2, ms[2]).1 && answers[4] == step(s4, ms[4]).1
  {
    assert ms[..0] == [];
    AnswerOfPrefix(step, s, ms, 0);
    AnswerOfPrefix(step, s, ms, 1);
    AnswerOfPrefix(step, s, ms, 2);
    AnswerOfPrefix(step, s, ms, 3);
    AnswerOfPrefix(step, s, ms, 4);
  }

  /** An input that changes nothing where it stands can be removed. */
  lemma {:induction false} IdleInputIsInvisible<S, M, V>(
      step: (S, M) -> (S, V), s: S, before: seq<M>, m: M, after: seq<M>)
    requires step(Fold(step, s, before).0, m).0 == Fold(step, s, before).0
    ensures Fold(step, s, before + [m] + after).0 == Fold(step, s, before + after).0
  {
    if after == [] {
      assert (before + [m] + after)[..|before|] == before && before + after == before;
    } else {
      var last := |after| - 1;
      IdleInputIsInvisible(step, s, before, m, after[..last]);
      assert (before + [m] + after)[..|before| + 1 + last] == before + [m] + after[..last];
      assert (before + after)[..|before| + last] == before + after[..last];
    }
  }

  /** What every step keeps, a run keeps from any point on. */
  lemma {:induction false} KeptFromPrefix<S(!new), M(!new), V>(
      step: (S, M) -> (S, V), s: S, ms: seq<M>, n: nat, kept: S -> bool)
    requires n <= |ms| && kept(Fold(step, s, ms[..n]).0)
    requires forall x, m :: kept(x) ==> kept(step(x, m).0)
    ensures kept(Fold(step, s, ms).0)
  {
    if n < |ms| {
      var last := |ms| - 1;
      assert ms[..last][..n] == ms[..n];
      KeptFromPrefix(step, s, ms[..last], n, kept);
    } else {
      assert ms[..n] == ms;
    }
  }
}
