/** Small definitions shared by the training and evaluation loops. */
module Common {

  /** A value that may be unset (Python's None). */
  datatype Option<+T> = None | Some(value: T)

  /** What one training or eval step reports: its loss, whether that loss is
      finite, and the global step it was run at. */
  datatype Observation = Observation(loss: real, finite: bool, step: int)

  /** The global steps of a stretch of observations, in order. */
  function Steps(obs: seq<Observation>): (r: seq<int>)
    ensures |r| == |obs| && forall i :: 0 <= i < |obs| ==> r[i] == obs[i].step
  {
    seq(|obs|, i requires 0 <= i < |obs| => obs[i].step)
  }

  /** Both loops flush their summary writer on every global step divisible by 100.
      Divisibility does not depend on the sign convention of `%`, so Dafny's
      Euclidean remainder agrees with Python's floored one here. */
  predicate FlushDue(step: int) {
    step % 100 == 0
  }

  /** The steps, in order, on which a loop that wrote summaries for `written`
      flushes its writer. */
  function FlushedSteps(written: seq<int>): (r: seq<int>)
    ensures |r| <= |written|
    ensures forall s :: s in r ==> FlushDue(s)
  {
    if written == [] then []
    else
      var last := written[|written| - 1];
      FlushedSteps(written[..|written| - 1]) + (if FlushDue(last) then [last] else [])
  }

  /** A written step is flushed exactly when it is due. */
  lemma {:induction false} FlushedStepsExactly(written: seq<int>, s: int)
    ensures s in FlushedSteps(written) <==> s in written && FlushDue(s)
  {
    if written != [] {
      var init := written[..|written| - 1];
      FlushedStepsExactly(init, s);
      assert written == init + [written[|written| - 1]];
    }
  }

  /** Flushing distributes over consecutive stretches of steps, so the flushes
      happen in the order the steps were written. */
  lemma {:induction false} FlushedStepsAppend(a: seq<int>, b: seq<int>)
    ensures FlushedSteps(a + b) == FlushedSteps(a) + FlushedSteps(b)
  {
    if b != [] {
      var init := b[..|b| - 1];
      assert (a + b)[..|a + b| - 1] == a + init;
      FlushedStepsAppend(a, init);
    } else {
      assert a + b == a;
    }
  }
}
