/** The evaluation job's loop body (`run_eval`): update the running average,
    save a `bestmodel` checkpoint when it improves, flush summaries every
    hundredth step. */
module Evaluation {
  import opened Common
  import opened RunningAverage

  /** The best average seen so far and the steps of the `bestmodel` saves. */
  datatype Best = Best(loss: Option<real>, saved: seq<int>)

  datatype EvalState = EvalState(avg: Option<real>, best: Best)

  /** The loop starts with an average of 0 (which counts as unset) and no best. */
  const EvalStart := EvalState(Some(0.0), Best(None, []))

  /** New running average: in hierarchical mode a non-finite loss resets it to
      unset; otherwise every loss is smoothed in. */
  function NextAverage(avg: Option<real>, o: Observation, hier: bool): (r: Option<real>)
    ensures r.None? <==> hier && !o.finite
    ensures r.Some? ==> r.value <= Ceiling
    ensures r.Some? && Unset(avg) ==> r.value == Min(o.loss, Ceiling)
  {
    if hier && !o.finite then None
    else Some(RunningAvg(o.loss, avg, DefaultDecay))
  }

  /** The save condition: no best yet, or a set average strictly below it. */
  predicate Improves(best: Option<real>, avg: Option<real>)
    ensures best.None? ==> Improves(best, avg)
    ensures avg.None? ==> (Improves(best, avg) <==> best.None?)
  {
    best.None? || (avg.Some? && avg.value < best.value)
  }

  /** Save a `bestmodel` checkpoint tagged `step` when `avg` improves on the best. */
  function Promote(b: Best, avg: Option<real>, step: int): (r: Best)
    ensures b.saved <= r.saved && |r.saved| <= |b.saved| + 1
    ensures |r.saved| == |b.saved| + 1 <==> Improves(b.loss, avg)
    ensures Improves(b.loss, avg) ==> r.loss == avg && r.saved[|b.saved|] == step
    ensures !Improves(b.loss, avg) ==> r == b
  {
    if Improves(b.loss, avg) then Best(avg, b.saved + [step]) else b
  }

  /** Promotion over the running averages of successive steps. */
  function PromoteAll(b: Best, avgs: seq<(Option<real>, int)>): Best {
    if avgs == [] then b
    else
      var last := avgs[|avgs| - 1];
      Promote(PromoteAll(b, avgs[..|avgs| - 1]), last.0, last.1)
  }

  /** One iteration of the evaluation loop. */
  function EvalStep(s: EvalState, o: Observation, hier: bool): (r: EvalState)
    ensures r.best.saved == s.best.saved || r.best.saved == s.best.saved + [o.step]
  {
    var avg := NextAverage(s.avg, o, hier);
    EvalState(avg, Promote(s.best, avg, o.step))
  }

  /** The state after the loop has handled `obs` in order. */
  function EvalRun(s: EvalState, obs: seq<Observation>, hier: bool): (r: EvalState)
  {
    if obs == [] then s
    else EvalStep(EvalRun(s, obs[..|obs| - 1], hier), obs[|obs| - 1], hier)
  }

  /** The running average after each observation, paired with its step. */
  ghost function AvgTrace(s: EvalState, obs: seq<Observation>, hier: bool): seq<(Option<real>, int)> {
    seq(|obs|, i requires 0 <= i < |obs| => (EvalRun(s, obs[..i + 1], hier).avg, obs[i].step))
  }

  // ---------------------------------------------------------------------------
  // A reference definition of which steps save: the records of the averages.

  /** Entry `i` is strictly below every earlier entry. */
  ghost predicate IsRecord(vals: seq<real>, i: int)
    requires 0 <= i < |vals|
  {
    forall j :: 0 <= j < i ==> vals[i] < vals[j]
  }

  /** The steps whose value is a strict record low. */
  ghost function RecordSteps(vals: seq<real>, steps: seq<int>): seq<int>
    requires |vals| == |steps|
  {
    if vals == [] then []
    else
      var n := |vals| - 1;
      RecordSteps(vals[..n], steps[..n]) + (if IsRecord(vals, n) then [steps[n]] else [])
  }

  ghost function MinOf(vals: seq<real>): (m: real)
    requires vals != []
    ensures m in vals && forall v :: v in vals ==> m <= v
  {
    if |vals| == 1 then vals[0]
    else
      var n := |vals| - 1;
      assert vals == vals[..n] + [vals[n]];
      Min(MinOf(vals[..n]), vals[n])
  }

  ghost function Tagged(vals: seq<real>, steps: seq<int>): seq<(Option<real>, int)>
    requires |vals| == |steps|
  {
    seq(|vals|, i requires 0 <= i < |vals| => (Some(vals[i]), steps[i]))
  }

  // ---------------------------------------------------------------------------
  // Properties

  /** Once a best loss is recorded it never becomes unset and never rises, and
      saves are only ever appended. */
  lemma {:induction false} BestNeverWorsens(b: Best, avgs: seq<(Option<real>, int)>)
    ensures b.saved <= PromoteAll(b, avgs).saved
    ensures b.loss.Some? ==> PromoteAll(b, avgs).loss.Some? && PromoteAll(b, avgs).loss.value <= b.loss.value
  {
    if avgs != [] {
      BestNeverWorsens(b, avgs[..|avgs| - 1]);
    }
  }

  /** The fold only ever appends saves, at most one per observation, and each
      one is tagged with the step of an observation it handled. */
  lemma {:induction false} EvalRunOnlyAppends(s: EvalState, obs: seq<Observation>, hier: bool)
    ensures s.best.saved <= EvalRun(s, obs, hier).best.saved
    ensures |EvalRun(s, obs, hier).best.saved| <= |s.best.saved| + |obs|
    ensures forall k :: |s.best.saved| <= k < |EvalRun(s, obs, hier).best.saved| ==>
      EvalRun(s, obs, hier).best.saved[k] in Steps(obs)
  {
    if obs != [] {
      var n := |obs| - 1;
      EvalRunOnlyAppends(s, obs[..n], hier);
      var prev := EvalRun(s, obs[..n], hier).best.saved;
      var r := EvalRun(s, obs, hier).best.saved;
      assert r == prev || r == prev + [obs[n].step];
      assert Steps(obs) == Steps(obs[..n]) + [obs[n].step];
      forall k | |s.best.saved| <= k < |r| ensures r[k] in Steps(obs) {
        if k < |prev| {
          assert r[k] == prev[k];
        }
      }
    }
  }

  /** Starting with no best, a save happens exactly at each strict record low of
      the averages, and the best afterwards is their minimum. */
  lemma {:induction false} PromoteRecords(vals: seq<real>, steps: seq<int>)
    requires |vals| == |steps|
    ensures PromoteAll(Best(None, []), Tagged(vals, steps))
         == Best(if vals == [] then None else Some(MinOf(vals)), RecordSteps(vals, steps))
  {
    if vals != [] {
      var n := |vals| - 1;
      assert Tagged(vals, steps)[..n] == Tagged(vals[..n], steps[..n]);
      PromoteRecords(vals[..n], steps[..n]);
      if n > 0 {
        var m := MinOf(vals[..n]);
        if IsRecord(vals, n) {
          assert m in vals[..n];
        } else {
          var j :| 0 <= j < n && vals[j] <= vals[n];
          assert vals[j] in vals[..n];
        }
      }
    }
  }

  /** The loop's best record is the promotion fold over the running averages it
      computed. */
  lemma {:induction false} EvalRunPromotes(s: EvalState, obs: seq<Observation>, hier: bool)
    ensures EvalRun(s, obs, hier).best == PromoteAll(s.best, AvgTrace(s, obs, hier))
  {
    if obs != [] {
      var n := |obs| - 1;
      forall i | 0 <= i < n ensures AvgTrace(s, obs, hier)[i] == AvgTrace(s, obs[..n], hier)[i] {
        assert obs[..n][..i + 1] == obs[..i + 1];
      }
      assert AvgTrace(s, obs, hier)[..n] == AvgTrace(s, obs[..n], hier);
      assert obs[..n + 1] == obs;
      EvalRunPromotes(s, obs[..n], hier);
    }
  }

  /** The running average after each observation in non-hierarchical mode,
      where it is always set. */
  ghost function NonHierAverages(obs: seq<Observation>): (r: seq<real>)
    ensures |r| == |obs|
  {
    seq(|obs|, i requires 0 <= i < |obs| => EvalRun(EvalStart, obs[..i + 1], false).avg.value)
  }

  /** In non-hierarchical mode a `bestmodel` is saved exactly at the steps where
      the running average falls strictly below every earlier running average,
      and the best loss is the lowest running average so far. */
  lemma NonHierSavesAtRecords(obs: seq<Observation>)
    ensures EvalRun(EvalStart, obs, false).best
         == Best(if obs == [] then None else Some(MinOf(NonHierAverages(obs))),
                 RecordSteps(NonHierAverages(obs), Steps(obs)))
  {
    EvalRunPromotes(EvalStart, obs, false);
    assert AvgTrace(EvalStart, obs, false) == Tagged(NonHierAverages(obs), Steps(obs));
    PromoteRecords(NonHierAverages(obs), Steps(obs));
  }

  /** The average is unset, or the placeholder 0, or within [lo, hi]. */
  predicate InRange(avg: Option<real>, lo: real, hi: real) {
    avg.None? || avg.value == 0.0 || lo <= avg.value <= hi
  }

  /** When every loss lies in [lo, hi] below the ceiling, so does every running
      average the loop computes. */
  lemma {:induction false} AverageStaysInRange(s: EvalState, obs: seq<Observation>, hier: bool, lo: real, hi: real)
    requires lo <= hi <= Ceiling
    requires InRange(s.avg, lo, hi)
    requires forall o :: o in obs ==> lo <= o.loss <= hi
    ensures InRange(EvalRun(s, obs, hier).avg, lo, hi)
  {
    if obs != [] {
      var n := |obs| - 1;
      assert forall o :: o in obs[..n] ==> o in obs;
      AverageStaysInRange(s, obs[..n], hier, lo, hi);
    }
  }

  /** In hierarchical mode a non-finite loss resets the average, and the next
      finite loss bootstraps it afresh. */
  lemma HierResetBootstraps(s: EvalState, bad: Observation, good: Observation)
    requires !bad.finite && good.finite
    ensures EvalStep(s, bad, true).avg == None
    ensures EvalStep(EvalStep(s, bad, true), good, true).avg == Some(Min(good.loss, Ceiling))
  {
  }

  /** In hierarchical mode a non-finite first loss still saves a `bestmodel`
      checkpoint and leaves the best unset, so the next step saves again. */
  lemma HierNonFiniteFirstStepSaves(bad: Observation, next: Observation)
    requires !bad.finite
    ensures EvalStep(EvalStart, bad, true).best == Best(None, [bad.step])
    ensures EvalStep(EvalStep(EvalStart, bad, true), next, true).best.saved == [bad.step, next.step]
  {
  }

  /** Averages 5, 4, 6, 3, 7 at steps 1..5: the best goes 5, 4, 4, 3, 3 and
      three checkpoints are saved. */
  lemma BestTrackExample()
    ensures PromoteAll(Best(None, []), [(Some(5.0), 1)]).loss == Some(5.0)
    ensures PromoteAll(Best(None, []), [(Some(5.0), 1), (Some(4.0), 2)]).loss == Some(4.0)
    ensures PromoteAll(Best(None, []), [(Some(5.0), 1), (Some(4.0), 2), (Some(6.0), 3)]).loss == Some(4.0)
    ensures PromoteAll(Best(None, []), [(Some(5.0), 1), (Some(4.0), 2), (Some(6.0), 3), (Some(3.0), 4)]).loss == Some(3.0)
    ensures PromoteAll(Best(None, []), [(Some(5.0), 1), (Some(4.0), 2), (Some(6.0), 3), (Some(3.0), 4), (Some(7.0), 5)])
         == Best(Some(3.0), [1, 2, 4])
  {
    var a: seq<(Option<real>, int)> := [(Some(5.0), 1), (Some(4.0), 2), (Some(6.0), 3), (Some(3.0), 4), (Some(7.0), 5)];
    assert a[..1][..0] == [];
    assert PromoteAll(Best(None, []), a[..1]) == Best(Some(5.0), [1]);
    assert a[..2][..1] == a[..1];
    assert PromoteAll(Best(None, []), a[..2]) == Best(Some(4.0), [1, 2]);
    assert a[..3][..2] == a[..2];
    assert PromoteAll(Best(None, []), a[..3]) == Best(Some(4.0), [1, 2]);
    assert a[..4][..3] == a[..3];
    assert PromoteAll(Best(None, []), a[..4]) == Best(Some(3.0), [1, 2, 4]);
    assert a[..4] == [(Some(5.0), 1), (Some(4.0), 2), (Some(6.0), 3), (Some(3.0), 4)];
    assert a[..5][..4] == a[..4];
  }

  // ---------------------------------------------------------------------------
  // The imperative loop

  /** The evaluation job's mutable state: the running average, the best loss,
      and a log of the steps at which a `bestmodel` checkpoint was saved. */
  class EvalTracker {
    var runningAvgLoss: Option<real>
    var bestLoss: Option<real>
    ghost var savedSteps: seq<int>

    ghost function State(): EvalState
      reads this
    {
      EvalState(runningAvgLoss, Best(bestLoss, savedSteps))
    }

    constructor ()
      ensures State() == EvalStart
    {
      runningAvgLoss := Some(0.0);
      bestLoss := None;
      savedSteps := [];
    }

    /** Handle one eval step; report whether a `bestmodel` save and a summary
        flush happen. */
    method Observe(loss: real, finite: bool, step: int, hier: bool) returns (save: bool, flush: bool)
      modifies this
      ensures State() == EvalStep(old(State()), Observation(loss, finite, step), hier)
      ensures save <==> Improves(old(bestLoss), runningAvgLoss)
      ensures save ==> bestLoss == runningAvgLoss && savedSteps == old(savedSteps) + [step]
      ensures !save ==> bestLoss == old(bestLoss) && savedSteps == old(savedSteps)
      ensures flush <==> FlushDue(step)
    {
      if hier {
        if finite {
          runningAvgLoss := Some(RunningAvg(loss, runningAvgLoss, DefaultDecay));
        } else {
          runningAvgLoss := None;
        }
      } else {
        runningAvgLoss := Some(RunningAvg(loss, runningAvgLoss, DefaultDecay));
      }
      save := bestLoss == None || (runningAvgLoss != None && runningAvgLoss.value < bestLoss.value);
      if save {
        savedSteps := savedSteps + [step];
        bestLoss := runningAvgLoss;
      }
      flush := step % 100 == 0;
    }
  }

  /** Handling one more observation is one more step of the fold, and one
      more flush when that step is due. */
  lemma OneMoreObservation(obs: seq<Observation>, i: nat, hier: bool)
    requires i < |obs|
    ensures EvalRun(EvalStart, obs[..i + 1], hier) == EvalStep(EvalRun(EvalStart, obs[..i], hier), obs[i], hier)
    ensures FlushedSteps(Steps(obs[..i + 1]))
         == FlushedSteps(Steps(obs[..i])) + (if FlushDue(obs[i].step) then [obs[i].step] else [])
  {
    assert obs[..i + 1][..i] == obs[..i];
    assert Steps(obs[..i + 1])[..i] == Steps(obs[..i]);
  }

  /** Run the evaluation loop over a finite stretch of eval steps (the job
      itself only ends when killed). */
  method RunEval(obs: seq<Observation>, hier: bool) returns (saved: seq<int>, flushed: seq<int>, best: Option<real>)
    ensures saved == EvalRun(EvalStart, obs, hier).best.saved
    ensures best == EvalRun(EvalStart, obs, hier).best.loss
    ensures flushed == FlushedSteps(Steps(obs))
  {
    var tracker := new EvalTracker();
    saved, flushed := [], [];
    var i := 0;
    while i < |obs|
      invariant 0 <= i <= |obs|
      invariant tracker.State() == EvalRun(EvalStart, obs[..i], hier)
      invariant saved == tracker.savedSteps
      invariant flushed == FlushedSteps(Steps(obs[..i]))
    {
      var o := obs[i];
      var save, flush := tracker.Observe(o.loss, o.finite, o.step, hier);
      if save {
        saved := saved + [o.step];
      }
      if flush {
        flushed := flushed + [o.step];
      }
      OneMoreObservation(obs, i, hier);
      i := i + 1;
    }
    assert obs[..i] == obs;
    best := tracker.bestLoss;
  }
}
