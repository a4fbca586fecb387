/** The training job: the order in which `setup_training` consults the
    checkpoint-surgery flags, and the guard and flush rule of the training loop
    (`run_training`). */
module Training {
  import opened Common
  import opened Strings
  import opened Config
  import opened Surgery

  // ---------------------------------------------------------------------------
  // Setup

  /** What the setup does, in order. `Exit` and `AssertionFailed` end the
      process; `EnterTrainingLoop` hands over to the training loop. */
  datatype Effect =
    | BuildGraph
    | RunSurgery(surgery: Surgery)
    | Exit
    | AssertionFailed(message: string)
    | EnterTrainingLoop(trainDir: string)

  predicate Terminal(e: Effect) {
    e.Exit? || e.AssertionFailed? || e.EnterTrainingLoop?
  }

  /** The directory set after the setup, and the effects it performed. */
  datatype Setup = Setup(dirs: set<string>, effects: seq<Effect>)

  function TrainDir(logRoot: string): string {
    Join(logRoot, "train")
  }

  /** The message of the assertion that guards the coverage conversion. */
  const CoverageMessage: string :=
    "To convert your non-coverage model to a coverage model, run with convert_to_coverage_model=True and coverage=True"

  /** The surgery the flags select, in the order the setup checks them. */
  function SelectedSurgery(flags: Flags, vars: seq<string>, trainCkpt: string, bestCkpt: string): (s: Surgery)
    ensures s.saved == vars
    // the conversions load the train checkpoint, the restore the best eval one
    ensures s.source == (if flags.convertToCoverage || flags.convertLinearToHier then trainCkpt else bestCkpt)
  {
    if flags.convertToCoverage then ConvertToCoverage(vars, trainCkpt)
    else if flags.convertLinearToHier then ConvertLinearToHier(vars, trainCkpt)
    else RestoreBestModel(vars, flags.logRoot, bestCkpt)
  }

  /** `setup_training`. `trainCkpt` and `bestCkpt` are the latest checkpoints
      of the train and eval directories, which the surgeries load. */
  function SetupTraining(flags: Flags, dirs: set<string>, vars: seq<string>, trainCkpt: string, bestCkpt: string): (r: Setup)
    ensures r.dirs == dirs + {TrainDir(flags.logRoot)}
    ensures 2 <= |r.effects| <= 3 && r.effects[0] == BuildGraph
    // exactly one terminal effect, and it comes last
    ensures Terminal(r.effects[|r.effects| - 1])
    ensures forall i :: 0 <= i < |r.effects| - 1 ==> !Terminal(r.effects[i])
    // the training loop is reached exactly when no surgery is asked for
    ensures r.effects[|r.effects| - 1] == EnterTrainingLoop(TrainDir(flags.logRoot)) <==>
      !flags.convertToCoverage && !flags.convertLinearToHier && !flags.restoreBest
    // a coverage conversion without coverage fails before touching any checkpoint
    ensures r.effects[|r.effects| - 1] == AssertionFailed(CoverageMessage) <==>
      flags.convertToCoverage && !flags.coverage
    ensures flags.convertToCoverage && !flags.coverage ==> forall e :: e in r.effects ==> !e.RunSurgery?
    // at most one surgery runs, the first one asked for, and it is followed by exit
    ensures forall i, j :: 0 <= i < j < |r.effects| ==> !(r.effects[i].RunSurgery? && r.effects[j].RunSurgery?)
    ensures forall i :: 0 <= i < |r.effects| && r.effects[i].RunSurgery? ==>
      r.effects[i].surgery == SelectedSurgery(flags, vars, trainCkpt, bestCkpt) &&
      i + 1 < |r.effects| && r.effects[i + 1] == Exit
    // a requested surgery whose assertion passes does run, and then the process exits
    ensures ((flags.convertToCoverage ==> flags.coverage) &&
             (flags.convertToCoverage || flags.convertLinearToHier || flags.restoreBest)) ==>
      r.effects == [BuildGraph, RunSurgery(SelectedSurgery(flags, vars, trainCkpt, bestCkpt)), Exit]
    // the two other paths, each building the graph exactly once
    ensures !flags.convertToCoverage && !flags.convertLinearToHier && !flags.restoreBest ==>
      r.effects == [BuildGraph, EnterTrainingLoop(TrainDir(flags.logRoot))]
    ensures flags.convertToCoverage && !flags.coverage ==>
      r.effects == [BuildGraph, AssertionFailed(CoverageMessage)]
  {
    var dirs' := dirs + {TrainDir(flags.logRoot)};
    if flags.convertToCoverage then
      if !flags.coverage then Setup(dirs', [BuildGraph, AssertionFailed(CoverageMessage)])
      else Setup(dirs', [BuildGraph, RunSurgery(ConvertToCoverage(vars, trainCkpt)), Exit])
    else if flags.convertLinearToHier then
      Setup(dirs', [BuildGraph, RunSurgery(ConvertLinearToHier(vars, trainCkpt)), Exit])
    else if flags.restoreBest then
      Setup(dirs', [BuildGraph, RunSurgery(RestoreBestModel(vars, flags.logRoot, bestCkpt)), Exit])
    else
      Setup(dirs', [BuildGraph, EnterTrainingLoop(TrainDir(flags.logRoot))])
  }

  /** Whatever surgery runs saves every variable, and restores only variables
      free of the optimizer's "Adagrad" accumulators. */
  lemma SurgeryNeverRestoresAccumulators(flags: Flags, dirs: set<string>, vars: seq<string>, trainCkpt: string, bestCkpt: string)
    ensures forall e :: e in SetupTraining(flags, dirs, vars, trainCkpt, bestCkpt).effects && e.RunSurgery? ==>
      e.surgery.saved == vars &&
      forall v :: v in e.surgery.restored ==> v in vars && !Contains(v, "Adagrad")
  {
  }

  // ---------------------------------------------------------------------------
  // The training loop

  /** How the loop ends: interrupted from outside after the given steps, or by
      the exception for a non-finite loss at step index `at`. */
  datatype Stop = Interrupted | Diverged(at: nat)

  /** The steps whose summaries were written, the steps on which the writer
      was flushed, and how the loop ended. */
  datatype TrainingRun = TrainingRun(written: seq<int>, flushed: seq<int>, stop: Stop)

  /** `run_training` over the steps that complete before the job is
      interrupted. */
  method RunTraining(results: seq<Observation>) returns (run: TrainingRun)
    // the loop stops at the first non-finite loss, and only there
    ensures run.stop.Interrupted? <==> forall i :: 0 <= i < |results| ==> results[i].finite
    ensures run.stop.Diverged? ==>
      run.stop.at < |results| && !results[run.stop.at].finite &&
      forall i :: 0 <= i < run.stop.at ==> results[i].finite
    // summaries are written for every step before the stop, and not for the bad one
    ensures |run.written| == (if run.stop.Diverged? then run.stop.at else |results|)
    ensures |run.written| <= |results| && run.written == Steps(results[..|run.written|])
    ensures run.flushed == FlushedSteps(run.written)
  {
    var written: seq<int> := [];
    var flushed: seq<int> := [];
    var i := 0;
    while i < |results|
      invariant 0 <= i <= |results|
      invariant forall j :: 0 <= j < i ==> results[j].finite
      invariant written == Steps(results[..i])
      invariant flushed == FlushedSteps(written)
    {
      var r := results[i];
      if !r.finite {
        run := TrainingRun(written, flushed, Diverged(i));
        return;
      }
      written := written + [r.step];
      if r.step % 100 == 0 {
        flushed := flushed + [r.step];
      }
      assert results[..i + 1][..i] == results[..i];
      i := i + 1;
    }
    assert results[..i] == results;
    run := TrainingRun(written, flushed, Interrupted);
  }

  /** A step is flushed exactly when it is divisible by 100 and was reported
      by one of the steps handled before the loop stopped. */
  lemma {:induction false} TrainingFlushesExactly(results: seq<Observation>, run: TrainingRun, s: int)
    requires |run.written| <= |results| && run.written == Steps(results[..|run.written|])
    requires run.flushed == FlushedSteps(run.written)
    ensures s in run.flushed <==> FlushDue(s) && exists i :: 0 <= i < |run.written| && results[i].step == s
  {
    FlushedStepsExactly(run.written, s);
    if s in run.written {
      var i :| 0 <= i < |run.written| && run.written[i] == s;
      assert results[..|run.written|][i] == results[i];
    }
  }
}
