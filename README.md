# Decision logic of the long-document summarizer's driver

`run_summarization.py` is the driver script of a pointer-generator
summarization system for long documents. It reads command-line flags and
then starts one of three jobs: training, the evaluation job that keeps the
best checkpoint, or beam-search decoding. Most of the script is TensorFlow
plumbing. This project models the decision logic inside it and proves
properties of that model. The logic covers:

- **Running-average loss** (module `RunningAverage`). The eval job smooths
  its losses exponentially. The first value is taken as is; a prior of 0 also
  counts as "no average yet". The result is clipped at 12.
- **Best-checkpoint tracker** (module `Evaluation`). The eval loop is the
  class `EvalTracker`. Its fields are the running average and the best loss,
  and a ghost log records the steps at which a `bestmodel` checkpoint is
  saved. `RunEval` drives the loop over a finite stretch of eval steps. A fold
  (`EvalRun`) specifies it, and the lemmas about that fold say when saves
  happen.
- **Training guard** (module `Training`). `RunTraining` raises on the first
  non-finite loss before writing anything for that step. Otherwise it writes
  the step's summaries and flushes on every step divisible by 100.
- **Checkpoint surgery** (module `Surgery`). Three routines restore a filtered
  subset of the variables and save all of them under a derived name:
  - restore the best model;
  - convert a model to coverage;
  - convert linear attention to hierarchical attention.

  `Training.SetupTraining` fixes the order in which the flags select them.
  Each one ends the process.
- **Entry point** (modules `Config` and `Dispatcher`). `main` does the
  following:
  - checks the argument count;
  - moves the log root into the experiment directory;
  - creates that directory in train mode, and fails outside train mode if it
    is missing;
  - uses the beam size as the batch size in decode mode;
  - rejects single-pass outside decode mode;
  - builds the hyperparameter snapshot from an allow-list;
  - routes to a job.
- **Shared pieces**. `Common` holds the flush rule and the step reports. `Strings`
  holds Python's substring test, `str.replace`, `split("/")[-1]` and
  `posixpath.join`.

The filesystem is a set of directory names. `exit()` and raised exceptions
are terminal values. A checkpoint lookup (`util.load_ckpt`) is a parameter
carrying the path it would return.

The help text of the `restore_best_model` flag (run_summarization.py:134)
speaks of the restored model being "ready to be used for further training".
The routine itself ends in `exit()` (run_summarization.py:200), so
`SetupTraining` treats it as terminal, like the two conversions; training
continues only in a later run.

## Model

| member | source | states |
|---|---|---|
| Common.FlushedSteps | run_summarization.py:338-341 | the steps a loop flushes after writing summaries for `written`: never more than were written, and every one divisible by 100 (its exact membership is `FlushedStepsExactly`); the eval loop uses it for lines 394-395 too |
| Common.FlushedStepsExactly | run_summarization.py:338-341 | a written step is flushed exactly when it is divisible by 100 (both directions); eval uses the same rule at lines 394-395 |
| Common.FlushedStepsAppend | run_summarization.py:338-341 | flushes of consecutive stretches concatenate, so flushes happen in the order the steps were written |
| RunningAverage.RunningAvg | run_summarization.py:151-169 | the result never exceeds 12; an unset or zero prior gives min(loss, 12); with decay in [0, 1] a set prior gives a value between the smaller of prior and loss (clipped) and the larger of the two; decay 1 keeps the prior, decay 0 takes the loss |
| RunningAverage.ConvexBetween | run_summarization.py:168 | the smoothed value prior·decay + (1 − decay)·loss lies between prior and loss |
| RunningAverage.SmoothingExample | run_summarization.py:165-169 | prior 10, loss 20, decay 0.99 gives 10.1; no prior takes the loss; a zero prior with loss 30 is clipped to 12 |
| Evaluation.NextAverage | run_summarization.py:377-384 | the new average is unset exactly in hierarchical mode on a non-finite loss; otherwise it is at most 12, and it is min(loss, 12) when the prior is unset or 0 |
| Evaluation.Improves | run_summarization.py:388 | the save condition: with no best it always holds; with an unset average it holds only when there is no best |
| Evaluation.Promote | run_summarization.py:388-391 | saves are only appended, one at most; a save happens exactly when `Improves` holds, and then the best becomes the new average and the save is tagged with the step; otherwise nothing changes |
| Evaluation.EvalStep | run_summarization.py:377-391 | one loop iteration saves nothing or exactly one checkpoint tagged with the current step |
| Evaluation.EvalRunOnlyAppends | run_summarization.py:354-395 | the fold `EvalRun` over a stretch of eval steps only appends saves, at most one per step, each tagged with the step of an observation it handled |
| Evaluation.EvalTracker.constructor | run_summarization.py:351-352 | the loop starts with an average of 0 (counted as unset), no best loss and no saves |
| Evaluation.EvalTracker.Observe | run_summarization.py:377-395 | the new state is one step of the loop; a save happens exactly when no best exists or the new average is set and strictly below it, and then the best becomes that average and the step is logged; a flush happens exactly on steps divisible by 100 |
| Evaluation.RunEval | run_summarization.py:351-395 | the saved steps and the final best are those of the fold over the observations; the flushed steps are exactly the due steps in order |
| Evaluation.BestNeverWorsens | run_summarization.py:388-391 | saves are only appended; once set, the best loss stays set and never rises |
| Evaluation.PromoteRecords | run_summarization.py:388-391 | starting with no best, saves happen exactly at the strict record lows of the averages, and the best is their minimum |
| Evaluation.EvalRunPromotes | run_summarization.py:377-391 | the loop's best record is the promotion fold over the running averages it computed |
| Evaluation.NonHierSavesAtRecords | run_summarization.py:384-391 | in non-hierarchical mode a bestmodel is saved exactly where the running average reaches a new strict low, and the best is the lowest running average |
| Evaluation.AverageStaysInRange | run_summarization.py:377-384 | if every loss lies in [lo, hi] with hi ≤ 12, every running average stays unset, zero or in [lo, hi] |
| Evaluation.HierResetBootstraps | run_summarization.py:377-382 | in hierarchical mode a non-finite loss unsets the average, and the next finite loss restarts it at min(loss, 12) |
| Evaluation.HierNonFiniteFirstStepSaves | run_summarization.py:377-391 | in hierarchical mode a non-finite first loss saves a bestmodel and leaves the best unset, so the next step saves again |
| Evaluation.BestTrackExample | run_summarization.py:388-391 | averages 5, 4, 6, 3, 7 give bests 5, 4, 4, 3, 3 and saves at steps 1, 2, 4 |
| Training.RunTraining | run_summarization.py:302-341 | the loop stops with an exception exactly at the first non-finite loss; summaries are written for every earlier step and not for that one; the flushes are exactly the due written steps |
| Training.TrainingFlushesExactly | run_summarization.py:323-341 | a step is flushed exactly when it is divisible by 100 and was handled before the loop stopped |
| Training.SelectedSurgery | run_summarization.py:264-272 | the surgery the flags select saves every variable, and loads the train checkpoint for the two conversions and the best eval checkpoint for the restore |
| Training.SetupTraining | run_summarization.py:257-272 | the train directory exists afterwards; the graph is built first and exactly once; exactly one terminal effect comes last; the training loop is reached exactly when no surgery flag is set; a coverage conversion without coverage fails its assertion and runs no surgery; at most one surgery runs, the first selected in the order coverage, linear-to-hier, restore-best, and it is followed by exit; the effect list is fixed on every path: build the graph then enter the training loop when no surgery flag is set; build the graph then fail the assertion for a coverage conversion without coverage; otherwise build the graph, run the selected surgery, exit |
| Training.SurgeryNeverRestoresAccumulators | run_summarization.py:263-272 | whichever surgery runs saves every variable and restores no Adagrad accumulator |
| Surgery.Keep | run_summarization.py:188 | the filter behind the three list comprehensions (lines 188, 217-218, 242-243); never more names than variables; its membership is `KeepExactly` and its order `KeepAppend` |
| Surgery.KeepExactly | run_summarization.py:188 | a name is kept exactly when it is among the variables and contains none of the excluded fragments |
| Surgery.KeepAppend | run_summarization.py:188 | filtering works stretch by stretch, so kept names keep their order |
| Surgery.KeepNothingExcluded | run_summarization.py:188 | when no name contains an excluded fragment, every variable is restored, in order |
| Surgery.RestoreBestModel | run_summarization.py:178-200 | the best eval checkpoint is the source; every variable is saved; the destination is `<log_root>/train/<renamed last component>` (`BestModelDest`); a variable is restored exactly when it does not contain "Adagrad" |
| Surgery.BestModelDest | run_summarization.py:194-195 | the best model's new path lies under the train directory `<log_root>/train` (which is a prefix of it); its last component is fixed by `BestModelDestNaming` |
| Surgery.BestModelDestNaming | run_summarization.py:194-195 | the restored best model is saved directly under `<log_root>/train`, named after the best checkpoint's last path component with "bestmodel" replaced by "model" |
| Surgery.ConvertToCoverage | run_summarization.py:203-229 | the train checkpoint is the source; the destination is its path plus "_cov_init"; a variable is restored exactly when it contains neither "coverage" nor "Adagrad" |
| Surgery.ConvertLinearToHier | run_summarization.py:232-254 | the destination is the source checkpoint itself; a variable is restored exactly when it contains none of "Linear--Section-Features", "v_sec" and "Adagrad" |
| Strings.Contains | run_summarization.py:188 | Python's substring `in`: it holds only when the fragment is no longer than the name, and always for the empty fragment; `ContainsIffOccurs` characterises it |
| Strings.ContainsIffOccurs | run_summarization.py:188 | the substring test holds exactly when the fragment occurs at some index |
| Strings.ReplaceAll | run_summarization.py:194 | every character of the result comes from the input or the replacement |
| Strings.ReplaceAllWithoutOccurrence | run_summarization.py:194 | a name without "bestmodel" is left unchanged by the replacement |
| Strings.LastComponent | run_summarization.py:194 | the result is slash-free, a suffix of the path, and preceded by a slash unless it is the whole path |
| Strings.Join | run_summarization.py:195 | an absolute second part replaces the first; otherwise the parts are concatenated, with a slash between them exactly when the first part is non-empty and does not already end in a slash, and the first part is a prefix of the result |
| Strings.LastComponentOfJoin | run_summarization.py:194-195 | joining a slash-free name onto a directory makes that name the last component |
| Config.Registry | run_summarization.py:443-445 | the registry carries the mode, batch size and decoder step count the flags hold |
| Config.AllowListIncludesCore | run_summarization.py:433-441 | the allow-list contains mode, batch_size and max_dec_steps |
| Dispatcher.Snapshot | run_summarization.py:442-445 | the snapshot holds exactly the allow-listed entries of the registry, with their values |
| Dispatcher.SnapshotCarriesCore | run_summarization.py:433-446 | the snapshot carries the mode, batch size and decoder step count of the flags |
| Dispatcher.MainSpec | run_summarization.py:399-478 | the decision of `main` as one expression; no directory is ever removed and the experiment directory is the only one added; its branches are stated by `DispatchErrors`, `DispatchRoutes`, `SnapshotIsAllowListed` and `DecodeCopiesWithOneStep` |
| Dispatcher.Dispatch | run_summarization.py:399-478 | the outcome is the specification of `main`: argument check, log-root rewrite, directory check or creation, decode batch size, single-pass check, snapshot, route or ValueError |
| Dispatcher.DispatchErrors | run_summarization.py:400-429 | each configuration error, in the order checked; the directory created in train mode stays created after a later error |
| Dispatcher.DispatchRoutes | run_summarization.py:409-478 | a route is taken exactly when every check passes and the mode is train, eval or decode; the log directory then exists and is the new log root; the mode picks the job |
| Dispatcher.SnapshotIsAllowListed | run_summarization.py:423-446 | a routed snapshot holds exactly the allow-listed flags as rewritten; in decode mode its batch size is the beam size |
| Dispatcher.DecodeCopiesWithOneStep | run_summarization.py:467-473 | the decoder model's copy differs from the snapshot only in max_dec_steps = 1, and the snapshot keeps the flag's value |

## Left out

- TensorFlow sessions, graph building, `Saver`, `Supervisor` and their checkpoint retention (`max_to_keep=3`) are library behaviour. Only which variables a surgery restores and saves, and the checkpoint names, are modelled.
- Summary writing, the `tf.Summary` of the running average, logging, `print` and `time.time()` timing are I/O. Only the flush decision is kept.
- `Vocab`, `Batcher`, `SummarizationModel`, `BeamSearchDecoder`, `tf_debug` (the `debug` flag) and `set_random_seed` are external collaborators. The decoding job itself is not modelled past its route.
- `util.load_ckpt` is not part of this model. The checkpoint paths it returns are parameters (`trainCkpt`, `bestCkpt`), and the loop's reload of the latest checkpoint on each eval step is left out.
- The training loop runs until interrupted. `RunTraining` and `RunEval` take the finite stretch of steps reported before the interrupt. The `KeyboardInterrupt` handling and `sv.stop()` are the `Interrupted` outcome.
- Floating point is left out. Losses are reals and finiteness is a separate flag. In non-hierarchical eval mode a non-finite loss is smoothed in like any finite one. IEEE infinities and NaN are not modelled: in the program a +inf loss clips the average to 12, while -inf and NaN persist in the average from then on.
- The coverage-loss lookup and log in both loops (read only when `coverage` is set) have no effect on the decisions modelled.
- `os.makedirs` creates parent directories as well. The model adds only the directory itself to the set.
- Directory names in the set are compared as plain strings, with no path normalisation. `os.path.exists` treats "logs" and "logs/" as the same directory; the model does not. With the default empty experiment name, the log directory of log root "logs" is "logs/", so in eval mode with only "logs" in the set the model fails with `MissingLogDir` where the program goes on.
- The empty path is not treated as special. With `log_root` and `exp_name` both left at their empty defaults (run_summarization.py:61-63), the log directory is "". In the program `os.path.exists("")` is false (line 410), so train mode fails when `os.makedirs("")` raises `FileNotFoundError` (line 412), and eval and decode modes raise the missing-log-directory exception (lines 414-415). The model instead adds "" to the directory set and routes to training, and in the other modes it routes whenever "" is already in the set.
- Config.Registry: holds the hyperparameter flags the model reads (mode, batch size, decoder steps, coverage, hierarchical) plus an open map for every other flag. The named flags outside the allow-list are not entries of it, since the snapshot loop skips them anyway.
- The hyperparameter snapshot is a map from flag name to value. Python's `namedtuple` is not modelled.
- Strings.ReplaceAll: its contract states only the characters the result draws from and the no-occurrence case, not a full characterisation of `str.replace`.
