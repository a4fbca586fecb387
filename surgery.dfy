/** Checkpoint surgery: restore a filtered subset of the model's variables from
    a checkpoint, keep the fresh initialisation of the rest, save all of them
    under a new name. Only the variable selection and the naming are modelled;
    the tensors themselves are not. */
module Surgery {
  import opened Strings

  /** Name fragments whose variables are not restored. */
  const RestoreBestExcluded: seq<string> := ["Adagrad"]
  const CoverageExcluded: seq<string> := ["coverage", "Adagrad"]
  const LinearToHierExcluded: seq<string> := ["Linear--Section-Features", "v_sec", "Adagrad"]

  /** The variable's name contains one of the excluded fragments. */
  predicate Excluded(name: string, excluded: seq<string>) {
    exists e :: e in excluded && Contains(name, e)
  }

  /** The list comprehension that picks the variables to restore. */
  function Keep(vars: seq<string>, excluded: seq<string>): (r: seq<string>)
    ensures |r| <= |vars|
  {
    if vars == [] then []
    else
      var n := |vars| - 1;
      Keep(vars[..n], excluded) + (if Excluded(vars[n], excluded) then [] else [vars[n]])
  }

  /** A name is kept exactly when it is one of the variables and free of every
      excluded fragment. */
  lemma {:induction false} KeepExactly(vars: seq<string>, excluded: seq<string>)
    ensures forall v :: v in Keep(vars, excluded) <==> v in vars && !Excluded(v, excluded)
  {
    if vars != [] {
      var n := |vars| - 1;
      KeepExactly(vars[..n], excluded);
      assert vars == vars[..n] + [vars[n]];
    }
  }

  /** Filtering works stretch by stretch, so the kept names stay in their
      original order. */
  lemma {:induction false} KeepAppend(a: seq<string>, b: seq<string>, excluded: seq<string>)
    ensures Keep(a + b, excluded) == Keep(a, excluded) + Keep(b, excluded)
  {
    if b == [] {
      assert a + b == a;
    } else {
      var n := |b| - 1;
      assert (a + b)[..|a + b| - 1] == a + b[..n];
      KeepAppend(a, b[..n], excluded);
    }
  }

  /** With nothing to exclude, every variable is restored. */
  lemma {:induction false} KeepNothingExcluded(vars: seq<string>, excluded: seq<string>)
    requires forall i :: 0 <= i < |vars| ==> !Excluded(vars[i], excluded)
    ensures Keep(vars, excluded) == vars
  {
    if vars != [] {
      var n := |vars| - 1;
      KeepNothingExcluded(vars[..n], excluded);
      assert vars == vars[..n] + [vars[n]];
    }
  }

  /** One surgery: which variables are restored from `source`, and which are
      saved (all of them) to `dest`. */
  datatype Surgery = Surgery(restored: seq<string>, source: string, saved: seq<string>, dest: string)

  /** `<log_root>/train/<last component of the best checkpoint, "bestmodel" renamed "model">`. */
  function BestModelDest(logRoot: string, bestCkpt: string): (r: string)
    ensures Join(logRoot, "train") <= r
  {
    RenamedIsSlashFree(bestCkpt);
    Join(Join(logRoot, "train"), ReplaceAll(LastComponent(bestCkpt), "bestmodel", "model"))
  }

  /** The promoted checkpoint lands directly in the train directory, named
      after the best checkpoint's file with "bestmodel" renamed "model". */
  lemma BestModelDestNaming(logRoot: string, bestCkpt: string)
    ensures var name := ReplaceAll(LastComponent(bestCkpt), "bestmodel", "model");
      LastComponent(BestModelDest(logRoot, bestCkpt)) == name &&
      BestModelDest(logRoot, bestCkpt) == Join(Join(logRoot, "train"), name)
  {
    var name := ReplaceAll(LastComponent(bestCkpt), "bestmodel", "model");
    RenamedIsSlashFree(bestCkpt);
    LastComponentOfJoin(Join(logRoot, "train"), name);
  }

  /** Renaming the last component cannot bring a slash into it. */
  lemma RenamedIsSlashFree(bestCkpt: string)
    ensures '/' !in ReplaceAll(LastComponent(bestCkpt), "bestmodel", "model")
  {
    assert "model" == ['m', 'o', 'd', 'e', 'l'];
    assert '/' !in "model";
  }

  /** `restore_best_model`: everything but the optimizer's accumulators comes
      from the best evaluation checkpoint; the result goes to the train directory. */
  function RestoreBestModel(vars: seq<string>, logRoot: string, bestCkpt: string): (s: Surgery)
    ensures s.source == bestCkpt && s.saved == vars && s.dest == BestModelDest(logRoot, bestCkpt)
    ensures forall v :: v in s.restored <==> v in vars && !Contains(v, "Adagrad")
  {
    assert forall v :: Excluded(v, RestoreBestExcluded) <==> Contains(v, "Adagrad") by {
      forall v ensures Excluded(v, RestoreBestExcluded) <==> Contains(v, "Adagrad") {
        assert "Adagrad" in RestoreBestExcluded;
      }
    }
    KeepExactly(vars, RestoreBestExcluded);
    Surgery(Keep(vars, RestoreBestExcluded), bestCkpt, vars, BestModelDest(logRoot, bestCkpt))
  }

  /** `convert_to_coverage_model`: everything but the coverage variables and the
      accumulators is restored; the result is saved beside the source. */
  function ConvertToCoverage(vars: seq<string>, ckpt: string): (s: Surgery)
    ensures s.source == ckpt && s.saved == vars && s.dest == ckpt + "_cov_init"
    ensures forall v :: v in s.restored <==> v in vars && !Contains(v, "coverage") && !Contains(v, "Adagrad")
  {
    KeepExactly(vars, CoverageExcluded);
    Surgery(Keep(vars, CoverageExcluded), ckpt, vars, ckpt + "_cov_init")
  }

  /** `convert_linear_attn_to_hier_model`: everything but the section-attention
      variables and the accumulators is restored; the result overwrites the source. */
  function ConvertLinearToHier(vars: seq<string>, ckpt: string): (s: Surgery)
    ensures s.source == ckpt && s.saved == vars && s.dest == ckpt
    ensures forall v :: v in s.restored <==>
      v in vars && !Contains(v, "Linear--Section-Features") && !Contains(v, "v_sec") && !Contains(v, "Adagrad")
  {
    KeepExactly(vars, LinearToHierExcluded);
    Surgery(Keep(vars, LinearToHierExcluded), ckpt, vars, ckpt)
  }
}
