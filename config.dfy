/** The command-line flag registry the program reads its configuration from. */
module Config {

  /** The value of one flag. */
  datatype Value = Bool(b: bool) | Int(i: int) | Real(r: real) | Str(s: string) | Null

  /** The flags the core reads or rewrites by name, and every other flag of the
      registry by name in `other`. */
  datatype Flags = Flags(
    mode: string,
    logRoot: string,
    expName: string,
    singlePass: bool,
    batchSize: int,
    beamSize: int,
    maxDecSteps: int,
    hier: bool,
    coverage: bool,
    convertToCoverage: bool,
    convertLinearToHier: bool,
    restoreBest: bool,
    other: map<string, Value>)

  /** The registry as the snapshot loop walks it: every flag of `other`, and the
      named flags that are hyperparameters (mode, batch size, decoder steps,
      coverage, hierarchical), which take precedence over any entry of the same
      name in `other`. The named flags that are not hyperparameters (log root,
      experiment name, single pass, beam size and the three surgery flags) are
      left out of it: the loop skips every name outside the allow-list. */
  function Registry(f: Flags): (m: map<string, Value>)
    ensures "mode" in m && m["mode"] == Str(f.mode)
    ensures "batch_size" in m && m["batch_size"] == Int(f.batchSize)
    ensures "max_dec_steps" in m && m["max_dec_steps"] == Int(f.maxDecSteps)
  {
    f.other + map[
      "mode" := Str(f.mode),
      "batch_size" := Int(f.batchSize),
      "max_dec_steps" := Int(f.maxDecSteps),
      "coverage" := Bool(f.coverage),
      "hier" := Bool(f.hier)]
  }

  /** The hyperparameters handed to the model, by flag name. */
  const HParamNames: seq<string> := [
    "mode", "lr", "adagrad_init_acc", "rand_unif_init_mag", "trunc_norm_init_std", "max_grad_norm",
    "hidden_dim", "emb_dim", "batch_size", "max_dec_steps", "max_enc_steps", "coverage", "cov_loss_wt",
    "pointer_gen", "min_lr", "max_abstract_len", "min_abstract_len", "max_article_sents",
    "max_section_len", "min_section_len", "use_sections", "max_article_len",
    "max_intro_len", "max_conclusion_len", "max_intro_sents", "max_conclusion_sents", "max_section_sents",
    "enc_layers", "optimizer", "multi_layer_encoder", "num_sections", "hier", "phased_lstm",
    "output_weight_sharing", "use_do", "do_prob", "embeddings_path", "pretrained_embeddings",
    "pubmed", "num_gpus", "split_intro", "temperature"]

  /** The snapshot always carries the mode, the batch size and the decoder
      step count. */
  lemma AllowListIncludesCore()
    ensures "mode" in HParamNames && "batch_size" in HParamNames && "max_dec_steps" in HParamNames
  {
    assert HParamNames[0] == "mode";
    assert HParamNames[8] == "batch_size";
    assert HParamNames[9] == "max_dec_steps";
  }
}
