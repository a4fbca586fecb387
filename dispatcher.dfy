/** The program's entry point (`main`): validate the configuration, resolve the
    log directory, build the hyperparameter snapshot and pick a route. */
module Dispatcher {
  import opened Config
  import opened Strings

  type HParams = map<string, Value>

  /** Where the job goes: the training controller, the evaluation loop (with
      its hierarchical flag), or beam-search decoding with the model's own
      hyperparameter copy. */
  datatype Route =
    | Train(hps: HParams)
    | Eval(hps: HParams, hier: bool)
    | Decode(hps: HParams, modelHps: HParams)

  datatype DispatchError =
    | BadArguments(argv: seq<string>)   // leftover positional arguments
    | MissingLogDir(path: string)       // log directory absent outside train mode
    | SinglePassOutsideDecode
    | UnknownMode(mode: string)         // the ValueError of the last branch

  /** The outcome, with the rewritten flags and the directory set afterwards. */
  datatype Dispatched =
    | Routed(route: Route, flags: Flags, dirs: set<string>)
    | Failed(error: DispatchError, dirs: set<string>)

  /** The experiment's log directory `<log_root>/<exp_name>`. */
  function LogDir(flags: Flags): string {
    Join(flags.logRoot, flags.expName)
  }

  /** Exactly the allow-listed entries of the registry. */
  ghost function AllowListed(registry: map<string, Value>): map<string, Value> {
    map k | k in registry && k in HParamNames :: registry[k]
  }

  predicate KnownMode(mode: string) {
    mode == "train" || mode == "eval" || mode == "decode"
  }

  /** Copy every allow-listed flag of the registry into the snapshot. */
  method Snapshot(registry: map<string, Value>) returns (hps: HParams)
    ensures hps == AllowListed(registry)
  {
    hps := map[];
    var pending := registry.Keys;
    while pending != {}
      invariant pending <= registry.Keys
      invariant forall k :: k in hps <==> k in registry && k !in pending && k in HParamNames
      invariant forall k :: k in hps ==> hps[k] == registry[k]
      decreases pending
    {
      var key :| key in pending;
      if key in HParamNames {
        hps := hps[key := registry[key]];
      }
      pending := pending - {key};
    }
  }

  /** The snapshot of a registry holds the mode, batch size and decoder step
      count the flags say. */
  lemma SnapshotCarriesCore(f: Flags)
    ensures "mode" in AllowListed(Registry(f)) && AllowListed(Registry(f))["mode"] == Str(f.mode)
    ensures "batch_size" in AllowListed(Registry(f)) && AllowListed(Registry(f))["batch_size"] == Int(f.batchSize)
    ensures "max_dec_steps" in AllowListed(Registry(f)) && AllowListed(Registry(f))["max_dec_steps"] == Int(f.maxDecSteps)
  {
    AllowListIncludesCore();
  }

  /** The flags after `main` rewrites them: the log root becomes the
      experiment directory, and decode mode runs with the beam as its batch. */
  function Rewritten(flags: Flags): Flags {
    flags.(logRoot := LogDir(flags),
           batchSize := if flags.mode == "decode" then flags.beamSize else flags.batchSize)
  }

  /** What `main` decides, as one expression. */
  ghost function MainSpec(argv: seq<string>, flags: Flags, dirs: set<string>): (r: Dispatched)
    // no directory is removed, and the experiment directory is the only one added
    ensures dirs <= r.dirs && r.dirs <= dirs + {LogDir(flags)}
  {
    if |argv| != 1 then Failed(BadArguments(argv), dirs)
    else if LogDir(flags) !in dirs && flags.mode != "train" then Failed(MissingLogDir(LogDir(flags)), dirs)
    else
      var d := dirs + {LogDir(flags)};
      var f := Rewritten(flags);
      if flags.singlePass && flags.mode != "decode" then Failed(SinglePassOutsideDecode, d)
      else if KnownMode(flags.mode) then Routed(RouteFor(f), f, d)
      else Failed(UnknownMode(flags.mode), d)
  }

  /** The job a known mode selects, with the snapshot of the rewritten flags. */
  ghost function RouteFor(f: Flags): Route
    requires KnownMode(f.mode)
  {
    var hps := AllowListed(Registry(f));
    if f.mode == "train" then Train(hps)
    else if f.mode == "eval" then Eval(hps, f.hier)
    else Decode(hps, hps["max_dec_steps" := Int(1)])
  }

  /** `main` up to the hand-off to a controller. */
  method Dispatch(argv: seq<string>, flags: Flags, dirs: set<string>) returns (r: Dispatched)
    ensures r == MainSpec(argv, flags, dirs)
  {
    if |argv| != 1 {
      return Failed(BadArguments(argv), dirs);
    }
    var f := flags.(logRoot := Join(flags.logRoot, flags.expName));
    var d := dirs;
    if f.logRoot !in d {
      if f.mode == "train" {
        d := d + {f.logRoot};
      } else {
        return Failed(MissingLogDir(f.logRoot), d);
      }
    }
    if f.mode == "decode" {
      f := f.(batchSize := f.beamSize);
    }
    if f.singlePass && f.mode != "decode" {
      return Failed(SinglePassOutsideDecode, d);
    }
    assert f == Rewritten(flags);
    assert d == dirs + {LogDir(flags)};
    var hps := Snapshot(Registry(f));
    SnapshotCarriesCore(f);
    var mode := hps["mode"];
    if mode == Str("train") {
      r := Routed(Train(hps), f, d);
      assert f.mode == "train" && r == Routed(RouteFor(f), f, d);
    } else if mode == Str("eval") {
      r := Routed(Eval(hps, f.hier), f, d);
      assert f.mode == "eval" && r == Routed(RouteFor(f), f, d);
    } else if mode == Str("decode") {
      r := Routed(Decode(hps, hps["max_dec_steps" := Int(1)]), f, d);
      assert f.mode == "decode" && r == Routed(RouteFor(f), f, d);
    } else {
      r := Failed(UnknownMode(f.mode), d);
      assert !KnownMode(f.mode);
    }
  }

  // ---------------------------------------------------------------------------
  // Properties of `main`

  /** The configuration errors, in the order they are checked; the log
      directory created in train mode stays created after a later error. */
  lemma DispatchErrors(argv: seq<string>, flags: Flags, dirs: set<string>)
    ensures |argv| != 1 ==> MainSpec(argv, flags, dirs) == Failed(BadArguments(argv), dirs)
    ensures |argv| == 1 && LogDir(flags) !in dirs && flags.mode != "train" ==>
      MainSpec(argv, flags, dirs) == Failed(MissingLogDir(LogDir(flags)), dirs)
    ensures (|argv| == 1 && (LogDir(flags) in dirs || flags.mode == "train") &&
             flags.singlePass && flags.mode != "decode") ==>
      MainSpec(argv, flags, dirs) == Failed(SinglePassOutsideDecode, dirs + {LogDir(flags)})
    ensures (|argv| == 1 && (LogDir(flags) in dirs || flags.mode == "train") &&
             !flags.singlePass && !KnownMode(flags.mode)) ==>
      MainSpec(argv, flags, dirs) == Failed(UnknownMode(flags.mode), dirs + {LogDir(flags)})
  {
  }

  /** A route is taken exactly when every check passes, and then the log
      directory exists and the mode picks the controller. */
  lemma DispatchRoutes(argv: seq<string>, flags: Flags, dirs: set<string>)
    ensures MainSpec(argv, flags, dirs).Routed? <==>
      |argv| == 1 && (LogDir(flags) in dirs || flags.mode == "train") &&
      !(flags.singlePass && flags.mode != "decode") && KnownMode(flags.mode)
    ensures var r := MainSpec(argv, flags, dirs);
      r.Routed? ==>
        && LogDir(flags) in r.dirs && r.dirs - {LogDir(flags)} <= dirs
        && r.flags.logRoot == LogDir(flags)
        && (r.route.Train? <==> flags.mode == "train")
        && (r.route.Eval? <==> flags.mode == "eval")
        && (r.route.Decode? <==> flags.mode == "decode")
        && (r.route.Eval? ==> r.route.hier == flags.hier)
  {
  }

  /** The snapshot holds exactly the allow-listed flags, as rewritten; in
      decode mode its batch size is the beam size. */
  lemma SnapshotIsAllowListed(argv: seq<string>, flags: Flags, dirs: set<string>)
    ensures var r := MainSpec(argv, flags, dirs);
      r.Routed? ==>
        && (forall k :: k in r.route.hps <==> k in Registry(r.flags) && k in HParamNames)
        && (forall k :: k in r.route.hps ==> r.route.hps[k] == Registry(r.flags)[k])
        && "mode" in r.route.hps && r.route.hps["mode"] == Str(flags.mode)
        && "batch_size" in r.route.hps
        && r.route.hps["batch_size"] == Int(if flags.mode == "decode" then flags.beamSize else flags.batchSize)
  {
    var r := MainSpec(argv, flags, dirs);
    if r.Routed? {
      var f := Rewritten(flags);
      assert r.flags == f && r.route.hps == AllowListed(Registry(f));
      SnapshotCarriesCore(f);
    }
  }

  /** In decode mode the decoder model's copy differs from the snapshot only
      in running one decoder step; the snapshot itself keeps the flag's value. */
  lemma DecodeCopiesWithOneStep(argv: seq<string>, flags: Flags, dirs: set<string>)
    ensures var r := MainSpec(argv, flags, dirs);
      r.Routed? && flags.mode == "decode" ==>
        && r.route.Decode?
        && r.route.modelHps.Keys == r.route.hps.Keys
        && r.route.modelHps["max_dec_steps"] == Int(1)
        && r.route.hps["max_dec_steps"] == Int(flags.maxDecSteps)
        && (forall k :: k in r.route.hps && k != "max_dec_steps" ==> r.route.modelHps[k] == r.route.hps[k])
  {
    var r := MainSpec(argv, flags, dirs);
    if r.Routed? && flags.mode == "decode" {
      var f := Rewritten(flags);
      var hps := AllowListed(Registry(f));
      assert r.route == RouteFor(f) == Decode(hps, hps["max_dec_steps" := Int(1)]);
      SnapshotCarriesCore(f);
    }
  }
}
