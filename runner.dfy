/**
 * The decision logic of the command-line entry point: check the CSV, resolve
 * the model path, read the table, load the model, predict, map the first class
 * code to a label, and report a success or failure envelope with its exit code.
 */
module Runner {
  import opened Wrappers
  import opened ModelPath

  /** Why loading the model failed. */
  datatype LoadError =
    | Missing(path: Path)        // the resolved path does not exist
    | Unpickling(reason: string) // opening or unpickling the file raised

  /** The exception that the entry point turns into its failure envelope. */
  datatype Failure =
    | CsvNotFound(csv: Path)                           // the input CSV does not exist
    | CsvUnreadable(reason: string)                    // reading the CSV raised
    | NoRows                                           // no rows are left after dropping incomplete ones
    | ModelLoadFailed(tried: seq<Path>, cause: LoadError) // carries every attempted model path
    | PredictRaised(reason: string)                    // the model's predict raised
    | NoPrediction                                     // predict returned no predictions, so taking the first raised
    | UnknownClass(code: int)                          // the first prediction has no label

  /** What the entry point writes: a result label on stdout, or an error on stderr. */
  datatype Envelope = Succeeded(results: string) | Failed(error: Failure)

  /**
   * What the external calls give back for one run: the number of rows left
   * once the CSV is read and incomplete rows are dropped, whether opening and
   * unpickling an existing model file succeeds, and the model's predictions.
   */
  datatype Collaborators = Collaborators(rows: Attempt<nat>, unpickle: Attempt<()>, predict: Attempt<seq<int>>)

  /** The class codes the classifier emits and their labels. */
  const Labels: map<int, string> := map[0 := "BPA", 1 := "UPA"]

  /** The process exit status for an envelope. */
  function ExitCode(e: Envelope): (code: int)
    ensures code == 0 <==> e.Succeeded?
    ensures e.Failed? ==> code == 2
  {
    if e.Succeeded? then 0 else 2
  }

  /** `load_model_from_path`: a path that does not exist raises before anything is opened. */
  function LoadModel(env: Env, p: Path, unpickle: Attempt<()>): (failure: Option<LoadError>)
    ensures p !in env.existing ==> failure == Some(Missing(p))
    ensures failure.None? <==> p in env.existing && unpickle.Done?
    ensures p in env.existing && unpickle.Raised? ==> failure == Some(Unpickling(unpickle.message))
  {
    if p !in env.existing then Some(Missing(p))
    else if unpickle.Raised? then Some(Unpickling(unpickle.message))
    else None
  }

  /**
   * The label for the first prediction, or the reason there is none: taking the
   * first of no predictions raises, and a code outside the table has no label.
   */
  function Label(preds: seq<int>): (e: Envelope)
    ensures e.Succeeded? <==> |preds| > 0 && preds[0] in {0, 1}
    ensures |preds| == 0 ==> e == Failed(NoPrediction)
    ensures |preds| > 0 && preds[0] == 0 ==> e == Succeeded("BPA")
    ensures |preds| > 0 && preds[0] == 1 ==> e == Succeeded("UPA")
    ensures |preds| > 0 && preds[0] !in {0, 1} ==> e == Failed(UnknownClass(preds[0]))
  {
    if |preds| == 0 then Failed(NoPrediction)
    else if preds[0] in Labels then Succeeded(Labels[preds[0]])
    else Failed(UnknownClass(preds[0]))
  }

  /** The envelope the entry point produces for CSV argument `csv` and model option `model`. */
  function Run(env: Env, csv: string, model: Option<string>, io: Collaborators): (e: Envelope)
    ensures env.pathOf(csv) !in env.existing ==> e == Failed(CsvNotFound(env.pathOf(csv)))
    ensures e.Succeeded? ==> e.results in {"BPA", "UPA"}
    ensures e.Failed? && e.error.ModelLoadFailed? ==> e.error.tried == Resolve(env, model).tried
  {
    var csvPath := env.pathOf(csv);
    if csvPath !in env.existing then Failed(CsvNotFound(csvPath))
    else
      var resolved := Resolve(env, model);
      match io.rows
      case Raised(reason) => Failed(CsvUnreadable(reason))
      case Done(n) =>
        if n == 0 then Failed(NoRows)
        else match LoadModel(env, resolved.path, io.unpickle)
          case Some(cause) => Failed(ModelLoadFailed(resolved.tried, cause))
          case None =>
            match io.predict
            case Raised(reason) => Failed(PredictRaised(reason))
            case Done(preds) => Label(preds)
  }

  /** Every condition a successful run needs. */
  predicate AllGood(env: Env, csv: string, model: Option<string>, io: Collaborators)
  {
    && env.pathOf(csv) in env.existing
    && io.rows.Done? && io.rows.value > 0
    && Resolve(env, model).path in env.existing
    && io.unpickle.Done?
    && io.predict.Done? && |io.predict.value| > 0
    && io.predict.value[0] in {0, 1}
  }

  /**
   * A run succeeds, with exit status 0, exactly when every step succeeds and the
   * first prediction is 0 or 1; 0 is reported as "BPA" and 1 as "UPA". Every other
   * run fails with exit status 2.
   */
  lemma SuccessExactly(env: Env, csv: string, model: Option<string>, io: Collaborators)
    ensures var e := Run(env, csv, model, io);
      && (e.Succeeded? <==> AllGood(env, csv, model, io))
      && (ExitCode(e) == 0 <==> e.Succeeded?)
      && (e.Failed? ==> ExitCode(e) == 2)
      && (e.Succeeded? ==> e.results == if io.predict.value[0] == 0 then "BPA" else "UPA")
  {
    var e := Run(env, csv, model, io);
    if AllGood(env, csv, model, io) {
      assert io.predict.value[0] in Labels;
    }
  }

  /** The label is one of the two class names whenever a run succeeds. */
  lemma SuccessLabels(env: Env, csv: string, model: Option<string>, io: Collaborators)
    requires Run(env, csv, model, io).Succeeded?
    ensures Run(env, csv, model, io).results in {"BPA", "UPA"}
  {
    SuccessExactly(env, csv, model, io);
  }

  /** A missing CSV is reported before anything else is looked at. */
  lemma CsvCheckedFirst(env: Env, csv: string, model: Option<string>, io: Collaborators)
    requires env.pathOf(csv) !in env.existing
    ensures Run(env, csv, model, io) == Failed(CsvNotFound(env.pathOf(csv)))
  {
  }

  /** An empty table is reported before the model is loaded, whether or not the model exists. */
  lemma EmptyTableBeforeModel(env: Env, csv: string, model: Option<string>, io: Collaborators)
    requires env.pathOf(csv) in env.existing && io.rows == Done(0)
    ensures Run(env, csv, model, io) == Failed(NoRows)
  {
  }

  /** A prediction code other than 0 and 1 fails the run and names the code. */
  lemma UnknownClassFails(env: Env, csv: string, model: Option<string>, io: Collaborators)
    requires env.pathOf(csv) in env.existing && io.rows.Done? && io.rows.value > 0
    requires Resolve(env, model).path in env.existing && io.unpickle.Done?
    requires io.predict.Done? && |io.predict.value| > 0 && io.predict.value[0] !in {0, 1}
    ensures Run(env, csv, model, io) == Failed(UnknownClass(io.predict.value[0]))
  {
  }

  /**
   * A model that cannot be loaded fails the run with the full log of attempted
   * paths, and with the cause: the missing path, or the exception unpickling raised.
   */
  lemma LoadFailureReportsAttempts(env: Env, csv: string, model: Option<string>, io: Collaborators)
    requires env.pathOf(csv) in env.existing && io.rows.Done? && io.rows.value > 0
    requires Resolve(env, model).path !in env.existing || io.unpickle.Raised?
    ensures var r := Resolve(env, model);
      && Run(env, csv, model, io).Failed?
      && Run(env, csv, model, io).error.ModelLoadFailed?
      && Run(env, csv, model, io).error.tried == r.tried
      && (r.path !in env.existing ==> Run(env, csv, model, io).error.cause == Missing(r.path))
      && (r.path in env.existing ==> Run(env, csv, model, io).error.cause == Unpickling(io.unpickle.message))
  {
  }

  /**
   * When no model exists under any root, the literal default path does not
   * exist either, since it is looked up against the working directory, which is
   * a root. The run fails on that path, and its error lists every override
   * attempt and then both default names under every root, so the list is never
   * empty.
   */
  lemma MissingModelReportsAllAttempts(env: Env, csv: string, model: Option<string>, io: Collaborators)
    requires env.pathOf(csv) in env.existing && io.rows.Done? && io.rows.value > 0
    requires !Truthy(model) || !OverrideHit(env, model.value)
    requires !DefaultHit(env)
    requires CwdRelative(env)
    ensures var e := Run(env, csv, model, io);
      var pre := if Truthy(model) then 1 + |Dirs(env)| else 0;
      && e == Failed(ModelLoadFailed(Resolve(env, model).tried, Missing(env.pathOf(DefaultNames[0]))))
      && |e.error.tried| == pre + 2 * |Dirs(env)|
      && |e.error.tried| >= 2
      && ExitCode(e) == 2
  {
    NothingFound(env, model);
    DirsWellFormed(env);
    assert env.join(env.cwd, DefaultNames[0]) !in env.existing by {
      assert DefaultNames[0] in DefaultNames;
    }
  }

  /**
   * `main`, step by step: check the CSV, resolve the model path, read the table,
   * load the model, predict and label, then report the envelope and exit status.
   */
  method Execute(env: Env, csv: string, model: Option<string>, io: Collaborators) returns (e: Envelope, exit: int)
    ensures e == Run(env, csv, model, io)
    ensures exit == ExitCode(e)
  {
    var csvPath := env.pathOf(csv);
    if csvPath !in env.existing {
      e := Failed(CsvNotFound(csvPath));
    } else {
      var modelPath, tried := PrepareModelPath(env, model);
      if io.rows.Raised? {
        e := Failed(CsvUnreadable(io.rows.message));
      } else if io.rows.value == 0 {
        e := Failed(NoRows);
      } else {
        var failure := LoadModel(env, modelPath, io.unpickle);
        if failure.Some? {
          e := Failed(ModelLoadFailed(tried, failure.value));
        } else if io.predict.Raised? {
          e := Failed(PredictRaised(io.predict.message));
        } else {
          e := Label(io.predict.value);
        }
      }
    }
    exit := ExitCode(e);
  }
}
