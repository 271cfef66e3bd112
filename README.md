# Model-file resolution and result selection of the BPA/UPA prediction CLI

The program is a command-line predictor. It takes a CSV file and an optional
`--model` override. It finds a pickled classifier, predicts on the table's
complete rows, and writes a one-line JSON envelope. A success envelope carries
the label of the first prediction (`0` is `"BPA"`, `1` is `"UPA"`) and the exit
status is 0. Any failure gives a failure envelope and exit status 2.

This project models two parts of that program:

- **The path resolver** (`wrappers.dfy`, `resolver.dfy`, module `ModelPath`):
  - `candidate_dirs` builds the ordered search roots: the script's directory, then
    the `argv[0]` directory, then the frozen bundle's directory at the front, then
    the working directory. A root already in the list is never added again.
  - `find_model_file` does the first-match search over root × file name, in
    directory-major order.
  - `prepare_model_path` returns the chosen path and its log of attempted paths.
    It tries the override as given, then the override under each root, then the
    default names. When nothing exists it falls back to the literal first default
    name, and the log lists every attempt.
- **The decision logic of `main`** (`runner.dfy`, module `Runner`): the order of
  the checks, which failure each gives, the label table, and the exit status.

The filesystem is abstract:

- `Path` is an opaque type that is compared only for equality.
- `Env.existing` is the set of paths whose `exists()` is true.
- `Env.pathOf` is the `Path(...)` constructor.
- `Env.join` is `joinpath`.

`Env` is fixed for one run. It holds the resolved script and `argv[0]`
directories (`None` when resolving them raised), the bundle directory string
and the working directory.

Each source function is written in the form it has there:

- Each loop of the source is a method with loop invariants. Each method is
  proved equal to a specification function:
  - `CandidateDirs` equals `Dirs`;
  - `SearchRoots` and `FindModelFile` equal `First(Combos(..))`;
  - `TryRoots`, `LogRoots`, `OverrideSearch`, `DefaultSearch`, `PrepareFrom`
    and `PrepareModelPath` equal `ScanFor`, `Combos`, `DefaultStage` and
    `Resolve`.
- The lemmas state the properties of those functions.
- The tail of `main` is the pure function `Runner.Run`, returning an `Envelope`.
  The straight-line method `Runner.Execute` follows `main` step by step and is
  proved to produce `Run`'s envelope and exit status.

Two behaviours of the code are worth stating outright:

- **Load errors.** Any exception from `load_model_from_path`, including the
  not-found one, is re-raised with the attempted paths (model/run.py:110-115).
  So `ModelLoadFailed` always carries `tried`. Its cause is `Missing(path)` for a
  missing file, and `Unpickling(message)` with the raised exception's message
  when `pickle.load` fails.
- **Override attempts when the default is found.** When the override is never
  found but a default model is, the log is just `[found]`: the override attempts
  are dropped (model/run.py:67-68). `DefaultFound` states this.

## Model

| member | source | states |
|---|---|---|
| ModelPath.CandidateDirs | model/run.py:12-39 | The method builds its list step by step: script directory, then `argv[0]` directory unless it is already present, then the bundle directory at the front unless already present, then cwd unless already present. The result equals `Dirs(env)`. |
| ModelPath.DirsWellFormed | model/run.py:12-39 | The roots have no duplicates and always contain the working directory. A path is a root exactly when it is one of the available sources (script, argv[0], a non-empty bundle string, cwd). |
| ModelPath.BundleAtFront | model/run.py:26-32 | A non-empty bundle directory that differs from the script and argv[0] directories is root 0. The remaining roots are the bundle-less list with the bundle removed. |
| ModelPath.BundleKeepsPosition | model/run.py:26-32 | A bundle directory equal to the script or argv[0] directory is not moved: the list is the same as with no bundle at all. |
| ModelPath.SearchRoots | model/run.py:44-49 | The nested loop returns the first existing root × name combination in directory-major order. It returns None exactly when no combination exists. A returned path is the earliest existing (i, j) combination: every pair before it, lexicographically, does not exist. |
| ModelPath.FindModelFile | model/run.py:42-49 | `find_model_file` over the candidate roots: the first existing combination, None exactly when none exists, and the earliest hit otherwise. |
| ModelPath.FirstComboFacts | model/run.py:44-49 | The first existing element of the directory-major combination list is None exactly when no combination exists. Otherwise it is the lexicographically earliest existing (directory, name) pair. |
| ModelPath.ScanFor | model/run.py:57-63 | Trying candidates in order and logging each one: the found value is the first existing candidate. The log is a prefix of the candidates that ends at the found one, or is all of them when none exists. Every logged attempt before the last did not exist. |
| ModelPath.TryRoots | model/run.py:59-63 | Starting with a log of misses, the loop over the roots appends each joined override and stops at the first that exists. The (found, log) pair equals `ScanFor` over the old log followed by the override joined to each root. |
| ModelPath.OverrideSearch | model/run.py:55-63 | The override as given, then joined to each root: the pair equals `ScanFor` over those attempts, so the first attempt is the raw override and the search stops at the first existing path. |
| ModelPath.LogRoots | model/run.py:70-73 | The closing loop appends every root × name combination, in directory-major order, after the existing log. |
| ModelPath.DefaultSearch | model/run.py:65-75 | The default stage: the first existing default combination, with a log of only that path. Otherwise, the literal first default name, with the full log. |
| ModelPath.PrepareFrom | model/run.py:52-75 | The body of `prepare_model_path` over given roots returns exactly `ResolveFrom(env, dirs, override)`. |
| ModelPath.PrepareModelPath | model/run.py:52-75 | `prepare_model_path` returns exactly `Resolve(env, override)`, the resolution over the candidate roots. |
| ModelPath.OverrideTrialsHit | model/run.py:55-63 | There are 1 + (number of roots) override attempts. Some attempt exists exactly when the raw override exists or the override joined to some root exists. |
| ModelPath.OverrideFound | model/run.py:55-63 | A non-empty override that exists somewhere: the returned path exists and is the last entry of the log. The first entry is the raw override, and every earlier entry does not exist. The log has at most 1 + (number of roots) entries and is a prefix of the override attempts. |
| ModelPath.OverrideUnderCwd | model/run.py:55-58 | When paths built from strings are looked up against the working directory (`CwdRelative`), an override that exists under the working directory is returned as given, with a log of just that path. The loop over the roots never runs. |
| ModelPath.EmptyOverrideIsNone | model/run.py:54 | An empty-string override resolves exactly as no override. |
| ModelPath.DefaultFound | model/run.py:65-68 | With no override hit and some default combination existing: the log is `[path]`, the path exists, and it is the earliest existing default combination in directory-major order. |
| ModelPath.NothingFound | model/run.py:70-75 | With nothing existing: the path is `Path("model/RF_binary_v1.pickle")` and the log has (1 + roots, when an override was given) + 2 × roots entries. It begins with the override attempts, and entry pre + 2i + j is root i joined with default name j. |
| ModelPath.NothingFoundFrom | model/run.py:70-75 | The same fallback facts, over explicit roots. |
| ModelPath.FallbackShape | model/run.py:70-75 | With nothing found over explicit roots, the resolution is the literal first default name. Its log is the override attempts (when an override was given) followed by every root × default-name combination. |
| ModelPath.ResolveFindsExisting | model/run.py:52-75 | The resolved path exists whenever some override attempt or default combination exists. |
| ModelPath.BundlePrecedence | model/run.py:26-32 | With no override hit, a default model inside a bundle directory that was put at the front is selected ahead of every other root. The first default name wins over the second. |
| Runner.LoadModel | model/run.py:78-82 | A path that does not exist fails with `Missing(path)`. An existing path whose unpickling raises fails with `Unpickling` carrying that exception's message. Loading succeeds exactly when the path exists and unpickling does not raise. |
| Runner.Label | model/run.py:118-121 | With no predictions, taking the first fails (`NoPrediction`). A first code of 0 gives "BPA" and 1 gives "UPA". Any other code fails with `UnknownClass` carrying it. Success happens exactly when there is a first code and it is 0 or 1. |
| Runner.ExitCode | model/run.py:127-135 | The exit status is 0 exactly for a success envelope, and 2 for every failure envelope. |
| Runner.Run | model/run.py:85-135 | The envelope of a run: a missing CSV gives `CsvNotFound(Path(csv))`, a success carries "BPA" or "UPA", and a load failure carries the resolver's attempt log. |
| Runner.SuccessExactly | model/run.py:119-135 | A run succeeds exactly when the CSV exists, rows remain after `dropna`, the resolved model path exists and unpickles, predict returns at least one prediction, and the first is 0 or 1. Exit status is 0 exactly on success and 2 on every failure. The label is "BPA" for 0 and "UPA" for 1. |
| Runner.SuccessLabels | model/run.py:120-121 | A successful run's result is "BPA" or "UPA". |
| Runner.CsvCheckedFirst | model/run.py:97-99 | A missing CSV fails with `CsvNotFound` naming `Path(csv)`, whatever else holds. |
| Runner.EmptyTableBeforeModel | model/run.py:104-107 | A table with no rows left after `dropna` fails with `NoRows`, before and regardless of model loading. |
| Runner.UnknownClassFails | model/run.py:119-121 | A first prediction other than 0 and 1 fails the run with `UnknownClass` carrying that code. |
| Runner.LoadFailureReportsAttempts | model/run.py:109-115 | A model that is missing or fails to unpickle fails the run with `ModelLoadFailed` carrying the resolver's full attempt log. A missing model's cause names the resolved path. An existing model that fails to unpickle has cause `Unpickling` with the raised exception's message, which the message shows next to the attempted paths. |
| Runner.MissingModelReportsAllAttempts | model/run.py:101-115 | With no model under any root, the literal default path is missing too, because a relative path is looked up against the working directory (`CwdRelative`) and that directory is a root. So the run fails on the literal default path. The error lists every override attempt and then both default names under every root, so there are at least two entries, and the exit status is 2. |
| Runner.Execute | model/run.py:85-135 | `main`'s steps in order (CSV check, `prepare_model_path`, row check, load, predict, label) produce `Run`'s envelope, and the exit status matches it. |

## Left out

- **Path values.** `Path` normalisation, `.resolve()` and `.parent` are not
  modelled. `joinpath` and the `Path(...)` constructor are abstract functions.
  `Path(s)` and the working directory joined with `s` stay distinct values. Only
  the predicate `CwdRelative` relates them: it says the two name the same file,
  because a relative name is looked up against the working directory and an
  absolute name joins to itself. Lemmas that state behaviour a real process shows
  only because of that fact (`OverrideUnderCwd`, `MissingModelReportsAllAttempts`)
  require `CwdRelative`. The other lemmas hold without it. Logging `str(p)` is
  modelled as logging the path itself.
- **Exceptions in `candidate_dirs`.** When resolving the script or `argv[0]`
  directory raises, that source is absent. The `Env` fields are `None` in that
  case, and their values are fixed inputs. `Path.cwd()` is called outside any
  `try` (model/run.py:35) and raises when the working directory has been
  removed. The model assumes the working directory exists, so `Env.cwd` is
  always present.
- **`Path.exists()`.** It is membership in a fixed set, so the filesystem does
  not change during a run. The source calls `candidate_dirs` again in each stage
  of `prepare_model_path`. `PrepareModelPath` computes the roots once and passes
  them on. With a fixed environment every call gives the same list.
- **`pandas.read_csv` and `dropna`.** They are reduced to their outcome: the
  number of complete rows, or the message of the exception they raised.
- **Unpickling and `model.predict`.** They are abstract outcomes (`Attempt`).
  Predictions are integers. NumPy scalar types, and non-integer labels that
  compare equal to 0 or 1, are not modelled.
- **`argparse`.** Parsing and its own exit on bad arguments happen before the
  modelled logic. The model takes the CSV argument and the optional override
  as inputs.
- **Output plumbing.** JSON serialisation, `traceback.format_exc`, and
  stdout/stderr writes and flushes are left out. Failures are the structured
  `Failure` datatype instead of the message text.
