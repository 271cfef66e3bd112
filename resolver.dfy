/**
 * The model-file path resolver of model/run.py: the candidate search roots,
 * the first-match search over root x file name, and the override-then-default
 * resolution with its log of attempted paths.
 *
 * The filesystem is abstract: `Env.existing` is the set of paths for which
 * `exists()` answers true, and `Env.join` stands for `joinpath`.
 */
module ModelPath {
  import opened Wrappers

  /** A filesystem path (pathlib's `Path`), compared only by equality. */
  type Path(==)

  /** What the resolver reads from the process; fixed for the duration of one run. */
  datatype Env = Env(
    scriptDir: Option<Path>,    // parent of the resolved script file; None when resolving raised
    argv0Dir: Option<Path>,     // parent of the resolved argv[0]; None when argv is empty or resolving raised
    bundleDir: Option<string>,  // the frozen bundle's extraction directory; None when there is none
    cwd: Path,                  // the current working directory
    existing: set<Path>,        // the paths that exist
    pathOf: string -> Path,     // the Path constructor applied to a string
    join: (Path, string) -> Path)

  /** The default model file names, in the order they are tried. */
  const DefaultNames: seq<string> := ["model/RF_binary_v1.pickle", "RF_binary_v1.pickle"]

  /** Python truthiness of an optional string: absent and empty are both false. */
  predicate Truthy(s: Option<string>)
  {
    s.Some? && s.value != ""
  }

  /**
   * A path built from a string names the same file as that string joined to the
   * working directory: a relative name is looked up against the working
   * directory, and an absolute name joins to itself. A real process always has this.
   */
  ghost predicate CwdRelative(env: Env)
  {
    forall s :: env.pathOf(s) in env.existing <==> env.join(env.cwd, s) in env.existing
  }

  predicate NoDuplicates(s: seq<Path>)
  {
    forall i, j :: 0 <= i < j < |s| ==> s[i] != s[j]
  }

  // ---------------------------------------------------------------------------
  // candidate_dirs
  // ---------------------------------------------------------------------------

  /** Appends `x` unless it is already present. */
  function AppendNew(s: seq<Path>, x: Path): seq<Path>
  {
    if x in s then s else s + [x]
  }

  /** The script directory, then the argv[0] directory if it differs. */
  function BaseDirs(env: Env): seq<Path>
  {
    var scripts := if env.scriptDir.Some? then [env.scriptDir.value] else [];
    if env.argv0Dir.Some? then AppendNew(scripts, env.argv0Dir.value) else scripts
  }

  /** The bundle directory goes to the front, unless it is already in the list. */
  function WithBundle(env: Env, s: seq<Path>): seq<Path>
  {
    if Truthy(env.bundleDir) && env.pathOf(env.bundleDir.value) !in s then [env.pathOf(env.bundleDir.value)] + s else s
  }

  /** Every directory source that is available. */
  function Sources(env: Env): set<Path>
  {
    (if env.scriptDir.Some? then {env.scriptDir.value} else {})
    + (if env.argv0Dir.Some? then {env.argv0Dir.value} else {})
    + (if Truthy(env.bundleDir) then {env.pathOf(env.bundleDir.value)} else {})
    + {env.cwd}
  }

  /** The ordered search roots: what `candidate_dirs()` returns. */
  function Dirs(env: Env): seq<Path>
  {
    AppendNew(WithBundle(env, BaseDirs(env)), env.cwd)
  }

  /** The search roots never repeat, always include the working directory, and are exactly the available sources. */
  lemma DirsWellFormed(env: Env)
    ensures NoDuplicates(Dirs(env))
    ensures env.cwd in Dirs(env)
    ensures forall x :: x in Dirs(env) <==> x in Sources(env)
  {
  }

  /** A present bundle directory that no earlier source produced ends up first, ahead of the script's own directory. */
  lemma BundleAtFront(env: Env)
    requires Truthy(env.bundleDir)
    requires env.scriptDir != Some(env.pathOf(env.bundleDir.value)) && env.argv0Dir != Some(env.pathOf(env.bundleDir.value))
    ensures Dirs(env)[0] == env.pathOf(env.bundleDir.value)
    ensures Dirs(env)[1..] == Without(Dirs(env.(bundleDir := None)), env.pathOf(env.bundleDir.value))
  {
    var b := env.pathOf(env.bundleDir.value);
    var base := BaseDirs(env);
    assert base == BaseDirs(env.(bundleDir := None));
    assert b !in base;
    WithoutAbsent(base, b);
    if env.cwd == b {
      WithoutAppend(base, b, b);
    } else if env.cwd !in base {
      WithoutAppend(base, env.cwd, b);
      assert [b] + base + [env.cwd] == [b] + (base + [env.cwd]);
    }
  }

  /** A bundle directory equal to one already in the list is not moved: the list is as if there were no bundle. */
  lemma BundleKeepsPosition(env: Env)
    requires Truthy(env.bundleDir)
    requires env.scriptDir == Some(env.pathOf(env.bundleDir.value)) || env.argv0Dir == Some(env.pathOf(env.bundleDir.value))
    ensures Dirs(env) == Dirs(env.(bundleDir := None))
  {
  }

  /** `s` with every occurrence of `x` removed. */
  function Without(s: seq<Path>, x: Path): seq<Path>
  {
    if s == [] then [] else (if s[0] == x then [] else [s[0]]) + Without(s[1..], x)
  }

  lemma {:induction false} WithoutAbsent(s: seq<Path>, x: Path)
    requires x !in s
    ensures Without(s, x) == s
  {
    if s != [] {
      WithoutAbsent(s[1..], x);
    }
  }

  lemma {:induction false} WithoutAppend(s: seq<Path>, y: Path, x: Path)
    ensures Without(s + [y], x) == Without(s, x) + Without([y], x)
  {
    if s == [] {
      assert s + [y] == [y];
    } else {
      assert (s + [y])[1..] == s[1..] + [y];
      WithoutAppend(s[1..], y, x);
    }
  }

  /** `candidate_dirs`: the list is built step by step, exactly as `Dirs` describes it. */
  method CandidateDirs(env: Env) returns (dirs: seq<Path>)
    ensures dirs == Dirs(env)
  {
    dirs := [];
    if env.scriptDir.Some? {
      dirs := dirs + [env.scriptDir.value];
    }
    if env.argv0Dir.Some? && env.argv0Dir.value !in dirs {
      dirs := dirs + [env.argv0Dir.value];
    }
    if Truthy(env.bundleDir) && env.pathOf(env.bundleDir.value) !in dirs {
      dirs := [env.pathOf(env.bundleDir.value)] + dirs;
    }
    if env.cwd !in dirs {
      dirs := dirs + [env.cwd];
    }
  }

  // ---------------------------------------------------------------------------
  // find_model_file
  // ---------------------------------------------------------------------------

  /** `d` joined with each name, in name order. */
  function Row<P, N>(d: P, names: seq<N>, join: (P, N) -> P): seq<P>
  {
    seq(|names|, j requires 0 <= j < |names| => join(d, names[j]))
  }

  /** Every directory x name combination, directory-major and name-minor. */
  function Combos<P, N>(dirs: seq<P>, names: seq<N>, join: (P, N) -> P): seq<P>
    decreases |dirs|
  {
    if dirs == [] then []
    else Combos(dirs[..|dirs| - 1], names, join) + Row(dirs[|dirs| - 1], names, join)
  }

  /** The index of the first element of `s` that is in `present`, or `|s|` when there is none. */
  function FirstIndex<P>(s: seq<P>, present: set<P>): (k: nat)
    ensures k <= |s|
    ensures forall i :: 0 <= i < k ==> s[i] !in present
    ensures k < |s| ==> s[k] in present
  {
    if s == [] then 0
    else if s[0] in present then 0
    else 1 + FirstIndex(s[1..], present)
  }

  /** An index with no earlier element in `present` and its own element in it is the first index. */
  lemma FirstIndexAt<P>(s: seq<P>, present: set<P>, k: nat)
    requires k < |s| && s[k] in present
    requires forall m :: 0 <= m < k ==> s[m] !in present
    ensures FirstIndex(s, present) == k
  {
  }

  /** The first element of `s` that is in `present`. */
  function First<P>(s: seq<P>, present: set<P>): (r: Option<P>)
    ensures r.None? <==> forall x :: x in s ==> x !in present
    ensures r.Some? ==> r.value in s && r.value in present
  {
    var k := FirstIndex(s, present);
    if k < |s| then Some(s[k]) else None
  }

  /** Combination (i, j) exists and no combination before it in directory-major order does. */
  predicate EarliestHit<P, N>(dirs: seq<P>, names: seq<N>, join: (P, N) -> P, present: set<P>, i: int, j: int)
  {
    0 <= i < |dirs| && 0 <= j < |names| && join(dirs[i], names[j]) in present &&
    forall i', j' :: 0 <= i' < |dirs| && 0 <= j' < |names| && (i' < i || (i' == i && j' < j)) ==>
      join(dirs[i'], names[j']) !in present
  }

  /** No directory x name combination exists. */
  predicate NoHit<P, N>(dirs: seq<P>, names: seq<N>, join: (P, N) -> P, present: set<P>)
  {
    forall i, j :: 0 <= i < |dirs| && 0 <= j < |names| ==> join(dirs[i], names[j]) !in present
  }

  lemma {:induction false} CombosAppend<P, N>(a: seq<P>, b: seq<P>, names: seq<N>, join: (P, N) -> P)
    ensures Combos(a + b, names, join) == Combos(a, names, join) + Combos(b, names, join)
    decreases |b|
  {
    if b == [] {
      assert a + b == a;
    } else {
      var b' := b[..|b| - 1];
      assert (a + b)[..|a + b| - 1] == a + b';
      assert (a + b)[|a + b| - 1] == b[|b| - 1];
      CombosAppend(a, b', names, join);
    }
  }

  /** The combinations of `dirs` split around directory `i`. */
  lemma CombosSplit<P, N>(dirs: seq<P>, i: nat, names: seq<N>, join: (P, N) -> P)
    requires i < |dirs|
    ensures Combos(dirs, names, join)
         == Combos(dirs[..i], names, join) + Row(dirs[i], names, join) + Combos(dirs[i + 1..], names, join)
  {
    assert dirs == dirs[..i + 1] + dirs[i + 1..];
    CombosAppend(dirs[..i + 1], dirs[i + 1..], names, join);
    assert dirs[..i + 1][..i] == dirs[..i];
  }

  /** Every directory x name combination occurs in `Combos`. */
  lemma {:induction false} CombosHas<P, N>(dirs: seq<P>, names: seq<N>, join: (P, N) -> P, i: int, j: int)
    requires 0 <= i < |dirs| && 0 <= j < |names|
    ensures join(dirs[i], names[j]) in Combos(dirs, names, join)
    decreases |dirs|
  {
    var init := dirs[..|dirs| - 1];
    var row := Row(dirs[|dirs| - 1], names, join);
    assert Combos(dirs, names, join) == Combos(init, names, join) + row;
    if i < |dirs| - 1 {
      assert init[i] == dirs[i];
      CombosHas(init, names, join, i, j);
    } else {
      assert row[j] == join(dirs[i], names[j]);
    }
  }

  /** Only directory x name combinations occur in `Combos`. */
  lemma {:induction false} CombosFrom<P, N>(dirs: seq<P>, names: seq<N>, join: (P, N) -> P, p: P)
    requires p in Combos(dirs, names, join)
    ensures exists i, j :: 0 <= i < |dirs| && 0 <= j < |names| && p == join(dirs[i], names[j])
    decreases |dirs|
  {
    var init := dirs[..|dirs| - 1];
    var row := Row(dirs[|dirs| - 1], names, join);
    assert Combos(dirs, names, join) == Combos(init, names, join) + row;
    if p in Combos(init, names, join) {
      CombosFrom(init, names, join, p);
      var i, j :| 0 <= i < |init| && 0 <= j < |names| && p == join(init[i], names[j]);
      assert init[i] == dirs[i];
    } else {
      var j :| 0 <= j < |names| && row[j] == p;
      assert p == join(dirs[|dirs| - 1], names[j]);
    }
  }

  /** The first existing combination is absent exactly when no combination exists. */
  lemma FirstComboNone<P, N>(dirs: seq<P>, names: seq<N>, join: (P, N) -> P, present: set<P>)
    ensures First(Combos(dirs, names, join), present).None? <==> NoHit(dirs, names, join, present)
  {
    var s := Combos(dirs, names, join);
    if First(s, present).None? {
      forall i, j | 0 <= i < |dirs| && 0 <= j < |names|
        ensures join(dirs[i], names[j]) !in present
      {
        CombosHas(dirs, names, join, i, j);
      }
    } else {
      var p := First(s, present).value;
      CombosFrom(dirs, names, join, p);
    }
  }

  /** The first existing combination is the earliest one in directory-major order. */
  lemma {:induction false} FirstComboIsEarliest<P, N>(dirs: seq<P>, names: seq<N>, join: (P, N) -> P, present: set<P>)
    requires First(Combos(dirs, names, join), present).Some?
    ensures exists i, j :: (EarliestHit(dirs, names, join, present, i, j)
      && First(Combos(dirs, names, join), present).value == join(dirs[i], names[j]))
    decreases |dirs|
  {
    var s := Combos(dirs, names, join);
    var n := |dirs|;
    var init := dirs[..n - 1];
    var a := Combos(init, names, join);
    var row := Row(dirs[n - 1], names, join);
    assert s == a + row;
    var k := FirstIndex(s, present);
    var p := s[k];
    if k < |a| {
      assert FirstIndex(a, present) == k by {
        assert forall m :: 0 <= m <= k ==> a[m] == s[m];
      }
      FirstComboIsEarliest(init, names, join, present);
      var i, j :| EarliestHit(init, names, join, present, i, j) && p == join(init[i], names[j]);
      assert init[i] == dirs[i];
      forall i', j' | 0 <= i' < n && 0 <= j' < |names| && (i' < i || (i' == i && j' < j))
        ensures join(dirs[i'], names[j']) !in present
      {
        assert init[i'] == dirs[i'];
      }
      assert EarliestHit(dirs, names, join, present, i, j);
    } else {
      var j := k - |a|;
      assert p == row[j] == join(dirs[n - 1], names[j]);
      assert forall m :: 0 <= m < |a| ==> a[m] == s[m];
      forall i', j' | 0 <= i' < n && 0 <= j' < |names| && (i' < n - 1 || (i' == n - 1 && j' < j))
        ensures join(dirs[i'], names[j']) !in present
      {
        if i' < n - 1 {
          assert init[i'] == dirs[i'];
          CombosHas(init, names, join, i', j');
        } else {
          assert s[|a| + j'] == row[j'];
        }
      }
      assert EarliestHit(dirs, names, join, present, n - 1, j);
    }
  }

  /** Both characterisations of the first existing combination. */
  lemma FirstComboFacts<P, N>(dirs: seq<P>, names: seq<N>, join: (P, N) -> P, present: set<P>)
    ensures First(Combos(dirs, names, join), present).None? <==> NoHit(dirs, names, join, present)
    ensures First(Combos(dirs, names, join), present).Some? ==>
      exists i, j :: (EarliestHit(dirs, names, join, present, i, j)
        && First(Combos(dirs, names, join), present).value == join(dirs[i], names[j]))
  {
    FirstComboNone(dirs, names, join, present);
    if First(Combos(dirs, names, join), present).Some? {
      FirstComboIsEarliest(dirs, names, join, present);
    }
  }

  /** A scan that has missed everything before combination (i, j) and hits there has found the first existing combination. */
  lemma ScanHit<P, N>(dirs: seq<P>, names: seq<N>, join: (P, N) -> P, present: set<P>, i: nat, j: nat, scanned: seq<P>)
    requires i < |dirs| && j < |names|
    requires scanned == Combos(dirs[..i], names, join) + Row(dirs[i], names, join)[..j]
    requires forall k :: 0 <= k < |scanned| ==> scanned[k] !in present
    requires join(dirs[i], names[j]) in present
    ensures First(Combos(dirs, names, join), present) == Some(join(dirs[i], names[j]))
  {
    CombosSplit(dirs, i, names, join);
    var s := Combos(dirs, names, join);
    assert s[|scanned|] == join(dirs[i], names[j]);
    assert forall k :: 0 <= k < |scanned| ==> s[k] == scanned[k];
    assert FirstIndex(s, present) == |scanned|;
  }

  /** With exactly two names, combination (i, j) sits at index 2 * i + j. */
  lemma {:induction false} CombosOfTwo<P, N>(dirs: seq<P>, names: seq<N>, join: (P, N) -> P)
    requires |names| == 2
    ensures |Combos(dirs, names, join)| == 2 * |dirs|
    ensures forall i, j :: 0 <= i < |dirs| && 0 <= j < 2 ==> Combos(dirs, names, join)[2 * i + j] == join(dirs[i], names[j])
    decreases |dirs|
  {
    if dirs != [] {
      var init := dirs[..|dirs| - 1];
      CombosOfTwo(init, names, join);
      forall i, j | 0 <= i < |dirs| && 0 <= j < 2
        ensures Combos(dirs, names, join)[2 * i + j] == join(dirs[i], names[j])
      {
        if i < |dirs| - 1 {
          assert init[i] == dirs[i];
        }
      }
    }
  }

  /** With one name, combination i sits at index i. */
  lemma {:induction false} CombosOfOne<P, N>(dirs: seq<P>, name: N, join: (P, N) -> P)
    ensures |Combos(dirs, [name], join)| == |dirs|
    ensures forall i :: 0 <= i < |dirs| ==> Combos(dirs, [name], join)[i] == join(dirs[i], name)
    decreases |dirs|
  {
    if dirs != [] {
      var init := dirs[..|dirs| - 1];
      CombosOfOne(init, name, join);
      forall i | 0 <= i < |dirs|
        ensures Combos(dirs, [name], join)[i] == join(dirs[i], name)
      {
        if i < |dirs| - 1 {
          assert init[i] == dirs[i];
        }
      }
    }
  }

  /** The outcome of a first-match scan: what was found, and the log of attempts up to and including it. */
  datatype Scan<P> = Scan(found: Option<P>, log: seq<P>)

  /** Trying each element of `s` in order until one is in `present`, logging each attempt. */
  function ScanFor<P>(s: seq<P>, present: set<P>): (r: Scan<P>)
    ensures r.found == First(s, present)
    ensures r.log <= s
    ensures r.found.Some? ==> |r.log| > 0 && r.log[|r.log| - 1] == r.found.value
    ensures r.found.None? ==> r.log == s
    ensures forall m :: 0 <= m < |r.log| - 1 ==> r.log[m] !in present
  {
    var k := FirstIndex(s, present);
    if k < |s| then Scan(Some(s[k]), s[..k + 1]) else Scan(None, s)
  }

  /** A log that is a prefix of `s`, misses until its last entry and hits there is the scan of `s`. */
  lemma ScanStops<P>(s: seq<P>, log: seq<P>, present: set<P>)
    requires log <= s && |log| > 0 && log[|log| - 1] in present
    requires forall m :: 0 <= m < |log| - 1 ==> log[m] !in present
    ensures ScanFor(s, present) == Scan(Some(log[|log| - 1]), log)
  {
    FirstIndexAt(s, present, |log| - 1);
    assert s[..|log|] == log;
  }

  // ---------------------------------------------------------------------------
  // The loops of find_model_file and prepare_model_path, over explicit roots
  // ---------------------------------------------------------------------------

  /** The nested loop of `find_model_file`: roots in order, names in order within each root, stopping at the first that exists. */
  method SearchRoots(dirs: seq<Path>, names: seq<string>, join: (Path, string) -> Path, present: set<Path>) returns (r: Option<Path>)
    ensures r == First(Combos(dirs, names, join), present)
    ensures r.None? <==> NoHit(dirs, names, join, present)
    ensures r.Some? ==> exists i, j :: (EarliestHit(dirs, names, join, present, i, j) && r.value == join(dirs[i], names[j]))
  {
    ghost var scanned: seq<Path> := [];
    var i := 0;
    while i < |dirs|
      invariant 0 <= i <= |dirs|
      invariant scanned == Combos(dirs[..i], names, join)
      invariant forall k :: 0 <= k < |scanned| ==> scanned[k] !in present
    {
      var d := dirs[i];
      var j := 0;
      while j < |names|
        invariant 0 <= j <= |names|
        invariant scanned == Combos(dirs[..i], names, join) + Row(d, names, join)[..j]
        invariant forall k :: 0 <= k < |scanned| ==> scanned[k] !in present
      {
        var p := join(d, names[j]);
        if p in present {
          ScanHit(dirs, names, join, present, i, j, scanned);
          r := Some(p);
          FirstComboFacts(dirs, names, join, present);
          return;
        }
        scanned := scanned + [p];
        j := j + 1;
      }
      assert Row(d, names, join)[..j] == Row(d, names, join);
      assert dirs[..i + 1][..i] == dirs[..i];
      i := i + 1;
    }
    assert dirs[..i] == dirs;
    r := None;
    FirstComboFacts(dirs, names, join, present);
  }

  /**
   * The loop over the roots in the override branch of `prepare_model_path`:
   * the override joined to each root in turn, each attempt appended to the log,
   * stopping at the first that exists.
   */
  method TryRoots(dirs: seq<Path>, o: string, join: (Path, string) -> Path, present: set<Path>, tried: seq<Path>)
    returns (found: Option<Path>, log: seq<Path>)
    requires forall k :: 0 <= k < |tried| ==> tried[k] !in present
    ensures Scan(found, log) == ScanFor(tried + Combos(dirs, [o], join), present)
  {
    ghost var s := tried + Combos(dirs, [o], join);
    log := tried;
    var i := 0;
    while i < |dirs|
      invariant 0 <= i <= |dirs|
      invariant log == tried + Combos(dirs[..i], [o], join)
      invariant forall k :: 0 <= k < |log| ==> log[k] !in present
    {
      var candidate := join(dirs[i], o);
      assert dirs[..i + 1][..i] == dirs[..i];
      assert Row(dirs[i], [o], join) == [candidate];
      log := log + [candidate];
      if candidate in present {
        found := Some(candidate);
        assert dirs == dirs[..i + 1] + dirs[i + 1..];
        CombosAppend(dirs[..i + 1], dirs[i + 1..], [o], join);
        ScanStops(s, log, present);
        return;
      }
      i := i + 1;
    }
    assert dirs[..i] == dirs;
    found := None;
  }

  /** The closing loop of `prepare_model_path`: every root x name combination, directory-major, appended to the log. */
  method LogRoots(dirs: seq<Path>, names: seq<string>, join: (Path, string) -> Path, tried: seq<Path>) returns (log: seq<Path>)
    ensures log == tried + Combos(dirs, names, join)
  {
    log := tried;
    var i := 0;
    while i < |dirs|
      invariant 0 <= i <= |dirs|
      invariant log == tried + Combos(dirs[..i], names, join)
    {
      var j := 0;
      while j < |names|
        invariant 0 <= j <= |names|
        invariant log == tried + Combos(dirs[..i], names, join) + Row(dirs[i], names, join)[..j]
      {
        log := log + [join(dirs[i], names[j])];
        j := j + 1;
      }
      assert Row(dirs[i], names, join)[..j] == Row(dirs[i], names, join);
      assert dirs[..i + 1][..i] == dirs[..i];
      i := i + 1;
    }
    assert dirs[..i] == dirs;
  }

  // ---------------------------------------------------------------------------
  // find_model_file
  // ---------------------------------------------------------------------------

  /** `find_model_file`: the first existing root x name combination, directory-major, over the candidate roots. */
  method FindModelFile(env: Env, names: seq<string>) returns (r: Option<Path>)
    ensures r == First(Combos(Dirs(env), names, env.join), env.existing)
    ensures r.None? <==> NoHit(Dirs(env), names, env.join, env.existing)
    ensures r.Some? ==> exists i, j :: (EarliestHit(Dirs(env), names, env.join, env.existing, i, j)
                                       && r.value == env.join(Dirs(env)[i], names[j]))
  {
    var dirs := CandidateDirs(env);
    r := SearchRoots(dirs, names, env.join, env.existing);
  }

  // ---------------------------------------------------------------------------
  // prepare_model_path
  // ---------------------------------------------------------------------------

  /** The result of `prepare_model_path`: the chosen path and the log of attempted paths. */
  datatype Resolution = Resolution(path: Path, tried: seq<Path>)

  /** The override as given, then the override joined to each search root, in order. */
  function OverrideTrials(o: string, dirs: seq<Path>, pathOf: string -> Path, join: (Path, string) -> Path): seq<Path>
  {
    [pathOf(o)] + Combos(dirs, [o], join)
  }

  /** The default-name stage over roots `dirs`: the first existing default with a log of just that path, else the literal first default name after the full log. */
  function DefaultStage(env: Env, dirs: seq<Path>, tried: seq<Path>): Resolution
  {
    var combos := Combos(dirs, DefaultNames, env.join);
    match First(combos, env.existing)
    case Some(found) => Resolution(found, [found])
    case None => Resolution(env.pathOf(DefaultNames[0]), tried + combos)
  }

  /** What `prepare_model_path(override)` returns when the search roots are `dirs`. */
  function ResolveFrom(env: Env, dirs: seq<Path>, override: Option<string>): Resolution
  {
    if Truthy(override) then
      var attempt := ScanFor(OverrideTrials(override.value, dirs, env.pathOf, env.join), env.existing);
      if attempt.found.Some? then Resolution(attempt.found.value, attempt.log)
      else DefaultStage(env, dirs, attempt.log)
    else DefaultStage(env, dirs, [])
  }

  /** What `prepare_model_path(override)` returns: the resolution over the candidate roots. */
  function Resolve(env: Env, override: Option<string>): Resolution
  {
    ResolveFrom(env, Dirs(env), override)
  }

  /** Some override attempt exists. */
  predicate OverrideHit(env: Env, o: string)
  {
    env.pathOf(o) in env.existing || exists d :: d in Dirs(env) && env.join(d, o) in env.existing
  }

  /** Some default-name combination exists. */
  predicate DefaultHit(env: Env)
  {
    exists d, n :: d in Dirs(env) && n in DefaultNames && env.join(d, n) in env.existing
  }

  lemma OverrideTrialsHit(env: Env, o: string)
    ensures |OverrideTrials(o, Dirs(env), env.pathOf, env.join)| == 1 + |Dirs(env)|
    ensures OverrideHit(env, o) <==> First(OverrideTrials(o, Dirs(env), env.pathOf, env.join), env.existing).Some?
  {
    var dirs := Dirs(env);
    var trials := OverrideTrials(o, dirs, env.pathOf, env.join);
    CombosOfOne(dirs, o, env.join);
    if OverrideHit(env, o) && env.pathOf(o) !in env.existing {
      var d :| d in dirs && env.join(d, o) in env.existing;
      var i :| 0 <= i < |dirs| && dirs[i] == d;
      assert trials[i + 1] == env.join(d, o);
    }
    if First(trials, env.existing).Some? {
      var v := First(trials, env.existing).value;
      var k :| 0 <= k < |trials| && trials[k] == v;
      if k > 0 {
        assert trials[k] == env.join(dirs[k - 1], o);
        assert dirs[k - 1] in dirs;
      }
    }
  }

  lemma DefaultCombosHit(env: Env)
    ensures DefaultHit(env) <==> First(Combos(Dirs(env), DefaultNames, env.join), env.existing).Some?
  {
    var dirs := Dirs(env);
    FirstComboNone(dirs, DefaultNames, env.join, env.existing);
    if DefaultHit(env) {
      var d, n :| d in dirs && n in DefaultNames && env.join(d, n) in env.existing;
      var i :| 0 <= i < |dirs| && dirs[i] == d;
      var j :| 0 <= j < |DefaultNames| && DefaultNames[j] == n;
      assert env.join(dirs[i], DefaultNames[j]) in env.existing;
    }
    if !DefaultHit(env) {
      forall i, j | 0 <= i < |dirs| && 0 <= j < |DefaultNames|
        ensures env.join(dirs[i], DefaultNames[j]) !in env.existing
      {
        assert dirs[i] in dirs && DefaultNames[j] in DefaultNames;
      }
    }
  }

  /**
   * An override that is found returns early: the path exists and is the last
   * log entry, the first log entry is the override as given, every earlier
   * entry did not exist, and the log is a prefix of the override attempts.
   */
  lemma OverrideFound(env: Env, o: string)
    requires o != "" && OverrideHit(env, o)
    ensures var r := Resolve(env, Some(o));
      && r.path in env.existing
      && 1 <= |r.tried| <= 1 + |Dirs(env)|
      && r.tried[|r.tried| - 1] == r.path
      && r.tried[0] == env.pathOf(o)
      && (forall k :: 0 <= k < |r.tried| - 1 ==> r.tried[k] !in env.existing)
      && r.tried <= OverrideTrials(o, Dirs(env), env.pathOf, env.join)
  {
    OverrideTrialsHit(env, o);
  }

  /**
   * An override that exists under the working directory is found as given: the
   * first attempt already hits, so the log is just the override itself and the
   * loop over the roots never runs.
   */
  lemma OverrideUnderCwd(env: Env, o: string)
    requires CwdRelative(env)
    requires o != "" && env.join(env.cwd, o) in env.existing
    ensures Resolve(env, Some(o)) == Resolution(env.pathOf(o), [env.pathOf(o)])
  {
    assert env.pathOf(o) in env.existing;
    ScanStops(OverrideTrials(o, Dirs(env), env.pathOf, env.join), [env.pathOf(o)], env.existing);
  }

  /** An empty override is no override at all. */
  lemma EmptyOverrideIsNone(env: Env)
    ensures Resolve(env, Some("")) == Resolve(env, None)
  {
  }

  /**
   * When no override attempt succeeds but a default model exists, the first
   * existing default in directory-major order is returned and the log is just
   * that path: the override attempts are discarded.
   */
  lemma DefaultFound(env: Env, override: Option<string>)
    requires !Truthy(override) || !OverrideHit(env, override.value)
    requires DefaultHit(env)
    ensures var r := Resolve(env, override);
      && r.tried == [r.path]
      && r.path in env.existing
      && exists i, j :: (EarliestHit(Dirs(env), DefaultNames, env.join, env.existing, i, j)
                         && r.path == env.join(Dirs(env)[i], DefaultNames[j]))
  {
    if Truthy(override) {
      OverrideTrialsHit(env, override.value);
    }
    DefaultCombosHit(env);
    FirstComboIsEarliest(Dirs(env), DefaultNames, env.join, env.existing);
  }

  /**
   * When nothing exists, the literal first default name is returned and the log
   * holds every override attempt followed by every root x default-name
   * combination in directory-major order.
   */
  lemma NothingFound(env: Env, override: Option<string>)
    requires !Truthy(override) || !OverrideHit(env, override.value)
    requires !DefaultHit(env)
    ensures var r := Resolve(env, override);
      var dirs := Dirs(env);
      var pre := if Truthy(override) then 1 + |dirs| else 0;
      && r.path == env.pathOf(DefaultNames[0])
      && |r.tried| == pre + 2 * |dirs|
      && (Truthy(override) ==> r.tried[..pre] == OverrideTrials(override.value, dirs, env.pathOf, env.join))
      && forall i, j :: 0 <= i < |dirs| && 0 <= j < 2 ==> r.tried[pre + 2 * i + j] == env.join(dirs[i], DefaultNames[j])
  {
    if Truthy(override) {
      OverrideTrialsHit(env, override.value);
    }
    DefaultCombosHit(env);
    NothingFoundFrom(env, Dirs(env), override);
  }

  /** `NothingFound` over explicit roots. */
  lemma NothingFoundFrom(env: Env, dirs: seq<Path>, override: Option<string>)
    requires Truthy(override) ==> First(OverrideTrials(override.value, dirs, env.pathOf, env.join), env.existing).None?
    requires First(Combos(dirs, DefaultNames, env.join), env.existing).None?
    ensures var r := ResolveFrom(env, dirs, override);
      var pre := if Truthy(override) then 1 + |dirs| else 0;
      && r.path == env.pathOf(DefaultNames[0])
      && |r.tried| == pre + 2 * |dirs|
      && (Truthy(override) ==> r.tried[..pre] == OverrideTrials(override.value, dirs, env.pathOf, env.join))
      && forall i, j :: 0 <= i < |dirs| && 0 <= j < 2 ==> r.tried[pre + 2 * i + j] == env.join(dirs[i], DefaultNames[j])
  {
    var prefix := if Truthy(override) then OverrideTrials(override.value, dirs, env.pathOf, env.join) else [];
    FallbackShape(env, dirs, override);
    LogAfter(prefix, dirs, DefaultNames, env.join);
    if Truthy(override) {
      CombosOfOne(dirs, override.value, env.join);
    }
  }

  /** With nothing found, the resolution is the literal first default name after the override attempts and every default combination. */
  lemma FallbackShape(env: Env, dirs: seq<Path>, override: Option<string>)
    requires Truthy(override) ==> First(OverrideTrials(override.value, dirs, env.pathOf, env.join), env.existing).None?
    requires First(Combos(dirs, DefaultNames, env.join), env.existing).None?
    ensures ResolveFrom(env, dirs, override)
         == Resolution(env.pathOf(DefaultNames[0]),
                       (if Truthy(override) then OverrideTrials(override.value, dirs, env.pathOf, env.join) else [])
                       + Combos(dirs, DefaultNames, env.join))
  {
    if !Truthy(override) {
      assert [] + Combos(dirs, DefaultNames, env.join) == Combos(dirs, DefaultNames, env.join);
    }
  }

  /** A log of `prefix` followed by every combination of two names: its length, its prefix and where each combination sits. */
  lemma LogAfter<P, N>(prefix: seq<P>, dirs: seq<P>, names: seq<N>, join: (P, N) -> P)
    requires |names| == 2
    ensures var log := prefix + Combos(dirs, names, join);
      && |log| == |prefix| + 2 * |dirs|
      && log[..|prefix|] == prefix
      && forall i, j :: 0 <= i < |dirs| && 0 <= j < 2 ==> log[|prefix| + 2 * i + j] == join(dirs[i], names[j])
  {
    var combos := Combos(dirs, names, join);
    CombosOfTwo(dirs, names, join);
    assert (prefix + combos)[..|prefix|] == prefix;
    forall i, j | 0 <= i < |dirs| && 0 <= j < 2
      ensures (prefix + combos)[|prefix| + 2 * i + j] == join(dirs[i], names[j])
    {
      assert (prefix + combos)[|prefix| + 2 * i + j] == combos[2 * i + j];
    }
  }

  /** The resolved path exists whenever any attempted path exists. */
  lemma ResolveFindsExisting(env: Env, override: Option<string>)
    requires (Truthy(override) && OverrideHit(env, override.value)) || DefaultHit(env)
    ensures Resolve(env, override).path in env.existing
  {
    if Truthy(override) && OverrideHit(env, override.value) {
      OverrideFound(env, override.value);
    } else {
      DefaultFound(env, override);
    }
  }

  /**
   * A bundle directory that is put at the front wins over every other root:
   * with no override found, a default model inside it is the one selected.
   */
  lemma BundlePrecedence(env: Env, override: Option<string>)
    requires !Truthy(override) || !OverrideHit(env, override.value)
    requires Truthy(env.bundleDir)
    requires env.scriptDir != Some(env.pathOf(env.bundleDir.value)) && env.argv0Dir != Some(env.pathOf(env.bundleDir.value))
    requires env.join(env.pathOf(env.bundleDir.value), DefaultNames[0]) in env.existing
          || env.join(env.pathOf(env.bundleDir.value), DefaultNames[1]) in env.existing
    ensures var b := env.pathOf(env.bundleDir.value);
      Resolve(env, override).path
        == if env.join(b, DefaultNames[0]) in env.existing then env.join(b, DefaultNames[0]) else env.join(b, DefaultNames[1])
  {
    var b := env.pathOf(env.bundleDir.value);
    BundleAtFront(env);
    assert Dirs(env)[0] == b;
    assert b in Dirs(env);
    var n := if env.join(b, DefaultNames[0]) in env.existing then DefaultNames[0] else DefaultNames[1];
    assert n in DefaultNames;
    DefaultFound(env, override);
  }

  /** The override branch of `prepare_model_path`: the override as given, then joined to each root, stopping at the first that exists. */
  method OverrideSearch(env: Env, dirs: seq<Path>, o: string) returns (found: Option<Path>, tried: seq<Path>)
    ensures Scan(found, tried) == ScanFor(OverrideTrials(o, dirs, env.pathOf, env.join), env.existing)
  {
    ghost var trials := OverrideTrials(o, dirs, env.pathOf, env.join);
    var p := env.pathOf(o);
    tried := [p];
    if p in env.existing {
      found := Some(p);
      ScanStops(trials, tried, env.existing);
      return;
    }
    found, tried := TryRoots(dirs, o, env.join, env.existing, tried);
    assert [p] + Combos(dirs, [o], env.join) == trials;
  }

  /** The default stage of `prepare_model_path`: the default-name search, and the full log when it finds nothing. */
  method DefaultSearch(env: Env, dirs: seq<Path>, tried: seq<Path>) returns (path: Path, log: seq<Path>)
    ensures Resolution(path, log) == DefaultStage(env, dirs, tried)
  {
    var found := SearchRoots(dirs, DefaultNames, env.join, env.existing);
    if found.Some? {
      return found.value, [found.value];
    }
    log := LogRoots(dirs, DefaultNames, env.join, tried);
    path := env.pathOf(DefaultNames[0]);
  }

  /** The body of `prepare_model_path` once the roots are known. */
  method PrepareFrom(env: Env, dirs: seq<Path>, override: Option<string>) returns (path: Path, tried: seq<Path>)
    ensures Resolution(path, tried) == ResolveFrom(env, dirs, override)
  {
    tried := [];
    if Truthy(override) {
      var hit;
      hit, tried := OverrideSearch(env, dirs, override.value);
      if hit.Some? {
        path := hit.value;
        return;
      }
    }
    path, tried := DefaultSearch(env, dirs, tried);
  }

  /** `prepare_model_path`: the resolution over the candidate roots. */
  method PrepareModelPath(env: Env, override: Option<string>) returns (path: Path, tried: seq<Path>)
    ensures Resolution(path, tried) == Resolve(env, override)
  {
    var dirs := CandidateDirs(env);
    path, tried := PrepareFrom(env, dirs, override);
  }
}
