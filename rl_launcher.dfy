/**
 * The SageMaker launcher of the Ray RLlib cart-pole training: the experiment configuration
 * built from the CPU and GPU counts of the environment, the rewriting of `rl.training.*`
 * hyperparameter keys in `launch`, and the routing of the trial's metadata files between the
 * model directory and the metadata directory. Ray, the gym environment, `glob`'s directory
 * listing and `shutil` are outside the model: the listing is a parameter and the copies are
 * returned as a list.
 */
module RlLauncher {
  import opened Wrappers
  import opened Strings
  import opened Sorting
  import opened Paths

  /** A value of the experiment configuration. */
  datatype Value =
    | Str(s: string)
    | Int(i: int)
    | Real(r: real)
    | Bool(b: bool)
    | Object(name: string)          // a library object such as `CheckpointConfig(...)`
    | Dict(entries: seq<(string, Value)>)

  /** A Python `dict` in insertion order. */
  type Entries = seq<(string, Value)>

  function Keys(d: Entries): (ks: seq<string>)
    ensures |ks| == |d|
    ensures forall i :: 0 <= i < |d| ==> ks[i] == d[i].0
  {
    seq(|d|, i requires 0 <= i < |d| => d[i].0)
  }

  predicate Distinct(ks: seq<string>) {
    forall i, j :: 0 <= i < j < |ks| ==> ks[i] != ks[j]
  }

  /** `d.get(k)` */
  function Lookup(d: Entries, k: string): Option<Value>
    decreases |d|
  {
    if d == [] then None
    else if d[0].0 == k then Some(d[0].1)
    else Lookup(d[1..], k)
  }

  /** `d[k] = v`: a key already present keeps its place, a new key goes last. */
  function Set(d: Entries, k: string, v: Value): Entries
    decreases |d|
  {
    if d == [] then [(k, v)]
    else if d[0].0 == k then [(k, v)] + d[1..]
    else [d[0]] + Set(d[1..], k, v)
  }

  /** After `d[k] = v`, `k` holds `v` and every other key what it held before. */
  lemma {:induction false} SetLookup(d: Entries, k: string, v: Value, other: string)
    ensures Lookup(Set(d, k, v), other) == if other == k then Some(v) else Lookup(d, other)
    decreases |d|
  {
    if d != [] && d[0].0 != k {
      SetLookup(d[1..], k, v, other);
      assert Set(d, k, v)[1..] == Set(d[1..], k, v);
    }
  }

  /** `d[k] = v` keeps the keys and their order, and appends `k` when it is new. */
  lemma {:induction false} SetKeys(d: Entries, k: string, v: Value)
    ensures Keys(Set(d, k, v)) == if k in Keys(d) then Keys(d) else Keys(d) + [k]
    decreases |d|
  {
    if d == [] {
      KeysCons((k, v), []);
    } else {
      SetKeys(d[1..], k, v);
      var rest := Keys(d[1..]);
      KeysCons(d[0], d[1..]);
      assert d == [d[0]] + d[1..];
      if d[0].0 != k {
        KeysCons(d[0], Set(d[1..], k, v));
        assert k in Keys(d) <==> k in rest;
        if k !in rest {
          assert [d[0].0] + (rest + [k]) == Keys(d) + [k];
        }
      } else {
        KeysCons((k, v), d[1..]);
      }
    }
  }

  lemma KeysCons(x: (string, Value), d: Entries)
    ensures Keys([x] + d) == [x.0] + Keys(d)
  {
    var whole, split := Keys([x] + d), [x.0] + Keys(d);
    forall i | 0 <= i < |whole| ensures whole[i] == split[i] {
      if i > 0 {
        assert ([x] + d)[i] == d[i - 1];
      }
    }
    assert whole == split;
  }

  /** Assignment never makes a key appear twice. */
  lemma SetKeepsDistinct(d: Entries, k: string, v: Value)
    requires Distinct(Keys(d))
    ensures Distinct(Keys(Set(d, k, v)))
  {
    SetKeys(d, k, v);
  }

  /** Assigning a new key appends it. */
  lemma {:induction false} SetNewKey(d: Entries, k: string, v: Value)
    requires k !in Keys(d)
    ensures Set(d, k, v) == d + [(k, v)]
    decreases |d|
  {
    if d != [] {
      assert Keys(d) == [d[0].0] + Keys(d[1..]);
      SetNewKey(d[1..], k, v);
      assert d == [d[0]] + d[1..];
    }
  }

  datatype LaunchError =
    | KeyError(key: string)         // `prep[A][B] = val` before `A` was copied into `prep`
    | NotAssignable(key: string)    // `prep[A]` holds a value that is not a dictionary (`TypeError`)
    | ValueError(name: string)      // `int(...)` of an environment variable that is not an integer

  const TRAINING_PREFIX: string := "rl.training"

  /**
   * One turn of the loop in `launch` over `(key, val)`: a key with the textual prefix
   * `rl.training` is split at dots; four segments assign into the nested dictionary named by
   * the third, three segments set the key named by the third, any other count drops the entry.
   * Every other key is copied.
   */
  function Step(prep: Entries, key: string, val: Value): Result<Entries, LaunchError> {
    if StartsWith(key, TRAINING_PREFIX) then
      var split := Split(key, '.');
      if |split| == 4 then
        var inner := Lookup(prep, split[2]);
        if inner.None? then Failure(KeyError(split[2]))
        else if !inner.value.Dict? then Failure(NotAssignable(split[2]))
        else Success(Set(prep, split[2], Dict(Set(inner.value.entries, split[3], val))))
      else if |split| == 3 then Success(Set(prep, split[2], val))
      else Success(prep)
    else Success(Set(prep, key, val))
  }

  /** `experiment_config_hyperparams_prep` after the loop has seen `items`, or what it raised. */
  function Prep(items: Entries): Result<Entries, LaunchError>
    decreases |items|
  {
    if items == [] then Success([])
    else
      var before := Prep(items[..|items| - 1]);
      if before.Failure? then before
      else Step(before.value, items[|items| - 1].0, items[|items| - 1].1)
  }

  function NotRl(entry: (string, Value)): bool {
    !StartsWith(entry.0, "rl.")
  }

  /** `{key: val for key, val in prep.items() if not key.startswith("rl.")}` */
  function WithoutRl(d: Entries): Entries {
    Filter(d, NotRl)
  }

  /** The training dictionary `launch` hands to `run_experiments`, or what the loop raised. */
  function Rewritten(training: Entries): Result<Entries, LaunchError> {
    var prep := Prep(training);
    if prep.Failure? then Failure(prep.error) else Success(WithoutRl(prep.value))
  }

  /** Once the loop has raised, the later entries change nothing. */
  lemma {:induction false} PrepFailureSticks(items: Entries, i: nat)
    requires i <= |items| && Prep(items[..i]).Failure?
    ensures Prep(items) == Prep(items[..i])
    decreases |items| - i
  {
    if i < |items| {
      assert items[..i + 1][..i] == items[..i];
      PrepFailureSticks(items, i + 1);
    } else {
      assert items[..i] == items;
    }
  }

  /**
   * The key-rewriting loop of `launch` followed by the `rl.` filter: the new
   * `experiment_config["training"]`.
   */
  method RewriteTrainingKeys(training: Entries) returns (r: Result<Entries, LaunchError>)
    ensures r == Rewritten(training)
  {
    var prep: Entries := [];
    for i := 0 to |training|
      invariant Prep(training[..i]) == Success(prep)
    {
      var (key, val) := training[i];
      assert training[..i + 1][..i] == training[..i];
      if StartsWith(key, TRAINING_PREFIX) {
        var split := Split(key, '.');
        if |split| == 4 {
          var inner := Lookup(prep, split[2]);
          if inner.None? {
            PrepFailureSticks(training, i + 1);
            return Failure(KeyError(split[2]));
          }
          if !inner.value.Dict? {
            PrepFailureSticks(training, i + 1);
            return Failure(NotAssignable(split[2]));
          }
          prep := Set(prep, split[2], Dict(Set(inner.value.entries, split[3], val)));
        }
        if |split| == 3 {
          prep := Set(prep, split[2], val);
        }
      } else {
        prep := Set(prep, key, val);
      }
    }
    assert training[..|training|] == training;
    r := Success(WithoutRl(prep));
  }

  /** A key without the `rl.training` prefix is copied: it holds its value and nothing else changes. */
  lemma StepCopies(prep: Entries, key: string, val: Value, other: string)
    requires !StartsWith(key, TRAINING_PREFIX)
    ensures Step(prep, key, val).Success?
    ensures Lookup(Step(prep, key, val).value, other) == if other == key then Some(val) else Lookup(prep, other)
  {
    SetLookup(prep, key, val, other);
  }

  /** How `str.split(".")` cuts a key built from dot-free segments. */
  lemma SplitSegments(parts: seq<string>)
    requires |parts| >= 1
    requires forall k :: 0 <= k < |parts| ==> '.' !in parts[k]
    ensures Split(Join(".", parts), '.') == parts
  {
    assert ['.'] == ".";
    JoinSplit(parts, '.');
  }

  /**
   * The prefix test is textual: `rl.training<suffix>.<name>` for any dot-free suffix (so also
   * `rl.trainingX.lr`) sets `name` and leaves every other key as it was.
   */
  lemma StepThreeSegments(prep: Entries, suffix: string, name: string, val: Value, other: string)
    requires '.' !in suffix && '.' !in name
    ensures var key := TRAINING_PREFIX + suffix + "." + name;
      && Step(prep, key, val).Success?
      && Lookup(Step(prep, key, val).value, other) == if other == name then Some(val) else Lookup(prep, other)
  {
    ThreeSegmentKey(suffix, name);
    SetLookup(prep, name, val, other);
  }

  /** `rl.training<suffix>.<name>` has the prefix and splits into three segments, the last `name`. */
  lemma ThreeSegmentKey(suffix: string, name: string)
    requires '.' !in suffix && '.' !in name
    ensures var key := TRAINING_PREFIX + suffix + "." + name;
      StartsWith(key, TRAINING_PREFIX) && Split(key, '.') == ["rl", "training" + suffix, name]
  {
    var key := TRAINING_PREFIX + suffix + "." + name;
    var parts := ["rl", "training" + suffix, name];
    assert Join(".", parts[2..]) == name;
    assert Join(".", parts[1..]) == "training" + suffix + "." + name;
    assert key == Join(".", parts);
    TrainingDotFree(suffix);
    SplitSegments(parts);
    assert key[..|TRAINING_PREFIX|] == TRAINING_PREFIX;
  }

  lemma TrainingDotFree(suffix: string)
    requires '.' !in suffix
    ensures '.' !in "training" + suffix
  {
    assert forall k :: 0 <= k < |"training"| ==> "training"[k] != '.';
  }

  /**
   * `rl.training<suffix>.<a>.<b>` assigns `b` inside the dictionary under `a`: it raises
   * `KeyError` exactly when `a` was not copied into `prep` before, and `TypeError` when `a`
   * holds no dictionary; otherwise `a`'s dictionary holds `val` under `b`, its other keys and
   * the other keys of `prep` unchanged.
   */
  lemma StepFourSegments(prep: Entries, suffix: string, a: string, b: string, val: Value, other: string, inner: string)
    requires '.' !in suffix && '.' !in a && '.' !in b
    ensures var key := TRAINING_PREFIX + suffix + "." + a + "." + b;
      && (Step(prep, key, val) == Failure(KeyError(a)) <==> Lookup(prep, a).None?)
      && (Lookup(prep, a).Some? && !Lookup(prep, a).value.Dict? ==> Step(prep, key, val) == Failure(NotAssignable(a)))
      && (Lookup(prep, a).Some? && Lookup(prep, a).value.Dict? ==>
            && Step(prep, key, val).Success?
            && Lookup(Step(prep, key, val).value, other) == (if other == a then Lookup(Step(prep, key, val).value, a) else Lookup(prep, other))
            && Lookup(Step(prep, key, val).value, a).Some? && Lookup(Step(prep, key, val).value, a).value.Dict?
            && Lookup(Lookup(Step(prep, key, val).value, a).value.entries, inner)
                 == if inner == b then Some(val) else Lookup(Lookup(prep, a).value.entries, inner))
  {
    FourSegmentKey(suffix, a, b);
    var found := Lookup(prep, a);
    if found.Some? && found.value.Dict? {
      var nested := Dict(Set(found.value.entries, b, val));
      SetLookup(prep, a, nested, other);
      SetLookup(prep, a, nested, a);
      SetLookup(found.value.entries, b, val, inner);
    }
  }

  /** `rl.training<suffix>.<a>.<b>` has the prefix and splits into four segments, the last two `a` and `b`. */
  lemma FourSegmentKey(suffix: string, a: string, b: string)
    requires '.' !in suffix && '.' !in a && '.' !in b
    ensures var key := TRAINING_PREFIX + suffix + "." + a + "." + b;
      StartsWith(key, TRAINING_PREFIX) && Split(key, '.') == ["rl", "training" + suffix, a, b]
  {
    var key := TRAINING_PREFIX + suffix + "." + a + "." + b;
    var parts := ["rl", "training" + suffix, a, b];
    PrefixParts();
    JoinFour("rl", "training" + suffix, a, b);
    assert key == Join(".", parts);
    TrainingDotFree(suffix);
    SplitSegments(parts);
    assert key[..|TRAINING_PREFIX|] == TRAINING_PREFIX;
  }

  lemma PrefixParts()
    ensures TRAINING_PREFIX == "rl" + "." + "training"
  {
  }

  lemma JoinFour(p: string, q: string, a: string, b: string)
    ensures Join(".", [p, q, a, b]) == p + "." + q + "." + a + "." + b
  {
    var parts := [p, q, a, b];
    assert Join(".", parts[3..]) == b;
    assert Join(".", parts[2..]) == a + "." + b;
    assert Join(".", parts[1..]) == q + "." + a + "." + b;
  }

  /** A key with the `rl.training` prefix that splits into neither three nor four segments is dropped. */
  lemma StepDrops(prep: Entries, key: string, val: Value)
    requires StartsWith(key, TRAINING_PREFIX)
    requires |Split(key, '.')| != 3 && |Split(key, '.')| != 4
    ensures Step(prep, key, val) == Success(prep)
  {
  }

  /** The keys the loop builds never repeat. */
  lemma {:induction false} PrepKeysDistinct(items: Entries)
    requires Prep(items).Success?
    ensures Distinct(Keys(Prep(items).value))
    decreases |items|
  {
    if items != [] {
      var before := Prep(items[..|items| - 1]);
      PrepKeysDistinct(items[..|items| - 1]);
      var (key, val) := items[|items| - 1];
      if StartsWith(key, TRAINING_PREFIX) {
        var split := Split(key, '.');
        if |split| == 4 {
          var inner := Lookup(before.value, split[2]);
          SetKeepsDistinct(before.value, split[2], Dict(Set(inner.value.entries, split[3], val)));
        } else if |split| == 3 {
          SetKeepsDistinct(before.value, split[2], val);
        }
      } else {
        SetKeepsDistinct(before.value, key, val);
      }
    }
  }

  /** A dictionary without `rl.training` keys goes through the loop as it is. */
  lemma {:induction false} PrepCopiesPlain(items: Entries)
    requires Distinct(Keys(items))
    requires forall i :: 0 <= i < |items| ==> !StartsWith(items[i].0, TRAINING_PREFIX)
    ensures Prep(items) == Success(items)
    decreases |items|
  {
    if items != [] {
      var init := items[..|items| - 1];
      assert Keys(init) == Keys(items)[..|items| - 1];
      PrepCopiesPlain(init);
      var (key, val) := items[|items| - 1];
      assert key !in Keys(init) by {
        assert forall i :: 0 <= i < |init| ==> Keys(init)[i] == Keys(items)[i];
      }
      SetNewKey(init, key, val);
      assert items == init + [(key, val)];
    }
  }

  /** No key of the training dictionary handed on starts with `rl.`; every other key keeps its value. */
  lemma {:induction false} WithoutRlLookup(d: Entries, k: string)
    ensures forall i :: 0 <= i < |WithoutRl(d)| ==> !StartsWith(WithoutRl(d)[i].0, "rl.")
    ensures Lookup(WithoutRl(d), k) == if StartsWith(k, "rl.") then None else Lookup(d, k)
    decreases |d|
  {
    if d != [] {
      WithoutRlLookup(d[1..], k);
      var rest := WithoutRl(d[1..]);
      if NotRl(d[0]) {
        assert WithoutRl(d) == [d[0]] + rest;
        assert ([d[0]] + rest)[1..] == rest;
      } else {
        assert WithoutRl(d) == rest;
        RlPrefix(d[0].0);
      }
    }
  }

  /** Every key with the `rl.training` prefix also starts with `rl.`. */
  lemma RlPrefix(key: string)
    ensures StartsWith(key, TRAINING_PREFIX) ==> StartsWith(key, "rl.")
  {
    if StartsWith(key, TRAINING_PREFIX) {
      assert key[..3] == TRAINING_PREFIX[..3];
    }
  }

  lemma {:induction false} FilterAll<T>(s: seq<T>, p: T -> bool)
    requires forall i :: 0 <= i < |s| ==> p(s[i])
    ensures Filter(s, p) == s
    decreases |s|
  {
    if s != [] {
      FilterAll(s[1..], p);
      assert s == [s[0]] + s[1..];
    }
  }

  /** A training dictionary without any key starting with `rl.` comes out of `launch`'s rewriting unchanged. */
  lemma RewriteKeepsPlain(training: Entries)
    requires Distinct(Keys(training))
    requires forall i :: 0 <= i < |training| ==> !StartsWith(training[i].0, "rl.")
    ensures Rewritten(training) == Success(training)
  {
    forall i | 0 <= i < |training| ensures !StartsWith(training[i].0, TRAINING_PREFIX) {
      RlPrefix(training[i].0);
    }
    PrepCopiesPlain(training);
    FilterAll(training, NotRl);
  }

  const ENV_NAME: string := "CartPole-v1"
  const INTERMEDIATE_DIR: string := "/opt/ml/output/intermediate"
  const METADATA_DIR: string := "/opt/ml/output/data"

  /** `FINAL_MODEL_DIR`: `SM_MODEL_DIR`, or `/opt/ml/model` when the environment does not set it. */
  function FinalModelDir(env: map<string, string>): string {
    if "SM_MODEL_DIR" in env then env["SM_MODEL_DIR"] else "/opt/ml/model"
  }

  /** The launcher's CPU and GPU counts. */
  datatype Launcher = Launcher(numCpus: int, numGpus: int)

  /** `int(os.environ.get(name, default))` */
  function EnvInt(env: map<string, string>, name: string, default: int): Result<int, LaunchError> {
    if name !in env then Success(default)
    else if IntLiteral(env[name]) then Success(ParseInt(env[name]))
    else Failure(ValueError(name))
  }

  /** `SageMakerRayLauncher()` */
  function NewLauncher(env: map<string, string>): Result<Launcher, LaunchError> {
    var cpus := EnvInt(env, "SM_NUM_CPUS", 1);
    if cpus.Failure? then Failure(cpus.error)
    else
      var gpus := EnvInt(env, "SM_NUM_GPUS", 0);
      if gpus.Failure? then Failure(gpus.error)
      else Success(Launcher(cpus.value, gpus.value))
  }

  /** The `config` entry of the training dictionary. */
  function TrainerConfig(launcher: Launcher): Entries {
    [("framework", Str("tf2")), ("num_sgd_iter", Int(30)), ("lr", Real(0.0001)),
     ("sgd_minibatch_size", Int(128)), ("train_batch_size", Int(4000)),
     ("model", Dict([("free_log_std", Bool(true))])),
     ("num_workers", Int(launcher.numCpus - 1)), ("num_gpus", Int(launcher.numGpus)),
     ("batch_mode", Str("truncate_episodes"))]
  }

  /** `experiment_config["training"]` as `get_experiment_config` builds it. */
  function Training(launcher: Launcher): Entries {
    [("env", Str(ENV_NAME)), ("run", Str("PPO")),
     ("stop", Dict([("training_iteration", Int(300)), ("episode_reward_mean", Int(500))])),
     ("config", Dict(TrainerConfig(launcher))),
     ("storage_path", Str(INTERMEDIATE_DIR)),
     ("checkpoint_config", Object("CheckpointConfig(checkpoint_at_end=True)"))]
  }

  /** `get_experiment_config()` */
  function ExperimentConfig(launcher: Launcher): Entries {
    [("training", Dict(Training(launcher)))]
  }

  /** One Ray worker per CPU but the driver's, and every GPU for training. */
  lemma WorkersFromCpus(launcher: Launcher)
    ensures var training := Lookup(ExperimentConfig(launcher), "training");
      && training.Some? && training.value.Dict?
      && Lookup(training.value.entries, "config") == Some(Dict(TrainerConfig(launcher)))
      && Lookup(TrainerConfig(launcher), "num_workers") == Some(Int(launcher.numCpus - 1))
      && Lookup(TrainerConfig(launcher), "num_gpus") == Some(Int(launcher.numGpus))
  {
    var c, t := TrainerConfig(launcher), Training(launcher);
    LookupFirst(ExperimentConfig(launcher), 0, "training");
    LookupFirst(t, 3, "config");
    LookupFirst(c, 6, "num_workers");
    LookupFirst(c, 7, "num_gpus");
  }

  /** `d[k]` is the value at the first position holding `k`. */
  lemma {:induction false} LookupFirst(d: Entries, i: nat, k: string)
    requires i < |d| && d[i].0 == k
    requires forall j :: 0 <= j < i ==> d[j].0 != k
    ensures Lookup(d, k) == Some(d[i].1)
    decreases i
  {
    if i > 0 {
      LookupFirst(d[1..], i - 1, k);
    }
  }

  /**
   * Without `SM_NUM_CPUS` and `SM_NUM_GPUS` the launcher has one CPU and no GPU, so no extra
   * worker; a count the environment sets as `str(n)` is read back as `n`, anything else that
   * is not an integer literal raises `ValueError`.
   */
  lemma LauncherCounts(env: map<string, string>, n: int)
    ensures "SM_NUM_CPUS" !in env && "SM_NUM_GPUS" !in env ==> NewLauncher(env) == Success(Launcher(1, 0))
    ensures "SM_NUM_CPUS" in env && env["SM_NUM_CPUS"] == IntToDecimal(n) ==>
      NewLauncher(env).Success? || NewLauncher(env) == Failure(ValueError("SM_NUM_GPUS"))
    ensures "SM_NUM_CPUS" in env && env["SM_NUM_CPUS"] == IntToDecimal(n) && NewLauncher(env).Success? ==>
      NewLauncher(env).value.numCpus == n
    ensures "SM_NUM_CPUS" in env && !IntLiteral(env["SM_NUM_CPUS"]) ==> NewLauncher(env) == Failure(ValueError("SM_NUM_CPUS"))
  {
    IntDecimalRoundTrip(n);
  }

  /** The configuration `get_experiment_config` builds holds no `rl.` key, so `launch` hands it on unchanged. */
  lemma DefaultTrainingUnchanged(launcher: Launcher)
    ensures Rewritten(Training(launcher)) == Success(Training(launcher))
  {
    var t := Training(launcher);
    forall i | 0 <= i < |t| ensures !StartsWith(t[i].0, "rl.") {
      assert t[i].0[0] != 'r' || t[i].0[1] != 'l';
    }
    assert Distinct(Keys(t));
    RewriteKeepsPlain(t);
  }

  /** `extensions_to_select` */
  const EXTENSIONS_TO_SELECT: seq<string> := ["*.csv", "*.pkl", "*.json"]

  /**
   * `glob.glob(os.path.join(directory, "*" + suffix))` over the directory's entries in listing
   * order: the names that end with the suffix, hidden names left out, joined to the directory.
   */
  function Glob(directory: string, listing: seq<string>, pattern: string): (paths: seq<string>)
    requires StartsWith(pattern, "*")
    decreases |listing|
  {
    if listing == [] then []
    else
      var name := listing[0];
      (if !StartsWith(name, ".") && EndsWith(name, pattern[1..]) then [PathJoin(directory, name)] else [])
        + Glob(directory, listing[1..], pattern)
  }

  /** `files_to_copy` after the patterns `patterns` were globbed, in pattern order. */
  function SelectedFiles(directory: string, listing: seq<string>, patterns: seq<string>): seq<string>
    requires forall k :: 0 <= k < |patterns| ==> StartsWith(patterns[k], "*")
    decreases |patterns|
  {
    if patterns == [] then []
    else
      SelectedFiles(directory, listing, patterns[..|patterns| - 1]) + Glob(directory, listing, patterns[|patterns| - 1])
  }

  /** One `shutil.copy(source, destination)` */
  datatype Copy = Copy(source: string, destination: string)

  predicate IsParams(path: string) {
    EndsWith(path, "params.pkl") || EndsWith(path, "params.json")
  }

  function Route(path: string, modelDir: string): Copy {
    Copy(path, if IsParams(path) then modelDir else METADATA_DIR)
  }

  function Routes(files: seq<string>, modelDir: string): (copies: seq<Copy>)
    ensures |copies| == |files|
  {
    seq(|files|, i requires 0 <= i < |files| => Route(files[i], modelDir))
  }

  /**
   * `save_experiment_metadata(trial_path)`: the files of the three patterns, each copied to
   * the model directory when its path ends with `params.pkl` or `params.json` and to the
   * metadata directory otherwise. `listing` is the trial directory's entries.
   */
  method SaveExperimentMetadata(trialPath: string, listing: seq<string>, modelDir: string)
    returns (copies: seq<Copy>)
    ensures copies == Routes(SelectedFiles(trialPath, listing, EXTENSIONS_TO_SELECT), modelDir)
  {
    var files: seq<string> := [];
    var patterns := EXTENSIONS_TO_SELECT;
    for e := 0 to |patterns|
      invariant files == SelectedFiles(trialPath, listing, patterns[..e])
    {
      SelectedSnoc(trialPath, listing, patterns, e);
      files := files + Glob(trialPath, listing, patterns[e]);
    }
    assert patterns[..|patterns|] == patterns;
    copies := [];
    for i := 0 to |files|
      invariant copies == Routes(files[..i], modelDir)
    {
      RoutesSnoc(files, i, modelDir);
      var path := files[i];
      if EndsWith(path, "params.pkl") || EndsWith(path, "params.json") {
        copies := copies + [Copy(path, modelDir)];
      } else {
        copies := copies + [Copy(path, METADATA_DIR)];
      }
    }
    assert files[..|files|] == files;
  }

  lemma SelectedSnoc(directory: string, listing: seq<string>, patterns: seq<string>, e: nat)
    requires e < |patterns| && forall k :: 0 <= k < |patterns| ==> StartsWith(patterns[k], "*")
    ensures SelectedFiles(directory, listing, patterns[..e + 1])
      == SelectedFiles(directory, listing, patterns[..e]) + Glob(directory, listing, patterns[e])
  {
    assert patterns[..e + 1][..e] == patterns[..e];
  }

  lemma RoutesSnoc(files: seq<string>, i: nat, modelDir: string)
    requires i < |files|
    ensures Routes(files[..i + 1], modelDir) == Routes(files[..i], modelDir) + [Route(files[i], modelDir)]
  {
  }

  /** A path joined under a directory ends with every suffix of its name. */
  lemma JoinedEndsWith(directory: string, name: string, t: string)
    requires EndsWith(name, t)
    ensures EndsWith(PathJoin(directory, name), t)
  {
    if !StartsWith(name, "/") {
      PathJoinKeepsSuffix(directory, name, t);
    }
  }

  /**
   * `glob` with `*<suffix>` finds exactly the visible entries ending with the suffix: every
   * path it returns ends with the suffix, and every visible entry ending with it is returned.
   */
  lemma {:induction false} GlobFinds(directory: string, listing: seq<string>, pattern: string, name: string)
    requires StartsWith(pattern, "*")
    ensures forall k :: 0 <= k < |Glob(directory, listing, pattern)| ==>
      EndsWith(Glob(directory, listing, pattern)[k], pattern[1..])
    ensures name in listing && !StartsWith(name, ".") && EndsWith(name, pattern[1..]) ==>
      PathJoin(directory, name) in Glob(directory, listing, pattern)
    decreases |listing|
  {
    if listing != [] {
      GlobFinds(directory, listing[1..], pattern, name);
      var here := listing[0];
      if !StartsWith(here, ".") && EndsWith(here, pattern[1..]) {
        JoinedEndsWith(directory, here, pattern[1..]);
        assert Glob(directory, listing, pattern) == [PathJoin(directory, here)] + Glob(directory, listing[1..], pattern);
      }
    }
  }

  /**
   * Only `.csv`, `.pkl` and `.json` files are selected, the CSV files first, then the pickles,
   * then the JSON files; every visible entry with one of these extensions is selected.
   */
  lemma SelectedExtensions(directory: string, listing: seq<string>, name: string)
    ensures var files := SelectedFiles(directory, listing, EXTENSIONS_TO_SELECT);
      && files == Glob(directory, listing, "*.csv") + Glob(directory, listing, "*.pkl") + Glob(directory, listing, "*.json")
      && (forall k :: 0 <= k < |files| ==> EndsWith(files[k], ".csv") || EndsWith(files[k], ".pkl") || EndsWith(files[k], ".json"))
      && (name in listing && !StartsWith(name, ".")
          && (EndsWith(name, ".csv") || EndsWith(name, ".pkl") || EndsWith(name, ".json")) ==>
            PathJoin(directory, name) in files)
  {
    var csv, pkl, json := Glob(directory, listing, "*.csv"), Glob(directory, listing, "*.pkl"), Glob(directory, listing, "*.json");
    var files := SelectedFiles(directory, listing, EXTENSIONS_TO_SELECT);
    SelectedIsGlobs(directory, listing);
    ExtensionSuffixes();
    GlobFinds(directory, listing, "*.csv", name);
    GlobFinds(directory, listing, "*.pkl", name);
    GlobFinds(directory, listing, "*.json", name);
    forall k | 0 <= k < |files| ensures EndsWith(files[k], ".csv") || EndsWith(files[k], ".pkl") || EndsWith(files[k], ".json") {
      if k < |csv| {
        assert files[k] == csv[k];
      } else if k < |csv| + |pkl| {
        assert files[k] == pkl[k - |csv|];
      } else {
        assert files[k] == json[k - |csv| - |pkl|];
      }
    }
  }

  /** The three patterns are globbed in turn. */
  lemma SelectedIsGlobs(directory: string, listing: seq<string>)
    ensures SelectedFiles(directory, listing, EXTENSIONS_TO_SELECT)
      == Glob(directory, listing, "*.csv") + Glob(directory, listing, "*.pkl") + Glob(directory, listing, "*.json")
  {
    StarPatterns();
    SelectedThree(directory, listing, "*.csv", "*.pkl", "*.json");
  }

  lemma StarPatterns()
    ensures StartsWith("*.csv", "*") && StartsWith("*.pkl", "*") && StartsWith("*.json", "*")
  {
  }

  lemma SelectedThree(directory: string, listing: seq<string>, a: string, b: string, c: string)
    requires StartsWith(a, "*") && StartsWith(b, "*") && StartsWith(c, "*")
    ensures SelectedFiles(directory, listing, [a, b, c])
      == Glob(directory, listing, a) + Glob(directory, listing, b) + Glob(directory, listing, c)
  {
    var patterns := [a, b, c];
    var ga, gb, gc := Glob(directory, listing, a), Glob(directory, listing, b), Glob(directory, listing, c);
    SelectedSnoc(directory, listing, patterns, 0);
    assert SelectedFiles(directory, listing, patterns[..1]) == ga by {
      assert patterns[..0] == [];
    }
    SelectedSnoc(directory, listing, patterns, 1);
    SelectedSnoc(directory, listing, patterns, 2);
    assert patterns[..3] == patterns;
  }

  lemma ExtensionSuffixes()
    ensures "*.csv"[1..] == ".csv" && "*.pkl"[1..] == ".pkl" && "*.json"[1..] == ".json"
  {
  }

  /**
   * Every selected file is copied once, in selection order; a file whose path ends with
   * `params.pkl` or `params.json` (a textual test, so `myparams.json` too) goes to the model
   * directory and every other file to the metadata directory.
   */
  lemma RoutingRule(files: seq<string>, modelDir: string)
    requires modelDir != METADATA_DIR
    ensures var copies := Routes(files, modelDir);
      forall i :: 0 <= i < |files| ==>
        && copies[i].source == files[i]
        && (copies[i].destination == modelDir <==> IsParams(files[i]))
        && (copies[i].destination == METADATA_DIR <==> !IsParams(files[i]))
  {
  }

  /** The suffix test is textual: `myparams.json` counts as a parameters file, `params.csv` does not. */
  lemma ParamsSuffixExamples()
    ensures IsParams("/trial/myparams.json")
    ensures IsParams("/trial/params.pkl")
    ensures !IsParams("/trial/params.csv")
  {
    assert "/trial/myparams.json"[|"/trial/myparams.json"| - |"params.json"|..] == "params.json";
    assert "/trial/params.pkl"[|"/trial/params.pkl"| - |"params.pkl"|..] == "params.pkl";
    assert "/trial/params.csv"[|"/trial/params.csv"| - |"params.pkl"|..] != "params.pkl";
    assert "/trial/params.csv"[|"/trial/params.csv"| - |"params.json"|..] != "params.json";
  }
}
