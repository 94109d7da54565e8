/**
 * `slimdev/config.py`: the `Config` object built from `[tool.slimdev]`,
 * its lookups, its conversion to environment variables and the `.env`
 * text it writes.
 */
module SlimConfig {
  import opened Wrappers
  import opened Text
  import opened Dicts
  import opened Paths
  import opened Pyproject

  const PYPROJECT := "pyproject.toml"
  const ENV_HEADER := "# Generated from pyproject.toml - DO NOT EDIT"

  /** The exceptions the configuration code raises. */
  datatype ConfigError =
    | PyprojectNotFound      // FileNotFoundError from the ancestor search
    | ParseFailed(path: Path) // ValueError: the file could not be opened or parsed
    | MissingSection         // ValueError: `[tool.slimdev]` absent or empty
    | KeyMissing(key: string) // KeyError from `config[key]`
    | WriteFailed(path: Path) // IOError while writing the `.env` file

  /** A loaded configuration: where it came from and its `[tool.slimdev]` table. */
  datatype Config = Config(tomlPath: Path, section: Section)

  /** The file the search examines in directory `cwd[..n]`. */
  function Candidate(cwd: Path, n: nat): Path
    requires n <= |cwd|
  {
    cwd[..n] + [PYPROJECT]
  }

  /**
   * `p` is the `pyproject.toml` nearest to `cwd`: it exists in `cwd` or an
   * ancestor below the root, and no closer directory has one.
   */
  predicate Nearest(cwd: Path, existing: set<Path>, p: Path) {
    exists n :: 0 < n <= |cwd| && p == Candidate(cwd, n) && p in existing
      && forall m :: n < m <= |cwd| ==> Candidate(cwd, m) !in existing
  }

  /** There is at most one nearest `pyproject.toml`. */
  lemma NearestUnique(cwd: Path, existing: set<Path>, p: Path, q: Path)
    requires Nearest(cwd, existing, p) && Nearest(cwd, existing, q)
    ensures p == q
  {
    var n :| 0 < n <= |cwd| && p == Candidate(cwd, n) && p in existing
      && forall m :: n < m <= |cwd| ==> Candidate(cwd, m) !in existing;
    var n' :| 0 < n' <= |cwd| && q == Candidate(cwd, n') && q in existing
      && forall m :: n' < m <= |cwd| ==> Candidate(cwd, m) !in existing;
    assert n == n';
  }

  /**
   * `Config._find_pyproject`: walks from `cwd` up towards the root and
   * returns the first `pyproject.toml` that exists; the root directory
   * itself is never examined.
   */
  method FindPyproject(cwd: Path, existing: set<Path>) returns (r: Result<Path, ConfigError>)
    ensures r.Success? <==> exists n :: 0 < n <= |cwd| && Candidate(cwd, n) in existing
    ensures r.Success? ==> Nearest(cwd, existing, r.value) && r.value != Root + [PYPROJECT]
    ensures r.Failure? ==> r.error == PyprojectNotFound
  {
    var current := cwd;
    while current != Parent(current)
      invariant |current| <= |cwd| && current == cwd[..|current|]
      invariant forall m :: |current| < m <= |cwd| ==> Candidate(cwd, m) !in existing
      decreases |current|
    {
      var pyproject := Join(current, PYPROJECT);
      if pyproject in existing {
        assert pyproject == Candidate(cwd, |current|);
        return Success(pyproject);
      }
      current := Parent(current);
    }
    return Failure(PyprojectNotFound);
  }

  /**
   * `Config._load_config` for the file at `path`; `parsed` holds the files
   * that open and parse, a missing or empty `[tool.slimdev]` is refused.
   */
  function LoadConfig(path: Path, parsed: map<Path, Document>): (r: Result<Config, ConfigError>)
    ensures r.Success? <==> path in parsed && SlimdevSection(parsed[path]) != []
    ensures r.Success? ==> r.value.tomlPath == path && r.value.section == SlimdevSection(parsed[path])
    ensures path !in parsed ==> r == Failure(ParseFailed(path))
    ensures path in parsed && SlimdevSection(parsed[path]) == [] ==> r == Failure(MissingSection)
  {
    if path !in parsed then Failure(ParseFailed(path))
    else
      var section := SlimdevSection(parsed[path]);
      if section == [] then Failure(MissingSection) else Success(Config(path, section))
  }

  /** `Config(toml_path)`: the given file, or else the nearest `pyproject.toml` above `cwd`. */
  method NewConfig(tomlPath: Option<Path>, cwd: Path, existing: set<Path>, parsed: map<Path, Document>)
    returns (r: Result<Config, ConfigError>)
    ensures tomlPath.Some? ==> r == LoadConfig(tomlPath.value, parsed)
    ensures tomlPath.None? ==>
      (r == Failure(PyprojectNotFound) <==> forall n :: 0 < n <= |cwd| ==> Candidate(cwd, n) !in existing)
    ensures tomlPath.None? && r.Success? ==> Nearest(cwd, existing, r.value.tomlPath)
    ensures tomlPath.None? ==> forall p :: Nearest(cwd, existing, p) ==> r == LoadConfig(p, parsed)
    ensures r.Success? ==> r.value.tomlPath in parsed && r.value.section == SlimdevSection(parsed[r.value.tomlPath])
    ensures r.Success? ==> r.value.section != []
  {
    var path: Path;
    if tomlPath.Some? {
      path := tomlPath.value;
    } else {
      var found := FindPyproject(cwd, existing);
      if found.Failure? {
        return Failure(found.error);
      }
      path := found.value;
      forall p | Nearest(cwd, existing, p) ensures p == path {
        NearestUnique(cwd, existing, p, path);
      }
    }
    r := LoadConfig(path, parsed);
  }

  /** `config.get(key, default)`; `None` stands for Python's `None`. */
  function Get(c: Config, key: string, default: Option<Value>): (r: Option<Value>)
    ensures forall i :: 0 <= i < |c.section| && c.section[i].0 == key ==> r == Some(c.section[i].1)
    ensures key !in Keys(c.section) ==> r == default
  {
    match Lookup(c.section, key)
    case Some(v) => Some(v)
    case None => default
  }

  /** `config[key]`: the stored value, or `KeyError` for an absent key. */
  function GetItem(c: Config, key: string): (r: Result<Value, ConfigError>)
    ensures r.Success? <==> key in Keys(c.section)
    ensures forall i :: 0 <= i < |c.section| && c.section[i].0 == key ==> r == Success(c.section[i].1)
    ensures r.Failure? ==> r.error == KeyMissing(key)
  {
    match Lookup(c.section, key)
    case Some(v) => Success(v)
    case None => Failure(KeyMissing(key))
  }

  /**
   * The dict `get_env_vars` builds from the entries `s`: each entry
   * assigns its value's environment text to its upper-cased key.
   */
  function EnvVarsOf(s: seq<(string, Value)>): Dict<string, string>
  {
    PutAll(EnvPairs(s))
  }

  /** `Config.get_env_vars`. */
  method GetEnvVars(c: Config) returns (result: Dict<string, string>)
    ensures result == EnvVarsOf(c.section)
  {
    result := [];
    for i := 0 to |c.section|
      invariant result == EnvVarsOf(c.section[..i])
    {
      var (key, value) := c.section[i];
      var envKey := Upper(key);
      var text: string;
      if value.Bool? {
        text := Lower(PyStr(value));
      } else {
        text := PyStr(value);
      }
      assert text == EnvValue(value);
      assert c.section[..i + 1] == c.section[..i] + [c.section[i]];
      EnvVarsSnoc(c.section[..i], c.section[i]);
      result := Put(result, envKey, text);
    }
    assert c.section[..|c.section|] == c.section;
  }

  lemma EnvPairsSnoc(s: seq<(string, Value)>, e: (string, Value))
    ensures EnvPairs(s + [e]) == EnvPairs(s) + [(EnvName(e.0), EnvValue(e.1))]
  {
  }

  lemma EnvVarsSnoc(s: seq<(string, Value)>, e: (string, Value))
    ensures EnvVarsOf(s + [e]) == Put(EnvVarsOf(s), EnvName(e.0), EnvValue(e.1))
  {
    EnvPairsSnoc(s, e);
    PutAllSnoc(EnvPairs(s), (EnvName(e.0), EnvValue(e.1)));
  }

  /** Every configuration key yields the variable named by its upper case, and only those exist. */
  lemma EnvVarsNames(s: seq<(string, Value)>)
    ensures forall name :: name in Keys(EnvVarsOf(s)) <==> exists i :: 0 <= i < |s| && EnvName(s[i].0) == name
  {
    PutAllKeys(EnvPairs(s));
  }

  /** A variable holds the value of the LAST entry whose key upper-cases to its name. */
  lemma EnvVarsValue(s: seq<(string, Value)>, i: nat)
    requires i < |s|
    requires forall j :: i < j < |s| ==> EnvName(s[j].0) != EnvName(s[i].0)
    ensures Lookup(EnvVarsOf(s), EnvName(s[i].0)) == Some(EnvValue(s[i].1))
  {
    PutAllLast(EnvPairs(s), i);
  }

  /**
   * When no two keys upper-case alike, there is exactly one variable per
   * configuration key, in section order.
   */
  lemma EnvVarsInOrder(s: seq<(string, Value)>)
    requires NamesDistinct(s)
    ensures EnvVarsOf(s) == EnvPairs(s)
  {
    PutAllDistinct(EnvPairs(s));
  }

  /** There is one variable per configuration key exactly when no two keys upper-case alike. */
  lemma EnvVarsOnePerKey(s: seq<(string, Value)>)
    ensures |EnvVarsOf(s)| == |s| <==> NamesDistinct(s)
  {
    PutAllOnePerPair(EnvPairs(s));
  }

  /** There are never more variables than configuration keys. */
  lemma EnvVarsCount(s: seq<(string, Value)>)
    ensures |EnvVarsOf(s)| <= |s|
  {
    PutAllCount(EnvPairs(s));
  }

  /** The `.env` text for the variables `env`: the header line, then one `KEY=VALUE` line each. */
  function EnvFileText(env: seq<(string, string)>): string {
    JoinLines([ENV_HEADER] + EnvLines(env))
  }

  lemma {:induction false} JoinLinesSnoc(ls: seq<string>, l: string)
    ensures JoinLines(ls + [l]) == JoinLines(ls) + l + "\n"
  {
    if ls != [] {
      assert (ls + [l])[1..] == ls[1..] + [l];
      JoinLinesSnoc(ls[1..], l);
    }
  }

  /** `Config.generate_env_file`: the text written to the `.env` file, or `IOError`. */
  method GenerateEnvFile(c: Config, path: Path, writable: bool) returns (r: Result<string, ConfigError>)
    ensures writable ==> r == Success(EnvFileText(EnvVarsOf(c.section)))
    ensures !writable ==> r == Failure(WriteFailed(path))
  {
    var env := GetEnvVars(c);
    if !writable {
      return Failure(WriteFailed(path));
    }
    ghost var all := [ENV_HEADER] + EnvLines(env);
    var text := ENV_HEADER + "\n";
    JoinLinesPrefix(all, 0);
    assert all[..1] == [ENV_HEADER];
    for i := 0 to |env|
      invariant text == JoinLines(all[..i + 1])
    {
      JoinLinesPrefix(all, i + 1);
      assert all[i + 1] == EnvLine(env[i].0, env[i].1);
      text := text + EnvLine(env[i].0, env[i].1) + "\n";
    }
    assert all[..|env| + 1] == all;
    return Success(text);
  }

  /** Writing one more line appends it and its `\n` to the text. */
  lemma JoinLinesPrefix(ls: seq<string>, i: nat)
    requires i < |ls|
    ensures JoinLines(ls[..i + 1]) == JoinLines(ls[..i]) + ls[i] + "\n"
  {
    assert ls[..i + 1] == ls[..i] + [ls[i]];
    JoinLinesSnoc(ls[..i], ls[i]);
  }

  /** Reading the `.env` text back line by line gives the header and then the variables in order. */
  lemma EnvFileLines(env: seq<(string, string)>)
    requires forall i :: 0 <= i < |env| ==> '\n' !in env[i].0 && '\n' !in env[i].1
    ensures FileLines(EnvFileText(env)) == [ENV_HEADER] + EnvLines(env)
  {
    var ls := [ENV_HEADER] + EnvLines(env);
    HeaderOneLine('\n');
    forall i | 0 <= i < |ls| ensures '\n' !in ls[i] {
      if i > 0 {
        EnvLineAvoids(env[i - 1].0, env[i - 1].1, '\n');
      }
    }
    FileLinesJoin(ls);
  }

  /**
   * The header literal as four pieces. It states no property of its own:
   * the lemmas below reason about one short piece at a time, which the
   * solver handles far more cheaply than the whole literal.
   */
  lemma HeaderPieces()
    ensures ENV_HEADER == "# Generated " + "from " + "pyproject.toml" + " - DO NOT EDIT"
  {
  }

  /** The header starts with `#` and ends in a non-space. */
  lemma HeaderEnds()
    ensures |ENV_HEADER| > 0 && ENV_HEADER[0] == '#' && ENV_HEADER[|ENV_HEADER| - 1] == 'T'
  {
    HeaderPieces();
  }

  /** The header is a single line: it holds no `\n` and no `\r`. */
  lemma HeaderOneLine(c: char)
    requires c == '\n' || c == '\r'
    ensures c !in ENV_HEADER
  {
    HeaderPieces();
    assert c !in "# Generated " && c !in "from ";
    assert c !in "pyproject.toml" && c !in " - DO NOT EDIT";
  }

  /** A `KEY=VALUE` line holds a character other than `=` only if its key or value does. */
  lemma EnvLineAvoids(key: string, value: string, c: char)
    requires c != '=' && c !in key && c !in value
    ensures c !in EnvLine(key, value)
  {
  }

  /**
   * `generate_env()`: the `.devcontainer` directory next to `cwd` if it
   * exists, else the one inside `cwd`; the second flag says it must be created.
   */
  function DevcontainerDir(cwd: Path, existing: set<Path>): (r: (Path, bool))
    ensures Join(Parent(cwd), ".devcontainer") in existing ==> r == (Join(Parent(cwd), ".devcontainer"), false)
    ensures Join(Parent(cwd), ".devcontainer") !in existing ==> r.0 == Join(cwd, ".devcontainer")
    ensures r.1 <==> r.0 !in existing
  {
    var sibling := Join(Parent(cwd), ".devcontainer");
    if sibling in existing then (sibling, false)
    else
      var inner := Join(cwd, ".devcontainer");
      (inner, inner !in existing)
  }

  /** The `.env` file `generate_env()` writes. */
  function EnvPath(cwd: Path, existing: set<Path>): Path {
    Join(DevcontainerDir(cwd, existing).0, ".env")
  }

  /**
   * `generate_env()`: loads the configuration found from `cwd` and writes
   * `.devcontainer/.env`; the result is the file written, whether the
   * directory had to be created, and the text written.
   */
  method GenerateEnv(cwd: Path, existing: set<Path>, parsed: map<Path, Document>, writable: bool)
    returns (r: Result<(Path, bool, string), ConfigError>)
    ensures r.Success? ==> writable
    ensures r.Success? ==> r.value.0 == Join(DevcontainerDir(cwd, existing).0, ".env")
    ensures r.Success? ==> r.value.1 == DevcontainerDir(cwd, existing).1
    ensures r.Success? ==>
      exists p :: (Nearest(cwd, existing, p) && p in parsed
        && r.value.2 == EnvFileText(EnvVarsOf(SlimdevSection(parsed[p]))))
    ensures (forall n :: 0 < n <= |cwd| ==> Candidate(cwd, n) !in existing) ==> r == Failure(PyprojectNotFound)
    ensures forall p :: Nearest(cwd, existing, p) && LoadConfig(p, parsed).Failure? ==>
      r == Failure(LoadConfig(p, parsed).error)
    ensures forall p :: Nearest(cwd, existing, p) && LoadConfig(p, parsed).Success? && !writable ==>
      r == Failure(WriteFailed(EnvPath(cwd, existing)))
    ensures forall p :: Nearest(cwd, existing, p) && LoadConfig(p, parsed).Success? && writable ==>
      r == Success((EnvPath(cwd, existing), DevcontainerDir(cwd, existing).1,
                    EnvFileText(EnvVarsOf(SlimdevSection(parsed[p])))))
  {
    var config := NewConfig(None, cwd, existing, parsed);
    if config.Failure? {
      return Failure(config.error);
    }
    var (dir, create) := DevcontainerDir(cwd, existing);
    var envFile := Join(dir, ".env");
    var text := GenerateEnvFile(config.value, envFile, writable);
    if text.Failure? {
      return Failure(text.error);
    }
    return Success((envFile, create, text.value));
  }
}
