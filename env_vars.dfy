/**
 * `cicd/verify/env_vars.py`: reads `.devcontainer/.env` into a dict and
 * checks that every required variable is set to a non-empty value.
 */
module EnvVerify {
  import opened Wrappers
  import opened Text

  const REQUIRED_KEYS: seq<string> := [
    "CPUS", "MEMORY", "STORAGE", "DEV_CONTAINER_NAME",
    "DEV_MODE", "USE_ROOT_USER", "ZSH_AUTOSUGGESTIONS_REPO",
    "USERNAME"
  ]
  const ENV_MISSING := "Error: .env missing."
  const ALL_SET := "All env vars set."

  /**
   * The assignment one line makes: the stripped line is cut at its first
   * `=`, and both sides are stripped again; blank lines, comments and lines
   * without `=` make none.
   */
  function LineEntry(ln: string): (r: Option<(string, string)>)
    ensures r.None? <==> BlankOrComment(Strip(ln)) || '=' !in Strip(ln)
    ensures r.Some? ==> Strip(r.value.0) == r.value.0 && Strip(r.value.1) == r.value.1
  {
    var t := Strip(ln);
    if BlankOrComment(t) then None
    else
      match SplitFirst(t, '=')
      case None => None
      case Some((key, value)) =>
        StripIdempotent(key);
        StripIdempotent(value);
        Some((Strip(key), Strip(value)))
  }

  /**
   * What a line contributes, stated without the splitting: nothing exactly for
   * blank lines, comments and lines without `=`; otherwise the stripped text
   * before the first `=` as key and the stripped text after it as value.
   */
  lemma LineEntrySpec(ln: string)
    ensures var t := Strip(ln);
      LineEntry(ln).None? <==> BlankOrComment(t) || '=' !in t
    ensures var t := Strip(ln);
      LineEntry(ln).Some? ==>
        exists i :: (0 <= i < |t| && t[i] == '=' && '=' !in t[..i]
          && LineEntry(ln).value == (Strip(t[..i]), Strip(t[i + 1..])))
  {
    var t := Strip(ln);
    if !BlankOrComment(t) && '=' in t {
      var sp := SplitFirst(t, '=');
      var i := |sp.value.0|;
      assert t[..i] == sp.value.0 && t[i + 1..] == sp.value.1;
    }
  }

  /** `env` after the assignment `entry`, if any. */
  function Assign(env: map<string, string>, entry: Option<(string, string)>): map<string, string> {
    match entry
    case None => env
    case Some((key, value)) => env[key := value]
  }

  /** The dict the reading loop builds from `lines`: later assignments override earlier ones. */
  function ParseEnv(lines: seq<string>): map<string, string>
  {
    if lines == [] then map[]
    else Assign(ParseEnv(lines[..|lines| - 1]), LineEntry(lines[|lines| - 1]))
  }

  /** The reading loop of `main`. */
  method ReadEnv(lines: seq<string>) returns (envVars: map<string, string>)
    ensures envVars == ParseEnv(lines)
  {
    envVars := map[];
    for n := 0 to |lines|
      invariant envVars == ParseEnv(lines[..n])
    {
      var ln := Strip(lines[n]);
      assert lines[..n + 1][..n] == lines[..n];
      if ln == "" || StartsWith(ln, "#") {
        continue;
      }
      var parts := SplitFirst(ln, '=');
      if parts.Some? {
        envVars := envVars[Strip(parts.value.0) := Strip(parts.value.1)];
      }
    }
    assert lines[..|lines|] == lines;
  }

  /** A key is defined exactly when some line assigns it. */
  lemma {:induction false} ParseEnvKeys(lines: seq<string>, key: string)
    ensures key in ParseEnv(lines) <==>
      exists i :: 0 <= i < |lines| && LineEntry(lines[i]).Some? && LineEntry(lines[i]).value.0 == key
  {
    if lines != [] {
      var init := lines[..|lines| - 1];
      ParseEnvKeys(init, key);
      assert forall i :: 0 <= i < |init| ==> init[i] == lines[i];
    }
  }

  /** A key holds the value of the LAST line that assigns it. */
  lemma {:induction false} ParseEnvLastWins(lines: seq<string>, i: nat, key: string, value: string)
    requires i < |lines| && LineEntry(lines[i]) == Some((key, value))
    requires forall j :: i < j < |lines| && LineEntry(lines[j]).Some? ==> LineEntry(lines[j]).value.0 != key
    ensures key in ParseEnv(lines) && ParseEnv(lines)[key] == value
  {
    if i < |lines| - 1 {
      var init := lines[..|lines| - 1];
      assert init[i] == lines[i];
      ParseEnvLastWins(init, i, key, value);
    }
  }

  lemma ParseEnvSnoc(lines: seq<string>)
    requires lines != []
    ensures ParseEnv(lines) == Assign(ParseEnv(lines[..|lines| - 1]), LineEntry(lines[|lines| - 1]))
  {
  }

  /** A blank, comment or `=`-less line can be removed without changing the result. */
  lemma {:induction false} ParseEnvIgnores(a: seq<string>, ln: string, b: seq<string>)
    requires LineEntry(ln).None?
    ensures ParseEnv(a + [ln] + b) == ParseEnv(a + b)
  {
    if b == [] {
      assert (a + [ln])[..|a|] == a;
      assert a + [ln] + [] == a + [ln];
      assert a + [] == a;
    } else {
      var b' := b[..|b| - 1];
      var x, y := a + [ln] + b, a + b;
      assert x[..|x| - 1] == a + [ln] + b';
      assert y[..|y| - 1] == a + b';
      assert x[|x| - 1] == y[|y| - 1];
      ParseEnvIgnores(a, ln, b');
      ParseEnvSnoc(x);
      ParseEnvSnoc(y);
    }
  }

  /** `key` is set: present with a non-empty value (`not env_vars[key]` is false). */
  predicate IsSet(env: map<string, string>, key: string) {
    key in env && env[key] != ""
  }

  /** The line printed for one required key. */
  function ReportLine(env: map<string, string>, key: string): (r: string)
    ensures StartsWith(r, "[OK] ") <==> IsSet(env, key)
    ensures IsSet(env, key) ==> r == "[OK] " + key
    ensures !IsSet(env, key) ==> r == "Error: " + key + " not set."
  {
    if IsSet(env, key) then "[OK] " + key
    else
      var r := "Error: " + key + " not set.";
      assert r[0] != "[OK] "[0];
      r
  }

  /** The checking loop of `main`: every key is checked and reported, in order. */
  method CheckRequired(env: map<string, string>, keys: seq<string>) returns (ok: bool, report: seq<string>)
    ensures ok <==> forall i :: 0 <= i < |keys| ==> IsSet(env, keys[i])
    ensures |report| == |keys|
    ensures forall i :: 0 <= i < |keys| ==> report[i] == ReportLine(env, keys[i])
  {
    ok := true;
    report := [];
    for n := 0 to |keys|
      invariant ok <==> forall i :: 0 <= i < n ==> IsSet(env, keys[i])
      invariant |report| == n
      invariant forall i :: 0 <= i < n ==> report[i] == ReportLine(env, keys[i])
    {
      var key := keys[n];
      if key !in env || env[key] == "" {
        report := report + ["Error: " + key + " not set."];
        ok := false;
      } else {
        report := report + ["[OK] " + key];
      }
    }
  }

  /**
   * `main`: `envFile` is the text of `.devcontainer/.env`, `None` when the
   * file does not exist; the result is the exit status and the printed lines.
   */
  method VerifyEnvFile(envFile: Option<string>) returns (exitCode: int, out: seq<string>)
    ensures envFile.None? ==> exitCode == 1 && out == [ENV_MISSING]
    ensures envFile.Some? ==> var env := ParseEnv(ReadLines(envFile.value));
      && (exitCode == 0 <==> forall i :: 0 <= i < |REQUIRED_KEYS| ==> IsSet(env, REQUIRED_KEYS[i]))
      && (exitCode == 0 || exitCode == 1)
      && |out| == |REQUIRED_KEYS| + (if exitCode == 0 then 1 else 0)
      && (forall i :: 0 <= i < |REQUIRED_KEYS| ==> out[i] == ReportLine(env, REQUIRED_KEYS[i]))
      && (exitCode == 0 ==> out[|REQUIRED_KEYS|] == ALL_SET)
  {
    if envFile.None? {
      return 1, [ENV_MISSING];
    }
    var envVars := ReadEnv(ReadLines(envFile.value));
    var ok, report := CheckRequired(envVars, REQUIRED_KEYS);
    if ok {
      return 0, report + [ALL_SET];
    }
    return 1, report;
  }
}
