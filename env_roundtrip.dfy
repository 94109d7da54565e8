/**
 * The `.env` file written by `Config.generate_env_file` read back by the
 * parser of `cicd/verify/env_vars.py`.
 */
module EnvRoundTrip {
  import opened Wrappers
  import opened Text
  import opened Dicts
  import opened Pyproject
  import opened SlimConfig
  import opened EnvVerify

  /** A variable name the `.env` parser reads back unchanged. */
  predicate CleanName(k: string) {
    '\n' !in k && '\r' !in k && '=' !in k && Strip(k) == k && !StartsWith(k, "#")
  }

  /** A variable value the `.env` parser reads back unchanged. */
  predicate CleanValue(v: string) {
    '\n' !in v && '\r' !in v && Strip(v) == v
  }

  predicate CleanVars(env: seq<(string, string)>) {
    forall i :: 0 <= i < |env| ==> CleanName(env[i].0) && CleanValue(env[i].1)
  }

  lemma StrippedEnds(s: string)
    requires Strip(s) == s && s != []
    ensures !IsSpace(s[0]) && !IsSpace(s[|s| - 1])
  {
    StripSlice(s);
  }

  /** A `KEY=VALUE` line is read back as the assignment of `VALUE` to `KEY`. */
  lemma LineEntryOfEnvLine(k: string, v: string)
    requires CleanName(k) && CleanValue(v)
    ensures LineEntry(EnvLine(k, v)) == Some((k, v))
  {
    var t := EnvLine(k, v);
    assert t == k + ['='] + v;
    if k != [] { StrippedEnds(k); assert t[0] == k[0]; }
    if v != [] { StrippedEnds(v); assert t[|t| - 1] == v[|v| - 1]; }
    StripClean(t);
    assert !StartsWith(t, "#") by {
      if k != [] { assert t[..1] == k[..1]; }
    }
    var sp := SplitFirst(t, '=');
    SplitUnique(sp.value.0, sp.value.1, k, v, '=');
  }

  /** The header line of the generated file is a comment. */
  lemma HeaderIgnored()
    ensures LineEntry(ENV_HEADER) == None
  {
    var h := ENV_HEADER;
    HeaderEnds();
    StripClean(h);
    assert h[..1] == "#";
  }

  /**
   * The variable lines, parsed in order after lines that assign nothing,
   * give the variables as a map.
   */
  lemma {:induction false} ParseEnvLines(pre: seq<string>, env: seq<(string, string)>)
    requires ParseEnv(pre) == map[] && CleanVars(env)
    ensures ParseEnv(pre + EnvLines(env)) == ToMap(env)
  {
    if env == [] {
      assert pre + EnvLines(env) == pre;
    } else {
      var init := env[..|env| - 1];
      var last := env[|env| - 1];
      var ls := pre + EnvLines(env);
      assert ls[..|ls| - 1] == pre + EnvLines(init);
      assert ls[|ls| - 1] == EnvLine(last.0, last.1);
      ParseEnvLines(pre, init);
      LineEntryOfEnvLine(last.0, last.1);
      ParseEnvSnoc(ls);
      assert ParseEnv(ls) == ToMap(init)[last.0 := last.1];
    }
  }

  lemma {:induction false} JoinLinesAvoids(ls: seq<string>, c: char)
    requires c != '\n' && forall i :: 0 <= i < |ls| ==> c !in ls[i]
    ensures c !in JoinLines(ls)
  {
    if ls != [] {
      JoinLinesAvoids(ls[1..], c);
    }
  }

  /** The generated file has no carriage return, so text-mode reading leaves it as written. */
  lemma NoCarriageReturn(env: seq<(string, string)>)
    requires CleanVars(env)
    ensures Newlines(EnvFileText(env)) == EnvFileText(env)
  {
    var ls := [ENV_HEADER] + EnvLines(env);
    HeaderOneLine('\r');
    forall i | 0 <= i < |ls| ensures '\r' !in ls[i] {
      if i > 0 {
        EnvLineAvoids(env[i - 1].0, env[i - 1].1, '\r');
      }
    }
    JoinLinesAvoids(ls, '\r');
  }

  /**
   * Reading back the `.env` file written for `env` gives exactly its
   * variables, whenever names and values carry no surrounding whitespace,
   * no line break, and names have no `=` and do not start with `#`.
   */
  lemma EnvFileRoundTrip(env: Dict<string, string>)
    requires CleanVars(env)
    ensures ParseEnv(ReadLines(EnvFileText(env))) == ToMap(env)
  {
    NoCarriageReturn(env);
    EnvFileLines(env);
    HeaderIgnored();
    assert [ENV_HEADER][..0] == [];
    ParseEnvLines([ENV_HEADER], env);
  }

  /**
   * `env_vars.py` accepts a required name in the `.env` file generated from
   * `s` exactly when some configuration key upper-cases to it and the
   * variable's text is not empty.
   */
  lemma GeneratedFileChecks(s: Section, name: string)
    requires CleanVars(EnvVarsOf(s))
    ensures IsSet(ParseEnv(ReadLines(EnvFileText(EnvVarsOf(s)))), name) <==>
      (exists i :: 0 <= i < |s| && EnvName(s[i].0) == name) && Lookup(EnvVarsOf(s), name) != Some("")
  {
    var env := EnvVarsOf(s);
    EnvFileRoundTrip(env);
    EnvVarsNames(s);
    if name in Keys(env) {
      var i := IndexOf(env, name);
      ToMapAt(env, i);
    }
  }
}
