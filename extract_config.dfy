/**
 * `scripts/extract_config.py`: prints `[tool.slimdev]` as `KEY=VALUE`
 * lines, one per configuration entry, or fails when the section is missing.
 */
module ExtractConfig {
  import opened Text
  import opened Pyproject
  import SlimConfig

  const MISSING_SECTION := "Error: No tool.slimdev section found in pyproject.toml"

  /** What the script leaves behind: its exit status and the lines it printed. */
  datatype Outcome = Outcome(exitCode: int, stdout: seq<string>, stderr: seq<string>)

  /** `main()` on an already parsed `pyproject.toml`. */
  method Extract(doc: Document) returns (o: Outcome)
    ensures SlimdevSection(doc) == [] ==> o == Outcome(1, [], [MISSING_SECTION])
    ensures SlimdevSection(doc) != [] ==>
      o.exitCode == 0 && o.stderr == [] && o.stdout == EnvLines(EnvPairs(SlimdevSection(doc)))
  {
    var config := SlimdevSection(doc);
    if config == [] {
      return Outcome(1, [], [MISSING_SECTION]);
    }
    var out: seq<string> := [];
    for i := 0 to |config|
      invariant out == EnvLines(EnvPairs(config[..i]))
    {
      var (key, value) := config[i];
      key := Upper(key);
      var text: string;
      if value.Bool? {
        text := Lower(PyStr(value));
      } else {
        text := PyStr(value);
      }
      assert EnvPairs(config[..i + 1]) == EnvPairs(config[..i]) + [(key, text)];
      out := out + [key + "=" + text];
    }
    assert config[..|config|] == config;
    return Outcome(0, out, []);
  }

  /**
   * When no two keys upper-case alike, the script prints exactly the
   * variables `Config.get_env_vars` returns, in the same order, which are the
   * lines after the header of the generated `.env` file.
   */
  lemma AgreesWithConfig(s: Section)
    requires NamesDistinct(s)
    requires forall i :: 0 <= i < |s| ==> '\n' !in s[i].0 && '\n' !in EnvValue(s[i].1)
    ensures EnvLines(EnvPairs(s)) == EnvLines(SlimConfig.EnvVarsOf(s))
    ensures FileLines(SlimConfig.EnvFileText(SlimConfig.EnvVarsOf(s))) == [SlimConfig.ENV_HEADER] + EnvLines(EnvPairs(s))
  {
    SlimConfig.EnvVarsInOrder(s);
    var env := SlimConfig.EnvVarsOf(s);
    forall i | 0 <= i < |env| ensures '\n' !in env[i].0 && '\n' !in env[i].1 {
      assert env[i] == (Upper(s[i].0), EnvValue(s[i].1));
      UpperKeepsNewline(s[i].0);
    }
    SlimConfig.EnvFileLines(env);
  }

  lemma UpperKeepsNewline(s: string)
    requires '\n' !in s
    ensures '\n' !in Upper(s)
  {
    assert forall k :: 0 <= k < |s| ==> Upper(s)[k] == UpperChar(s[k]);
  }

  /** The script prints more lines than there are variables exactly when two keys upper-case alike. */
  lemma MoreLinesOnCollision(s: Section)
    ensures |EnvLines(EnvPairs(s))| > |SlimConfig.EnvVarsOf(s)| <==> !NamesDistinct(s)
  {
    SlimConfig.EnvVarsOnePerKey(s);
    SlimConfig.EnvVarsCount(s);
  }
}
