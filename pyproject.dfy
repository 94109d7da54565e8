/**
 * The parsed `pyproject.toml` the configuration code starts from, and the
 * rendering of `[tool.slimdev]` values as environment variables shared by
 * `slimdev/config.py` and `scripts/extract_config.py`.
 */
module Pyproject {
  import opened Wrappers
  import opened Text
  import opened Dicts

  /** A value of `[tool.slimdev]`: a TOML boolean, string or integer. */
  datatype Value = Bool(b: bool) | Str(s: string) | Int(i: int)

  /** A TOML table as the ordered, duplicate-free dict `tomli` returns. */
  type Section = Dict<string, Value>

  /**
   * A parsed `pyproject.toml`, reduced to its `[tool.*]` sub-tables; a
   * document without a `[tool]` table has none.
   */
  datatype Document = Document(toolTables: map<string, Section>)

  /** `pyproject.get("tool", {}).get("slimdev", {})`. */
  function SlimdevSection(doc: Document): (s: Section)
    ensures "slimdev" !in doc.toolTables ==> s == []
    ensures "slimdev" in doc.toolTables ==> s == doc.toolTables["slimdev"]
  {
    if "slimdev" in doc.toolTables then doc.toolTables["slimdev"] else []
  }

  /** Python's `str(value)`. */
  function PyStr(v: Value): (r: string)
    ensures v.Bool? ==> r == if v.b then "True" else "False"
    ensures v.Str? ==> r == v.s
    ensures v.Int? ==> Canonical(r) && DecimalValue(r) == Some(v.i)
  {
    match v
    case Bool(b) => if b then "True" else "False"
    case Str(s) => s
    case Int(i) => DecimalRoundTrip(i); Decimal(i)
  }

  /** The environment text of a value: `str(value).lower()` for a boolean, `str(value)` otherwise. */
  function EnvValue(v: Value): (r: string)
    ensures v.Bool? ==> r == if v.b then "true" else "false"
    ensures v.Str? ==> r == v.s
    ensures v.Int? ==> Canonical(r) && DecimalValue(r) == Some(v.i)
  {
    if v.Bool? then
      var r := Lower(PyStr(v));
      assert r == if v.b then "true" else "false";
      r
    else
      PyStr(v)
  }

  /** The environment variable name of a configuration key. */
  function EnvName(key: string): string {
    Upper(key)
  }

  /** One `(NAME, value)` pair per configuration entry, in section order. */
  function EnvPairs(s: seq<(string, Value)>): (r: seq<(string, string)>)
    ensures |r| == |s|
    ensures forall i :: 0 <= i < |s| ==> r[i] == (EnvName(s[i].0), EnvValue(s[i].1))
  {
    seq(|s|, i requires 0 <= i < |s| => (EnvName(s[i].0), EnvValue(s[i].1)))
  }

  /** The text `f"{key}={value}"`. */
  function EnvLine(key: string, value: string): string {
    key + "=" + value
  }

  /** One `KEY=VALUE` line per pair, in order. */
  function EnvLines(pairs: seq<(string, string)>): (r: seq<string>)
    ensures |r| == |pairs|
    ensures forall i :: 0 <= i < |pairs| ==> r[i] == EnvLine(pairs[i].0, pairs[i].1)
  {
    seq(|pairs|, i requires 0 <= i < |pairs| => EnvLine(pairs[i].0, pairs[i].1))
  }

  /** No two entries of the section have keys that upper-case to the same name. */
  predicate NamesDistinct(s: seq<(string, Value)>) {
    forall i, j :: 0 <= i < j < |s| ==> EnvName(s[i].0) != EnvName(s[j].0)
  }
}
