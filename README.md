# slimdev configuration and workspace scripts in Dafny

This project models the small pieces of sequential logic in the slimdev
development-container tooling:

- **`slimdev/config.py`**. `Config` finds `pyproject.toml` by walking up from the
  working directory. It loads the `[tool.slimdev]` table and rejects an empty one.
  It answers `get`/`[]` lookups and turns the table into environment variables:
  upper-cased names, booleans lowered to `true`/`false`. It writes them to
  `.devcontainer/.env` under a fixed header line.
- **`scripts/extract_config.py`** prints the same table as `KEY=VALUE` lines, or
  fails when the table is missing.
- **`cicd/verify/env_vars.py`** reads `.devcontainer/.env` line by line into a
  dict and checks that eight required variables are set to non-empty values.
- **`cicd/verify/requirements.py`** checks that every requirement line pins its
  version with `==`.
- **`create-workspace/create_workspace.py`** walks a nested structure. A dict
  is a directory to recurse into, a list is a directory of placeholder files,
  and `None` is a file whose template an if/elif chain picks by name. It runs
  from the command line with an optional target directory.

The outside world is passed in:

- Which paths exist is a `set<Path>`.
- What `tomli` made of each `pyproject.toml` is a `map<Path, Document>`; a path
  that is absent from it failed to open or to parse.
- A file's text is an `Option<string>`; `None` means the file is missing.
- Whether a write succeeds is a `bool`.
- Printed lines and exit statuses are results.

The workspace walker is imperative. A `FileSystem` object holds directories and
files, and `ProcessStructure` updates it step by step. It is proved against
`Walk`, a function that lists the effects (`MakeDir`, `Write`) in order, and
against `Apply`, which plays those effects on a disk value. The facts the script
promises are proved about `Walk` and `Apply`:

- files are written exactly at the structure's leaves;
- nothing is written outside the base directory;
- every parent directory exists before something is made inside it;
- running the walk twice changes nothing.

Modules:

- `Wrappers`: `Option` and `Result`.
- `Text`: Python's `str.strip`, `upper`/`lower`, `split("=", 1)`, `in`, `str(int)`,
  and reading a text file as lines.
- `Dicts`: insertion-ordered Python dicts.
- `Paths`: absolute paths as component lists.
- `Pyproject`: parsed TOML values and the environment-variable rendering.
- `SlimConfig`: `Config` and `generate_env`.
- `ExtractConfig`, `EnvVerify`, `RequirementsVerify`: the three scripts.
- `EnvRoundTrip`: the generated `.env` read back by the verifier.
- `Workspace`: the workspace creator.

## Model

| member | source | states |
|---|---|---|
| SlimConfig.FindPyproject | slimdev/config.py:29-42 | succeeds iff some directory from cwd up to, but excluding, the root holds `pyproject.toml`; the result is the nearest such candidate and never the root's; otherwise `FileNotFoundError` |
| SlimConfig.LoadConfig | slimdev/config.py:44-61 | succeeds iff the file parsed and its `tool.slimdev` table is non-empty, returning that table; a parse failure and a missing/empty table are the two distinct errors |
| SlimConfig.NewConfig | slimdev/config.py:16-27 | an explicit path is loaded as given; without one, the nearest `pyproject.toml` is used and failure to find one is the not-found error; whenever a nearest candidate exists, the result is exactly what loading it gives; every built `Config` holds a non-empty section |
| SlimConfig.NearestUnique | slimdev/config.py:29-42 | the walk up from cwd stops at one candidate: two nearest `pyproject.toml` paths are the same path |
| SlimConfig.Get | slimdev/config.py:107-118 | the stored value when the key is present, else the default |
| SlimConfig.GetItem | slimdev/config.py:103-105 | succeeds iff the key is present, with the stored value; otherwise a key error naming the key |
| SlimConfig.GetEnvVars | slimdev/config.py:63-83 | the loop's dict equals `EnvVarsOf(section)`, the fold of dict assignments of (upper-cased key, rendered value) in section order |
| SlimConfig.EnvPairsSnoc | slimdev/config.py:72-81 | one more table entry adds exactly one rendered (name, value) pair at the end |
| SlimConfig.EnvVarsSnoc | slimdev/config.py:72-81 | one more table entry performs exactly one dict assignment `result[KEY] = value` |
| SlimConfig.EnvVarsNames | slimdev/config.py:72-73 | a name is a variable iff it is the upper-cased form of some table key |
| SlimConfig.EnvVarsValue | slimdev/config.py:76-81 | each variable holds the rendered value of the last table key that upper-cases to it |
| SlimConfig.EnvVarsInOrder | slimdev/config.py:72-81 | when no two keys upper-case alike, the variables are exactly the rendered pairs in table order |
| SlimConfig.EnvVarsOnePerKey | slimdev/config.py:72-81 | there is one variable per table key iff no two keys upper-case alike |
| SlimConfig.EnvVarsCount | slimdev/config.py:72-81 | never more variables than table keys |
| SlimConfig.JoinLinesSnoc | slimdev/config.py:97-98 | writing one more line appends that line and a newline |
| SlimConfig.GenerateEnvFile | slimdev/config.py:85-101 | when writable, the file text is the header line followed by one `KEY=VALUE` line per variable (`EnvFileText`); otherwise an I/O error naming the path |
| SlimConfig.JoinLinesPrefix | slimdev/config.py:97-98 | the written text after i+1 lines extends the text after i lines by line i |
| SlimConfig.EnvFileLines | slimdev/config.py:96-98 | when names and values are newline-free, reading the file back line by line gives the header followed by the `KEY=VALUE` lines |
| SlimConfig.HeaderEnds | slimdev/config.py:96 | the header starts with `#` and ends with `T` |
| SlimConfig.HeaderOneLine | slimdev/config.py:96 | the header holds no `\n` or `\r` |
| SlimConfig.EnvLineAvoids | slimdev/config.py:98 | a `KEY=VALUE` line contains a character other than `=` only if key or value does |
| SlimConfig.DevcontainerDir | slimdev/config.py:130-137 | `../.devcontainer` when it exists, else `./.devcontainer`; it is created exactly when the chosen directory does not exist |
| SlimConfig.GenerateEnv | slimdev/config.py:121-140 | no candidate gives the not-found error; a nearest file that fails to load gives that load error; a nearest file that loads gives an I/O error naming `<chosen dir>/.env` when the write is refused, and otherwise writes that file with the created flag of `DevcontainerDir` and the text `EnvFileText` of its variables |
| Pyproject.SlimdevSection | slimdev/config.py:53 | the `tool.slimdev` table, empty when it is absent |
| Pyproject.PyStr | slimdev/config.py:76-79 | Python's `str` of a value: `True`/`False` for booleans, a string unchanged, an integer as canonical decimal text (no leading zero, no `-0`) that parses back to it |
| Pyproject.EnvValue | slimdev/config.py:76-79 | booleans become `true`/`false`; strings are unchanged; integers render as canonical decimal text that parses back to the same integer |
| Pyproject.EnvPairs | scripts/extract_config.py:24-28 | one rendered (upper-cased key, value) pair per table entry, in table order |
| Pyproject.EnvLines | scripts/extract_config.py:28 | one `KEY=VALUE` line per pair, in order |
| ExtractConfig.Extract | scripts/extract_config.py:9-28 | a missing or empty table gives exit 1, no stdout and the error on stderr; otherwise exit 0 and one `KEY=VALUE` line per table entry, in order |
| ExtractConfig.AgreesWithConfig | scripts/extract_config.py:24-28 | when no two keys upper-case alike and nothing holds a newline, the printed lines are exactly `get_env_vars`' lines and the lines after the header of the generated `.env` |
| ExtractConfig.UpperKeepsNewline | scripts/extract_config.py:25 | upper-casing introduces no newline |
| ExtractConfig.MoreLinesOnCollision | scripts/extract_config.py:24-28 | the script prints more lines than `get_env_vars` has variables iff two keys upper-case alike |
| EnvVerify.LineEntry | cicd/verify/env_vars.py:22-27 | a line assigns nothing iff, once stripped, it is blank, a comment or has no `=`; an assigned key and value are already stripped |
| EnvVerify.ReportLine | cicd/verify/env_vars.py:30-34 | the report for a key starts with `[OK] ` iff the key is set (`IsSet`: present with a non-empty value); a set key gets `[OK] K`, an unset one `Error: K not set.` |
| EnvVerify.LineEntrySpec | cicd/verify/env_vars.py:21-27 | a line assigns nothing iff, once stripped, it is blank, a comment or has no `=`; otherwise the key is the stripped text before its first `=` and the value the stripped text after it |
| EnvVerify.ReadEnv | cicd/verify/env_vars.py:19-27 | the loop's dict equals `ParseEnv(lines)`, the fold of each line's assignment |
| EnvVerify.ParseEnvKeys | cicd/verify/env_vars.py:19-27 | a key is defined iff some line assigns it |
| EnvVerify.ParseEnvLastWins | cicd/verify/env_vars.py:27 | a key holds the value of the last line assigning it |
| EnvVerify.ParseEnvSnoc | cicd/verify/env_vars.py:21-27 | one more line applies that line's assignment, if any |
| EnvVerify.ParseEnvIgnores | cicd/verify/env_vars.py:23-26 | removing a blank, comment or `=`-less line leaves the dict unchanged |
| EnvVerify.CheckRequired | cicd/verify/env_vars.py:28-34 | ok iff every required key is present with a non-empty value; one report line per key, in order, `[OK] K` or `Error: K not set.` |
| EnvVerify.VerifyEnvFile | cicd/verify/env_vars.py:9-38 | missing file: exit 1 with the missing message; otherwise exit 0 iff all eight keys are set, every key reported in order, then `All env vars set.` on success |
| RequirementsVerify.CheckPinned | cicd/verify/requirements.py:14-22 | all pinned iff no line is rejected (non-blank, non-comment, no `==`); the report is `Messages` of the rejected lines: one `Error: Unpinned req:` message per rejected line, in order |
| RequirementsVerify.Unpinned | cicd/verify/requirements.py:17-21 | the stripped lines that are `Rejected` (not blank, not a comment, no `==`), in file order: never more than the lines, and none blank or a comment |
| RequirementsVerify.UnpinnedNone | cicd/verify/requirements.py:14-23 | nothing is reported iff no line is rejected |
| RequirementsVerify.UnpinnedSnoc | cicd/verify/requirements.py:16-22 | scanning one more line adds its stripped text iff it is rejected, and nothing otherwise |
| RequirementsVerify.Messages | cicd/verify/requirements.py:21 | one message per reported line |
| RequirementsVerify.MessagesSnoc | cicd/verify/requirements.py:21 | reporting one more line appends exactly its message |
| RequirementsVerify.MessagesAt | cicd/verify/requirements.py:21 | the i-th message is `Error: Unpinned req: ` followed by the i-th reported line |
| RequirementsVerify.UnpinnedLines | cicd/verify/requirements.py:17-21 | a text is reported iff it is the stripped form of some rejected line |
| RequirementsVerify.OnlyCommentsPass | cicd/verify/requirements.py:14-25 | a file of blanks and comments reports nothing |
| RequirementsVerify.VerifyRequirements | cicd/verify/requirements.py:9-26 | missing file: exit 1 with the missing message; otherwise exit 0 iff no line is rejected, with every unpinned line reported and only the success line on exit 0 |
| EnvRoundTrip.StrippedEnds | cicd/verify/env_vars.py:22 | a non-empty string that stripping leaves unchanged neither starts nor ends with whitespace |
| EnvRoundTrip.LineEntryOfEnvLine | cicd/verify/env_vars.py:22-27 | the verifier reads a generated `KEY=VALUE` line with a clean key and value back as exactly (KEY, VALUE) |
| EnvRoundTrip.HeaderIgnored | cicd/verify/env_vars.py:23-24 | the verifier skips the generated header line |
| EnvRoundTrip.ParseEnvLines | cicd/verify/env_vars.py:19-27 | after lines that assign nothing, the `KEY=VALUE` lines of clean variables parse to exactly those variables |
| EnvRoundTrip.JoinLinesAvoids | slimdev/config.py:96-98 | a character absent from every line, other than `\n`, is absent from the written text |
| EnvRoundTrip.NoCarriageReturn | slimdev/config.py:96-98 | the generated text holds no `\r`, so newline translation on reading leaves it unchanged |
| EnvRoundTrip.EnvFileRoundTrip | slimdev/config.py:85-101 | reading a generated `.env` of clean variables with the verifier's parser gives back exactly those variables |
| EnvRoundTrip.GeneratedFileChecks | cicd/verify/env_vars.py:28-34 | on a generated `.env`, a name passes the required-key check iff some table key upper-cases to it and its variable is non-empty |
| Dicts.Lookup | slimdev/config.py:118 | absent iff the key is not in the dict; otherwise the key's value |
| Dicts.KeysCons | slimdev/config.py:72-81 | the keys of a dict with one more front entry |
| Dicts.IndexOf | slimdev/config.py:105 | the position of a present key |
| Dicts.Put | slimdev/config.py:81 | dict assignment: adds the key, keeps an existing key's position and appends a new key at the end; the key now maps to the value and no other key changes |
| Dicts.ToMap | cicd/verify/env_vars.py:27 | the unordered view of a dict has the same keys |
| Dicts.ToMapAt | cicd/verify/env_vars.py:27 | the unordered view maps each entry's key to its value |
| Dicts.KeysSnoc | slimdev/config.py:72-81 | the keys of a dict with one more last entry |
| Dicts.PutAllSnoc | slimdev/config.py:72-81 | assigning one more pair is one more `Put` |
| Dicts.PutAllKeys | slimdev/config.py:81 | the dict built by assignments has exactly the assigned keys |
| Dicts.PutAllLast | slimdev/config.py:81 | a key holds the value of its last assignment |
| Dicts.PutAllDistinct | slimdev/config.py:81 | assigning pairs with distinct keys keeps them all, in order |
| Dicts.PutAllCount | slimdev/config.py:81 | never more entries than assignments |
| Dicts.PutAllCollision | slimdev/config.py:81 | two assignments to one key give fewer entries than assignments |
| Dicts.PutAllOnePerPair | slimdev/config.py:81 | one entry per assignment iff the assigned keys are distinct |
| Paths.Parent | slimdev/config.py:33-37 | the root is its own parent; any other path drops its last component |
| Paths.PathOf | create-workspace/create_workspace.py:27 | turning a string into a path gives non-empty components without `/` |
| Paths.PathOfString | create-workspace/create_workspace.py:27 | an absolute path written out as text reads back as itself |
| Paths.PathOfComponents | create-workspace/create_workspace.py:27 | a relative path written out as text reads back as its components |
| Text.TrimLeft | cicd/verify/env_vars.py:22 | the result is no longer than the input |
| Text.TrimRight | cicd/verify/env_vars.py:22 | the result is no longer than the input |
| Text.TrimLeftSpec | cicd/verify/env_vars.py:22 | removes exactly the leading whitespace: a suffix, all dropped characters whitespace, the result starting with a non-space |
| Text.TrimRightSpec | cicd/verify/env_vars.py:22 | removes exactly the trailing whitespace |
| Text.Strip | cicd/verify/env_vars.py:22 | `strip()` never lengthens, and leaves no whitespace at either end |
| Text.StripSlice | cicd/verify/env_vars.py:22 | `strip()` is the slice between the leading and the trailing whitespace, with non-space ends |
| Text.StripClean | cicd/verify/env_vars.py:27 | a string with non-space ends is unchanged by stripping |
| Text.StripIdempotent | cicd/verify/env_vars.py:22-27 | stripping twice is stripping once |
| Text.Contains | cicd/verify/requirements.py:20 | `t in s` iff `t` occurs at some position of `s` |
| Text.OccursAtShift | cicd/verify/requirements.py:20 | searching past a non-match at position 0 is searching the tail |
| Text.SplitFirst | cicd/verify/env_vars.py:25-26 | none iff the separator is absent; otherwise the text is `before + sep + after` with no separator in `before` |
| Text.Upper | slimdev/config.py:73 | upper-casing keeps the length |
| Text.Lower | slimdev/config.py:77 | lower-casing keeps the length |
| Text.UpperSpec | slimdev/config.py:73 | upper-casing maps each letter `a`-`z` to its capital, leaves no lower-case letter and changes nothing else |
| Text.UpperIdempotent | slimdev/config.py:73 | upper-casing twice is upper-casing once |
| Text.NatDigits | slimdev/config.py:79 | decimal digits, with no leading zero |
| Text.NatDigitsRoundTrip | slimdev/config.py:79 | the digits of `n` denote `n` |
| Text.Decimal | slimdev/config.py:79 | `str(i)` is canonical: after an optional `-` comes a non-empty numeral whose first character is `0` only when it is `0` alone, so never `-0` and no leading zero |
| Text.SignedDigits | slimdev/config.py:79 | a `-` before digits reads back as their negated value |
| Text.UnsignedDigits | slimdev/config.py:79 | digits alone read back as their value |
| Text.DecimalRoundTrip | slimdev/config.py:79 | `str(i)` of an integer parses back to `i` |
| Text.Newlines | cicd/verify/env_vars.py:20-21 | universal-newline translation leaves no `\r` and leaves text without `\r` unchanged |
| Text.FileLines | cicd/verify/env_vars.py:21 | the lines read from a file hold no newline |
| Text.FileLinesAvoid | cicd/verify/env_vars.py:21 | a character absent from the text is absent from every line read from it |
| Text.ReadLines | cicd/verify/env_vars.py:20-21 | iterating a text-mode file gives lines holding neither `\n` nor `\r` |
| Text.SplitUnique | cicd/verify/env_vars.py:25 | splitting at the first occurrence of a character has one answer |
| Text.FileLinesJoin | slimdev/config.py:96-98 | text written as newline-terminated lines reads back as those lines |
| Workspace.SelectContent | create-workspace/create_workspace.py:1122-1162 | a name ending in `.py` always gets the placeholder, so the `__init__.py` and `setup.py` templates are never chosen |
| Workspace.SelectContentTable | create-workspace/create_workspace.py:1124-1162 | the chain equals a table lookup: the fourteen named templates for their exact names, the placeholder for any other name |
| Workspace.TemplatesNotPython | create-workspace/create_workspace.py:1130-1159 | no name in the template table ends in `.py` |
| Workspace.ListWrites | create-workspace/create_workspace.py:1120-1121 | one placeholder write per listed name, in order, at `dir/name` |
| Workspace.Ancestors | create-workspace/create_workspace.py:1113 | `makedirs` creates exactly the path and all its ancestors |
| Workspace.Walk | create-workspace/create_workspace.py:1107-1162 | a structure has no effects iff it has no entries |
| Workspace.EntryEffects | create-workspace/create_workspace.py:1108-1162 | every entry has at least one effect, and the first acts on `current_path / key` |
| Workspace.ApplyAppend | create-workspace/create_workspace.py:1107-1162 | playing two effect lists in turn is playing their concatenation |
| Workspace.WalkAppend | create-workspace/create_workspace.py:1108 | walking two runs of entries in turn is walking them together |
| Workspace.UnionAssoc | create-workspace/create_workspace.py:15 | later writes override earlier ones however they are grouped |
| Workspace.ApplyClosedForm | create-workspace/create_workspace.py:1107-1162 | after the effects, the directories are the old ones plus all made, the files the old ones overridden by the written ones, last write winning |
| Workspace.ApplyTwice | create-workspace/create_workspace.py:1107-1121 | running the same effects twice gives the same disk as running them once |
| Workspace.FilesOfAppend | create-workspace/create_workspace.py:15 | the files written by two effect lists are the first's overridden by the second's |
| Workspace.WalkStaysBelow | create-workspace/create_workspace.py:1109-1121 | every effect of a walk is strictly below its starting directory |
| Workspace.EntryStaysBelow | create-workspace/create_workspace.py:1109-1121 | every effect of one entry is strictly below the current directory |
| Workspace.ListLeavesCons | create-workspace/create_workspace.py:1120-1121 | the files of a list are its first name's file plus the rest's |
| Workspace.ListWritesFiles | create-workspace/create_workspace.py:1120-1121 | a list's writes produce exactly its leaves, each with the placeholder |
| Workspace.WalkWritesLeaves | create-workspace/create_workspace.py:1107-1162 | the files a walk writes are exactly the structure's leaves (each `None` entry and each list element) with their selected content |
| Workspace.EntryWritesLeaves | create-workspace/create_workspace.py:1111-1162 | the files one entry writes are exactly its leaves |
| Workspace.DirsOfAppend | create-workspace/create_workspace.py:1111-1121 | the directories made by two effect lists are the union of each's |
| Workspace.ParentOfChild | create-workspace/create_workspace.py:1109 | the parent of `dir/name` is `dir` |
| Workspace.ParentsFirstAppend | create-workspace/create_workspace.py:1108 | parents-first order survives concatenating entries |
| Workspace.ParentsFirstInside | create-workspace/create_workspace.py:1113-1115 | making a directory and then acting inside it keeps parents first |
| Workspace.WalkParentsFirst | create-workspace/create_workspace.py:1107-1162 | each effect's parent is the current directory or a directory made earlier in the walk |
| Workspace.EntryParentsFirst | create-workspace/create_workspace.py:1111-1162 | the same for the effects of one entry |
| Workspace.WalkParentsExist | create-workspace/create_workspace.py:1107-1162 | starting from an existing directory, each effect's parent directory exists when the effect runs, so no `open` hits a missing directory |
| Workspace.FileSystem.constructor | create-workspace/create_workspace.py:1193-1199 | the disk as it is before the script runs, holding exactly the given directories and files |
| Workspace.FileSystem.MakeDirs | create-workspace/create_workspace.py:1113 | `os.makedirs(path, exist_ok=True)`: adds the path and its ancestors, files untouched |
| Workspace.FileSystem.CreateFile | create-workspace/create_workspace.py:13-16 | `create_file`: the path now holds the content, replacing any earlier one; directories untouched |
| Workspace.ProcessStructure | create-workspace/create_workspace.py:1107-1162 | the new state is the old state with the walk's effects applied in order |
| Workspace.NestedListedPlaceholder | create-workspace/create_workspace.py:1116-1121 | a name listed two levels down is written with the placeholder whatever its name |
| Workspace.ListedDockerfileGetsPlaceholder | create-workspace/create_workspace.py:35 | `Dockerfile.dev` listed under `.devcontainer/container` gets the placeholder, although as a `None` entry it would get the Dockerfile template |
| Workspace.DockerfileTemplate | create-workspace/create_workspace.py:1142-1143 | a `None` entry named `Dockerfile.dev` gets the Dockerfile template |
| Workspace.CreateWorkspaceResult | create-workspace/create_workspace.py:25-31 | afterwards the base directory exists, the files are the old ones overridden by the structure's leaves, and every leaf is below the base |
| Workspace.FilesOfMember | create-workspace/create_workspace.py:13-16 | every written file comes from a write effect with that content |
| Workspace.CreateWorkspace | create-workspace/create_workspace.py:25-31 | the state is the old one after `makedirs(base)` and the walk |
| Workspace.Resolve | create-workspace/create_workspace.py:1199 | an argument starting with `/` names exactly its path; any other names its path below cwd |
| Workspace.ParseArgs | create-workspace/create_workspace.py:1193-1203 | usage iff the argument count is not 1 or 2; no argument targets the script's grandparent; one argument targets that path, absolute or relative to cwd |
| Workspace.AbsoluteArgument | create-workspace/create_workspace.py:1197-1199 | an absolute argument targets exactly that path |
| Workspace.RelativeArgument | create-workspace/create_workspace.py:1197-1199 | a relative argument targets that path under cwd |
| Workspace.JoinComponentsStart | create-workspace/create_workspace.py:1199 | a relative path written out does not start with `/` |
| Workspace.Run | create-workspace/create_workspace.py:1192-1203 | exit 0 with the workspace created at the parsed target for 1 or 2 arguments; otherwise the two usage lines are printed, exit 1 and nothing changes |

## Left out

- TOML parsing by `tomli`: the model starts from parsed documents, with values
  limited to booleans, strings and integers. Floats, dates, arrays and nested
  tables are not modelled, and neither is their `str` rendering.
- The file system, `Path.cwd()` and `Path.exists()` are parameters: a set of
  existing paths, a map of parsed documents, the file text, and a
  write-succeeds flag. Printing and `sys.exit` become returned lines and
  statuses.
- `generate_env` creating `.devcontainer` is reported as a flag, not applied to
  a disk. Its confirmation prints are not modelled.
- SlimConfig.GenerateEnv: `devcontainer_dir.mkdir(parents=True)`
  (slimdev/config.py:136) is taken to succeed; its own `OSError`, when the
  parent is not writable or an ancestor is a file, is not modelled. When the
  directory is created and the `.env` write is then refused, the failure
  result carries no created flag, so the directory left on disk is not
  reported; the flag is returned only on success.
- SlimConfig.GenerateEnvFile: an I/O failure is all-or-nothing. A write that fails
  part-way, leaving a truncated file, is not modelled.
- The `__main__` block of `slimdev/config.py` (slimdev/config.py:143-152) is not
  modelled: it prints the `KEY=VALUE` variables, or, on any exception, prints
  `Error: …` to stderr and exits with status 1.
- ExtractConfig.Extract: an unreadable or unparsable `pyproject.toml` raises an
  uncaught exception in the script and is not modelled. The script's location
  (`Path(__file__)`) is not modelled either; the parsed document is given.
- Text.Upper and Text.Lower handle ASCII letters only. Python's Unicode case
  mapping is not modelled.
- UTF-8 decoding of the verified files is not modelled; file text is given as
  characters.
- Workspace: template bodies are tags (`Content`), not their text, and the
  structure literal is a parameter.
- Workspace: `create_init_file` is never called by the script and is not
  modelled.
- Workspace: `init_git_repository` runs `git init` in a subprocess and is not
  modelled. Neither are the closing prints.
- Workspace.FileSystem.MakeDirs and Workspace.FileSystem.CreateFile cannot
  fail: a name that exists as both a file and a directory, or permission errors,
  are not modelled.
- Workspace.ParseArgs: a `..` component of the argument is kept as a plain
  name rather than resolved, and the script path is taken as already absolute.
  `Paths.PathOf` drops `.` and empty components, as `Path` does.
- Workspace.WalkStaysBelow and Workspace.CreateWorkspaceResult: each structure
  key and each listed file name is one path component. A key or name holding
  `/`, an absolute name, or `..` would escape the base directory in Python.
  An empty key `""` or a key `"."` would be folded by pathlib into the
  directory itself (`base / "."` is `base`), so it would write at that
  directory rather than below it. None of these is modelled. The script's
  own structure literal has none of them.
- Workspace.Run: `out` holds only the lines the `__main__` block prints itself.
  The success lines that `create_workspace` prints
  (create-workspace/create_workspace.py:1171-1175) and the output of
  `init_git_repository` are not returned.
- The worker-pool executor registry is not part of this model; its point is
  concurrency.
