/**
 * The workspace generator of `create-workspace/create_workspace.py`: a
 * nested structure of directories, file lists and single files is walked
 * from a base directory, creating each directory and writing each file
 * with a content picked from its name.
 */
module Workspace {
  import opened Wrappers
  import opened Text
  import opened Paths

  /**
   * A value of the structure dictionary: a nested dictionary (a
   * directory), a list of file names (a directory of placeholder files),
   * or `None` (a single file).
   */
  datatype Value = Dir(entries: seq<(string, Value)>) | Files(names: seq<string>) | File

  /**
   * What `create_file` writes. `Placeholder` is the default text
   * `"# Placeholder\n"`, `InitModule` the one-line module docstring; the
   * other tags stand for the template strings of the same names.
   */
  datatype Content =
    | Placeholder | InitModule | Readme | Gitignore | PyprojectToml | SetupPy
    | Makefile | DevcontainerJson | Dockerfile | DockerCompose | VscodeSettings
    | VscodeExtensions | VscodeLaunch | Gitattributes | WorkflowCi | Codeowners
    | Dependabot

  /**
   * The content chosen for a `None`-valued key. The `.py` test comes
   * first, so the `__init__.py` and `setup.py` branches after it can never
   * be taken.
   */
  function SelectContent(key: string): (r: Content)
    ensures EndsWith(key, ".py") ==> r == Placeholder
    ensures r != InitModule && r != SetupPy
  {
    if EndsWith(key, ".py") then Placeholder
    else if key == "__init__.py" then InitModule
    else if key == "README.md" then Readme
    else if key == ".gitignore" then Gitignore
    else if key == "pyproject.toml" then PyprojectToml
    else if key == "setup.py" then SetupPy
    else if key == "Makefile" then Makefile
    else if key == "devcontainer.json" then DevcontainerJson
    else if key == "Dockerfile.dev" then Dockerfile
    else if key == "docker-compose.dev.yaml" then DockerCompose
    else if key == "settings.json" then VscodeSettings
    else if key == "extensions.json" then VscodeExtensions
    else if key == "launch.json" then VscodeLaunch
    else if key == ".gitattributes" then Gitattributes
    else if key == "ci.yml" then WorkflowCi
    else if key == "CODEOWNERS" then Codeowners
    else if key == "dependabot.yml" then Dependabot
    else Placeholder
  }

  /** The file names that have a template of their own, with that template. */
  const TEMPLATES: map<string, Content> := map[
    "README.md" := Readme, ".gitignore" := Gitignore, "pyproject.toml" := PyprojectToml,
    "Makefile" := Makefile, "devcontainer.json" := DevcontainerJson,
    "Dockerfile.dev" := Dockerfile, "docker-compose.dev.yaml" := DockerCompose,
    "settings.json" := VscodeSettings, "extensions.json" := VscodeExtensions,
    "launch.json" := VscodeLaunch, ".gitattributes" := Gitattributes, "ci.yml" := WorkflowCi,
    "CODEOWNERS" := Codeowners, "dependabot.yml" := Dependabot
  ]

  /**
   * A file gets a template exactly when its name is listed in `TEMPLATES`,
   * and then the one listed; every other name gets the placeholder.
   */
  lemma SelectContentTable(key: string)
    ensures SelectContent(key) == if key in TEMPLATES then TEMPLATES[key] else Placeholder
  {
    if EndsWith(key, ".py") {
      TemplatesNotPython(key);
    }
  }

  lemma TemplatesNotPython(key: string)
    requires EndsWith(key, ".py")
    ensures key !in TEMPLATES
  {
    assert key[|key| - 3..] == ".py";
  }

  /** The two effects the walk has on the disk. */
  datatype Effect = MakeDir(path: Path) | Write(path: Path, content: Content)

  /** The files written for a list of names: one placeholder each. */
  function ListWrites(dir: Path, names: seq<string>): (r: seq<Effect>)
    ensures |r| == |names|
    ensures forall i :: 0 <= i < |names| ==> r[i] == Write(dir + [names[i]], Placeholder)
  {
    seq(|names|, i requires 0 <= i < |names| => Write(dir + [names[i]], Placeholder))
  }

  /** The effects of walking the structure `s` below the directory `cur`, in order. */
  function Walk(cur: Path, s: seq<(string, Value)>): (r: seq<Effect>)
    ensures r == [] <==> s == []
    decreases s
  {
    if s == [] then [] else EntryEffects(cur, s[0].0, s[0].1) + Walk(cur, s[1..])
  }

  /** The effects of one entry `key: v` of a structure below `cur`. */
  function EntryEffects(cur: Path, key: string, v: Value): (r: seq<Effect>)
    ensures r != [] && r[0].path == cur + [key]
    decreases (key, v)
  {
    var path := cur + [key];
    match v
    case Dir(entries) => [MakeDir(path)] + Walk(path, entries)
    case Files(names) => [MakeDir(path)] + ListWrites(path, names)
    case File => [Write(path, SelectContent(key))]
  }

  /** The directories and files present on the disk. */
  datatype Disk = Disk(dirs: set<Path>, files: map<Path, Content>)

  /** `p` and all its ancestors, which `os.makedirs(p, exist_ok=True)` makes sure exist. */
  function Ancestors(p: Path): (r: set<Path>)
    ensures forall d :: d in r <==> IsPrefix(d, p)
  {
    var r := set i | 0 <= i <= |p| :: p[..i];
    assert forall d :: IsPrefix(d, p) ==> d == p[..|d|];
    r
  }

  /** The disk after one effect: a directory chain added, or one file (re)written. */
  function Step(d: Disk, e: Effect): Disk {
    match e
    case MakeDir(p) => Disk(d.dirs + Ancestors(p), d.files)
    case Write(p, c) => Disk(d.dirs, d.files[p := c])
  }

  /** The disk after the effects `effs`, in order. */
  function Apply(d: Disk, effs: seq<Effect>): Disk
    decreases |effs|
  {
    if effs == [] then d else Apply(Step(d, effs[0]), effs[1..])
  }

  lemma {:induction false} ApplyAppend(d: Disk, a: seq<Effect>, b: seq<Effect>)
    ensures Apply(d, a + b) == Apply(Apply(d, a), b)
    decreases |a|
  {
    if a != [] {
      assert (a + b)[0] == a[0];
      assert (a + b)[1..] == a[1..] + b;
      ApplyAppend(Step(d, a[0]), a[1..], b);
    } else {
      assert a + b == b;
    }
  }

  lemma {:induction false} WalkAppend(cur: Path, a: seq<(string, Value)>, b: seq<(string, Value)>)
    ensures Walk(cur, a + b) == Walk(cur, a) + Walk(cur, b)
    decreases |a|
  {
    if a != [] {
      assert (a + b)[0] == a[0];
      assert (a + b)[1..] == a[1..] + b;
      WalkAppend(cur, a[1..], b);
    } else {
      assert a + b == b;
    }
  }

  /** The directories one effect makes sure exist. */
  function Made(e: Effect): set<Path> {
    if e.MakeDir? then Ancestors(e.path) else {}
  }

  /** The directories the effects `effs` make sure exist. */
  function DirsOf(effs: seq<Effect>): set<Path> {
    if effs == [] then {} else Made(effs[0]) + DirsOf(effs[1..])
  }

  /** The file one effect writes, if any. */
  function Written(e: Effect): map<Path, Content> {
    if e.Write? then map[e.path := e.content] else map[]
  }

  /** The files the effects `effs` write, each with the content written last. */
  function FilesOf(effs: seq<Effect>): map<Path, Content> {
    if effs == [] then map[] else Written(effs[0]) + FilesOf(effs[1..])
  }

  lemma UnionAssoc(x: map<Path, Content>, y: map<Path, Content>, z: map<Path, Content>)
    ensures x + (y + z) == (x + y) + z
  {
    var l, r := x + (y + z), (x + y) + z;
    assert l.Keys == r.Keys;
    forall k | k in l ensures l[k] == r[k] {
    }
  }

  /**
   * Running effects adds the directories they make to those present, and
   * overrides the files present with the ones they write.
   */
  lemma {:induction false} ApplyClosedForm(d: Disk, effs: seq<Effect>)
    ensures Apply(d, effs) == Disk(d.dirs + DirsOf(effs), d.files + FilesOf(effs))
    decreases |effs|
  {
    if effs != [] {
      var e := effs[0];
      ApplyClosedForm(Step(d, e), effs[1..]);
      assert Step(d, e).files == d.files + Written(e);
      UnionAssoc(d.files, Written(e), FilesOf(effs[1..]));
    }
  }

  /**
   * Running the same effects a second time leaves the disk as the first
   * run left it: `makedirs` with `exist_ok=True` is harmless on an
   * existing directory and each write replaces the content with the same.
   */
  lemma ApplyTwice(d: Disk, effs: seq<Effect>)
    ensures Apply(Apply(d, effs), effs) == Apply(d, effs)
  {
    ApplyClosedForm(d, effs);
    ApplyClosedForm(Apply(d, effs), effs);
    assert d.files + FilesOf(effs) + FilesOf(effs) == d.files + FilesOf(effs);
  }

  lemma {:induction false} FilesOfAppend(a: seq<Effect>, b: seq<Effect>)
    ensures FilesOf(a + b) == FilesOf(a) + FilesOf(b)
    decreases |a|
  {
    if a == [] {
      assert a + b == b;
    } else {
      assert (a + b)[0] == a[0];
      assert (a + b)[1..] == a[1..] + b;
      FilesOfAppend(a[1..], b);
      UnionAssoc(Written(a[0]), FilesOf(a[1..]), FilesOf(b));
    }
  }

  /** `p` lies strictly inside the directory `base`. */
  predicate Below(base: Path, p: Path) {
    |base| < |p| && p[..|base|] == base
  }

  /** Every directory and file the walk touches lies inside the directory it starts from. */
  lemma {:induction false} WalkStaysBelow(cur: Path, s: seq<(string, Value)>)
    ensures forall e :: e in Walk(cur, s) ==> Below(cur, e.path)
    decreases s
  {
    if s != [] {
      EntryStaysBelow(cur, s[0].0, s[0].1);
      WalkStaysBelow(cur, s[1..]);
    }
  }

  lemma {:induction false} EntryStaysBelow(cur: Path, key: string, v: Value)
    ensures forall e :: e in EntryEffects(cur, key, v) ==> Below(cur, e.path)
    decreases (key, v)
  {
    var path := cur + [key];
    assert path[..|cur|] == cur;
    if v.Dir? {
      WalkStaysBelow(path, v.entries);
      forall e | e in Walk(path, v.entries) ensures Below(cur, e.path) {
        assert e.path[..|cur|] == e.path[..|path|][..|cur|];
      }
    } else if v.Files? {
      forall e | e in ListWrites(path, v.names) ensures Below(cur, e.path) {
        var i :| 0 <= i < |v.names| && ListWrites(path, v.names)[i] == e;
        assert e.path[..|cur|] == cur;
      }
    }
  }

  /** The files a list of names describes: one placeholder per name. */
  function ListLeaves(dir: Path, names: seq<string>): map<Path, Content> {
    map n | n in names :: dir + [n] := Placeholder
  }

  /**
   * The files a structure describes below `cur`, each with the content it
   * is given: a placeholder per listed name, the selected content per
   * `None` entry, the files of nested dictionaries; a later entry for the
   * same path wins.
   */
  function Leaves(cur: Path, s: seq<(string, Value)>): map<Path, Content>
    decreases s
  {
    if s == [] then map[] else EntryLeaves(cur, s[0].0, s[0].1) + Leaves(cur, s[1..])
  }

  function EntryLeaves(cur: Path, key: string, v: Value): map<Path, Content>
    decreases (key, v)
  {
    match v
    case Dir(entries) => Leaves(cur + [key], entries)
    case Files(names) => ListLeaves(cur + [key], names)
    case File => map[cur + [key] := SelectContent(key)]
  }

  lemma ListLeavesCons(dir: Path, names: seq<string>)
    requires names != []
    ensures ListLeaves(dir, names) == map[dir + [names[0]] := Placeholder] + ListLeaves(dir, names[1..])
  {
    var m := map[dir + [names[0]] := Placeholder] + ListLeaves(dir, names[1..]);
    forall p ensures p in m <==> p in ListLeaves(dir, names) {
      if p in ListLeaves(dir, names) {
        var n :| n in names && p == dir + [n];
        if n != names[0] {
          assert n in names[1..];
        }
      }
    }
    assert m == ListLeaves(dir, names);
  }

  lemma {:induction false} ListWritesFiles(dir: Path, names: seq<string>)
    ensures FilesOf(ListWrites(dir, names)) == ListLeaves(dir, names)
    decreases |names|
  {
    if names != [] {
      var w := ListWrites(dir, names);
      assert w[1..] == ListWrites(dir, names[1..]);
      ListWritesFiles(dir, names[1..]);
      ListLeavesCons(dir, names);
    }
  }

  /** The files the walk writes are exactly the leaves of the structure, with their contents. */
  lemma {:induction false} WalkWritesLeaves(cur: Path, s: seq<(string, Value)>)
    ensures FilesOf(Walk(cur, s)) == Leaves(cur, s)
    decreases s
  {
    if s != [] {
      EntryWritesLeaves(cur, s[0].0, s[0].1);
      WalkWritesLeaves(cur, s[1..]);
      FilesOfAppend(EntryEffects(cur, s[0].0, s[0].1), Walk(cur, s[1..]));
    }
  }

  lemma {:induction false} EntryWritesLeaves(cur: Path, key: string, v: Value)
    ensures FilesOf(EntryEffects(cur, key, v)) == EntryLeaves(cur, key, v)
    decreases (key, v)
  {
    var path := cur + [key];
    match v
    case Dir(entries) =>
      WalkWritesLeaves(path, entries);
      FilesOfAppend([MakeDir(path)], Walk(path, entries));
    case Files(names) =>
      ListWritesFiles(path, names);
      FilesOfAppend([MakeDir(path)], ListWrites(path, names));
    case File =>
  }

  lemma {:induction false} DirsOfAppend(a: seq<Effect>, b: seq<Effect>)
    ensures DirsOf(a + b) == DirsOf(a) + DirsOf(b)
    decreases |a|
  {
    if a == [] {
      assert a + b == b;
    } else {
      assert (a + b)[0] == a[0];
      assert (a + b)[1..] == a[1..] + b;
      DirsOfAppend(a[1..], b);
    }
  }

  /**
   * The parent directory of each path touched by `effs` is `cur` or was
   * made by an earlier effect.
   */
  predicate ParentsFirst(cur: Path, effs: seq<Effect>) {
    forall j :: 0 <= j < |effs| ==>
      Parent(effs[j].path) == cur || Parent(effs[j].path) in DirsOf(effs[..j])
  }

  lemma ParentOfChild(dir: Path, name: string)
    ensures Parent(dir + [name]) == dir
  {
    assert (dir + [name])[..|dir|] == dir;
  }

  lemma ParentsFirstAppend(cur: Path, a: seq<Effect>, b: seq<Effect>)
    requires ParentsFirst(cur, a) && ParentsFirst(cur, b)
    ensures ParentsFirst(cur, a + b)
  {
    forall j | 0 <= j < |a + b|
      ensures Parent((a + b)[j].path) == cur || Parent((a + b)[j].path) in DirsOf((a + b)[..j])
    {
      if j < |a| {
        assert (a + b)[..j] == a[..j];
      } else {
        assert (a + b)[..j] == a + b[..j - |a|];
        DirsOfAppend(a, b[..j - |a|]);
      }
    }
  }

  /** Effects inside `dir`, preceded by making `dir`, which lies directly in `cur`. */
  lemma ParentsFirstInside(cur: Path, dir: Path, inner: seq<Effect>)
    requires Parent(dir) == cur && ParentsFirst(dir, inner)
    ensures ParentsFirst(cur, [MakeDir(dir)] + inner)
  {
    var w := [MakeDir(dir)] + inner;
    forall j | 0 < j < |w|
      ensures Parent(w[j].path) == cur || Parent(w[j].path) in DirsOf(w[..j])
    {
      assert w[j] == inner[j - 1];
      assert w[..j] == [MakeDir(dir)] + inner[..j - 1];
      DirsOfAppend([MakeDir(dir)], inner[..j - 1]);
      assert dir in DirsOf([MakeDir(dir)]);
    }
  }

  lemma {:induction false} WalkParentsFirst(cur: Path, s: seq<(string, Value)>)
    ensures ParentsFirst(cur, Walk(cur, s))
    decreases s
  {
    if s != [] {
      EntryParentsFirst(cur, s[0].0, s[0].1);
      WalkParentsFirst(cur, s[1..]);
      ParentsFirstAppend(cur, EntryEffects(cur, s[0].0, s[0].1), Walk(cur, s[1..]));
    }
  }

  lemma {:induction false} EntryParentsFirst(cur: Path, key: string, v: Value)
    ensures ParentsFirst(cur, EntryEffects(cur, key, v))
    decreases (key, v)
  {
    var path := cur + [key];
    ParentOfChild(cur, key);
    match v
    case Dir(entries) =>
      WalkParentsFirst(path, entries);
      ParentsFirstInside(cur, path, Walk(path, entries));
    case Files(names) =>
      forall j | 0 <= j < |names| ensures Parent(ListWrites(path, names)[j].path) == path {
        ParentOfChild(path, names[j]);
      }
      ParentsFirstInside(cur, path, ListWrites(path, names));
    case File =>
  }

  /**
   * Started in an existing directory, the walk creates every directory and
   * writes every file inside a directory that exists at that moment.
   */
  lemma WalkParentsExist(d: Disk, cur: Path, s: seq<(string, Value)>)
    requires cur in d.dirs
    ensures forall j :: 0 <= j < |Walk(cur, s)| ==>
      Parent(Walk(cur, s)[j].path) in Apply(d, Walk(cur, s)[..j]).dirs
  {
    var w := Walk(cur, s);
    WalkParentsFirst(cur, s);
    forall j | 0 <= j < |w| ensures Parent(w[j].path) in Apply(d, w[..j]).dirs {
      ApplyClosedForm(d, w[..j]);
    }
  }

  /** The disk, whose directories and files the walk creates one at a time. */
  class FileSystem {
    var dirs: set<Path>
    var files: map<Path, Content>

    function State(): Disk
      reads this
    {
      Disk(dirs, files)
    }

    constructor (d: Disk)
      ensures State() == d
    {
      dirs, files := d.dirs, d.files;
    }

    /** `os.makedirs(p, exist_ok=True)`. */
    method MakeDirs(p: Path)
      modifies this
      ensures State() == Step(old(State()), MakeDir(p))
    {
      dirs := dirs + Ancestors(p);
    }

    /** `create_file(p, content)`: the file is created or its content replaced. */
    method CreateFile(p: Path, c: Content)
      modifies this
      ensures State() == Step(old(State()), Write(p, c))
    {
      files := files[p := c];
    }
  }

  /**
   * `process_structure(current_path, structure_dict)`: walks the entries
   * in order, creating directories and recursing into nested ones, and
   * writing one file per list element and per `None` entry.
   */
  method ProcessStructure(fs: FileSystem, cur: Path, s: seq<(string, Value)>)
    modifies fs
    ensures fs.State() == Apply(old(fs.State()), Walk(cur, s))
    decreases Dir(s)
  {
    ghost var d0 := fs.State();
    for i := 0 to |s|
      invariant fs.State() == Apply(d0, Walk(cur, s[..i]))
    {
      ghost var before := fs.State();
      var (key, value) := s[i];
      var path := cur + [key];
      match value {
        case Dir(entries) =>
          fs.MakeDirs(path);
          ProcessStructure(fs, path, entries);
        case Files(names) =>
          fs.MakeDirs(path);
          ghost var made := fs.State();
          for j := 0 to |names|
            invariant fs.State() == Apply(made, ListWrites(path, names[..j]))
          {
            ApplyAppend(made, ListWrites(path, names[..j]), [Write(path + [names[j]], Placeholder)]);
            assert ListWrites(path, names[..j + 1])
              == ListWrites(path, names[..j]) + [Write(path + [names[j]], Placeholder)];
            fs.CreateFile(path + [names[j]], Placeholder);
          }
          assert names[..|names|] == names;
        case File =>
          fs.CreateFile(path, SelectContent(key));
      }
      ApplyAppend(before, [EntryEffects(cur, key, value)[0]], EntryEffects(cur, key, value)[1..]);
      assert [EntryEffects(cur, key, value)[0]] + EntryEffects(cur, key, value)[1..]
        == EntryEffects(cur, key, value);
      assert fs.State() == Apply(before, EntryEffects(cur, key, value));
      WalkAppend(cur, s[..i], [s[i]]);
      assert s[..i + 1] == s[..i] + [s[i]];
      assert [s[i]][1..] == [];
      assert Walk(cur, [s[i]]) == EntryEffects(cur, key, value);
      ApplyAppend(d0, Walk(cur, s[..i]), EntryEffects(cur, key, value));
    }
    assert s[..|s|] == s;
  }

  /** A name listed in a directory nested one level down gets the placeholder. */
  lemma NestedListedPlaceholder(base: Path, top: string, sub: string, names: seq<string>, i: nat)
    requires i < |names|
    ensures var p := base + [top, sub, names[i]];
      var w := Walk(base, [(top, Dir([(sub, Files(names))]))]);
      p in FilesOf(w) && FilesOf(w)[p] == Placeholder
  {
    var s := [(top, Dir([(sub, Files(names))]))];
    var inner := [(sub, Files(names))];
    var dir := base + [top] + [sub];
    WalkWritesLeaves(base, s);
    assert s[1..] == [] && inner[1..] == [];
    var m: map<Path, Content> := map[];
    assert Leaves(base + [top], inner) == ListLeaves(dir, names) + m;
    assert Leaves(base, s) == Leaves(base + [top], inner) + m;
    assert ListLeaves(dir, names) + m == ListLeaves(dir, names);
    assert Leaves(base + [top], inner) + m == Leaves(base + [top], inner);
    assert names[i] in names;
    assert dir + [names[i]] == base + [top, sub, names[i]];
  }

  /**
   * `Dockerfile.dev` listed under `.devcontainer/container` is written with
   * the placeholder, although a `None` entry of the same name would get the
   * Dockerfile template: list elements never go through the selection.
   */
  lemma ListedDockerfileGetsPlaceholder(base: Path)
    ensures var names := ["config.yaml", "dev.dockerignore", "docker-compose.dev.yaml", "Dockerfile.dev"];
      var p := base + [".devcontainer", "container", names[3]];
      var w := Walk(base, [(".devcontainer", Dir([("container", Files(names))]))]);
      p in FilesOf(w) && FilesOf(w)[p] == Placeholder
    ensures SelectContent("Dockerfile.dev") == Dockerfile
  {
    var names := ["config.yaml", "dev.dockerignore", "docker-compose.dev.yaml", "Dockerfile.dev"];
    NestedListedPlaceholder(base, ".devcontainer", "container", names, 3);
    DockerfileTemplate();
  }

  lemma DockerfileTemplate()
    ensures SelectContent("Dockerfile.dev") == Dockerfile
  {
    assert !EndsWith("Dockerfile.dev", ".py");
  }

  /** The effects of `create_workspace(base)`: the base directory, then the walk. */
  function CreateEffects(base: Path, s: seq<(string, Value)>): seq<Effect> {
    [MakeDir(base)] + Walk(base, s)
  }

  /**
   * After `create_workspace(base)` the base directory exists, the files on
   * disk are the earlier ones overridden by the leaves of the structure,
   * and every one of those lies inside the base directory.
   */
  lemma CreateWorkspaceResult(d: Disk, base: Path, s: seq<(string, Value)>)
    ensures base in Apply(d, CreateEffects(base, s)).dirs
    ensures Apply(d, CreateEffects(base, s)).files == d.files + Leaves(base, s)
    ensures forall p :: p in Leaves(base, s) ==> Below(base, p)
  {
    var made := Step(d, MakeDir(base));
    ApplyClosedForm(made, Walk(base, s));
    WalkWritesLeaves(base, s);
    WalkStaysBelow(base, s);
    forall p | p in Leaves(base, s) ensures Below(base, p) {
      FilesOfMember(Walk(base, s), p);
    }
  }

  /** A written path is the path of some write effect. */
  lemma {:induction false} FilesOfMember(effs: seq<Effect>, p: Path)
    requires p in FilesOf(effs)
    ensures Write(p, FilesOf(effs)[p]) in effs
    decreases |effs|
  {
    if effs[0].Write? && p == effs[0].path && p !in FilesOf(effs[1..]) {
      assert effs[0] == Write(p, FilesOf(effs)[p]);
    } else {
      FilesOfMember(effs[1..], p);
    }
  }

  /**
   * `create_workspace(base_path)`: makes the base directory and walks the
   * structure from it.
   */
  method CreateWorkspace(fs: FileSystem, base: Path, s: seq<(string, Value)>)
    modifies fs
    ensures fs.State() == Apply(old(fs.State()), CreateEffects(base, s))
  {
    ghost var d0 := fs.State();
    fs.MakeDirs(base);
    ProcessStructure(fs, base, s);
    ApplyAppend(d0, [MakeDir(base)], Walk(base, s));
  }

  /** What the command line asks for: a workspace at a directory, or the usage message. */
  datatype Invocation = Create(target: Path) | Usage

  /** `Path(s)` as the file system sees it: relative to `cwd` unless `s` starts with `/`. */
  function Resolve(cwd: Path, s: string): (r: Path)
    ensures StartsWith(s, "/") ==> r == PathOf(s)
    ensures !StartsWith(s, "/") ==> IsPrefix(cwd, r) && r[|cwd|..] == PathOf(s)
  {
    if StartsWith(s, "/") then PathOf(s) else cwd + PathOf(s)
  }

  /**
   * The `__main__` block: with no argument the workspace goes in the
   * parent of the directory holding the script `script`; with one
   * argument, in that path; with more, the usage message is printed.
   */
  function ParseArgs(argv: seq<string>, script: Path, cwd: Path): (r: Invocation)
    ensures r.Usage? <==> |argv| != 1 && |argv| != 2
    ensures |argv| == 1 ==> IsPrefix(r.target, script) && |r.target| == if |script| < 2 then 0 else |script| - 2
    ensures |argv| == 2 ==> r.target == Resolve(cwd, argv[1])
  {
    if |argv| == 1 then Create(Parent(Parent(script)))
    else if |argv| == 2 then Create(Resolve(cwd, argv[1]))
    else Usage
  }

  /** An absolute path argument names exactly the directory it spells out. */
  lemma AbsoluteArgument(prog: string, p: Path, script: Path, cwd: Path)
    requires forall i :: 0 <= i < |p| ==> Component(p[i])
    ensures ParseArgs([prog, "/" + JoinComponents(p)], script, cwd) == Create(p)
  {
    PathOfString(p);
  }

  /** A relative path argument names that path below the working directory. */
  lemma RelativeArgument(prog: string, p: Path, script: Path, cwd: Path)
    requires forall i :: 0 <= i < |p| ==> Component(p[i])
    ensures ParseArgs([prog, JoinComponents(p)], script, cwd) == Create(cwd + p)
  {
    var arg := JoinComponents(p);
    assert !StartsWith(arg, "/") by {
      if p != [] {
        JoinComponentsStart(p);
        assert arg[0] != '/';
      }
    }
    assert PathOf(arg) == p by { PathOfComponents(p); }
    assert Resolve(cwd, arg) == cwd + p;
  }

  lemma {:induction false} JoinComponentsStart(p: Path)
    requires p != [] && Component(p[0])
    ensures JoinComponents(p) != [] && JoinComponents(p)[0] == p[0][0]
  {
    if |p| > 1 {
      assert JoinComponents(p) == p[0] + "/" + JoinComponents(p[1..]);
    }
  }

  /** The two lines the `__main__` block prints for a wrong argument count. */
  const USAGE: seq<string> := [
    "Usage: python create_workspace.py [workspace_path]",
    "If no path is provided, workspace will be created one directory up."
  ]

  /**
   * The script run with arguments `argv`: the workspace is created and the
   * exit status is 0, or the usage lines are printed, nothing changes on
   * disk and the status is 1. `out` holds the lines the `__main__` block
   * prints itself.
   */
  method Run(fs: FileSystem, argv: seq<string>, script: Path, cwd: Path, s: seq<(string, Value)>)
    returns (exitCode: int, out: seq<string>)
    modifies fs
    ensures exitCode == if |argv| == 1 || |argv| == 2 then 0 else 1
    ensures exitCode == 1 ==> out == USAGE
    ensures exitCode == 0 ==> out == []
    ensures exitCode == 1 ==> fs.State() == old(fs.State())
    ensures exitCode == 0 ==>
      fs.State() == Apply(old(fs.State()), CreateEffects(ParseArgs(argv, script, cwd).target, s))
  {
    match ParseArgs(argv, script, cwd)
    case Create(target) =>
      CreateWorkspace(fs, target, s);
      exitCode, out := 0, [];
    case Usage =>
      exitCode, out := 1, USAGE;
  }
}
