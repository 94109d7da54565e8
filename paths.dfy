/** `pathlib.Path` values as the list of their components below the file-system root. */
module Paths {
  import opened Wrappers
  import opened Text

  type Path = seq<string>

  /** The file-system root, which is its own parent. */
  const Root: Path := []

  /** `p.parent`. */
  function Parent(p: Path): (r: Path)
    ensures p == Root ==> r == Root
    ensures p != Root ==> |r| == |p| - 1 && p == r + [p[|p| - 1]]
  {
    if p == [] then [] else p[..|p| - 1]
  }

  /** `p / name` for a single component. */
  function Join(p: Path, name: string): Path {
    p + [name]
  }

  /** `d` is `p` or one of its ancestors. */
  predicate IsPrefix(d: Path, p: Path) {
    |d| <= |p| && p[..|d|] == d
  }

  /** The components `pathlib` keeps from a path string: no empty and no `.` parts. */
  predicate Component(c: string) {
    c != "" && c != "." && '/' !in c
  }

  /** `Path(s)`: `s` cut at every `/`, with the empty and `.` parts dropped. */
  function PathOf(s: string): (r: Path)
    ensures forall i :: 0 <= i < |r| ==> Component(r[i])
    decreases |s|
  {
    match SplitFirst(s, '/')
    case None => if s == "" || s == "." then [] else [s]
    case Some((part, rest)) =>
      (if part == "" || part == "." then [] else [part]) + PathOf(rest)
  }

  /** Reading back the absolute path string of `p` gives `p`. */
  lemma {:induction false} PathOfString(p: Path)
    requires forall i :: 0 <= i < |p| ==> Component(p[i])
    ensures PathOf("/" + JoinComponents(p)) == p
  {
    PathOfComponents(p);
    assert SplitFirst("/" + JoinComponents(p), '/') == Some(("", JoinComponents(p)));
  }

  /** The components of `p` separated by `/`. */
  function JoinComponents(p: Path): string {
    if p == [] then "" else if |p| == 1 then p[0] else p[0] + "/" + JoinComponents(p[1..])
  }

  lemma {:induction false} PathOfComponents(p: Path)
    requires forall i :: 0 <= i < |p| ==> Component(p[i])
    ensures PathOf(JoinComponents(p)) == p
  {
    if |p| == 1 {
      assert '/' !in p[0];
    } else if |p| > 1 {
      var rest := JoinComponents(p[1..]);
      assert JoinComponents(p) == p[0] + ['/'] + rest;
      var sp := SplitFirst(JoinComponents(p), '/');
      SplitUnique(sp.value.0, sp.value.1, p[0], rest, '/');
      PathOfComponents(p[1..]);
    }
  }
}
