/** The parts of Python's `pathlib.PurePosixPath` the analyser uses: `name`,
    `parent`, `suffix`, `stem` and the `/` operator. Paths are taken in
    normal form, as `pathlib` would print them: no empty components
    (`a//b`), no trailing slash and no `.` components other than `.` on its
    own. */
module Paths {
  import opened Wrappers
  import opened Text

  /** The index of the last occurrence of `c` in `s` (Python's `rfind`). */
  function LastIndexOf(s: string, c: char): (r: Option<nat>)
    ensures r.Some? ==> r.value < |s| && s[r.value] == c
    ensures r.Some? ==> forall k :: r.value < k < |s| ==> s[k] != c
    ensures r.None? ==> forall k :: 0 <= k < |s| ==> s[k] != c
  {
    if |s| == 0 then None
    else if s[|s| - 1] == c then Some(|s| - 1)
    else LastIndexOf(s[..|s| - 1], c)
  }

  /** `Path(p).name`: the final component. */
  function Name(p: string): (r: string)
    ensures forall k :: 0 <= k < |r| ==> r[k] != '/'
  {
    if p == "." then ""
    else match LastIndexOf(p, '/')
      case None => p
      case Some(i) => p[i + 1..]
  }

  /** `str(Path(p).parent)`: everything before the final component, `.` for
      a bare file name and `/` for a file in the root directory. */
  function Parent(p: string): string
  {
    match LastIndexOf(p, '/')
    case None => "."
    case Some(i) => if i == 0 then "/" else p[..i]
  }

  /** `str(Path(a) / b)` for a relative `b`. */
  function JoinPath(a: string, b: string): (r: string)
    ensures EndsWith(r, b)
  {
    if a == "." || a == "" then b
    else if EndsWith(a, "/") then a + b
    else a + "/" + b
  }

  /** Index of the dot that starts the suffix of a final component, when
      there is one: the last dot, provided it is neither the first nor the
      last character. */
  function SuffixDot(n: string): (r: Option<nat>)
    ensures r.Some? ==> 0 < r.value < |n| - 1 && n[r.value] == '.'
  {
    match LastIndexOf(n, '.')
    case Some(i) => if 0 < i < |n| - 1 then Some(i) else None
    case None => None
  }

  /** `Path(p).suffix`: `.py` for `a/b.py`, empty for `a/.bashrc` or `a/b`. */
  function Suffix(p: string): (r: string)
    ensures r == "" || (r[0] == '.' && |r| >= 2)
  {
    var n := Name(p);
    match SuffixDot(n)
    case Some(i) => n[i..]
    case None => ""
  }

  /** `Path(p).stem`: the final component without its suffix. */
  function Stem(p: string): string
  {
    var n := Name(p);
    match SuffixDot(n)
    case Some(i) => n[..i]
    case None => n
  }

  /** A file name splits into stem and suffix. */
  lemma StemAndSuffix(p: string)
    ensures Stem(p) + Suffix(p) == Name(p)
  {
  }

  /** The normal form `pathlib` prints: non-empty, no empty components,
      no trailing slash, no leading `./`. */
  predicate NormalPath(p: string) {
    && p != "" && p != "."
    && !EndsWith(p, "/")
    && !StartsWith(p, "./")
    && forall k :: 0 <= k < |p| - 1 ==> !(p[k] == '/' && p[k + 1] == '/')
  }

  /** Joining a path's parent with its name gives the path back. */
  lemma ParentJoinName(p: string)
    requires NormalPath(p)
    ensures JoinPath(Parent(p), Name(p)) == p
  {
    match LastIndexOf(p, '/')
    case None =>
    case Some(i) =>
      if i == 0 {
        assert p == "/" + p[1..];
      } else {
        assert p[i] == '/';
        assert i == 1 ==> p[..2] == [p[0], '/'];
        JoinAtInnerSlash(p, i);
      }
  }

  lemma JoinAtInnerSlash(p: string, i: nat)
    requires 0 < i < |p| && p[i] == '/' && p[i - 1] != '/'
    requires !(i == 1 && p[0] == '.')
    ensures JoinPath(p[..i], p[i + 1..]) == p
  {
    var a, b := p[..i], p[i + 1..];
    assert a != "." by { assert |a| == 1 ==> a[0] == p[0]; }
    assert !EndsWith(a, "/") by {
      assert a[|a| - 1] == p[i - 1];
      assert a[|a| - 1..][0] == a[|a| - 1];
    }
    assert a + "/" == p[..i + 1];
    assert p == p[..i + 1] + b;
  }
}
