/** POSIX path handling (`posixpath.dirname`) and the search for the program
    directory that both `constants` modules run at import time. */
module Paths {
  import opened PyStr

  /** `p.rfind('/') + 1`: the index just after the last slash, 0 without one. */
  function AfterLastSlash(p: string): (i: nat)
    ensures i <= |p|
    ensures i > 0 ==> p[i - 1] == '/'
    ensures forall j :: i <= j < |p| ==> p[j] != '/'
  {
    if p == [] then 0 else if p[|p| - 1] == '/' then |p| else AfterLastSlash(p[..|p| - 1])
  }

  predicate AllSlashes(s: string)
  {
    forall k :: 0 <= k < |s| ==> s[k] == '/'
  }

  /** `s.rstrip('/')` */
  function RStripSlashes(s: string): (r: string)
    ensures |r| <= |s| && r == s[..|r|]
    ensures r == [] || r[|r| - 1] != '/'
    ensures AllSlashes(s[|r|..])
  {
    if s != [] && s[|s| - 1] == '/' then
      var r := RStripSlashes(s[..|s| - 1]);
      assert s[..|s| - 1][|r|..] + ['/'] == s[|r|..];
      r
    else s
  }

  /** `posixpath.dirname(p)`: everything up to the last slash, with the
      trailing slashes removed unless the head is all slashes. */
  function Dirname(p: string): string
  {
    var head := p[..AfterLastSlash(p)];
    if head != [] && !AllSlashes(head) then RStripSlashes(head) else head
  }

  /** What `os.path.abspath` returns on a POSIX system: absolute, without
      doubled slashes and without a trailing slash except for the root. */
  predicate IsNormalAbsolute(p: string)
  {
    |p| > 0 && p[0] == '/' && (p == "/" || p[|p| - 1] != '/') &&
    forall k :: 0 <= k < |p| - 1 ==> !(p[k] == '/' && p[k + 1] == '/')
  }

  /** The parent of a normalised path below the root is a normalised proper
      prefix of it, ending where a slash of the path begins. */
  lemma DirnameParent(p: string)
    requires IsNormalAbsolute(p) && p != "/"
    ensures var d := Dirname(p);
      IsNormalAbsolute(d) && |d| < |p| && StartsWith(p, d) && (d == "/" || p[|d|] == '/')
  {
    var i := AfterLastSlash(p);
    assert i > 0;
    assert i < |p|;
    var head := p[..i];
    if i == 1 {
      assert AllSlashes(head);
      assert Dirname(p) == "/";
    } else {
      assert head[i - 2] != '/';
      assert !AllSlashes(head);
      assert RStripSlashes(head) == head[..i - 1] by {
        assert head[..i - 1][i - 2] != '/';
      }
      assert Dirname(p) == p[..i - 1];
    }
  }

  /** Number of `dirname` steps from `p` up to the nearest directory. */
  function StepsToDir(p: string, dirs: set<string>): nat
    requires IsNormalAbsolute(p) && "/" in dirs
    decreases |p|
  {
    if p in dirs then 0
    else
      DirnameParent(p);
      1 + StepsToDir(Dirname(p), dirs)
  }

  /** The `k`-th ancestor of `p` (`dirname` applied `k` times). */
  function Ancestor(p: string, k: nat): string
    decreases k
  {
    if k == 0 then p else Ancestor(Dirname(p), k - 1)
  }

  /** The nearest ancestor of `p` (itself included) that is a directory. */
  function NearestDir(p: string, dirs: set<string>): string
    requires IsNormalAbsolute(p) && "/" in dirs
  {
    Ancestor(p, StepsToDir(p, dirs))
  }

  /** NearestDir is a directory, an ancestor of `p` below which no ancestor is
      a directory, and a prefix of `p` that ends at a path boundary. */
  lemma {:induction false} NearestDirIsNearest(p: string, dirs: set<string>)
    requires IsNormalAbsolute(p) && "/" in dirs
    ensures var d := NearestDir(p, dirs);
      d in dirs && IsNormalAbsolute(d) && StartsWith(p, d) && (d == p || d == "/" || p[|d|] == '/') &&
      forall j :: 0 <= j < StepsToDir(p, dirs) ==> Ancestor(p, j) !in dirs
    decreases |p|
  {
    if p !in dirs {
      DirnameParent(p);
      var q := Dirname(p);
      NearestDirIsNearest(q, dirs);
      var d := NearestDir(p, dirs);
      assert d == NearestDir(q, dirs);
      forall j | 0 <= j < StepsToDir(p, dirs) ensures Ancestor(p, j) !in dirs {
        if j > 0 {
          assert Ancestor(p, j) == Ancestor(q, j - 1);
        }
      }
      if d != q && d != "/" {
        assert q[|d|] == '/';
        assert p[|d|] == q[|d|];
      }
    }
  }

  /** One step of the walk does not change where it ends. */
  lemma NearestDirStep(p: string, dirs: set<string>)
    requires IsNormalAbsolute(p) && "/" in dirs && p !in dirs
    ensures p != "/" && IsNormalAbsolute(Dirname(p)) && |Dirname(p)| < |p|
    ensures NearestDir(Dirname(p), dirs) == NearestDir(p, dirs)
  {
    DirnameParent(p);
  }

  /** `PROGRAM_DIR`, `IS_ZIPFILE` and `ZIPAPP_FILE` as the `constants` modules
      derive them from the absolute path of their own file: the containing
      path, which is a file when the program runs from a zip archive; then the
      nearest directory above it; then the separator appended. */
  method ResolveProgramDir(modulePath: string, files: set<string>, dirs: set<string>, pathsep: string)
    returns (isZip: bool, zipappFile: string, programDir: string)
    requires IsNormalAbsolute(modulePath) && modulePath != "/" && "/" in dirs
    ensures var dir := Dirname(modulePath);
      isZip == (dir in files) &&
      (isZip ==> zipappFile == dir && IsNormalAbsolute(dir) && programDir == NearestDir(dir, dirs) + pathsep) &&
      (!isZip ==> zipappFile == "" && programDir == dir + pathsep)
    ensures EndsWith(programDir, pathsep)
  {
    DirnameParent(modulePath);
    var dir := Dirname(modulePath);
    isZip := dir in files;
    if isZip {
      zipappFile := dir;
      while dir !in dirs
        invariant IsNormalAbsolute(dir)
        invariant NearestDir(dir, dirs) == NearestDir(zipappFile, dirs)
        decreases |dir|
      {
        NearestDirStep(dir, dirs);
        dir := Dirname(dir);
      }
    } else {
      zipappFile := "";
    }
    programDir := dir + pathsep;
    assert programDir[|programDir| - |pathsep|..] == pathsep;
  }
}
