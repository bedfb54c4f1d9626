/** `src/constants.py`: the platform flags and the per-user data directory.
    The program location it computes is Paths.ResolveProgramDir. */
module SrcConstants {
  import opened PyStr

  datatype Platform = Platform(isWindows: bool, isLinux: bool, isMacos: bool, dataDir: string)

  /** `Unset`: a `sys.platform` the table does not name, so `IS_WINDOWS`,
      `IS_LINUX`, `IS_MACOS` and `DATADIR` are never bound.
      `MissingVariable`: the `KeyError` of `os.environ['localappdata']`. */
  datatype PlatformResult = Known(info: Platform) | Unset | MissingVariable

  /** `USER_DIR = os.path.expanduser('~') + PATHSEP` */
  function UserDir(home: string, pathsep: string): string
  {
    home + pathsep
  }

  /** The `if PLATFORM == ...` table. `environ` maps each key to the value
      `os.environ[key]` answers. On win32 `os.environ` compares keys case
      insensitively, so a variable set as `LOCALAPPDATA` is found under
      `localappdata` here; the case folding itself is not modelled. */
  function PlatformTable(platform: string, environ: map<string, string>, home: string, pathsep: string): (r: PlatformResult)
    ensures r == MissingVariable <==> platform == "win32" && "localappdata" !in environ
    ensures r == Unset <==> platform != "win32" && platform != "linux" && platform != "darwin"
    ensures r.Known? ==>
      (r.info.isWindows <==> platform == "win32") &&
      (r.info.isLinux <==> platform == "linux") &&
      (r.info.isMacos <==> platform == "darwin")
    ensures r.Known? && r.info.isWindows ==> StartsWith(r.info.dataDir, environ["localappdata"]) && EndsWith(r.info.dataDir, pathsep)
    ensures r.Known? && platform == "win32" ==> r.info.dataDir == environ["localappdata"] + pathsep
    ensures r.Known? && !r.info.isWindows ==> StartsWith(r.info.dataDir, UserDir(home, pathsep)) && EndsWith(r.info.dataDir, "/")
    ensures r.Known? && platform == "linux" ==>
      EndsWith(r.info.dataDir, "/.local/share/") && |r.info.dataDir| == |UserDir(home, pathsep)| + |"/.local/share/"|
    ensures r.Known? && platform == "darwin" ==>
      EndsWith(r.info.dataDir, "/Library/Application Support/") &&
      |r.info.dataDir| == |UserDir(home, pathsep)| + |"/Library/Application Support/"|
  {
    var userDir := UserDir(home, pathsep);
    if platform == "win32" then
      if "localappdata" in environ then
        var d := environ["localappdata"] + pathsep;
        assert d[..|environ["localappdata"]|] == environ["localappdata"];
        assert d[|d| - |pathsep|..] == pathsep;
        Known(Platform(true, false, false, d))
      else MissingVariable
    else if platform == "linux" then
      var d := userDir + "/.local/share/";
      assert d[..|userDir|] == userDir;
      assert d[|d| - |"/.local/share/"|..] == "/.local/share/";
      Known(Platform(false, true, false, d))
    else if platform == "darwin" then
      var d := userDir + "/Library/Application Support/";
      assert d[..|userDir|] == userDir;
      assert d[|d| - |"/Library/Application Support/"|..] == "/Library/Application Support/";
      Known(Platform(false, false, true, d))
    else Unset
  }

  /** On the named platforms exactly one flag is set. */
  lemma ExactlyOneFlag(platform: string, environ: map<string, string>, home: string, pathsep: string)
    requires PlatformTable(platform, environ, home, pathsep).Known?
    ensures var f := PlatformTable(platform, environ, home, pathsep).info;
      (if f.isWindows then 1 else 0) + (if f.isLinux then 1 else 0) + (if f.isMacos then 1 else 0) == 1
  {
  }
}
