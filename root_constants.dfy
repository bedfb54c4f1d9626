/** `constants.py` next to the bootstrap: the same table as `src/constants.py`
    without the Linux and macOS flags. The program location it computes is
    Paths.ResolveProgramDir. */
module RootConstants {
  import opened PyStr
  import SrcConstants

  datatype Platform = Platform(isWindows: bool, dataDir: string)

  /** As SrcConstants.PlatformResult. */
  datatype PlatformResult = Known(info: Platform) | Unset | MissingVariable

  /** The `if PLATFORM == ...` table, over `environ` as in
      SrcConstants.PlatformTable: the keys `os.environ` answers for, with
      win32's case-insensitive keys already folded. */
  function PlatformTable(platform: string, environ: map<string, string>, home: string, pathsep: string): (r: PlatformResult)
    ensures r == MissingVariable <==> platform == "win32" && "localappdata" !in environ
    ensures r == Unset <==> platform != "win32" && platform != "linux" && platform != "darwin"
    ensures r.Known? ==> (r.info.isWindows <==> platform == "win32")
    ensures r.Known? && r.info.isWindows ==> StartsWith(r.info.dataDir, environ["localappdata"])
    ensures r.Known? && platform == "win32" ==> r.info.dataDir == environ["localappdata"] + pathsep
    ensures r.Known? && platform == "linux" ==>
      StartsWith(r.info.dataDir, home + pathsep) && EndsWith(r.info.dataDir, "/.local/share/") &&
      |r.info.dataDir| == |home + pathsep| + |"/.local/share/"|
    ensures r.Known? && platform == "darwin" ==>
      StartsWith(r.info.dataDir, home + pathsep) && EndsWith(r.info.dataDir, "/Library/Application Support/") &&
      |r.info.dataDir| == |home + pathsep| + |"/Library/Application Support/"|
  {
    var userDir := home + pathsep;
    if platform == "win32" then
      if "localappdata" in environ then
        var d := environ["localappdata"] + pathsep;
        assert d[..|environ["localappdata"]|] == environ["localappdata"];
        Known(Platform(true, d))
      else MissingVariable
    else if platform == "linux" then
      var d := userDir + "/.local/share/";
      assert d[..|userDir|] == userDir;
      assert d[|d| - |"/.local/share/"|..] == "/.local/share/";
      Known(Platform(false, d))
    else if platform == "darwin" then
      var d := userDir + "/Library/Application Support/";
      assert d[..|userDir|] == userDir;
      assert d[|d| - |"/Library/Application Support/"|..] == "/Library/Application Support/";
      Known(Platform(false, d))
    else Unset
  }

  /** Both constants modules agree on every platform: the same platforms are
      named, the same failure, the same `IS_WINDOWS` and the same `DATADIR`. */
  lemma AgreesWithSrc(platform: string, environ: map<string, string>, home: string, pathsep: string)
    ensures var r := PlatformTable(platform, environ, home, pathsep);
      var s := SrcConstants.PlatformTable(platform, environ, home, pathsep);
      (r.Known? <==> s.Known?) && (r == Unset <==> s == SrcConstants.Unset) &&
      (r.Known? ==> r.info.isWindows == s.info.isWindows && r.info.dataDir == s.info.dataDir)
  {
  }
}
