/** `__main__.py` at the top of the repository, the bootstrap of a zipapp or a
    directory: read `requirements.txt`, list the installed packages, run
    `installer.py` for the missing ones (from a temporary directory when
    zipped) and then import `main` and call `main.main()`. */
module Bootstrap {
  import opened Seqs
  import opened PyStr
  import opened DependencyCheck
  import opened Requirements
  import opened Launch

  /** `subprocess.run(['pip', 'list'], ...)` */
  const PipListArgv: seq<string> := ["pip", "list"]

  /** `os.linesep` */
  function Linesep(h: Host): LineSep
  {
    if h.isWindows then CRLF else LF
  }

  /** The text of `requirements.txt`: the archive member's decoded bytes,
      which keep any `\r`, or the file `PROGRAM_DIR + '/requirements.txt'`
      as text-mode `open` reads it, line endings already `\n`; `None` when
      absent. */
  function RequirementsText(h: Host): Option<string>
  {
    if h.isZip then
      if "requirements.txt" in h.archive.data then Some(h.archive.data["requirements.txt"]) else None
    else
      if h.programDir + "/requirements.txt" in h.files then Some(h.files[h.programDir + "/requirements.txt"]) else None
  }

  /** The exception of an absent `requirements.txt`. */
  function RequirementsError(h: Host): Error
  {
    if h.isZip then KeyError("requirements.txt") else FileNotFound(h.programDir + "/requirements.txt")
  }

  /** `to_install`: the requirement lines whose `name + ' '` the listing
      lacks, in file order. */
  function ToInstall(h: Host, text: string): (missing: seq<string>)
    ensures IsSubsequence(missing, LinesepLines(text, Linesep(h)))
    ensures forall n :: n in missing <==> n in LinesepLines(text, Linesep(h)) && !IsListed(h.pipList, n)
  {
    CheckToInstall(LinesepLines(text, Linesep(h)), h.pipList)
  }

  /** The zipapp members extracted next to the installer. */
  predicate IsWincurse(name: string)
  {
    StartsWith(name, "wincurse")
  }

  /** `file_path`: where the installer is run from. */
  function InstallerPath(h: Host): string
  {
    if h.isZip then h.tmpDir + "/installer.py" else h.programDir + "/installer.py"
  }

  /** `import main` and `main.main()` can both happen. */
  predicate RunReady(h: Host)
  {
    h.mainModule.Some? && "main" in h.mainModule.value
  }

  /** What `run()` gives: `None` after `main.main()`, or the exception of a
      missing module or function. */
  function RunOutcome(h: Host): Outcome
  {
    if h.mainModule.None? then Raised(ImportFailed("main"))
    else if "main" !in h.mainModule.value then Raised(AttributeError("main"))
    else Done
  }

  /** What `main()` gives. Outside Windows `subprocess.CREATE_NO_WINDOW` does
      not exist, so the `pip list` call raises. The constant is also missing
      on Windows before Python 3.7; the bootstrap has no version gate, and
      the model takes a Windows interpreter to have it. */
  function BootOutcome(h: Host): Outcome
  {
    match RequirementsText(h)
    case None => Raised(RequirementsError(h))
    case Some(text) =>
      if !h.isWindows then Raised(AttributeError("CREATE_NO_WINDOW"))
      else if ToInstall(h, text) == [] then RunOutcome(h)
      else if h.isZip && "installer.py" !in h.archive.names then Raised(KeyError("installer.py"))
      else if h.childCode == 0 then RunOutcome(h)
      else Done
  }

  /** The steps of `run()`. */
  function RunSteps(h: Host): seq<Event>
  {
    if RunReady(h) then [CallMain("main", [])] else []
  }

  /** `run()`: import `main` and call `main.main()`. */
  method Run(h: Host) returns (out: Outcome, t: seq<Event>)
    ensures out == RunOutcome(h)
    ensures t == RunSteps(h)
  {
    if h.mainModule.None? {
      return Raised(ImportFailed("main")), [];
    }
    if "main" !in h.mainModule.value {
      return Raised(AttributeError("main")), [];
    }
    return Done, [CallMain("main", [])];
  }

  /** The zipapp staging: a temporary directory, then `installer.py` and every
      `wincurse` member extracted into it, in namelist order. */
  function StagedSteps(h: Host): seq<Event>
  {
    [MakeTemp(h.tmpDir), Extract("installer.py", h.tmpDir)] + Extractions(Filter(h.archive.names, IsWincurse), h.tmpDir)
  }

  /** The steps once something is missing: stage when zipped (stopping at the
      `KeyError` of a missing `installer.py`), run the installer and wait,
      clean the temporary directory up, and `run()` on status 0. */
  function InstallSteps(h: Host, missing: seq<string>): seq<Event>
  {
    var argv := ["py", InstallerPath(h)] + missing;
    var run := if h.childCode == 0 then RunSteps(h) else [];
    if !h.isZip then [Spawn(argv)] + run
    else if "installer.py" !in h.archive.names then [MakeTemp(h.tmpDir)]
    else StagedSteps(h) + [Spawn(argv), RemoveTemp(h.tmpDir)] + run
  }

  /** The steps of `main()`: nothing when `requirements.txt` is absent or
      `pip list` cannot be started, otherwise `pip list` and then either
      `run()` directly or the installation. */
  function BootTrace(h: Host): seq<Event>
  {
    match RequirementsText(h)
    case None => []
    case Some(text) =>
      if !h.isWindows then []
      else
        var missing := ToInstall(h, text);
        [PipList(PipListArgv)] + (if missing == [] then RunSteps(h) else InstallSteps(h, missing))
  }

  /** The zipapp steps before the installer runs. */
  method Stage(h: Host) returns (err: Option<Error>, t: seq<Event>)
    requires h.isZip
    ensures err.None? <==> "installer.py" in h.archive.names
    ensures err.Some? ==> err.value == KeyError("installer.py") && t == [MakeTemp(h.tmpDir)]
    ensures err.None? ==> t == StagedSteps(h)
  {
    t := [MakeTemp(h.tmpDir)];
    if "installer.py" !in h.archive.names {
      return Some(KeyError("installer.py")), t;
    }
    var wincurses := Extractions(Filter(h.archive.names, IsWincurse), h.tmpDir);
    t := t + [Extract("installer.py", h.tmpDir)] + wincurses;
    err := None;
  }

  /** The `if to_install:` branch of `main()`. */
  method InstallThenRun(h: Host, missing: seq<string>) returns (out: Outcome, t: seq<Event>)
    requires missing != []
    ensures t == InstallSteps(h, missing)
    ensures out == if h.isZip && "installer.py" !in h.archive.names then Raised(KeyError("installer.py"))
                   else if h.childCode == 0 then RunOutcome(h) else Done
  {
    var staged: seq<Event> := [];
    if h.isZip {
      var err;
      err, staged := Stage(h);
      if err.Some? {
        return Raised(err.value), staged;
      }
    }
    t := staged + [Spawn(["py", InstallerPath(h)] + missing)];
    if h.isZip {
      t := t + [RemoveTemp(h.tmpDir)];
    }
    if h.childCode == 0 {
      var run;
      out, run := Run(h);
      t := t + run;
    } else {
      out := Done;
    }
  }

  /** `main()` of the bootstrap. */
  method BootstrapMain(h: Host) returns (out: Outcome, trace: seq<Event>)
    ensures out == BootOutcome(h)
    ensures trace == BootTrace(h)
  {
    var text := RequirementsText(h);
    if text.None? {
      return Raised(RequirementsError(h)), [];
    }
    if !h.isWindows {
      // `subprocess.CREATE_NO_WINDOW` exists only on Windows
      return Raised(AttributeError("CREATE_NO_WINDOW")), [];
    }
    var missing := ToInstall(h, text.value);
    var t := [PipList(PipListArgv)];
    if missing == [] {
      var run;
      out, run := Run(h);
      return out, t + run;
    }
    var rest;
    out, rest := InstallThenRun(h, missing);
    trace := t + rest;
  }

  /** Exactly `installer.py` and the `wincurse` members are extracted, each
      `wincurse` member as often as the namelist holds it. */
  lemma StagedMembers(h: Host, n: string)
    ensures multiset(StagedSteps(h))[Extract(n, h.tmpDir)] ==
      (if n == "installer.py" then 1 else 0) + (if IsWincurse(n) then multiset(h.archive.names)[n] else 0)
  {
    var w := Extractions(Filter(h.archive.names, IsWincurse), h.tmpDir);
    assert multiset([MakeTemp(h.tmpDir), Extract("installer.py", h.tmpDir)] + w) ==
      multiset([MakeTemp(h.tmpDir)]) + multiset([Extract("installer.py", h.tmpDir)]) + multiset(w);
    FilterCount(h.archive.names, IsWincurse, n);
    ExtractionsCount(Filter(h.archive.names, IsWincurse), h.tmpDir, n);
  }

  /** In a zipapp the temporary directory is the first step, every member is
      extracted before the installer runs, and the directory is removed
      right after the installer returns. */
  lemma ZipScopeOrder(h: Host, missing: seq<string>)
    requires h.isZip && "installer.py" in h.archive.names
    ensures var t := InstallSteps(h, missing);
      var i := |StagedSteps(h)|;
      i + 1 < |t| && t[0] == MakeTemp(h.tmpDir) &&
      t[i] == Spawn(["py", h.tmpDir + "/installer.py"] + missing) && t[i + 1] == RemoveTemp(h.tmpDir) &&
      (forall j :: 0 <= j < i ==> t[j].MakeTemp? || t[j].Extract?) &&
      (forall j :: i + 1 < j < |t| ==> t[j] == CallMain("main", []))
  {
    var t := InstallSteps(h, missing);
    var s := StagedSteps(h);
    var w := Extractions(Filter(h.archive.names, IsWincurse), h.tmpDir);
    assert forall j :: 0 <= j < |s| ==> t[j] == s[j];
    assert forall j :: 2 <= j < |s| ==> s[j] == w[j - 2] && w[j - 2] in w;
  }

  /** `main.main()` runs exactly when nothing is missing or the installer ran
      and exited with status 0 (and the module and its function exist); it is
      then the last step. */
  lemma RunsIffInstalled(h: Host)
    ensures CallMain("main", []) in BootTrace(h) <==>
      RequirementsText(h).Some? && h.isWindows && RunReady(h) &&
      (ToInstall(h, RequirementsText(h).value) == [] ||
       ((!h.isZip || "installer.py" in h.archive.names) && h.childCode == 0))
    ensures CallMain("main", []) in BootTrace(h) ==> BootTrace(h)[|BootTrace(h)| - 1] == CallMain("main", [])
  {
    var text := RequirementsText(h);
    if text.Some? && h.isWindows {
      var missing := ToInstall(h, text.value);
      if missing != [] && h.isZip && "installer.py" in h.archive.names {
        var w := Extractions(Filter(h.archive.names, IsWincurse), h.tmpDir);
        assert CallMain("main", []) !in w;
        assert CallMain("main", []) !in StagedSteps(h);
        var run := if h.childCode == 0 then RunSteps(h) else [];
        assert InstallSteps(h, missing) == StagedSteps(h) + [Spawn(["py", InstallerPath(h)] + missing), RemoveTemp(h.tmpDir)] + run;
      }
    }
  }

  /** With nothing missing, `run()` follows `pip list` directly: no
      temporary directory and no installer. */
  lemma NothingMissingRunsDirectly(h: Host)
    requires RequirementsText(h).Some? && h.isWindows && ToInstall(h, RequirementsText(h).value) == []
    ensures BootTrace(h) == [PipList(PipListArgv)] + RunSteps(h)
    ensures forall e :: e in BootTrace(h) ==> !e.MakeTemp? && !e.Spawn?
  {
  }
}
