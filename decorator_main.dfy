/** `src/universal_main.py`, the single-file launcher: the decorators `main`
    and `pyside6_splash_main` wrap a target function, check the interpreter,
    read `requirements.txt`, install what is missing through the installer
    child (on Windows only when the network answers) and then call the
    target. */
module DecoratorMain {
  import opened Seqs
  import opened PyTuple
  import opened DependencyCheck
  import opened Requirements
  import opened Launch

  /** `run_cmd(['pip', 'list'])` */
  const PipListArgv: seq<string> := ["pip", "list"]

  // ---------------------------------------------------------------- loading

  /** Line 4 imports `QSplashScreen` from PySide6 when the module loads, so the
      module, and with it the plain `main` decorator, loads only where PySide6
      is installed. */
  function LoadError(h: Host): (err: Option<Error>)
    ensures err.None? <==> h.toolkit
  {
    if h.toolkit then None else Some(ImportFailed("PySide6"))
  }

  // ---------------------------------------------------------------- version gate

  /** The interpreter is older than 3.7. */
  predicate Py37TooOld(h: Host)
  {
    h.version.major < 3 || (h.version.major == 3 && h.version.minor < 7)
  }

  /** `_check_py37()`: `sys.version_info < (3, 7)` never raises, and holds
      exactly for interpreters older than 3.7, whatever the micro version,
      release level and serial. */
  lemma Py37Gate(h: Host)
    ensures TupleLess(h.version.AsTuple(), Ints([3, 7])) == Some(Py37TooOld(h))
  {
    var x := h.version.AsTuple();
    var b := [Int(3), Int(7)];
    assert Ints([3, 7]) == b;
    if h.version.major == 3 {
      assert TupleLess(x, b) == TupleLess(x[1..], b[1..]);
      assert x[1..][0] == Int(h.version.minor) && b[1..] == [Int(7)];
      if h.version.minor == 7 {
        assert TupleLess(x[1..], [Int(7)]) == TupleLess(x[1..][1..], []);
      }
    }
  }

  // ---------------------------------------------------------------- requirements

  /** The non-empty lines of the archive's `requirements.txt`; `None` when it
      is not a member (`KeyError`). */
  function ZipRequirements(h: Host): (r: Option<seq<string>>)
    ensures r.None? <==> "requirements.txt" !in h.archive.data
    ensures r.Some? ==> forall n :: n in r.value ==> n != []
  {
    if "requirements.txt" in h.archive.data then Some(RequirementLines(h.archive.data["requirements.txt"])) else None
  }

  /** The non-empty lines of `PROGRAM_DIR + 'requirements.txt'`; `None` when
      the file does not exist (`FileNotFoundError`). */
  function DiskRequirements(h: Host): (r: Option<seq<string>>)
    ensures r.None? <==> h.programDir + "requirements.txt" !in h.files
    ensures r.Some? ==> forall n :: n in r.value ==> n != []
  {
    var path := h.programDir + "requirements.txt";
    if path in h.files then Some(RequirementLines(h.files[path])) else None
  }

  // ---------------------------------------------------------------- outcomes

  /** `_check_network()` reports the network as down, on Windows, where it is asked. */
  predicate NetworkDown(h: Host)
  {
    h.isWindows && !h.networkUp
  }

  /** What the `with TemporaryDirectory()` block of `_zipapp_package_installer`
      returns or raises. */
  function ZipStagedOutcome(h: Host): Outcome
  {
    if FirstWith(h.archive.names, "package_installer.py") == |h.archive.names| then Raised(UnboundLocal("extracted_path"))
    else if NetworkDown(h) then Returned(1)
    else Returned(h.childCode)
  }

  /** `_zipapp_package_installer()` */
  function ZipOutcome(h: Host): Outcome
  {
    match ZipRequirements(h)
    case None => Raised(KeyError("requirements.txt"))
    case Some(requirements) => if Missing(h, requirements) == [] then Returned(0) else ZipStagedOutcome(h)
  }

  /** `_normal_package_checker()` */
  function NormalOutcome(h: Host): Outcome
  {
    match DiskRequirements(h)
    case None => Raised(FileNotFound(h.programDir + "requirements.txt"))
    case Some(requirements) =>
      if Missing(h, requirements) == [] then Returned(0)
      else if NetworkDown(h) then Returned(1)
      else Returned(h.childCode)
  }

  /** The installer the decorators pick by `IS_ZIPFILE`. */
  function InstallOutcome(h: Host): Outcome
  {
    if h.isZip then ZipOutcome(h) else NormalOutcome(h)
  }

  /** The requirements the chosen installer reads. */
  function ReadRequirements(h: Host): Option<seq<string>>
  {
    if h.isZip then ZipRequirements(h) else DiskRequirements(h)
  }

  /** The installers return 0 when nothing is missing, 1 when the network is
      down on Windows, and otherwise the child's exit status unchanged; they
      raise when `requirements.txt` is absent. */
  lemma InstallCodes(h: Host)
    ensures ReadRequirements(h).None? ==> InstallOutcome(h).Raised?
    ensures ReadRequirements(h).Some? && Missing(h, ReadRequirements(h).value) == [] ==> InstallOutcome(h) == Returned(0)
    ensures ReadRequirements(h).Some? && Missing(h, ReadRequirements(h).value) != [] && InstallOutcome(h).Returned? ==>
      InstallOutcome(h) == Returned(if NetworkDown(h) then 1 else h.childCode)
    ensures !InstallOutcome(h).Done?
  {
  }

  // ---------------------------------------------------------------- installers

  /** The steps of the zipapp installer once the requirements are read and
      `missing` is what `_check_to_install` returned: `pip list` first; with
      nothing missing nothing else; otherwise a temporary directory next, and
      the child, if it runs, with the missing names after the installer's
      path, only when the network answers, and giving its status. */
  predicate ZipTrace(h: Host, missing: seq<string>, out: Outcome, trace: seq<Event>)
  {
    var argv := ["py", h.tmpDir + "/package_installer.py"] + missing;
    |trace| > 0 && trace[0] == PipList(PipListArgv) &&
    (missing == [] <==> trace == [PipList(PipListArgv)]) &&
    (missing != [] ==> trace[1] == MakeTemp(h.tmpDir)) &&
    (forall e :: e in trace ==>
       IsInstallStep(e) && (e.Spawn? ==> e.argv == argv && !NetworkDown(h) && out == Returned(h.childCode))) &&
    (missing != [] && !out.Raised? && !NetworkDown(h) ==> Spawn(argv) in trace)
  }

  /** `_zipapp_package_installer()`: read the requirements from the archive,
      list the installed packages, and with anything missing stage the
      installer in a temporary directory and run it. */
  method ZipappInstaller(h: Host) returns (out: Outcome, trace: seq<Event>)
    ensures out == ZipOutcome(h)
    ensures TempScoped(trace, h.tmpDir)
    ensures ZipRequirements(h).None? ==> trace == []
    ensures ZipRequirements(h).Some? ==> ZipTrace(h, Missing(h, ZipRequirements(h).value), out, trace)
  {
    var requirements := ZipRequirements(h);
    if requirements.None? {
      return Raised(KeyError("requirements.txt")), [];
    }
    out, trace := ZipChecked(h, Missing(h, requirements.value));
  }

  /** The zipapp installer after `_check_to_install`. */
  method ZipChecked(h: Host, missing: seq<string>) returns (out: Outcome, trace: seq<Event>)
    ensures out == if missing == [] then Returned(0) else ZipStagedOutcome(h)
    ensures TempScoped(trace, h.tmpDir)
    ensures ZipTrace(h, missing, out, trace)
  {
    var t := [PipList(PipListArgv)];
    if missing == [] {
      return Returned(0), t;
    }
    var scope;
    out, scope := ZipScope(h, missing);
    ScopedAfter(t, scope, h.tmpDir);
    trace := t + scope;
  }

  /** The `with TemporaryDirectory()` block of the zipapp installer: whatever
      the body returns or raises, the directory is removed last. */
  method ZipScope(h: Host, missing: seq<string>) returns (out: Outcome, scope: seq<Event>)
    ensures out == ZipStagedOutcome(h)
    ensures |scope| > 1 && scope[0] == MakeTemp(h.tmpDir) && TempScoped(scope, h.tmpDir)
    ensures forall e :: e in scope ==>
      IsInstallStep(e) &&
      (e.Spawn? ==> e.argv == ["py", h.tmpDir + "/package_installer.py"] + missing && !NetworkDown(h) && out == Returned(h.childCode))
    ensures !out.Raised? && !NetworkDown(h) ==> Spawn(["py", h.tmpDir + "/package_installer.py"] + missing) in scope
  {
    var body;
    out, body := ZipStaging(h, missing);
    ScopeIsScoped([], body, h.tmpDir);
    scope := [] + [MakeTemp(h.tmpDir)] + body + [RemoveTemp(h.tmpDir)];
  }

  /** The body of that block: stage the installer; on Windows probe the
      network, giving up with 1 when it is down, and fetch the curses
      modules; run the installer child. */
  method ZipStaging(h: Host, missing: seq<string>) returns (out: Outcome, body: seq<Event>)
    ensures out == ZipStagedOutcome(h)
    ensures forall e :: e in body ==>
      IsInstallStep(e) && !e.MakeTemp? && !e.RemoveTemp? &&
      (e.Spawn? ==> e.argv == ["py", h.tmpDir + "/package_installer.py"] + missing && !NetworkDown(h) && out == Returned(h.childCode))
    ensures !out.Raised? && !NetworkDown(h) ==> Spawn(["py", h.tmpDir + "/package_installer.py"] + missing) in body
    ensures !out.Raised? && h.isWindows ==> ProbeNetwork in body
  {
    var err;
    err, body := StageInstaller(h);
    if err.Some? {
      return Raised(err.value), body;
    }
    var installerPath := h.tmpDir + "/package_installer.py";
    if h.isWindows {
      body := body + [ProbeNetwork];
      if !h.networkUp {
        return Returned(1), body;
      }
      var cursesDir := h.tmpDir + "/wincurses";
      body := body + [Mkdir(cursesDir), DownloadCurses(cursesDir)];
    }
    body := body + [Spawn(["py", installerPath] + missing)];
    out := Returned(h.childCode);
  }

  /** The steps of `_normal_package_checker()` once `requirements.txt` is
      read: `pip list` first and alone when nothing is missing; a temporary
      directory exactly on Windows with something missing; outside Windows
      the installer next to this module; only installation steps, and an
      installer run only with the network up, whose status is then returned;
      on Windows with the network up the copy in the temporary directory is
      run. */
  predicate NormalSteps(h: Host, missing: seq<string>, out: Outcome, trace: seq<Event>)
  {
    |trace| > 0 && trace[0] == PipList(PipListArgv) &&
    (missing == [] <==> trace == [PipList(PipListArgv)]) &&
    (MakeTemp(h.tmpDir) in trace <==> h.isWindows && missing != []) &&
    (!h.isWindows && missing != [] ==>
       trace == [PipList(PipListArgv), Spawn(["py", h.fileDir + "package_installer.py"] + missing)]) &&
    (forall e :: e in trace ==> IsInstallStep(e) && (e.Spawn? ==> !NetworkDown(h) && out == Returned(h.childCode))) &&
    (h.isWindows && h.networkUp && missing != [] ==> Spawn(["py", h.tmpDir + "/package_installer.py"] + missing) in trace)
  }

  /** The Windows branch: `pip list` followed by the temporary-directory
      block. */
  lemma WindowsSteps(h: Host, missing: seq<string>, out: Outcome, scope: seq<Event>)
    requires h.isWindows && missing != []
    requires out == (if h.networkUp then Returned(h.childCode) else Returned(1))
    requires |scope| > 1 && scope[0] == MakeTemp(h.tmpDir)
    requires forall e :: e in scope ==> IsInstallStep(e) && (e.Spawn? ==> h.networkUp)
    requires h.networkUp ==> Spawn(["py", h.tmpDir + "/package_installer.py"] + missing) in scope
    ensures NormalSteps(h, missing, out, [PipList(PipListArgv)] + scope)
  {
    var trace := [PipList(PipListArgv)] + scope;
    assert trace[1] == MakeTemp(h.tmpDir);
    assert forall e :: e in trace ==> e == PipList(PipListArgv) || e in scope;
  }

  /** `_normal_package_checker()`: read `PROGRAM_DIR + 'requirements.txt'`,
      list the installed packages, and with anything missing run the installer
      next to this module, or on Windows a copy of it in a temporary directory
      once the network answers. */
  method NormalInstaller(h: Host) returns (out: Outcome, trace: seq<Event>)
    ensures out == NormalOutcome(h)
    ensures TempScoped(trace, h.tmpDir)
    ensures DiskRequirements(h).None? ==> trace == []
    ensures DiskRequirements(h).Some? ==> NormalSteps(h, Missing(h, DiskRequirements(h).value), out, trace)
  {
    var requirements := DiskRequirements(h);
    if requirements.None? {
      return Raised(FileNotFound(h.programDir + "requirements.txt")), [];
    }
    out, trace := NormalChecked(h, Missing(h, requirements.value));
  }

  /** `_normal_package_checker()` once the missing requirements are known. */
  method NormalChecked(h: Host, missing: seq<string>) returns (out: Outcome, trace: seq<Event>)
    ensures out == if missing == [] then Returned(0) else if NetworkDown(h) then Returned(1) else Returned(h.childCode)
    ensures TempScoped(trace, h.tmpDir)
    ensures NormalSteps(h, missing, out, trace)
  {
    var t := [PipList(PipListArgv)];
    if missing == [] {
      return Returned(0), t;
    }
    if h.isWindows {
      var scope;
      out, scope := NormalScope(h, missing);
      ScopedAfter(t, scope, h.tmpDir);
      WindowsSteps(h, missing, out, scope);
      trace := t + scope;
    } else {
      trace := t + [Spawn(["py", h.fileDir + "package_installer.py"] + missing)];
      out := Returned(h.childCode);
    }
  }

  /** The `with TemporaryDirectory()` block of the Windows branch. */
  method NormalScope(h: Host, missing: seq<string>) returns (out: Outcome, scope: seq<Event>)
    requires h.isWindows
    ensures out == (if h.networkUp then Returned(h.childCode) else Returned(1))
    ensures |scope| > 1 && scope[0] == MakeTemp(h.tmpDir) && TempScoped(scope, h.tmpDir)
    ensures forall e :: e in scope ==> IsInstallStep(e) && (e.Spawn? ==> h.networkUp)
    ensures h.networkUp ==> Spawn(["py", h.tmpDir + "/package_installer.py"] + missing) in scope
  {
    var body;
    out, body := NormalStaging(h, missing);
    ScopeIsScoped([], body, h.tmpDir);
    scope := [] + [MakeTemp(h.tmpDir)] + body + [RemoveTemp(h.tmpDir)];
  }

  /** The body of that block: copy the installer, probe the network (1 when it
      is down), fetch the curses modules, run the copy. */
  method NormalStaging(h: Host, missing: seq<string>) returns (out: Outcome, body: seq<Event>)
    requires h.isWindows
    ensures out == (if h.networkUp then Returned(h.childCode) else Returned(1))
    ensures forall e :: e in body ==> IsInstallStep(e) && !e.MakeTemp? && !e.RemoveTemp? && (e.Spawn? ==> h.networkUp)
    ensures h.networkUp ==> Spawn(["py", h.tmpDir + "/package_installer.py"] + missing) in body
    ensures |body| >= 2 && body[..2] == [Copy(h.fileDir + "package_installer.py", h.tmpDir), ProbeNetwork]
  {
    body := [Copy(h.fileDir + "package_installer.py", h.tmpDir), ProbeNetwork];
    if !h.networkUp {
      return Returned(1), body;
    }
    var cursesDir := h.tmpDir + "/wincurses";
    body := body + [Mkdir(cursesDir), DownloadCurses(cursesDir), Spawn(["py", h.tmpDir + "/package_installer.py"] + missing)];
    out := Returned(h.childCode);
  }

  /** `if IS_ZIPFILE: _zipapp_package_installer() else: _normal_package_checker()` */
  method Install(h: Host) returns (out: Outcome, trace: seq<Event>)
    ensures out == InstallOutcome(h)
    ensures TempScoped(trace, h.tmpDir)
    ensures forall e :: e in trace ==> IsInstallStep(e)
    ensures ReadRequirements(h).Some? ==>
      |trace| > 0 && trace[0] == PipList(PipListArgv) &&
      (Missing(h, ReadRequirements(h).value) == [] ==> trace == [PipList(PipListArgv)])
  {
    if h.isZip {
      out, trace := ZipappInstaller(h);
    } else {
      out, trace := NormalInstaller(h);
    }
  }

  // ---------------------------------------------------------------- main

  /** What the function `main(f)` returns runs to: `None` after the version
      message or once the installer has returned, whatever its status;
      only the installer's exceptions leave it. */
  function MainOutcome(h: Host): Outcome
  {
    if Py37TooOld(h) then Done
    else if InstallOutcome(h).Raised? then InstallOutcome(h)
    else Done
  }

  /** The function `main(main_func)` returns: the version gate, the
      installer, and `main_func()` exactly when the installer's status is 0.
      Nothing here needs PySide6. */
  method MainInner(h: Host, funcName: string) returns (out: Outcome, trace: seq<Event>)
    ensures out == MainOutcome(h)
    ensures Py37TooOld(h) ==> trace == [VersionTooOld]
    ensures !Py37TooOld(h) && ReadRequirements(h).Some? ==> |trace| > 0 && trace[0] == PipList(PipListArgv)
    ensures TempScoped(Filter(trace, IsInstallStep), h.tmpDir)
    ensures forall i :: 0 <= i < |trace| && trace[i].CallMain? ==> i == |trace| - 1 && trace[i] == CallMain(funcName, [])
    ensures CallMain(funcName, []) in trace <==> !Py37TooOld(h) && InstallOutcome(h) == Returned(0)
  {
    var tooOld := TupleLess(h.version.AsTuple(), Ints([3, 7]));
    Py37Gate(h);
    if tooOld.value {
      assert Filter([VersionTooOld], IsInstallStep) == [];
      return Done, [VersionTooOld];
    }
    out, trace := InstallThenTarget(h, funcName);
  }

  /** The part of `main(main_func)`'s inner function past the version gate:
      the installer, then `main_func()` when its status is 0. */
  method InstallThenTarget(h: Host, funcName: string) returns (out: Outcome, trace: seq<Event>)
    ensures out == (if InstallOutcome(h).Raised? then InstallOutcome(h) else Done)
    ensures ReadRequirements(h).Some? ==> |trace| > 0 && trace[0] == PipList(PipListArgv)
    ensures TempScoped(Filter(trace, IsInstallStep), h.tmpDir)
    ensures forall i :: 0 <= i < |trace| && trace[i].CallMain? ==> i == |trace| - 1 && trace[i] == CallMain(funcName, [])
    ensures CallMain(funcName, []) in trace <==> InstallOutcome(h) == Returned(0)
  {
    var code, install := Install(h);
    var call: seq<Event> := [];
    if code == Returned(0) {
      call := [CallMain(funcName, [])];
    }
    out := if code.Raised? then code else Done;
    InstallThenCall(install, call, CallMain(funcName, []));
    trace := install + call;
    assert ReadRequirements(h).Some? ==> trace[0] == install[0];
  }

  /** `import universal_main` and a call of a function it decorated with
      `main`, as written: without PySide6 the import fails, so nothing is
      installed and the target never runs. */
  method RunMain(h: Host, funcName: string) returns (out: Outcome, trace: seq<Event>)
    ensures !h.toolkit ==> out == Raised(ImportFailed("PySide6")) && trace == []
    ensures h.toolkit ==> out == MainOutcome(h)
    ensures CallMain(funcName, []) in trace <==> h.toolkit && !Py37TooOld(h) && InstallOutcome(h) == Returned(0)
  {
    var err := LoadError(h);
    if err.Some? {
      return Raised(err.value), [];
    }
    out, trace := MainInner(h, funcName);
  }

  // ---------------------------------------------------------------- splash main

  /** The text of `splash.txt`, from the archive or `PROGRAM_DIR`; `None`
      when it is absent. */
  function SplashResource(h: Host): Option<string>
  {
    if h.isZip then
      if "splash.txt" in h.archive.data then Some(h.archive.data["splash.txt"]) else None
    else
      if h.programDir + "splash.txt" in h.files then Some(h.files[h.programDir + "splash.txt"]) else None
  }

  /** `_splash_text_getter()`: the text when the resource exists, and the
      fixed text `No splash.txt` when the member (`KeyError`) or the file
      (`FileNotFoundError`) is missing. */
  function SplashText(h: Host): (text: string)
    ensures SplashResource(h).Some? ==> text == SplashResource(h).value
    ensures SplashResource(h).None? ==> text == "No splash.txt"
  {
    match SplashResource(h)
    case Some(text) => text
    case None => "No splash.txt"
  }

  /** What follows the shown splash, given the installer's outcome: an
      exception leaves the splash shown; any other status hides it; status 0
      alone runs `pre_main` (when given) before hiding and then calls the
      target, last, with the application and `pre_main`'s result. */
  predicate SessionShown(funcName: string, preMain: Option<string>, installed: Outcome, out: Outcome, rest: seq<Event>)
  {
    (installed.Raised? ==> out == installed && HideSplash !in rest) &&
    (!installed.Raised? ==> out == Done) &&
    (installed.Returned? && installed != Returned(0) ==> |rest| > 0 && rest[|rest| - 1] == HideSplash) &&
    (installed == Returned(0) ==>
       |rest| > 1 && rest[|rest| - 2] == HideSplash && rest[|rest| - 1] == CallMain(funcName, TargetArgs(preMain)) &&
       (preMain.Some? ==> |rest| > 2 && rest[|rest| - 3] == PreMain(preMain.value))) &&
    (forall e :: e in rest && e.CallMain? ==> installed == Returned(0))
  }

  /** The steps after the installer while the splash is shown, given its
      outcome `code`. */
  predicate AfterShown(funcName: string, preMain: Option<string>, code: Outcome, out: Outcome, post: seq<Event>)
  {
    (code.Raised? ==> out == code && post == []) &&
    (!code.Raised? ==> out == Done) &&
    (!code.Raised? && code != Returned(0) ==> post == [HideSplash]) &&
    (code == Returned(0) ==>
       |post| > 1 && post[|post| - 2] == HideSplash && post[|post| - 1] == CallMain(funcName, TargetArgs(preMain)) &&
       (preMain.Some? ==> post == [PreMain(preMain.value), HideSplash, CallMain(funcName, TargetArgs(preMain))])) &&
    (forall e :: e in post ==> !IsInstallStep(e) && (e.CallMain? ==> code == Returned(0)))
  }

  /** The branch on the installer's outcome: an exception propagates with the
      splash still shown; any other status hides the splash; status 0 runs
      `pre_main` first, when given, and calls the target afterwards. */
  method AfterInstall(funcName: string, preMain: Option<string>, code: Outcome) returns (out: Outcome, post: seq<Event>)
    ensures AfterShown(funcName, preMain, code, out, post)
  {
    if code.Raised? {
      return code, [];
    }
    out := Done;
    if code != Returned(0) {
      post := [HideSplash];
    } else if preMain.Some? {
      post := [PreMain(preMain.value), HideSplash, CallMain(funcName, [App, PreMainResult])];
    } else {
      post := [HideSplash, CallMain(funcName, [App])];
    }
  }

  /** The installer's steps followed by the steps after it make a shown session. */
  lemma ShownParts(funcName: string, preMain: Option<string>, code: Outcome, out: Outcome,
                   install: seq<Event>, post: seq<Event>)
    requires forall e :: e in install ==> IsInstallStep(e)
    requires AfterShown(funcName, preMain, code, out, post)
    ensures SessionShown(funcName, preMain, code, out, install + post)
  {
    var rest := install + post;
    assert forall e :: e in install ==> e != HideSplash && !e.CallMain?;
    if code.Raised? {
      assert rest == install;
    } else {
      assert rest[|rest| - 1] == post[|post| - 1];
      if code == Returned(0) {
        assert rest[|rest| - 2] == post[|post| - 2];
        if preMain.Some? {
          assert rest[|rest| - 3] == post[0];
        }
      }
    }
  }

  /** The installer and what follows it, while the splash is shown. */
  method ShownSession(h: Host, funcName: string, preMain: Option<string>) returns (out: Outcome, rest: seq<Event>)
    ensures SessionShown(funcName, preMain, InstallOutcome(h), out, rest)
    ensures TempScoped(Filter(rest, IsInstallStep), h.tmpDir)
  {
    var code, install := Install(h);
    var post;
    out, post := AfterInstall(funcName, preMain, code);
    InstallThen(install, post);
    ShownParts(funcName, preMain, code, out, install, post);
    rest := install + post;
  }

  /** The whole of `pyside6_splash_main(main_func, pre_main=...)()`. */
  predicate SplashRun(h: Host, funcName: string, preMain: Option<string>, out: Outcome, trace: seq<Event>)
  {
    (Py37TooOld(h) ==> out == Done && trace == [VersionTooOld]) &&
    (!Py37TooOld(h) && !h.toolkit ==>
       (InstallOutcome(h).Raised? ==> out == InstallOutcome(h)) &&
       (!InstallOutcome(h).Raised? ==> out == Raised(NotCallable)) &&
       (forall e :: e in trace ==> IsInstallStep(e))) &&
    (!Py37TooOld(h) && h.toolkit ==>
       |trace| > 1 && trace[0] == CreateApp && trace[1] == ShowSplash(SplashText(h)) &&
       SessionShown(funcName, preMain, InstallOutcome(h), out, trace[2..])) &&
    TempScoped(Filter(trace, IsInstallStep), h.tmpDir)
  }

  /** The function `pyside6_splash_main(main_func, pre_main=...)` returns.
      With PySide6 it shows the splash before installing. Without it (a
      branch the module-level import leaves unreachable) it installs first and
      then calls the global `QApplication`, which is still `None`. */
  method SplashInner(h: Host, funcName: string, preMain: Option<string>) returns (out: Outcome, trace: seq<Event>)
    ensures SplashRun(h, funcName, preMain, out, trace)
  {
    var tooOld := TupleLess(h.version.AsTuple(), Ints([3, 7]));
    Py37Gate(h);
    if tooOld.value {
      assert Filter([VersionTooOld], IsInstallStep) == [];
      return Done, [VersionTooOld];
    }
    if !h.toolkit {
      var code;
      code, trace := Install(h);
      // `QApplication` is still the module-level `None`
      out := if code.Raised? then code else Raised(NotCallable);
      InstallOnly(trace);
      return;
    }
    out, trace := SplashSession(h, funcName, preMain);
  }

  /** The branch taken when PySide6 imports: create the application, show
      the splash, then run the shown session. */
  method SplashSession(h: Host, funcName: string, preMain: Option<string>) returns (out: Outcome, trace: seq<Event>)
    ensures |trace| > 1 && trace[0] == CreateApp && trace[1] == ShowSplash(SplashText(h))
    ensures SessionShown(funcName, preMain, InstallOutcome(h), out, trace[2..])
    ensures TempScoped(Filter(trace, IsInstallStep), h.tmpDir)
  {
    // `app.setWindowIcon(QIcon(PROGRAM_DIR + 'logo.png'))` cannot fail
    var pre := [CreateApp, ShowSplash(SplashText(h))];
    assert forall i :: 0 <= i < |pre| ==> !IsInstallStep(pre[i]);
    FilterNone(pre, IsInstallStep);
    var rest;
    out, rest := ShownSession(h, funcName, preMain);
    FilterAppend(pre, rest, IsInstallStep);
    trace := pre + rest;
    assert Filter(trace, IsInstallStep) == Filter(rest, IsInstallStep);
    assert trace[2..] == rest;
  }

  /** `pyside6_splash_pre_main(pre_main)(main_func)`: the splash decorator
      with `pre_main` given. */
  method SplashPreMainInner(h: Host, preMainName: string, funcName: string) returns (out: Outcome, trace: seq<Event>)
    ensures SplashRun(h, funcName, Some(preMainName), out, trace)
  {
    out, trace := SplashInner(h, funcName, Some(preMainName));
  }

  /** With the toolkit, status 0 leads to the target, called last, after the
      splash was shown before the installer ran and hidden after `pre_main`;
      a failing status hides the splash and never calls it. */
  lemma SplashOrder(h: Host, funcName: string, preMain: Option<string>, out: Outcome, trace: seq<Event>)
    requires SplashRun(h, funcName, preMain, out, trace)
    requires !Py37TooOld(h) && h.toolkit
    ensures trace[1] == ShowSplash(SplashText(h))
    ensures InstallOutcome(h) == Returned(0) ==>
      trace[|trace| - 1] == CallMain(funcName, TargetArgs(preMain)) && trace[|trace| - 2] == HideSplash &&
      (preMain.Some? ==> trace[|trace| - 3] == PreMain(preMain.value))
    ensures InstallOutcome(h).Returned? && InstallOutcome(h) != Returned(0) ==>
      trace[|trace| - 1] == HideSplash && forall e :: e in trace ==> !e.CallMain?
  {
    SessionOrder(funcName, preMain, InstallOutcome(h), out, trace);
  }

  /** The order of a session shown after the application and the splash,
      for any installer outcome. */
  lemma SessionOrder(funcName: string, preMain: Option<string>, installed: Outcome, out: Outcome, trace: seq<Event>)
    requires |trace| > 1 && trace[0] == CreateApp && trace[1].ShowSplash?
    requires SessionShown(funcName, preMain, installed, out, trace[2..])
    ensures installed == Returned(0) ==>
      trace[|trace| - 1] == CallMain(funcName, TargetArgs(preMain)) && trace[|trace| - 2] == HideSplash &&
      (preMain.Some? ==> trace[|trace| - 3] == PreMain(preMain.value))
    ensures installed.Returned? && installed != Returned(0) ==>
      trace[|trace| - 1] == HideSplash && forall e :: e in trace ==> !e.CallMain?
  {
    var rest := trace[2..];
    if installed == Returned(0) {
      assert trace[|trace| - 1] == rest[|rest| - 1];
      assert trace[|trace| - 2] == rest[|rest| - 2];
      if preMain.Some? {
        assert trace[|trace| - 3] == rest[|rest| - 3];
      }
    } else if installed.Returned? {
      assert trace[|trace| - 1] == rest[|rest| - 1];
      forall e | e in trace ensures !e.CallMain? {
        var i :| 0 <= i < |trace| && trace[i] == e;
        if i >= 2 {
          assert rest[i - 2] == e;
        }
      }
    }
  }

  /** `import universal_main` and a call of a function it decorated with
      `pyside6_splash_main`, as written. */
  method RunSplashMain(h: Host, funcName: string, preMain: Option<string>) returns (out: Outcome, trace: seq<Event>)
    ensures !h.toolkit ==> out == Raised(ImportFailed("PySide6")) && trace == []
    ensures h.toolkit ==> SplashRun(h, funcName, preMain, out, trace)
  {
    var err := LoadError(h);
    if err.Some? {
      return Raised(err.value), [];
    }
    out, trace := SplashInner(h, funcName, preMain);
  }
}
