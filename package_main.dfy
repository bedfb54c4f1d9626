/** `src/universal_main/universal_main.py`, the package form of the launcher:
    `main(module, func, min_py_ver, requirements)` and
    `pyside6_splash_main(...)`, which check the interpreter, install what is
    missing through the installer child and then call the target function. */
module PackageMain {
  import opened Seqs
  import opened PyStr
  import opened PyTuple
  import opened DependencyCheck
  import opened Launch
  import opened Paths

  /** `[sys.executable, '-m', 'pip', 'list']` */
  function PipListArgv(h: Host): seq<string>
  {
    [h.executable, "-m", "pip", "list"]
  }

  /** `_check_py_ver(min_ver)`: `sys.version_info < tuple(min_ver)`; `None` is
      the TypeError of a minimum that compares an int with a str. */
  function VersionTooLow(h: Host, minVer: seq<PyVal>): Option<bool>
  {
    TupleLess(h.version.AsTuple(), minVer)
  }

  // ---------------------------------------------------------------- wheel names

  /** The wheel name as written:
      `dir + f"wincurses/curses-cp{major}{minor}_" + '64.whl' if 64-bit else '32.whl'`.
      The conditional expression binds loosest, so a 32-bit interpreter gets
      the bare name `32.whl`. */
  function WheelName(dir: string, major: nat, minor: nat, is64: bool): (name: string)
    ensures !is64 <==> name == "32.whl"
    ensures is64 ==> StartsWith(name, dir) && EndsWith(name, "_64.whl")
  {
    if is64 then
      var name := dir + "wincurses/curses-cp" + NatToString(major) + NatToString(minor) + "_" + "64.whl";
      assert name[..|dir|] == dir;
      assert name[|name| - 7..] == "_64.whl";
      name
    else "32.whl"
  }

  /** On a 32-bit interpreter the wheel is looked for outside the directory
      that holds the 64-bit one. */
  lemma WheelName32Escapes(dir: string, major: nat, minor: nat)
    requires EndsWith(dir, "/")
    ensures StartsWith(WheelName(dir, major, minor, true), dir)
    ensures !StartsWith(WheelName(dir, major, minor, false), dir)
  {
    var w := "32.whl";
    assert dir[|dir| - 1] == '/';
    if |dir| <= |w| {
      assert w[..|dir|][|dir| - 1] == w[|dir| - 1] != '/';
    }
  }

  /** The wheel name the expression evidently means: the suffix alone depends
      on the width. */
  function IntendedWheelName(dir: string, major: nat, minor: nat, is64: bool): (name: string)
    ensures StartsWith(name, dir + "wincurses/curses-cp")
    ensures EndsWith(name, if is64 then "_64.whl" else "_32.whl")
  {
    var head := dir + "wincurses/curses-cp";
    var name := head + NatToString(major) + NatToString(minor) + "_" + (if is64 then "64.whl" else "32.whl");
    assert name[..|head|] == head;
    assert name[|name| - 7..] == (if is64 then "_64.whl" else "_32.whl");
    name
  }

  /** Both intended names lie in the same directory and differ only in the
      width suffix. */
  lemma IntendedWheelNamesAgree(dir: string, major: nat, minor: nat)
    ensures var a := IntendedWheelName(dir, major, minor, true);
      var b := IntendedWheelName(dir, major, minor, false);
      |a| == |b| && a[..|a| - 6] == b[..|b| - 6] && a != b
  {
    var a := IntendedWheelName(dir, major, minor, true);
    var b := IntendedWheelName(dir, major, minor, false);
    var stem := dir + "wincurses/curses-cp" + NatToString(major) + NatToString(minor) + "_";
    assert a == stem + "64.whl" && b == stem + "32.whl";
    assert a[..|a| - 6] == stem && b[..|b| - 6] == stem;
    assert a[|stem|] != b[|stem|];
  }

  /** The wheel `_normal_package_checker` opens. */
  function DiskWheelName(h: Host): string
  {
    WheelName(h.fileDir, h.version.major, h.version.minor, h.is64)
  }

  // ---------------------------------------------------------------- outcomes

  /** What `ZipFile.open` raises when it is given the mode `'rb'`: it accepts
      only `'r'` and `'w'`, and checks the mode before it looks the name up. */
  const OpenModeError: Error := ValueError("open() requires mode \"r\" or \"w\"")

  /** What the `with TemporaryDirectory()` block of `_zipapp_package_installer`
      returns or raises. On Windows the wheel is opened with the mode `'rb'`,
      which `ZipFile.open` refuses whatever the name. */
  function ZipStagedOutcome(h: Host): Outcome
  {
    if FirstWith(h.archive.names, "package_installer.py") == |h.archive.names| then Raised(UnboundLocal("extracted_path"))
    else if h.isWindows then Raised(OpenModeError)
    else Returned(h.childCode)
  }

  /** `_zipapp_package_installer(requirements)` */
  function ZipOutcome(h: Host, requirements: seq<string>): Outcome
  {
    if Missing(h, requirements) == [] then Returned(0) else ZipStagedOutcome(h)
  }

  /** `_normal_package_checker(requirements)` */
  function NormalOutcome(h: Host, requirements: seq<string>): Outcome
  {
    if Missing(h, requirements) == [] then Returned(0)
    else if h.isWindows && DiskWheelName(h) !in h.wheels then Raised(FileNotFound(DiskWheelName(h)))
    else Returned(h.childCode)
  }

  /** The installer `main` and `pyside6_splash_main` pick by `IS_ZIPFILE`. */
  function InstallOutcome(h: Host, requirements: seq<string>): Outcome
  {
    if h.isZip then ZipOutcome(h, requirements) else NormalOutcome(h, requirements)
  }

  /** The installers return 0 when nothing is missing, and otherwise the
      child's exit status unchanged, or raise. */
  lemma InstallCodes(h: Host, requirements: seq<string>)
    ensures Missing(h, requirements) == [] ==> InstallOutcome(h, requirements) == Returned(0)
    ensures Missing(h, requirements) != [] && InstallOutcome(h, requirements).Returned? ==>
      InstallOutcome(h, requirements) == Returned(h.childCode)
    ensures !InstallOutcome(h, requirements).Done?
  {
  }

  /** From a zipapp on Windows, installing anything always fails before the
      child runs: without an installer member `extracted_path` is unbound, and
      otherwise opening the wheel with the mode `'rb'` raises `ValueError`. */
  lemma ZipOnWindowsNeverInstalls(h: Host, requirements: seq<string>)
    requires h.isZip && h.isWindows && Missing(h, requirements) != []
    ensures InstallOutcome(h, requirements) ==
      if FirstWith(h.archive.names, "package_installer.py") < |h.archive.names| then Raised(ValueError("open() requires mode \"r\" or \"w\""))
      else Raised(UnboundLocal("extracted_path"))
  {
  }

  // ---------------------------------------------------------------- installers

  /** `_zipapp_package_installer(requirements)` */
  method ZipappInstaller(h: Host, requirements: seq<string>) returns (out: Outcome, trace: seq<Event>)
    ensures out == ZipOutcome(h, requirements)
    ensures |trace| > 0 && trace[0] == PipList(PipListArgv(h))
    ensures TempScoped(trace, h.tmpDir)
    ensures var missing := Missing(h, requirements);
      var argv := [h.executable, h.tmpDir + "/package_installer.py"] + missing;
      (missing == [] <==> trace == [PipList(PipListArgv(h))]) &&
      (missing != [] ==> trace[1] == MakeTemp(h.tmpDir)) &&
      (forall e :: e in trace ==> IsInstallStep(e) && (e.Spawn? ==> e.argv == argv && out == Returned(h.childCode))) &&
      (missing != [] && out == Returned(h.childCode) ==> Spawn(argv) in trace)
  {
    var missing := Missing(h, requirements);
    var t := [PipList(PipListArgv(h))];
    if missing == [] {
      return Returned(0), t;
    }
    var scope;
    out, scope := ZipScope(h, missing);
    ScopedAfter(t, scope, h.tmpDir);
    trace := t + scope;
  }

  /** The `with TemporaryDirectory()` block of the zipapp installer. */
  method ZipScope(h: Host, missing: seq<string>) returns (out: Outcome, scope: seq<Event>)
    ensures out == ZipStagedOutcome(h)
    ensures |scope| > 1 && scope[0] == MakeTemp(h.tmpDir) && TempScoped(scope, h.tmpDir)
    ensures forall e :: e in scope ==>
      IsInstallStep(e) &&
      (e.Spawn? ==> e.argv == [h.executable, h.tmpDir + "/package_installer.py"] + missing && out == Returned(h.childCode))
    ensures out == Returned(h.childCode) ==> Spawn([h.executable, h.tmpDir + "/package_installer.py"] + missing) in scope
  {
    var body;
    out, body := ZipStaging(h, missing);
    ScopeIsScoped([], body, h.tmpDir);
    scope := [] + [MakeTemp(h.tmpDir)] + body + [RemoveTemp(h.tmpDir)];
  }

  /** The body of the `with TemporaryDirectory()` block of the zipapp installer. */
  method ZipStaging(h: Host, missing: seq<string>) returns (out: Outcome, body: seq<Event>)
    ensures out == ZipStagedOutcome(h)
    ensures forall e :: e in body ==>
      IsInstallStep(e) && !e.MakeTemp? && !e.RemoveTemp? &&
      (e.Spawn? ==> e.argv == [h.executable, h.tmpDir + "/package_installer.py"] + missing && out == Returned(h.childCode))
    ensures out == Returned(h.childCode) ==> Spawn([h.executable, h.tmpDir + "/package_installer.py"] + missing) in body
    ensures out == Raised(OpenModeError) ==> |body| > 0 && body[|body| - 1] == Mkdir(h.tmpDir + "/wincurses")
  {
    var err;
    err, body := StageInstaller(h);
    if err.Some? {
      return Raised(err.value), body;
    }
    var installerPath := h.tmpDir + "/package_installer.py";
    if h.isWindows {
      var cursesDir := h.tmpDir + "/wincurses";
      body := body + [Mkdir(cursesDir)];
      // `main_zip.open(<wheel>, 'rb')` refuses the mode before it reads the name
      return Raised(OpenModeError), body;
    }
    body := body + [Spawn([h.executable, installerPath] + missing)];
    out := Returned(h.childCode);
  }

  /** `_normal_package_checker(requirements)` */
  method NormalInstaller(h: Host, requirements: seq<string>) returns (out: Outcome, trace: seq<Event>)
    ensures out == NormalOutcome(h, requirements)
    ensures |trace| > 0 && trace[0] == PipList(PipListArgv(h))
    ensures TempScoped(trace, h.tmpDir)
    ensures forall e :: e in trace ==>
      IsInstallStep(e) && (e.Spawn? ==> out == Returned(h.childCode)) &&
      (e.Extract? ==> IsPyd(e.member) && e.dest == h.tmpDir + "/wincurses")
    ensures var missing := Missing(h, requirements);
      (missing == [] <==> trace == [PipList(PipListArgv(h))]) &&
      (MakeTemp(h.tmpDir) in trace <==> h.isWindows && missing != []) &&
      (!h.isWindows && missing != [] ==>
         trace == [PipList(PipListArgv(h)), Spawn([h.executable, h.fileDir + "package_installer.py"] + missing)]) &&
      (h.isWindows && out == Returned(h.childCode) && missing != [] ==>
         Spawn([h.executable, h.tmpDir + "/package_installer.py"] + missing) in trace)
  {
    out, trace := NormalChecked(h, Missing(h, requirements));
  }

  /** `_normal_package_checker(requirements)` once the missing requirements
      are known. */
  method NormalChecked(h: Host, missing: seq<string>) returns (out: Outcome, trace: seq<Event>)
    ensures out == if missing == [] then Returned(0)
                   else if h.isWindows && DiskWheelName(h) !in h.wheels then Raised(FileNotFound(DiskWheelName(h)))
                   else Returned(h.childCode)
    ensures |trace| > 0 && trace[0] == PipList(PipListArgv(h))
    ensures TempScoped(trace, h.tmpDir)
    ensures forall e :: e in trace ==>
      IsInstallStep(e) && (e.Spawn? ==> out == Returned(h.childCode)) &&
      (e.Extract? ==> IsPyd(e.member) && e.dest == h.tmpDir + "/wincurses")
    ensures (missing == [] <==> trace == [PipList(PipListArgv(h))]) &&
      (MakeTemp(h.tmpDir) in trace <==> h.isWindows && missing != []) &&
      (!h.isWindows && missing != [] ==>
         trace == [PipList(PipListArgv(h)), Spawn([h.executable, h.fileDir + "package_installer.py"] + missing)]) &&
      (h.isWindows && out == Returned(h.childCode) && missing != [] ==>
         Spawn([h.executable, h.tmpDir + "/package_installer.py"] + missing) in trace)
  {
    var t := [PipList(PipListArgv(h))];
    if missing == [] {
      return Returned(0), t;
    }
    if h.isWindows {
      var scope;
      out, scope := NormalScope(h, missing);
      ScopedAfter(t, scope, h.tmpDir);
      trace := t + scope;
    } else {
      trace := t + [Spawn([h.executable, h.fileDir + "package_installer.py"] + missing)];
      out := Returned(h.childCode);
    }
  }

  /** The `with TemporaryDirectory()` block of the Windows branch. */
  method NormalScope(h: Host, missing: seq<string>) returns (out: Outcome, scope: seq<Event>)
    ensures out == (if DiskWheelName(h) in h.wheels then Returned(h.childCode) else Raised(FileNotFound(DiskWheelName(h))))
    ensures |scope| > 1 && scope[0] == MakeTemp(h.tmpDir) && TempScoped(scope, h.tmpDir)
    ensures forall e :: e in scope ==>
      IsInstallStep(e) && (e.Spawn? ==> out.Returned?) &&
      (e.Extract? ==> IsPyd(e.member) && e.dest == h.tmpDir + "/wincurses")
    ensures out.Returned? ==> Spawn([h.executable, h.tmpDir + "/package_installer.py"] + missing) in scope
  {
    var body;
    out, body := NormalStaging(h, missing);
    ScopeIsScoped([], body, h.tmpDir);
    scope := [] + [MakeTemp(h.tmpDir)] + body + [RemoveTemp(h.tmpDir)];
  }

  /** The body of the `with TemporaryDirectory()` block of the Windows branch:
      copy the installer, extract the curses extension modules of the wheel. */
  method NormalStaging(h: Host, missing: seq<string>) returns (out: Outcome, body: seq<Event>)
    ensures out == (if DiskWheelName(h) in h.wheels then Returned(h.childCode) else Raised(FileNotFound(DiskWheelName(h))))
    ensures forall e :: e in body ==>
      IsInstallStep(e) && !e.MakeTemp? && !e.RemoveTemp? && (e.Spawn? ==> out.Returned?) &&
      (e.Extract? ==> IsPyd(e.member) && e.dest == h.tmpDir + "/wincurses")
    ensures out.Returned? ==> Spawn([h.executable, h.tmpDir + "/package_installer.py"] + missing) in body
  {
    var cursesDir := h.tmpDir + "/wincurses";
    body := [Copy(h.fileDir + "package_installer.py", h.tmpDir), Mkdir(cursesDir)];
    var wheel := DiskWheelName(h);
    body := body + [OpenWheel(wheel)];
    if wheel !in h.wheels {
      return Raised(FileNotFound(wheel)), body;
    }
    var pyds := ExtractPyds(h.wheels[wheel], cursesDir);
    body := body + pyds + [Spawn([h.executable, h.tmpDir + "/package_installer.py"] + missing)];
    out := Returned(h.childCode);
  }

  /** `if IS_ZIPFILE: _zipapp_package_installer(...) else: _normal_package_checker(...)` */
  method Install(h: Host, requirements: seq<string>) returns (out: Outcome, trace: seq<Event>)
    ensures out == InstallOutcome(h, requirements)
    ensures |trace| > 0 && TempScoped(trace, h.tmpDir)
    ensures forall e :: e in trace ==> IsInstallStep(e)
    ensures var missing := Missing(h, requirements); missing == [] ==> trace == [PipList(PipListArgv(h))]
  {
    if h.isZip {
      out, trace := ZipappInstaller(h, requirements);
    } else {
      out, trace := NormalInstaller(h, requirements);
    }
  }

  // ---------------------------------------------------------------- main

  /** The part of `main` after the version gate: install, then import and
      call the target when the installer's status is 0. */
  method InstallThenRun(h: Host, moduleName: string, funcName: string, requirements: seq<string>)
    returns (out: Outcome, trace: seq<Event>)
    ensures var installed := InstallOutcome(h, requirements);
      (installed != Returned(0) ==> out == installed) &&
      (installed == Returned(0) ==> out == CallTarget(h, moduleName, funcName, []).0)
    ensures TempScoped(Filter(trace, IsInstallStep), h.tmpDir)
    ensures forall i :: 0 <= i < |trace| && trace[i].CallMain? ==> i == |trace| - 1 && trace[i] == CallMain(funcName, [])
    ensures CallMain(funcName, []) in trace <==>
      InstallOutcome(h, requirements) == Returned(0) && h.mainModule.Some? && funcName in h.mainModule.value
  {
    var code, install := Install(h, requirements);
    var call: (Outcome, seq<Event>) := (Done, []);
    if code == Returned(0) {
      call := CallTarget(h, moduleName, funcName, []);
      out := call.0;
    } else {
      out := code;
    }
    InstallThenCall(install, call.1, CallMain(funcName, []));
    trace := install + call.1;
  }

  /** The module has the target function and, when named, `pre_main`. */
  predicate CallReady(h: Host, funcName: string, preMain: Option<string>)
  {
    h.mainModule.Some? && funcName in h.mainModule.value && (preMain.Some? ==> preMain.value in h.mainModule.value)
  }

  /** What `main(main_module_name, main_func_name, min_py_ver, requirements)`
      gives and does: a minimum that does not compare raises, a too old
      interpreter returns 1 after the message, otherwise the installation
      runs and the target is called, as the last step, exactly when it
      succeeded and the module has the function. */
  predicate MainRun(h: Host, moduleName: string, funcName: string, minVer: seq<PyVal>, requirements: seq<string>,
                    out: Outcome, trace: seq<Event>)
  {
    var installed := InstallOutcome(h, requirements);
    (VersionTooLow(h, minVer).None? ==> out == Raised(VersionTypeError) && trace == []) &&
    (VersionTooLow(h, minVer) == Some(true) ==> out == Returned(1) && trace == [VersionTooOld]) &&
    (VersionTooLow(h, minVer) == Some(false) && installed != Returned(0) ==> out == installed) &&
    (VersionTooLow(h, minVer) == Some(false) && installed == Returned(0) ==> out == CallTarget(h, moduleName, funcName, []).0) &&
    TempScoped(Filter(trace, IsInstallStep), h.tmpDir) &&
    (forall i :: 0 <= i < |trace| && trace[i].CallMain? ==> i == |trace| - 1 && trace[i] == CallMain(funcName, [])) &&
    (CallMain(funcName, []) in trace <==> VersionTooLow(h, minVer) == Some(false) && installed == Returned(0) && CallReady(h, funcName, None))
  }

  /** `main(main_module_name, main_func_name, min_py_ver, requirements)` */
  method MainFlow(h: Host, moduleName: string, funcName: string, minVer: seq<PyVal>, requirements: seq<string>)
    returns (out: Outcome, trace: seq<Event>)
    ensures MainRun(h, moduleName, funcName, minVer, requirements, out, trace)
  {
    var tooLow := VersionTooLow(h, minVer);
    if tooLow.None? {
      return Raised(VersionTypeError), [];
    }
    if tooLow.value {
      assert Filter([VersionTooOld], IsInstallStep) == [];
      return Returned(1), [VersionTooOld];
    }
    out, trace := InstallThenRun(h, moduleName, funcName, requirements);
  }

  // ---------------------------------------------------------------- splash main

  /** `_get_icon()`: in a zipapp neither `logo.png` nor `logo.jpg` leaves `data`
      unbound. */
  function IconError(h: Host): Option<Error>
  {
    if h.isZip && "logo.png" !in h.archive.names && "logo.jpg" !in h.archive.names then Some(UnboundLocal("data"))
    else None
  }

  /** `QApplication()`, `app.setWindowIcon(_get_icon())`, `_Splash(...).show()` */
  method OpenSplash(h: Host, splashText: string) returns (err: Option<Error>, t: seq<Event>)
    ensures err == IconError(h)
    ensures err.None? ==> t == [CreateApp, ShowSplash(splashText)]
    ensures err.Some? ==> t == [CreateApp]
  {
    t := [CreateApp];
    err := IconError(h);
    if err.None? {
      t := t + [ShowSplash(splashText)];
    }
  }

  /** The steps after a successful installation: import the module, call
      `pre_main` when named, hide the splash, call the target with the
      application (and `pre_main`'s result). */
  method SplashTail(h: Host, moduleName: string, funcName: string, preMain: Option<string>)
    returns (out: Outcome, t: seq<Event>)
    ensures h.mainModule.None? ==> out == Raised(ImportFailed(moduleName)) && t == []
    ensures h.mainModule.Some? && preMain.Some? && preMain.value !in h.mainModule.value ==>
      out == Raised(AttributeError(preMain.value)) && t == []
    ensures h.mainModule.Some? && preMain.Some? && preMain.value in h.mainModule.value ==>
      out == CallTarget(h, moduleName, funcName, [App, PreMainResult]).0 &&
      t == [PreMain(preMain.value), HideSplash] + CallTarget(h, moduleName, funcName, [App, PreMainResult]).1
    ensures h.mainModule.Some? && preMain.None? ==>
      out == CallTarget(h, moduleName, funcName, [App]).0 &&
      t == [HideSplash] + CallTarget(h, moduleName, funcName, [App]).1
    ensures forall e :: e in t ==> !IsInstallStep(e)
  {
    if h.mainModule.None? {
      return Raised(ImportFailed(moduleName)), [];
    }
    var attrs := h.mainModule.value;
    if preMain.Some? {
      if preMain.value !in attrs {
        return Raised(AttributeError(preMain.value)), [];
      }
      var call := CallTarget(h, moduleName, funcName, [App, PreMainResult]);
      t := [PreMain(preMain.value), HideSplash] + call.1;
      out := call.0;
    } else {
      var call := CallTarget(h, moduleName, funcName, [App]);
      t := [HideSplash] + call.1;
      out := call.0;
    }
  }

  /** The splash steps and the target's arguments: `pre_main` runs before the
      splash is hidden, and the target receives `pre_main`'s result exactly when
      `pre_main` is named. */
  lemma TailOrder(h: Host, moduleName: string, funcName: string, preMain: Option<string>, t: seq<Event>, args: seq<Arg>)
    requires h.mainModule.Some? && funcName in h.mainModule.value
    requires preMain.Some? ==> preMain.value in h.mainModule.value
    requires preMain.Some? ==> t == [PreMain(preMain.value), HideSplash] + CallTarget(h, moduleName, funcName, [App, PreMainResult]).1
    requires preMain.None? ==> t == [HideSplash] + CallTarget(h, moduleName, funcName, [App]).1
    ensures t[|t| - 1].CallMain? && t[|t| - 2] == HideSplash
    ensures t[|t| - 1].args == if preMain.Some? then [App, PreMainResult] else [App]
    ensures preMain.Some? ==> t[0] == PreMain(preMain.value)
  {
  }

  /** The steps before the target call once the module imports: `pre_main`
      when named, then hiding the splash. */
  function HideSteps(preMain: Option<string>): seq<Event>
  {
    if preMain.Some? then [PreMain(preMain.value), HideSplash] else [HideSplash]
  }

  /** The module imports and has `pre_main` when it is named, but lacks the
      target function. */
  predicate TargetMissing(h: Host, funcName: string, preMain: Option<string>)
  {
    h.mainModule.Some? && (preMain.Some? ==> preMain.value in h.mainModule.value) && funcName !in h.mainModule.value
  }

  /** `s` ends with the steps `tail`. */
  predicate EndsWithSteps(s: seq<Event>, tail: seq<Event>)
  {
    |tail| <= |s| && s[|s| - |tail|..] == tail
  }

  /** The steps after the installer while the splash is shown, given its
      outcome `code`. */
  predicate AfterShown(h: Host, moduleName: string, funcName: string, preMain: Option<string>, code: Outcome,
                       out: Outcome, post: seq<Event>)
  {
    (code.Raised? ==> out == code && post == []) &&
    (!code.Raised? && code != Returned(0) ==> out == code && post == [HideSplash]) &&
    (code == Returned(0) && h.mainModule.None? ==> out == Raised(ImportFailed(moduleName)) && post == []) &&
    (code == Returned(0) && h.mainModule.Some? && preMain.Some? && preMain.value !in h.mainModule.value ==>
       out == Raised(AttributeError(preMain.value)) && post == []) &&
    (code == Returned(0) && TargetMissing(h, funcName, preMain) ==>
       out == Raised(AttributeError(funcName)) && post == HideSteps(preMain)) &&
    (code == Returned(0) && CallReady(h, funcName, preMain) ==>
       out == Returned(h.mainResult) && post == HideSteps(preMain) + [CallMain(funcName, TargetArgs(preMain))]) &&
    (forall e :: e in post ==> !IsInstallStep(e))
  }

  /** What `pyside6_splash_main` does with the installer's status while the
      splash is shown: an exception leaves the splash shown, a failing status
      hides it and is returned, success leads to the target. */
  method AfterInstall(h: Host, moduleName: string, funcName: string, preMain: Option<string>, code: Outcome)
    returns (out: Outcome, post: seq<Event>)
    ensures AfterShown(h, moduleName, funcName, preMain, code, out, post)
  {
    if code.Raised? {
      return code, [];
    }
    if code != Returned(0) {
      return code, [HideSplash];
    }
    out, post := SplashTail(h, moduleName, funcName, preMain);
  }

  /** What follows the shown splash, given the installer's outcome
      `installed`: an exception leaves the splash shown; a failing status
      hides it and is returned; after success, a module that does not import
      or lacks `pre_main` leaves the splash shown, a missing target raises
      after `pre_main` and hiding, and otherwise the target is called last. */
  predicate SessionShown(h: Host, moduleName: string, funcName: string, preMain: Option<string>, installed: Outcome,
                         out: Outcome, rest: seq<Event>)
  {
    (installed.Raised? ==> out == installed && HideSplash !in rest) &&
    (installed.Returned? && installed != Returned(0) ==> out == installed && |rest| > 0 && rest[|rest| - 1] == HideSplash) &&
    (installed == Returned(0) && h.mainModule.None? ==>
       out == Raised(ImportFailed(moduleName)) && forall e :: e in rest ==> IsInstallStep(e)) &&
    (installed == Returned(0) && h.mainModule.Some? && preMain.Some? && preMain.value !in h.mainModule.value ==>
       out == Raised(AttributeError(preMain.value)) && forall e :: e in rest ==> IsInstallStep(e)) &&
    (installed == Returned(0) && TargetMissing(h, funcName, preMain) ==>
       out == Raised(AttributeError(funcName)) && EndsWithSteps(rest, HideSteps(preMain)) &&
       forall e :: e in rest ==> !e.CallMain?) &&
    (installed == Returned(0) && CallReady(h, funcName, preMain) ==>
       out == Returned(h.mainResult) && |rest| > 1 && rest[|rest| - 2] == HideSplash &&
       rest[|rest| - 1] == CallMain(funcName, TargetArgs(preMain)) &&
       EndsWithSteps(rest, HideSteps(preMain) + [CallMain(funcName, TargetArgs(preMain))]))
  }

  /** The steps of `pyside6_splash_main` once the splash is shown. */
  method ShownSession(h: Host, moduleName: string, funcName: string, requirements: seq<string>, preMain: Option<string>)
    returns (out: Outcome, rest: seq<Event>)
    ensures SessionShown(h, moduleName, funcName, preMain, InstallOutcome(h, requirements), out, rest)
    ensures TempScoped(Filter(rest, IsInstallStep), h.tmpDir)
  {
    var code, install := Install(h, requirements);
    var post;
    out, post := AfterInstall(h, moduleName, funcName, preMain, code);
    InstallThen(install, post);
    ShownParts(h, moduleName, funcName, preMain, code, out, install, post);
    rest := install + post;
  }

  /** The installer's steps followed by the steps after it make a shown session. */
  lemma ShownParts(h: Host, moduleName: string, funcName: string, preMain: Option<string>, code: Outcome, out: Outcome,
                   install: seq<Event>, post: seq<Event>)
    requires forall e :: e in install ==> IsInstallStep(e)
    requires AfterShown(h, moduleName, funcName, preMain, code, out, post)
    ensures SessionShown(h, moduleName, funcName, preMain, code, out, install + post)
  {
    if code.Raised? || (code == Returned(0) && !TargetMissing(h, funcName, preMain) && !CallReady(h, funcName, preMain)) {
      assert post == [];
      ShownNoTail(h, moduleName, funcName, preMain, code, out, install);
    } else if code != Returned(0) {
      ShownHidden(h, moduleName, funcName, preMain, code, out, install);
    } else if TargetMissing(h, funcName, preMain) {
      ShownMissingTarget(h, moduleName, funcName, preMain, out, install);
    } else {
      ShownCalled(h, moduleName, funcName, preMain, out, install);
    }
  }

  /** An exception before the target, with the splash still shown. */
  lemma ShownNoTail(h: Host, moduleName: string, funcName: string, preMain: Option<string>, code: Outcome, out: Outcome,
                    install: seq<Event>)
    requires forall e :: e in install ==> IsInstallStep(e)
    requires AfterShown(h, moduleName, funcName, preMain, code, out, [])
    requires code.Raised? || (code == Returned(0) && !TargetMissing(h, funcName, preMain) && !CallReady(h, funcName, preMain))
    ensures SessionShown(h, moduleName, funcName, preMain, code, out, install + [])
  {
    assert install + [] == install;
  }

  /** A failing status: the splash is hidden last. */
  lemma ShownHidden(h: Host, moduleName: string, funcName: string, preMain: Option<string>, code: Outcome, out: Outcome,
                    install: seq<Event>)
    requires forall e :: e in install ==> IsInstallStep(e)
    requires !code.Raised? && code != Returned(0) && out == code
    ensures SessionShown(h, moduleName, funcName, preMain, code, out, install + [HideSplash])
  {
  }

  /** A module without the target: `pre_main` and hiding, then the exception. */
  lemma ShownMissingTarget(h: Host, moduleName: string, funcName: string, preMain: Option<string>, out: Outcome,
                           install: seq<Event>)
    requires forall e :: e in install ==> IsInstallStep(e)
    requires TargetMissing(h, funcName, preMain) && out == Raised(AttributeError(funcName))
    ensures SessionShown(h, moduleName, funcName, preMain, Returned(0), out, install + HideSteps(preMain))
  {
    var rest := install + HideSteps(preMain);
    assert rest[|rest| - |HideSteps(preMain)|..] == HideSteps(preMain);
    assert forall e :: e in rest ==> e in install || e in HideSteps(preMain);
  }

  /** A module with the target: `pre_main`, hiding, then the call as the last step. */
  lemma ShownCalled(h: Host, moduleName: string, funcName: string, preMain: Option<string>, out: Outcome,
                    install: seq<Event>)
    requires forall e :: e in install ==> IsInstallStep(e)
    requires CallReady(h, funcName, preMain) && out == Returned(h.mainResult)
    ensures var tail := HideSteps(preMain) + [CallMain(funcName, TargetArgs(preMain))];
      SessionShown(h, moduleName, funcName, preMain, Returned(0), out, install + tail)
  {
    var tail := HideSteps(preMain) + [CallMain(funcName, TargetArgs(preMain))];
    var rest := install + tail;
    assert rest[|rest| - |tail|..] == tail;
    assert rest[|rest| - 2] == tail[|tail| - 2] == HideSplash;
  }

  /** The branch of `pyside6_splash_main` taken when PySide6 imports: open the
      splash, then the shown session. */
  method SplashSession(h: Host, moduleName: string, funcName: string,
                       requirements: seq<string>, splashText: string, preMain: Option<string>)
    returns (out: Outcome, trace: seq<Event>)
    ensures |trace| > 0 && trace[0] == CreateApp
    ensures IconError(h).Some? ==> out == Raised(IconError(h).value) && trace == [CreateApp]
    ensures IconError(h).None? ==>
      |trace| > 1 && trace[1] == ShowSplash(splashText) &&
      SessionShown(h, moduleName, funcName, preMain, InstallOutcome(h, requirements), out, trace[2..])
    ensures TempScoped(Filter(trace, IsInstallStep), h.tmpDir)
  {
    var err, pre := OpenSplash(h, splashText);
    if err.Some? {
      assert Filter(pre, IsInstallStep) == [] by {
        assert pre[1..] == [];
      }
      return Raised(err.value), pre;
    }
    var rest;
    out, rest := ShownSession(h, moduleName, funcName, requirements, preMain);
    SplashPrefix(splashText, rest);
    trace := pre + rest;
  }

  /** The application and the splash in front of the shown session are no
      installation steps. */
  lemma SplashPrefix(splashText: string, rest: seq<Event>)
    ensures var t := [CreateApp, ShowSplash(splashText)] + rest;
      t[2..] == rest && Filter(t, IsInstallStep) == Filter(rest, IsInstallStep)
  {
    var pre := [CreateApp, ShowSplash(splashText)];
    assert forall i :: 0 <= i < |pre| ==> !IsInstallStep(pre[i]);
    FilterNone(pre, IsInstallStep);
    FilterAppend(pre, rest, IsInstallStep);
    assert (pre + rest)[2..] == rest;
  }

  /** What `pyside6_splash_main(...)` gives and does, as written. When
      PySide6 was missing, the installation runs first, but the module
      globals are not imported again, so `QApplication()` calls `None`. With
      PySide6 the application and the splash come first, then the shown
      session. */
  predicate SplashRun(h: Host, moduleName: string, funcName: string, minVer: seq<PyVal>, requirements: seq<string>,
                      splashText: string, preMain: Option<string>, out: Outcome, trace: seq<Event>)
  {
    var installed := InstallOutcome(h, requirements);
    (VersionTooLow(h, minVer).None? ==> out == Raised(VersionTypeError) && trace == []) &&
    (VersionTooLow(h, minVer) == Some(true) ==> out == Returned(1) && trace == [VersionTooOld]) &&
    (VersionTooLow(h, minVer) == Some(false) && !h.toolkit ==>
       (installed != Returned(0) ==> out == installed) &&
       (installed == Returned(0) ==> out == Raised(NotCallable)) &&
       (forall e :: e in trace ==> IsInstallStep(e))) &&
    (VersionTooLow(h, minVer) == Some(false) && h.toolkit ==>
       |trace| > 0 && trace[0] == CreateApp &&
       (IconError(h).Some? ==> out == Raised(IconError(h).value) && trace == [CreateApp]) &&
       (IconError(h).None? ==>
          |trace| > 1 && trace[1] == ShowSplash(splashText) && SessionShown(h, moduleName, funcName, preMain, installed, out, trace[2..]))) &&
    TempScoped(Filter(trace, IsInstallStep), h.tmpDir)
  }

  /** `pyside6_splash_main(...)` as written. */
  method SplashMainFlow(h: Host, moduleName: string, funcName: string, minVer: seq<PyVal>,
                        requirements: seq<string>, splashText: string, preMain: Option<string>)
    returns (out: Outcome, trace: seq<Event>)
    ensures SplashRun(h, moduleName, funcName, minVer, requirements, splashText, preMain, out, trace)
  {
    var tooLow := VersionTooLow(h, minVer);
    if tooLow.None? {
      return Raised(VersionTypeError), [];
    }
    if tooLow.value {
      assert Filter([VersionTooOld], IsInstallStep) == [];
      return Returned(1), [VersionTooOld];
    }
    if !h.toolkit {
      var code;
      code, trace := Install(h, requirements);
      // `QApplication` is still the module-level `None`
      out := if code != Returned(0) then code else Raised(NotCallable);
      InstallOnly(trace);
      return;
    }
    out, trace := SplashSession(h, moduleName, funcName, requirements, splashText, preMain);
  }

  /** `pyside6_splash_main(...)` as evidently intended: when PySide6 was
      missing, it is imported again once the installation succeeded
      (`toolkitAfter` says whether that import works), and the run then goes
      on as with PySide6 present, the splash shown after the installation. */
  method SplashMainFlowReimporting(h: Host, moduleName: string, funcName: string, minVer: seq<PyVal>,
                                   requirements: seq<string>, splashText: string, preMain: Option<string>,
                                   toolkitAfter: bool)
    returns (out: Outcome, trace: seq<Event>)
    ensures h.toolkit ==> SplashRun(h, moduleName, funcName, minVer, requirements, splashText, preMain, out, trace)
    ensures !h.toolkit ==> ReimportRun(h, funcName, minVer, requirements, splashText, preMain, toolkitAfter, out, trace)
  {
    var tooLow := VersionTooLow(h, minVer);
    if tooLow.None? {
      return Raised(VersionTypeError), [];
    }
    if tooLow.value {
      assert Filter([VersionTooOld], IsInstallStep) == [];
      return Returned(1), [VersionTooOld];
    }
    if h.toolkit {
      out, trace := SplashSession(h, moduleName, funcName, requirements, splashText, preMain);
      return;
    }
    out, trace := InstalledThenSplash(h, moduleName, funcName, requirements, splashText, preMain, toolkitAfter);
  }

  /** What the intended flow gives without PySide6 at start: a failing
      installation is returned with no window; after a successful one, a
      PySide6 that still does not import raises, and otherwise the splash is
      shown and the target is called as the last step. */
  predicate ReimportRun(h: Host, funcName: string, minVer: seq<PyVal>, requirements: seq<string>,
                        splashText: string, preMain: Option<string>, toolkitAfter: bool, out: Outcome, trace: seq<Event>)
  {
    var installed := InstallOutcome(h, requirements);
    (VersionTooLow(h, minVer).None? ==> out == Raised(VersionTypeError) && trace == []) &&
    (VersionTooLow(h, minVer) == Some(true) ==> out == Returned(1) && trace == [VersionTooOld]) &&
    (VersionTooLow(h, minVer) == Some(false) ==> AfterReimport(h, funcName, splashText, preMain, toolkitAfter, installed, out, trace)) &&
    TempScoped(Filter(trace, IsInstallStep), h.tmpDir)
  }

  /** The steps of the intended flow once the version is accepted. */
  predicate AfterReimport(h: Host, funcName: string, splashText: string, preMain: Option<string>, toolkitAfter: bool,
                          installed: Outcome, out: Outcome, trace: seq<Event>)
  {
    (installed != Returned(0) ==> out == installed && forall e :: e in trace ==> IsInstallStep(e)) &&
    (installed == Returned(0) && !toolkitAfter ==> out == Raised(ImportFailed("PySide6"))) &&
    (installed == Returned(0) && toolkitAfter && IconError(h).Some? ==> out == Raised(IconError(h).value)) &&
    (installed == Returned(0) && toolkitAfter && IconError(h).None? && CallReady(h, funcName, preMain) ==>
       out == Returned(h.mainResult) && ShowSplash(splashText) in trace &&
       |trace| > 1 && trace[|trace| - 2] == HideSplash && trace[|trace| - 1] == CallMain(funcName, TargetArgs(preMain)))
  }

  /** The intended missing-PySide6 branch: install, import PySide6 again,
      then open the splash and run the target. */
  method InstalledThenSplash(h: Host, moduleName: string, funcName: string,
                             requirements: seq<string>, splashText: string, preMain: Option<string>, toolkitAfter: bool)
    returns (out: Outcome, trace: seq<Event>)
    ensures AfterReimport(h, funcName, splashText, preMain, toolkitAfter, InstallOutcome(h, requirements), out, trace)
    ensures TempScoped(Filter(trace, IsInstallStep), h.tmpDir)
  {
    var code, install := Install(h, requirements);
    out, trace := Reimport(h, moduleName, funcName, splashText, preMain, toolkitAfter, code, install);
  }

  /** What follows an installation with outcome `code` and steps `install`
      in the intended flow. */
  method Reimport(h: Host, moduleName: string, funcName: string, splashText: string, preMain: Option<string>,
                  toolkitAfter: bool, code: Outcome, install: seq<Event>)
    returns (out: Outcome, trace: seq<Event>)
    requires TempScoped(install, h.tmpDir) && forall e :: e in install ==> IsInstallStep(e)
    ensures AfterReimport(h, funcName, splashText, preMain, toolkitAfter, code, out, trace)
    ensures TempScoped(Filter(trace, IsInstallStep), h.tmpDir)
  {
    if code != Returned(0) || !toolkitAfter {
      InstallOnly(install);
      out := if code != Returned(0) then code else Raised(ImportFailed("PySide6"));
      return out, install;
    }
    out, trace := ReimportedRun(h, moduleName, funcName, splashText, preMain, install);
  }

  /** The installation's steps followed by the splash and the target, once
      PySide6 imports. */
  method ReimportedRun(h: Host, moduleName: string, funcName: string, splashText: string, preMain: Option<string>,
                       install: seq<Event>)
    returns (out: Outcome, trace: seq<Event>)
    requires forall e :: e in install ==> IsInstallStep(e)
    ensures IconError(h).Some? ==> out == Raised(IconError(h).value)
    ensures IconError(h).None? && CallReady(h, funcName, preMain) ==>
      out == Returned(h.mainResult) && ShowSplash(splashText) in trace &&
      |trace| > 1 && trace[|trace| - 2] == HideSplash && trace[|trace| - 1] == CallMain(funcName, TargetArgs(preMain))
    ensures Filter(trace, IsInstallStep) == install
  {
    var post;
    out, post := SplashThenTarget(h, moduleName, funcName, splashText, preMain);
    InstallThen(install, post);
    trace := install + post;
    if IconError(h).None? {
      assert trace[|install| + 1] == ShowSplash(splashText);
    }
  }

  /** After the installation and the new import: the application, the
      splash, and the steps up to the target. */
  method SplashThenTarget(h: Host, moduleName: string, funcName: string, splashText: string, preMain: Option<string>)
    returns (out: Outcome, t: seq<Event>)
    ensures IconError(h).Some? ==> out == Raised(IconError(h).value) && t == [CreateApp]
    ensures IconError(h).None? ==> |t| > 1 && t[..2] == [CreateApp, ShowSplash(splashText)]
    ensures IconError(h).None? && CallReady(h, funcName, preMain) ==>
      out == Returned(h.mainResult) && |t| > 3 && t[|t| - 2] == HideSplash && t[|t| - 1] == CallMain(funcName, TargetArgs(preMain))
    ensures forall e :: e in t ==> !IsInstallStep(e)
  {
    var err, pre := OpenSplash(h, splashText);
    if err.Some? {
      return Raised(err.value), pre;
    }
    var post;
    out, post := SplashTail(h, moduleName, funcName, preMain);
    if CallReady(h, funcName, preMain) {
      TailOrder(h, moduleName, funcName, preMain, post, TargetArgs(preMain));
    }
    t := pre + post;
  }
}
