/** What the launcher variants share: the machine they run on (as plain values
    that stand for the file system, the zip archive, the child processes and the
    importable modules), the observable steps they take, and the steps that
    both `universal_main` modules perform the same way. */
module Launch {
  import opened Seqs
  import opened PyStr
  import opened PyTuple
  import opened DependencyCheck

  /** The members of a zip archive: `names` is `namelist()`, in archive order,
      and `data` what `read`/`open` give for a member. The two are independent
      inputs, so a listed name without data, or data under an unlisted name,
      can be represented; membership tests consult `names`, reads consult
      `data`. */
  datatype Archive = Archive(names: seq<string>, data: map<string, string>)

  /** The machine and the program as the launcher finds them. */
  datatype Host = Host(
    version: VersionInfo,                // sys.version_info
    executable: string,                  // sys.executable
    isWindows: bool,                     // IS_WINDOWS
    is64: bool,                          // sys.maxsize == 2 ** 63 - 1
    isZip: bool,                         // IS_ZIPFILE
    archive: Archive,                    // the zipapp ZIPAPP_FILE, when isZip
    fileDir: string,                     // FILE_DIR of the module, ending with '/'
    programDir: string,                  // PROGRAM_DIR as the running module defines it
    files: map<string, string>,          // regular files on disk and their text as text-mode `open` reads it ("\r\n" already "\n")
    wheels: map<string, seq<string>>,    // wheel archives on disk and their namelist
    listing: seq<string>,                // os.listdir(PROGRAM_DIR)
    pipList: string,                     // what `pip list` prints
    tmpDir: string,                      // the name TemporaryDirectory() picks
    childCode: int,                      // exit status of the installer child
    networkUp: bool,                     // https://example.com answers
    toolkit: bool,                       // the PySide6 classes import
    mainModule: Option<set<string>>,     // attributes of the target module; None: it does not import
    mainResult: int)                     // what the target function returns

  /** The exceptions that leave a launcher. */
  datatype Error =
    | KeyError(key: string)
    | FileNotFound(path: string)
    | UnboundLocal(name: string)         // a local read before any assignment
    | AttributeError(name: string)
    | NotCallable                        // calling a global that is still None
    | VersionTypeError                   // comparing an int with a str
    | ImportFailed(moduleName: string)
    | JsonDecodeError                    // the text is not JSON
    | TypeError(what: string)            // an operation applied to a value of the wrong type
    | ValueError(message: string)        // an argument of the right type with a refused value

  /** The arguments a target function receives. */
  datatype Arg = App | PreMainResult

  /** The observable steps, in order. */
  datatype Event =
    | VersionTooOld                      // the "needs Python >= ..." message
    | PipList(argv: seq<string>)
    | MakeTemp(dir: string)
    | RemoveTemp(dir: string)
    | Extract(member: string, dest: string)
    | Rename(source: string, target: string)
    | Copy(source: string, dest: string)
    | Mkdir(path: string)
    | OpenWheel(path: string)
    | ProbeNetwork
    | DownloadCurses(dest: string)
    | Spawn(argv: seq<string>)           // the installer child, waited for
    | CreateApp
    | ShowSplash(text: string)
    | HideSplash
    | PreMain(name: string)
    | CallMain(name: string, args: seq<Arg>)

  /** The steps of checking for and installing packages. */
  predicate IsInstallStep(e: Event)
  {
    e.PipList? || e.MakeTemp? || e.RemoveTemp? || e.Extract? || e.Rename? || e.Copy? ||
    e.Mkdir? || e.OpenWheel? || e.ProbeNetwork? || e.DownloadCurses? || e.Spawn?
  }

  /** `Done`: the function returned `None`. */
  datatype Outcome = Returned(code: int) | Done | Raised(error: Error)

  /** The arguments of the target: the application, then `pre_main`'s result. */
  function TargetArgs(preMain: Option<string>): seq<Arg>
  {
    if preMain.Some? then [App, PreMainResult] else [App]
  }

  /** `_check_to_install(requirements)` on this host. */
  function Missing(h: Host, requirements: seq<string>): seq<string>
  {
    CheckToInstall(requirements, h.pipList)
  }

  /** A temporary directory used as a `with` scope: created at most once, and
      if created then removed exactly once, as the very last step. */
  predicate TempScoped(trace: seq<Event>, dir: string)
  {
    multiset(trace)[MakeTemp(dir)] == multiset(trace)[RemoveTemp(dir)] &&
    multiset(trace)[MakeTemp(dir)] <= 1 &&
    (MakeTemp(dir) in trace ==> trace[|trace| - 1] == RemoveTemp(dir))
  }

  /** `with TemporaryDirectory()` around a body that creates and removes no
      temporary directory itself. */
  lemma ScopeIsScoped(before: seq<Event>, body: seq<Event>, dir: string)
    requires MakeTemp(dir) !in before && RemoveTemp(dir) !in before
    requires MakeTemp(dir) !in body && RemoveTemp(dir) !in body
    ensures TempScoped(before + [MakeTemp(dir)] + body + [RemoveTemp(dir)], dir)
    ensures forall e :: e in before + [MakeTemp(dir)] + body + [RemoveTemp(dir)] <==>
      e in before || e in body || e == MakeTemp(dir) || e == RemoveTemp(dir)
  {
    var t := before + [MakeTemp(dir)] + body + [RemoveTemp(dir)];
    assert multiset(t) == multiset(before) + multiset([MakeTemp(dir)]) + multiset(body) + multiset([RemoveTemp(dir)]);
  }

  /** Steps without a temporary directory before a scoped trace keep it scoped. */
  lemma ScopedAfter(before: seq<Event>, scope: seq<Event>, dir: string)
    requires MakeTemp(dir) !in before && RemoveTemp(dir) !in before
    requires TempScoped(scope, dir) && scope != []
    ensures TempScoped(before + scope, dir)
  {
    assert multiset(before + scope) == multiset(before) + multiset(scope);
    assert (before + scope)[|before + scope| - 1] == scope[|scope| - 1];
  }

  /** A trace without a temporary directory is trivially scoped. */
  lemma NoScopeIsScoped(trace: seq<Event>, dir: string)
    requires MakeTemp(dir) !in trace && RemoveTemp(dir) !in trace
    ensures TempScoped(trace, dir)
  {
  }

  /** An installation followed by at most one call of the target: the
      installation steps are those of the installation, and a call, if any,
      is the last step and the only one. */
  lemma InstallThenCall(install: seq<Event>, call: seq<Event>, c: Event)
    requires forall e :: e in install ==> IsInstallStep(e)
    requires call == [] || call == [c]
    requires c.CallMain?
    ensures var t := install + call;
      Filter(t, IsInstallStep) == install &&
      (forall i :: 0 <= i < |t| && t[i].CallMain? ==> i == |t| - 1 && t[i] == c) &&
      (c in t <==> call == [c])
  {
    var t := install + call;
    InstallOnly(install);
    NoCallAmongSteps(install);
    assert !IsInstallStep(c);
    if call == [] {
      assert t == install;
    } else {
      FilterAppend(install, call, IsInstallStep);
      assert Filter(call, IsInstallStep) == [] by {
        assert call[1..] == [];
      }
      assert forall i :: 0 <= i < |install| ==> t[i] == install[i];
      assert t[|t| - 1] == c;
    }
  }

  /** Installation steps are never calls of the target. */
  lemma NoCallAmongSteps(install: seq<Event>)
    requires forall e :: e in install ==> IsInstallStep(e)
    ensures forall i :: 0 <= i < |install| ==> !install[i].CallMain?
  {
    assert forall i :: 0 <= i < |install| ==> install[i] in install;
  }

  /** A trace of installation steps alone is its own installation part. */
  lemma InstallOnly(install: seq<Event>)
    requires forall e :: e in install ==> IsInstallStep(e)
    ensures Filter(install, IsInstallStep) == install
  {
    assert forall i :: 0 <= i < |install| ==> install[i] in install;
    FilterAll(install, IsInstallStep);
  }

  /** An installation followed by other steps. */
  lemma InstallThen(install: seq<Event>, post: seq<Event>)
    requires forall e :: e in install ==> IsInstallStep(e)
    requires forall e :: e in post ==> !IsInstallStep(e)
    ensures Filter(install + post, IsInstallStep) == install
  {
    InstallOnly(install);
    assert forall i :: 0 <= i < |post| ==> post[i] in post;
    FilterNone(post, IsInstallStep);
    FilterAppend(install, post, IsInstallStep);
  }

  /** The installation steps of a trace in which an installation is
      surrounded by other steps. */
  lemma InstallAmid(pre: seq<Event>, install: seq<Event>, post: seq<Event>)
    requires forall e :: e in pre ==> !IsInstallStep(e)
    requires forall e :: e in install ==> IsInstallStep(e)
    requires forall e :: e in post ==> !IsInstallStep(e)
    ensures Filter(pre + install + post, IsInstallStep) == install
  {
    InstallThen(install, post);
    assert forall i :: 0 <= i < |pre| ==> pre[i] in pre;
    FilterNone(pre, IsInstallStep);
    FilterAppend(pre, install + post, IsInstallStep);
    assert pre + install + post == pre + (install + post);
  }

  /** `for name in namelist: if name.endswith(suffix): ...; break`: the index of
      the first member with the suffix, or `|names|` when there is none. */
  method FindMember(names: seq<string>, suffix: string) returns (i: nat)
    ensures i <= |names|
    ensures i < |names| ==> EndsWith(names[i], suffix)
    ensures forall j :: 0 <= j < i ==> !EndsWith(names[j], suffix)
  {
    i := 0;
    while i < |names| && !EndsWith(names[i], suffix)
      invariant i <= |names|
      invariant forall j :: 0 <= j < i ==> !EndsWith(names[j], suffix)
    {
      i := i + 1;
    }
  }

  /** The path `ZipFile.extract(name, dest)` returns (POSIX separators). */
  function ExtractedPath(dest: string, name: string): string
  {
    dest + "/" + name
  }

  /** The extraction steps for `names`, in order. */
  function Extractions(names: seq<string>, dest: string): (t: seq<Event>)
    ensures |t| == |names|
    ensures forall e :: e in t ==> e.Extract? && e.member in names && e.dest == dest
  {
    if names == [] then [] else [Extract(names[0], dest)] + Extractions(names[1..], dest)
  }

  lemma {:induction false} ExtractionsAppend(a: seq<string>, b: seq<string>, dest: string)
    ensures Extractions(a + b, dest) == Extractions(a, dest) + Extractions(b, dest)
  {
    if a == [] {
      assert a + b == b;
    } else {
      assert (a + b)[1..] == a[1..] + b;
      ExtractionsAppend(a[1..], b, dest);
    }
  }

  predicate IsPyd(name: string)
  {
    EndsWith(name, ".pyd")
  }

  /** `for name in wheel.namelist(): if name.endswith('.pyd'): wheel.extract(name, dest)` */
  method ExtractPyds(names: seq<string>, dest: string) returns (t: seq<Event>)
    ensures t == Extractions(Filter(names, IsPyd), dest)
  {
    t := [];
    var k := 0;
    while k < |names|
      invariant k <= |names|
      invariant t == Extractions(Filter(names[..k], IsPyd), dest)
    {
      PydStep(names, k, dest);
      if IsPyd(names[k]) {
        t := t + [Extract(names[k], dest)];
      }
      k := k + 1;
    }
    assert names[..|names|] == names;
  }

  /** One more member of the namelist adds its extraction when it is a `.pyd`. */
  lemma PydStep(names: seq<string>, k: nat, dest: string)
    requires k < |names|
    ensures Extractions(Filter(names[..k + 1], IsPyd), dest) ==
      Extractions(Filter(names[..k], IsPyd), dest) + (if IsPyd(names[k]) then [Extract(names[k], dest)] else [])
  {
    assert names[..k + 1] == names[..k] + [names[k]];
    FilterAppend(names[..k], [names[k]], IsPyd);
    ExtractionsAppend(Filter(names[..k], IsPyd), Filter([names[k]], IsPyd), dest);
  }

  /** Exactly the `.pyd` members are extracted, each as often as listed, in
      the order of the namelist. */
  lemma PydsExtracted(names: seq<string>, dest: string, n: string)
    ensures multiset(Extractions(Filter(names, IsPyd), dest))[Extract(n, dest)] ==
      if IsPyd(n) then multiset(names)[n] else 0
  {
    FilterCount(names, IsPyd, n);
    ExtractionsCount(Filter(names, IsPyd), dest, n);
  }

  lemma {:induction false} ExtractionsCount(names: seq<string>, dest: string, n: string)
    ensures multiset(Extractions(names, dest))[Extract(n, dest)] == multiset(names)[n]
  {
    if names != [] {
      ExtractionsCount(names[1..], dest, n);
      assert names == [names[0]] + names[1..];
    }
  }

  /** The index of the first name with the suffix, `|names|` when none has it. */
  function FirstWith(names: seq<string>, suffix: string): (i: nat)
    ensures i <= |names|
    ensures i < |names| ==> EndsWith(names[i], suffix)
    ensures forall j :: 0 <= j < i ==> !EndsWith(names[j], suffix)
  {
    if names == [] || EndsWith(names[0], suffix) then 0 else 1 + FirstWith(names[1..], suffix)
  }

  /** The steps that bring the installer script into the temporary directory
      (both `universal_main` modules): extract the first member whose name ends
      with `package_installer.py`, and move it to `<tmp>/package_installer.py`
      when it landed elsewhere. When no member matches, `extracted_path` is
      read unbound. */
  method StageInstaller(h: Host) returns (err: Option<Error>, t: seq<Event>)
    ensures var names := h.archive.names;
      var i := FirstWith(names, "package_installer.py");
      var target := h.tmpDir + "/package_installer.py";
      (err.None? <==> i < |names|) &&
      (err.Some? ==> err == Some(UnboundLocal("extracted_path")) && t == []) &&
      (err.None? ==>
         t == [Extract(names[i], h.tmpDir)] +
              (if ExtractedPath(h.tmpDir, names[i]) == target then [] else [Rename(ExtractedPath(h.tmpDir, names[i]), target)]))
  {
    var names := h.archive.names;
    var i := FindMember(names, "package_installer.py");
    FirstWithIsFirst(names, "package_installer.py", i);
    if i == |names| {
      return Some(UnboundLocal("extracted_path")), [];
    }
    var extracted := ExtractedPath(h.tmpDir, names[i]);
    var target := h.tmpDir + "/package_installer.py";
    t := [Extract(names[i], h.tmpDir)];
    if extracted != target {
      t := t + [Rename(extracted, target)];
    }
    err := None;
  }

  /** Any index that is the first with the suffix (or past the end, when none
      has it) is FirstWith. */
  lemma {:induction false} FirstWithIsFirst(names: seq<string>, suffix: string, i: nat)
    requires i <= |names|
    requires i < |names| ==> EndsWith(names[i], suffix)
    requires forall j :: 0 <= j < i ==> !EndsWith(names[j], suffix)
    ensures FirstWith(names, suffix) == i
  {
    if names != [] && i > 0 {
      FirstWithIsFirst(names[1..], suffix, i - 1);
    }
  }

  /** A launcher that reaches the target module: import it, look the function
      up and call it with `args`. */
  function CallTarget(h: Host, moduleName: string, func: string, args: seq<Arg>): (r: (Outcome, seq<Event>))
    ensures h.mainModule.None? ==> r == (Raised(ImportFailed(moduleName)), [])
    ensures h.mainModule.Some? && func !in h.mainModule.value ==> r == (Raised(AttributeError(func)), [])
    ensures h.mainModule.Some? && func in h.mainModule.value ==> r == (Returned(h.mainResult), [CallMain(func, args)])
  {
    match h.mainModule
    case None => (Raised(ImportFailed(moduleName)), [])
    case Some(attrs) =>
      if func !in attrs then (Raised(AttributeError(func)), [])
      else (Returned(h.mainResult), [CallMain(func, args)])
  }
}
