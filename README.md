# UniversalMain launcher, modelled in Dafny

UniversalMain is a launcher that Python programs are started through. Before the
program runs it:

- checks that the interpreter is new enough;
- reads the program's requirement list;
- asks `pip list` what is already installed;
- runs an installer child for the missing packages;
- calls the program's entry point only when the installer exits with status 0.

On Windows the installer is `installer.py`, a small curses program. It asks
"Install packages? (y/n)", starts `pip install` and animates a spinner until pip
exits. The launcher comes in three shapes:

- the bootstrap `__main__.py` at the top of a repository or zipapp;
- the single-file decorator module `src/universal_main.py`, whose `main` and
  `pyside6_splash_main` wrap a target function;
- the package `src/universal_main/`. Its `main` and `pyside6_splash_main`
  take the target's module and function names, a minimum version and a
  requirement list, which `src/__main__.py` reads from `launch.json`.

`program_informations.py` reads the program's license, notice, name,
description, license summary and icon. The two `constants.py` files work out
the platform flags, the data directory and the program's location.

The model is a set of Dafny modules, one per source file, plus shared modules.

| Dafny module | source file |
|---|---|
| `Installer` | `installer.py` |
| `Bootstrap` | `__main__.py` |
| `RootConstants` | `constants.py` |
| `DecoratorMain` | `src/universal_main.py` |
| `LaunchConfig` | `src/__main__.py` |
| `SrcConstants` | `src/constants.py` |
| `PackageMain` | `src/universal_main/universal_main.py` |
| `ProgramInfo` | `src/universal_main/program_informations.py` |

The shared modules are:

- `Launch`: the host as a plain value, plus the observable events, outcomes and
  steps common to both `universal_main` files;
- `DependencyCheck`: the `package + ' ' in installed` filter of every variant;
- `Requirements`: the two ways requirement text is split into names;
- `Paths`: `posixpath.dirname` and the program-directory walk-up;
- `PyTuple`: Python's `<` on tuples;
- `PyStr`: Python string operations;
- `Seqs`: filtering and subsequences;
- `Json`: decoded JSON values.

## How the model works

Each launcher flow is a method that returns its outcome and the trace of events
it caused. The outcome is a returned status, `None`, or a raised exception. The
trace records pip runs, temporary directories, extractions, child processes,
splash windows and calls of the target.

Everything the launcher observes from outside is a field of the `Launch.Host`
record:

- the interpreter version and word size;
- the platform;
- the files on disk;
- the zip archive's members;
- what `pip list` prints;
- the installer child's exit status;
- the temporary directory's name;
- whether the network answers;
- whether PySide6 imports;
- the target module's attributes.

Each method is proved against a specification function or predicate of the
host. The properties the launcher promises are proved as lemmas about those
functions, for example:

- the temporary directory is removed last;
- the target is called last, and only after status 0;
- the splash is shown before the installer and hidden before the target.

The curses installer is a class, `Installer.Installer`, whose fields are the
ones the source updates in place:

- the packages;
- the spinner phase;
- the `__is_running` switch;
- the log of what the terminal saw.

Its key loop is proved against the function `Installer.KeyLoop`. Its
`__split_text` loop is proved against `Installer.Wrapped`.

The model follows the code where the code and its own documentation disagree:

- `installer.py:103` returns 0 once pip has exited, whatever pip's own
  status. `Installer.ExitCodes` states this.
- The package `main` returns the installer's status when it fails; the
  decorators return `None`.
- A bootstrap that is not run on Windows fails at `subprocess.CREATE_NO_WINDOW`
  before anything is installed.
- The package launcher's status is meant to become the process exit status,
  but `src/__main__.py` drops it, so `python -m` exits with 0 unless the
  launcher raises. This is the first row under "## Findings".

## Model

| member | source | states |
|---|---|---|
| Installer.Lines | installer.py:133-146 | the wrapped grouping is non-empty, every line holds a name, and it starts with the first name |
| Installer.SplitText | installer.py:133-146 | the loop of `__split_text` computes exactly the wrapped text of the names, with the width reduced by 5 |
| Installer.AddName | installer.py:137-145 | one loop step puts the name on a new line when line length plus name length reaches the width, and after a space otherwise, keeping the running line length |
| Installer.LinesFlatten | installer.py:133-146 | wrapping neither drops, duplicates nor reorders a package name |
| Installer.LinesFit | installer.py:139-144 | a line holding two or more names has a total name length below the width |
| Installer.LinesGreedy | installer.py:139-141 | every line break happens because the next name would have reached the width |
| Installer.RenderRoundTrip | installer.py:140-145 | splitting the text at newlines and spaces gives the grouping back, for names without spaces or newlines |
| Installer.NextPhase | installer.py:113-115 | the spinner phase stays in 0..3 and advances by one modulo 4 |
| Installer.Frames | installer.py:111-120 | n calls of `__progress` draw exactly n frames |
| Installer.FramesCycle | installer.py:113-118 | the i-th frame shows the glyph of phase `phase + i + 1` modulo 4 |
| Installer.FirstFramesFromFresh | installer.py:113-118 | a fresh installer draws `|`, `/`, `-`, `\` first |
| Installer.LeadingRunning | installer.py:99-100 | the spinner runs for exactly the leading polls that report the child still running |
| Installer.FirstDecisive | installer.py:95-109 | the first key that is `y`, `n` or Ctrl-C; every key before it is neither |
| Installer.KeyLoopShape | installer.py:95-109 | the key loop answers every key before the first decisive one with "Wrong input", then does what that key says |
| Installer.KeyNoDeclines | installer.py:104-105 | answering `n` returns 1 without starting pip or drawing a frame |
| Installer.KeyYesInstalls | installer.py:97-103 | answering `y` starts `pip install` once with the names, draws one frame per running poll, and returns 0 exactly when a poll reports that pip exited |
| Installer.AfterYesShape | installer.py:97-103 | after `y`: pip, the frames, and status 0 exactly when pip exits |
| Installer.ExitCodes | installer.py:95-109 | status 0 exactly after `y` with pip started and exited, status 1 exactly after `n`, and no other status |
| Installer.KeyCtrlCInterrupts | installer.py:95-98 | Ctrl-C as the first decisive key raises `KeyboardInterrupt`, after one "Wrong input" per earlier key, without starting pip or moving the spinner |
| Installer.KeyLoopNoCurses | installer.py:95-109 | the key loop never changes the terminal modes |
| Installer.SessionNoCurses | installer.py:77-109 | `__main` never changes the terminal modes |
| Installer.Installer.constructor | installer.py:49-53 | the names are stored, phase 0, not running, nothing observed |
| Installer.Installer.Progress | installer.py:111-120 | the phase advances and one frame with the new phase's glyph is drawn |
| Installer.Installer.Install | installer.py:122-131 | without a start failure, `pip install <names>` is started and the running switch is set; with one, the failure propagates and nothing changes |
| Installer.Installer.MainLoop | installer.py:77-109 | outcome, log, phase and running switch are those of the session function; an empty argument list raises `IndexError` |
| Installer.Installer.AwaitKey | installer.py:95-109 | outcome, log, phase and running switch are exactly those of `KeyLoop` on the old state |
| Installer.Installer.SkipWrong | installer.py:106-109 | returns the first decisive key's index and logs one "Wrong input" per key before it |
| Installer.Installer.Answer | installer.py:96-105 | a decisive key changes the state as `Decide` says: Ctrl-C raises, `y` installs, `n` returns 1 |
| Installer.Installer.AnswerYes | installer.py:97-103 | the `y` branch changes the state as `AfterYes` says |
| Installer.Installer.Spin | installer.py:99-101 | spins exactly over the leading running polls, drawing their frames and advancing the phase by that many steps |
| Installer.Installer.Run | installer.py:55-75 | the terminal is set up, and restored once `__main` returns or raises; a failed `initscr` leaves nothing logged; no colour support raises after set-up and restore; the final spinner phase and `__is_running` switch are those of the session, and unchanged when it never ran |
| Installer.CursesModulePath | installer.py:25-30 | the module path lies under `wincurses/`, carries the interpreter's major then minor digits after `.cp`, and ends with `-win_amd64.pyd` exactly on 64-bit and with `-win32.pyd` exactly otherwise |
| Installer.CursesModulePaths | installer.py:24-30 | `_curses` and `_curses_panel` are loaded, in that order, from `.pyd` paths |
| Installer.PydSuffixes | installer.py:28-29 | the two platform suffixes exclude each other |
| Installer.Script | installer.py:14-18 | an interpreter older than 3.7 exits with 0 and logs nothing; with no arguments the script exits with 1 after set-up and restore; status 0 implies that pip was started with the arguments; Ctrl-C as the deciding key ends the process by `SIGINT` on Python 3.8 and later and with status 1 on 3.7, without starting pip |
| Bootstrap.ToInstall | __main__.py:37-40 | the missing names are a subsequence of the requirement lines, and a name is missing exactly when it is required and not listed |
| Bootstrap.Run | __main__.py:72-75 | `import main` then `main.main()`, with the import and attribute errors; that it runs last and exactly after a successful install is proved in Bootstrap.RunsIffInstalled |
| Bootstrap.Stage | __main__.py:43-52 | a temporary directory, then `installer.py` and every `wincurse` member extracted; a missing `installer.py` raises `KeyError` after the directory exists |
| Bootstrap.InstallThenRun | __main__.py:41-66 | the installer steps, with `run()` exactly on status 0 |
| Bootstrap.BootstrapMain | __main__.py:16-68 | outcome and trace equal the bootstrap's specification functions |
| Bootstrap.StagedMembers | __main__.py:46-51 | exactly `installer.py` and the `wincurse` members are extracted: `installer.py` once, whatever the name list holds, and each `wincurse` member as often as the name list holds it |
| Bootstrap.ZipScopeOrder | __main__.py:43-63 | the temporary directory comes first, every extraction precedes the installer, and cleanup directly follows it |
| Bootstrap.RunsIffInstalled | __main__.py:41-68 | `main.main()` runs exactly when nothing is missing, or the installer ran and returned 0; it is then the last step |
| Bootstrap.NothingMissingRunsDirectly | __main__.py:67-68 | with nothing missing, `run()` directly follows `pip list`, with no temporary directory and no installer |
| RootConstants.PlatformTable | constants.py:13-22 | `KeyError` exactly on win32 when `os.environ['localappdata']` finds no variable; unbound names exactly on an unknown platform; `IS_WINDOWS` exactly on win32; `DATADIR` is `localappdata` plus the separator on win32, and the user directory followed by `/.local/share/` on linux and by `/Library/Application Support/` on darwin |
| RootConstants.AgreesWithSrc | constants.py:13-22 | both constants modules agree on every platform in outcome, `IS_WINDOWS` and `DATADIR` |
| Paths.ResolveProgramDir | constants.py:25-33 | `IS_ZIPFILE` exactly when the module's directory is a file; `PROGRAM_DIR` is then the nearest directory above it, and otherwise the directory itself, with the separator appended |
| Paths.DirnameParent | src/constants.py:31-39 | one `dirname` step of a normalised path is a shorter normalised prefix ending at a path boundary |
| Paths.NearestDirIsNearest | src/constants.py:33-38 | the walk-up ends at a directory with no directory before it on the way up, a prefix of the start ending at a boundary |
| SrcConstants.PlatformTable | src/constants.py:13-28 | the `KeyError` when `os.environ['localappdata']` finds no variable on win32, and the unbound-name cases; exactly the matching flag is set; `DATADIR` is `localappdata` plus the separator on win32, and the user directory followed by `/.local/share/` on linux and by `/Library/Application Support/` on darwin |
| SrcConstants.ExactlyOneFlag | src/constants.py:13-28 | on a named platform exactly one of the three flags is set |
| DependencyCheck.CheckToInstall | src/universal_main/universal_main.py:96-113 | the result is a subsequence of the requirements and holds exactly the requirements whose name plus a space does not occur in the listing |
| DependencyCheck.CheckToInstallCounts | src/universal_main/universal_main.py:110-113 | each unlisted requirement is kept as often as required, and a listed one never |
| DependencyCheck.NothingMissingIff | src/universal_main.py:122-125 | nothing is missing exactly when every requirement is listed |
| DependencyCheck.AlphaBetaExample | src/universal_main.py:122-125 | with `alpha 1.0` and `gamma 2.0` listed, only `beta` of `alpha` and `beta` is missing |
| DependencyCheck.SuffixNameHidesRequirement | __main__.py:37-40 | a listed `sly-ply` hides a required `ply` from the missing list |
| Requirements.RequirementLines | src/universal_main.py:155-157 | `filter(None, splitlines())` gives non-empty names without line breaks |
| Requirements.RequirementLinesAreRuns | src/universal_main.py:193-195 | that reading equals the maximal runs of non-break characters |
| Requirements.RequirementLinesRoundTrip | src/universal_main.py:193-195 | names written one per line, with any line ending, are read back exactly |
| Requirements.LinesepLines | __main__.py:26-30 | the `os.linesep` reading gives non-empty names without `\n` |
| Requirements.LinesepRoundTrip | __main__.py:26-30 | names written with the platform's separator are read back exactly, in order |
| Requirements.CRLFFileOnLFPlatform | __main__.py:17-30 | in a zipapp, where the member's bytes are decoded without newline translation, a `\r\n` text on a `\n` platform gives names ending in `\r`, while `splitlines` strips it; a file on disk is read in text mode and arrives with `\n` already |
| PyTuple.TupleLessAtFirstDifference | src/universal_main/universal_main.py:40 | tuple `<` is decided at the end of the common prefix: by length, or by the first differing pair |
| PyTuple.IntTupleLess | src/universal_main/universal_main.py:40 | on integer tuples the comparison never raises and is the lexicographic order |
| PyTuple.RaisesIff | src/universal_main/universal_main.py:40 | the comparison raises `TypeError` exactly when the first differing pair is not two ints or two strs |
| PyTuple.ProperPrefixLess | src/universal_main/universal_main.py:40 | a proper prefix is smaller |
| PyTuple.TupleLessIrreflexive | src/universal_main/universal_main.py:40 | no tuple is smaller than itself |
| PyTuple.VersionBelow | src/universal_main/universal_main.py:40 | for a minimum of up to three ints, the check is the lexicographic order on (major, minor, micro) |
| DecoratorMain.LoadError | src/universal_main.py:4 | the module loads exactly when PySide6 imports |
| DecoratorMain.Py37Gate | src/universal_main.py:32-46 | `sys.version_info < (3, 7)` never raises and holds exactly for interpreters older than 3.7 |
| DecoratorMain.ZipRequirements | src/universal_main.py:155-158 | absent exactly without a `requirements.txt` member; otherwise non-empty names |
| DecoratorMain.DiskRequirements | src/universal_main.py:191-195 | absent exactly without the file; otherwise non-empty names |
| DecoratorMain.InstallCodes | src/universal_main.py:147-216 | raises without requirements; 0 when nothing is missing; otherwise 1 with the network down on Windows, else the child's status; never `None` |
| DecoratorMain.ZipappInstaller | src/universal_main.py:147-181 | the outcome is the specification's; `pip list` first; alone exactly when nothing is missing; the temporary directory next, removed last; on Windows the installer runs only with the network up, and elsewhere without a probe; it runs with the missing names, and its status is returned |
| DecoratorMain.ZipChecked | src/universal_main.py:158-181 | the same, once the missing names are known |
| DecoratorMain.ZipScope | src/universal_main.py:162-181 | the temporary directory opens the block and is removed last, whatever the body does |
| DecoratorMain.ZipStaging | src/universal_main.py:164-181 | the installer is staged; on Windows the network is probed and a down network returns 1 before any child runs |
| DecoratorMain.NormalInstaller | src/universal_main.py:184-216 | `pip list` first; a temporary directory exactly on Windows with something missing; outside Windows the installer next to the module, with no network probe; on Windows the child runs only with the network up; the child's status is returned |
| DecoratorMain.NormalChecked | src/universal_main.py:195-216 | 0, 1 or the child's status as the branches say, with the same steps |
| DecoratorMain.NormalScope | src/universal_main.py:201-213 | the temporary directory is created first and removed last |
| DecoratorMain.NormalStaging | src/universal_main.py:202-213 | the installer is copied, then the network probed; the copy runs only with the network up |
| DecoratorMain.WindowsSteps | src/universal_main.py:200-213 | `pip list` followed by the Windows block meets every promise of the normal installer |
| DecoratorMain.Install | src/universal_main.py:233-236 | the installer is chosen by `IS_ZIPFILE`, the directory stays scoped, and only installation steps are taken |
| DecoratorMain.MainInner | src/universal_main.py:219-240 | an old interpreter only prints; only installer exceptions leave the function; the target is called, last, exactly when the installer returned 0 |
| DecoratorMain.InstallThenTarget | src/universal_main.py:233-239 | after the gate: the installer, then the target exactly on status 0 |
| DecoratorMain.RunMain | src/universal_main.py:4 | as written: without PySide6 the import fails and nothing is installed or called |
| DecoratorMain.SplashText | src/universal_main.py:243-263 | the resource's text, or `No splash.txt` when it is missing; what the splash shows is proved in DecoratorMain.SplashOrder |
| DecoratorMain.AfterInstall | src/universal_main.py:358-367 | an exception leaves the splash shown; any other status hides it; status 0 runs `pre_main` before hiding, then calls the target last |
| DecoratorMain.ShownSession | src/universal_main.py:352-367 | the installer and what follows it, while the splash is shown |
| DecoratorMain.ShownParts | src/universal_main.py:352-367 | installer steps followed by the post-installer steps form a shown session |
| DecoratorMain.SplashInner | src/universal_main.py:312-369 | the version gate; without PySide6, install and then call the `None` global; with it, application and splash first, then the shown session |
| DecoratorMain.SplashSession | src/universal_main.py:346-367 | the application and splash are the first two steps and are no installation steps |
| DecoratorMain.SplashPreMainInner | src/universal_main.py:372-390 | `pyside6_splash_pre_main` is the splash decorator with `pre_main` given |
| DecoratorMain.SplashOrder | src/universal_main.py:346-367 | the splash is shown before installing; on status 0 the target is the last step, after hiding and after `pre_main`; otherwise the splash is hidden last and the target never runs |
| DecoratorMain.SessionOrder | src/universal_main.py:358-367 | the same order for any installer outcome |
| DecoratorMain.RunSplashMain | src/universal_main.py:4 | as written: without PySide6 the module does not load |
| PackageMain.WheelName | src/universal_main/universal_main.py:178-182 | as written, a 32-bit interpreter gets the bare name `32.whl`; a 64-bit one a name under the directory ending `_64.whl` |
| PackageMain.WheelName32Escapes | src/universal_main/universal_main.py:178-182 | the 32-bit name lies outside the directory that holds the 64-bit one |
| PackageMain.IntendedWheelName | src/universal_main/universal_main.py:178-182 | the intended name lies under `wincurses/curses-cp` and ends with the width suffix |
| PackageMain.IntendedWheelNamesAgree | src/universal_main/universal_main.py:178-182 | the two intended names differ only in the width suffix |
| PackageMain.InstallCodes | src/universal_main/universal_main.py:116-193 | 0 when nothing is missing, otherwise the child's status or an exception; never `None` |
| PackageMain.ZipOnWindowsNeverInstalls | src/universal_main/universal_main.py:130-149 | in a zipapp on Windows with something missing, the installer always raises: `UnboundLocalError` without an installer member, and otherwise the `ValueError` that `ZipFile.open` gives for the mode `'rb'` |
| PackageMain.ZipappInstaller | src/universal_main/universal_main.py:116-156 | 0 when nothing is missing; otherwise `extracted_path` unbound without an installer member, on Windows the `ValueError` of `open(..., 'rb')` before any member is read, and elsewhere the child's status; `pip list` first, the temporary directory next and removed last; the child runs only with the missing names |
| PackageMain.ZipScope | src/universal_main/universal_main.py:129-156 | the temporary directory opens the block and is removed last |
| PackageMain.ZipStaging | src/universal_main/universal_main.py:130-156 | the installer is staged; on Windows `wincurses` is created and then `open` with the mode `'rb'` raises `ValueError`, so no wheel is read and no child runs |
| PackageMain.NormalInstaller | src/universal_main/universal_main.py:159-193 | `pip list` first; a temporary directory exactly on Windows with something missing; only `.pyd` members are extracted, into `wincurses`; a missing wheel raises `FileNotFoundError` |
| PackageMain.NormalChecked | src/universal_main/universal_main.py:166-193 | the same, once the missing names are known |
| PackageMain.NormalScope | src/universal_main/universal_main.py:171-189 | the temporary directory is created first and removed last |
| PackageMain.NormalStaging | src/universal_main/universal_main.py:172-189 | copy, mkdir, open the wheel, extract its `.pyd` members, run the copy |
| Launch.ExtractPyds | src/universal_main/universal_main.py:183-185 | exactly the extractions of the `.pyd` members, in name-list order |
| Launch.PydsExtracted | src/universal_main/universal_main.py:183-185 | each `.pyd` member is extracted as often as listed, and no other member ever |
| Launch.FindMember | src/universal_main/universal_main.py:132-135 | the index of the first member ending with the suffix, or the end |
| Launch.StageInstaller | src/universal_main/universal_main.py:130-137 | extract the first `package_installer.py` member and rename it when it landed elsewhere; with none, `extracted_path` is read unbound |
| Launch.ScopeIsScoped | src/universal_main/universal_main.py:129-156 | a `with TemporaryDirectory()` body creates the directory once and removes it last |
| Launch.InstallThenCall | src/universal_main/universal_main.py:219-225 | installation steps followed by at most one call keep the call last and alone |
| Launch.CallTarget | src/universal_main/universal_main.py:223-225 | import failure, missing attribute, or the target's result; that the call comes last and only after status 0 is proved in Launch.InstallThenCall and PackageMain.MainFlow |
| PackageMain.Install | src/universal_main/universal_main.py:218-221 | the installer is chosen by `IS_ZIPFILE`; `pip list` alone when nothing is missing |
| PackageMain.InstallThenRun | src/universal_main/universal_main.py:218-226 | a failing status is returned; on 0 the target's result is returned and the target is the last step |
| PackageMain.MainFlow | src/universal_main/universal_main.py:196-226 | a non-comparable minimum raises; an old interpreter returns 1; otherwise the target is called, last, exactly when the installer returned 0 and the module has it |
| PackageMain.OpenSplash | src/universal_main/universal_main.py:296-313 | in a zipapp without either logo, `data` is unbound after the application was created |
| PackageMain.SplashTail | src/universal_main/universal_main.py:384-390 | import, `pre_main` when named, hide the splash, call the target with the application and `pre_main`'s result |
| PackageMain.TailOrder | src/universal_main/universal_main.py:384-390 | `pre_main` runs before hiding; the target, last, gets `pre_main`'s result exactly when `pre_main` is named |
| PackageMain.AfterInstall | src/universal_main/universal_main.py:377-390 | an exception leaves the splash shown; a failing status hides it and is returned; after success, a module that does not import raises `ImportError` and a missing `pre_main` raises `AttributeError`, both with the splash shown; a missing target raises `AttributeError` after `pre_main` and hiding; otherwise the target is called last with `pre_main`'s result; never an installation step |
| PackageMain.ShownSession | src/universal_main/universal_main.py:376-390 | the installer, then the same cases: an exception keeps the splash shown; a failing status is returned and hiding is last; an import failure or a missing `pre_main` raises with only installation steps taken; a missing target raises after `pre_main` and hiding, with no call; otherwise hiding and the call of the target are the last two steps; the directory stays scoped |
| PackageMain.ShownParts | src/universal_main/universal_main.py:376-390 | installer steps followed by the post-installer steps form a shown session |
| PackageMain.SplashSession | src/universal_main/universal_main.py:367-390 | the application first; the splash second unless the icon fails; then the shown session |
| PackageMain.SplashPrefix | src/universal_main/universal_main.py:367-373 | the application and the splash are no installation steps |
| PackageMain.SplashMainFlow | src/universal_main/universal_main.py:316-390 | as written: the version gate; without PySide6, install and then call the `None` global; with it, application, splash and the shown session with its import-failure, missing-attribute and call cases; the directory stays scoped |
| PackageMain.SplashMainFlowReimporting | src/universal_main/universal_main.py:352-366 | as intended: without PySide6, install, import it again, then show the splash and call the target last |
| PackageMain.InstalledThenSplash | src/universal_main/universal_main.py:352-366 | the intended branch: a failing status is returned; after success a failed re-import raises, and otherwise the run goes on to the target |
| PackageMain.Reimport | src/universal_main/universal_main.py:358-366 | what the intended branch does after the installation |
| PackageMain.ReimportedRun | src/universal_main/universal_main.py:361-366 | the installation's steps are the installation steps of the run; the splash is shown, and the target is called last |
| PackageMain.SplashThenTarget | src/universal_main/universal_main.py:361-390 | the application and splash first, then hide, then call the target last |
| ProgramInfo.ReadFileOnRoot | src/universal_main/program_informations.py:15-50 | in a zipapp, the member or `None`; otherwise the first of the program directory and its parent that holds the file, or `None` |
| ProgramInfo.RootPrecedence | src/universal_main/program_informations.py:34-50 | the program directory wins over its parent; `None` exactly when both are missing; a zipapp never looks at the disk |
| ProgramInfo.GetLicense | src/universal_main/program_informations.py:53-62 | `None` exactly when `LICENSE` is absent in either place |
| ProgramInfo.GetOpensourceNotice | src/universal_main/program_informations.py:65-74 | `None` exactly when `NOTICE` is absent in either place |
| ProgramInfo.JsonField | src/universal_main/program_informations.py:86-90 | absent exactly without text; found only for the key's value in an object; `JSONDecodeError`, `KeyError` or `TypeError` otherwise |
| ProgramInfo.GetName | src/universal_main/program_informations.py:77-90 | `Absent`, the early `None`, exactly when `launch.json` is absent; otherwise its `program_name`, which is `Found(JNull)`, also `None` to the caller, for a `null` field |
| ProgramInfo.GetDescription | src/universal_main/program_informations.py:93-106 | `Absent`, the early `None`, exactly when `programinfo.json` is absent; otherwise its `description`, which is `Found(JNull)`, also `None` to the caller, for a `null` field |
| ProgramInfo.GetLicenseSummary | src/universal_main/program_informations.py:109-122 | `Absent`, the early `None`, exactly when `programinfo.json` is absent; otherwise its `license_summary`, which is `Found(JNull)`, also `None` to the caller, for a `null` field |
| ProgramInfo.ProgramInfoShared | src/universal_main/program_informations.py:93-122 | description and license summary are absent together and fail alike on a malformed document |
| ProgramInfo.GetIcon | src/universal_main/program_informations.py:125-165 | `None` without PySide6; `logo.png` when present; `logo.jpg` only without `logo.png`; `None` without both |
| ProgramInfo.IconIsFirstLogo | src/universal_main/program_informations.py:142-160 | with PySide6 the icon is the first accepted logo that exists |
| LaunchConfig.ParseConfig | src/__main__.py:23-35 | a non-object raises `TypeError`; the first missing key, in reading order, raises `KeyError`; a loaded configuration describes the document |
| LaunchConfig.Typed | src/__main__.py:23-35 | the loaded settings describe the fields |
| LaunchConfig.Load | src/__main__.py:14-22 | a missing file or member raises; undecodable JSON raises; a loaded configuration describes the decoded document |
| LaunchConfig.ConfigRoundTrip | src/__main__.py:23-35 | settings written to `launch.json` read back unchanged |
| LaunchConfig.MinVerRoundTrip | src/__main__.py:27 | a minimum of ints and strs written as a list reads back unchanged |
| LaunchConfig.RequirementsRoundTrip | src/__main__.py:27 | requirements written as a list of strings read back unchanged |
| LaunchConfig.PassedPreMain | src/__main__.py:34 | as written, some name is always passed, and it is the named `pre_main` when one is given |
| LaunchConfig.Start | src/__main__.py:24-35 | without a splash `main` runs; with one, `pyside6_splash_main` with the given `pre_main` argument |
| LaunchConfig.RunMain | src/__main__.py:11-35 | as written: loading errors propagate; otherwise the launcher runs, with `''` for a null `pre_main`, and `run_main()` passes on only its exception, giving `None` for any status |
| LaunchConfig.RunMainIntended | src/__main__.py:24-39 | as intended: a null `pre_main` reaches the launcher as `None`, and the launcher's value is returned for `sys.exit` |
| LaunchConfig.StatusLost | src/__main__.py:24-39 | as written, a launcher that refuses the interpreter returns 1, yet the process exits with 0 |
| LaunchConfig.StatusPropagated | src/__main__.py:24-39 | as intended, the exit status is 1 for a refused interpreter and the installer's failing status whenever the installer ran |
| LaunchConfig.NullPreMainFails | src/__main__.py:34 | as written, a splash configuration with a null `pre_main` raises `AttributeError('')` and never calls the target |
| LaunchConfig.NullPreMainIntended | src/__main__.py:29-35 | as intended, the same configuration calls the target with the application alone, last |

## Left out

- Running commands: `pip list`, `pip install` and the installer child are not
  run. Their output and exit status are inputs (`Host.pipList`,
  `Host.childCode`, the installer's `polls`). Only `installer.py`'s `Popen`
  can fail to start (its `spawn` input).
- Start failures of the launchers' own `subprocess.run` calls: the
  `pip list` runs of `__main__.py:32-36`, `src/universal_main.py:120` and
  `src/universal_main/universal_main.py:107-109`, and their runs of the
  installer child through `_nt_run_cmd` and `_posix_run_cmd`, always start
  in the model. A `pip` missing from `PATH` would raise
  `FileNotFoundError` there; no `Host` field stands for it.
- Newline translation: `Host.files` holds a disk file's text as text-mode
  `open` returns it, with `\r\n` and `\r` already `\n`. Archive members are
  read as bytes and keep their `\r`.
- Byte decoding and locale: every file and process text is a string, so
  `ENCODING`, `.decode(...)` and `locale` are not modelled.
- Curses drawing: window geometry, colours, `addstr` positions and
  `refresh` are not modelled. The prompt is one event carrying the wrapped
  text, and each spinner frame is one event.
- `time.sleep` in the spinner loop and the `DEBUG` printing of `installer.py`.
  Time is not modelled, and `DEBUG` is a constant False.
- The module-level side effects of `installer.py`: the `input()` prompt of
  its version gate, and executing the loaded `.pyd` modules. Only their
  paths are modelled.
- The Qt window: the `_Splash` geometry, labels and `QIcon` image bytes. The
  icon is identified by the member or file it is read from.
- `_check_imports` beyond its result: importing PySide6 is one flag,
  `Host.toolkit`. The individual classes and the `_Splash` class definition
  are not modelled.
- The network: `_check_network` is the `Host.networkUp` flag.
  `download_curses` is assumed to succeed. `windows_curses_downloader.py` is
  not part of this model.
- File-system mechanics: zip opening, `TemporaryDirectory` naming,
  `shutil.copy`, `os.rename` and `os.mkdir` are steps in the trace and cannot
  fail in the model. The exceptions the model does raise are the ones the
  launcher's own logic leads to.
- The bootstrap's `KeyError` path for a missing `installer.py`: the
  directory is created and never removed by the code. The model shows this.
  That the interpreter's finalizer deletes it later is not modelled.
- `_nt_run_cmd` and `_posix_run_cmd`, which only start processes.
- Windows path separators: paths are POSIX strings. `os.path.abspath` is a
  precondition on `Paths.ResolveProgramDir` (a normalised absolute path).
- JSON parsing: it is an input function (`decode`), and JSON numbers are
  integers only. Floats are not modelled.
- LaunchConfig.Typed: a field of the wrong type is reported when the settings
  are loaded. The source fails later, when it uses the field (in `tuple(...)`,
  in iteration or in `getattr`), or not at all if the run ends first, for
  example at the version gate or after a failing installer. The model still
  reports a `TypeError` naming that field.
- SrcConstants.PlatformTable and RootConstants.PlatformTable: `environ` is
  the environment as `os.environ` looks keys up. On win32 that lookup is case
  insensitive (a variable set as `LOCALAPPDATA` answers `localappdata`); the
  model takes the folded keys as given and does not model the folding.
- Bootstrap.BootOutcome: `subprocess.CREATE_NO_WINDOW` is also missing on
  Windows before Python 3.7, where the bootstrap, which has no version gate,
  would raise at the `pip list` call. The model raises only outside Windows.
- LaunchConfig.AsMinVer: a `min_py_ver` that is a JSON object would iterate
  over its keys in the source. The model treats it as not iterable.
- LaunchConfig.AsRequirements: a `requirements` object likewise iterates over
  its keys in the source. The model treats it as not iterable.
- PyTuple.ValLess: two values that are neither ints nor strs never meet in
  a version comparison, because `sys.version_info` holds none. Comparing them
  is treated as a `TypeError`.
- The target function's own effects: it is a call event and a result,
  `Host.mainResult`, and `pre_main`'s result is the token `PreMainResult`.

## Findings

| source | as written | input that shows it | evidently intended | confidence | as-written member | corrected member |
|---|---|---|---|---|---|---|
| src/__main__.py:24-39 | `main(...)` and `pyside6_splash_main(...)` are bare statements and `run_main()` is not passed to `sys.exit`, so the launcher's status is lost | a `launch.json` whose `min_py_ver` is above the interpreter: the launcher returns 1 and the process exits with 0 | `return` the launcher's value and exit with it | not executed | LaunchConfig.StatusLost | LaunchConfig.StatusPropagated |
| src/__main__.py:34 | a null `pre_main` is passed as `''`, so `pyside6_splash_main` calls `getattr(module, '')` | a `launch.json` with a non-null `splash` and a null `pre_main`, PySide6 present, nothing missing | pass `None`, so the target is called with the application alone | not executed | LaunchConfig.NullPreMainFails | LaunchConfig.NullPreMainIntended |
| src/universal_main/universal_main.py:352-366 | after installing a missing PySide6, the module globals are not imported again, so `QApplication()` calls `None` and raises `TypeError` | PySide6 absent at start, the installer returning 0 | import PySide6 again after the installation and show the splash | not executed | PackageMain.SplashMainFlow | PackageMain.SplashMainFlowReimporting |
| src/universal_main.py:4 | PySide6 is imported when the module loads, so without PySide6 the plain `main` decorator fails before it can install anything | a program decorated with `main` on a machine without PySide6 | load without PySide6, since `main` never uses it | not executed | DecoratorMain.RunMain | DecoratorMain.MainInner |
| src/universal_main/universal_main.py:178-181 | the conditional expression binds loosest, so a 32-bit interpreter opens the bare name `32.whl` | Windows, 32-bit interpreter, a missing package | only the suffix depends on the word size | not executed | PackageMain.WheelName32Escapes | PackageMain.IntendedWheelNamesAgree |
