/** `src/__main__.py`: `run_main()` reads `launch.json` and starts the package
    launcher with its settings, through the splash unless `splash` is null. */
module LaunchConfig {
  import opened Seqs
  import opened PyTuple
  import opened Json
  import opened Launch
  import opened PackageMain

  /** The settings `run_main` hands to the launcher. `splash` is `None` for a
      null `splash`; `preMain` is `None` for a null `pre_main`, and also when
      `splash` is null, since the key is then never read. */
  datatype Config = Config(mainModule: string, mainFunc: string, minVer: seq<PyVal>, requirements: seq<string>,
                           splash: Option<string>, preMain: Option<string>)

  /** The settings, or the exception reading them raises. */
  datatype Loaded = Loaded(config: Config) | LoadFailed(error: Error)

  /** `PROGRAM_DIR + 'launch.json'` (the package's `PROGRAM_DIR` ends with a
      separator). */
  function ConfigPath(h: Host): string
  {
    h.programDir + "launch.json"
  }

  /** The text of `launch.json`: the archive member, or the file. */
  function ConfigText(h: Host): Option<string>
  {
    if h.isZip then
      if "launch.json" in h.archive.data then Some(h.archive.data["launch.json"]) else None
    else
      if ConfigPath(h) in h.files then Some(h.files[ConfigPath(h)]) else None
  }

  /** The exception of an absent `launch.json`. */
  function ConfigTextError(h: Host): Error
  {
    if h.isZip then KeyError("launch.json") else FileNotFound(ConfigPath(h))
  }

  /** The keys read after `splash`, in the order `run_main` reads them:
      `pre_main` only for a splash, then the arguments of the call. */
  function KeysAfterSplash(splash: Json): seq<string>
  {
    (if splash == JNull then [] else ["pre_main"]) + ["main_module", "main_func", "min_py_ver", "requirements"]
  }

  /** The index of the first of `keys` that `fields` lacks, `|keys|` when it
      has them all. */
  function FirstMissing(fields: map<string, Json>, keys: seq<string>): (i: nat)
    ensures i <= |keys|
    ensures i < |keys| ==> keys[i] !in fields
    ensures forall j :: 0 <= j < i ==> keys[j] in fields
  {
    if keys == [] || keys[0] !in fields then 0 else 1 + FirstMissing(fields, keys[1..])
  }

  /** A JSON string as a `str`. */
  function AsString(j: Json): Option<string>
  {
    if j.JStr? then Some(j.s) else None
  }

  /** A JSON value as an element of `tuple(min_py_ver)`: `true` and `false`
      are the ints 1 and 0. */
  function AsPyVal(j: Json): PyVal
  {
    match j
    case JNum(n) => Int(n)
    case JBool(b) => Int(if b then 1 else 0)
    case JStr(s) => Str(s)
    case _ => Other(j)
  }

  function PyVals(items: seq<Json>): (t: seq<PyVal>)
    ensures |t| == |items| && forall i :: 0 <= i < |items| ==> t[i] == AsPyVal(items[i])
  {
    if items == [] then [] else [AsPyVal(items[0])] + PyVals(items[1..])
  }

  /** Every character of a string, as the one-character strings iterating it
      yields. */
  function Chars(s: string): (t: seq<string>)
    ensures |t| == |s| && forall i :: 0 <= i < |s| ==> t[i] == [s[i]]
  {
    if s == [] then [] else [[s[0]]] + Chars(s[1..])
  }

  /** `tuple(min_py_ver)`: the elements of a list, or the characters of a
      string; `None` for a value that is not iterable. */
  function AsMinVer(j: Json): Option<seq<PyVal>>
  {
    match j
    case JArr(items) => Some(PyVals(items))
    case JStr(s) => Some(seq(|s|, i requires 0 <= i < |s| => Str([s[i]])))
    case _ => None
  }

  /** A list of JSON strings as a list of `str`; `None` when an element is not
      a string. */
  function Strings(items: seq<Json>): (r: Option<seq<string>>)
    ensures r.Some? <==> forall i :: 0 <= i < |items| ==> items[i].JStr?
    ensures r.Some? ==> |r.value| == |items| && forall i :: 0 <= i < |items| ==> items[i] == JStr(r.value[i])
  {
    if items == [] then Some([])
    else if !items[0].JStr? then None
    else
      var rest := Strings(items[1..]);
      if rest.None? then
        assert !items[1..][FirstNonString(items[1..])].JStr?;
        None
      else Some([items[0].s] + rest.value)
  }

  /** The index of an element that is not a string, in a list that has one. */
  function FirstNonString(items: seq<Json>): (i: nat)
    requires exists k :: 0 <= k < |items| && !items[k].JStr?
    ensures i < |items| && !items[i].JStr?
  {
    if !items[0].JStr? then 0
    else
      assert exists k :: 0 <= k < |items[1..]| && !items[1..][k].JStr? by {
        var k :| 0 <= k < |items| && !items[k].JStr?;
        assert items[1..][k - 1] == items[k];
      }
      1 + FirstNonString(items[1..])
  }

  /** The package names of `requirements`: a list of strings, or the
      characters of a string. */
  function AsRequirements(j: Json): Option<seq<string>>
  {
    match j
    case JArr(items) => Strings(items)
    case JStr(s) => Some(Chars(s))
    case _ => None
  }

  /** `None` for a JSON null, otherwise the string. */
  function AsOptString(j: Json): Option<Option<string>>
  {
    match j
    case JNull => Some(None)
    case JStr(s) => Some(Some(s))
    case _ => None
  }

  /** The typed settings of an object that has every key `run_main` reads;
      the first value of the wrong type is a `TypeError` naming its key. */
  function Typed(fields: map<string, Json>): (r: Loaded)
    requires "splash" in fields && forall k :: k in KeysAfterSplash(fields["splash"]) ==> k in fields
    ensures r.Loaded? ==> Describes(JObj(fields), r.config)
  {
    var splash := AsOptString(fields["splash"]);
    var preMain := if splash == Some(None) then Some(None) else AsOptString(fields["pre_main"]);
    var mainModule := AsString(fields["main_module"]);
    var mainFunc := AsString(fields["main_func"]);
    var minVer := AsMinVer(fields["min_py_ver"]);
    var requirements := AsRequirements(fields["requirements"]);
    if splash.None? then LoadFailed(TypeError("splash"))
    else if preMain.None? then LoadFailed(TypeError("pre_main"))
    else if mainModule.None? then LoadFailed(TypeError("main_module"))
    else if mainFunc.None? then LoadFailed(TypeError("main_func"))
    else if minVer.None? then LoadFailed(TypeError("min_py_ver"))
    else if requirements.None? then LoadFailed(TypeError("requirements"))
    else Loaded(Config(mainModule.value, mainFunc.value, minVer.value, requirements.value, splash.value, preMain.value))
  }

  /** The settings of a decoded `launch.json`: subscripting anything but an
      object raises `TypeError`; the first key missing, in reading order,
      raises `KeyError`. */
  function ParseConfig(doc: Json): (r: Loaded)
    ensures !doc.JObj? ==> r == LoadFailed(TypeError("subscript"))
    ensures doc.JObj? && "splash" !in doc.fields ==> r == LoadFailed(KeyError("splash"))
    ensures doc.JObj? && "splash" in doc.fields ==>
      var keys := KeysAfterSplash(doc.fields["splash"]);
      forall i :: 0 <= i < |keys| && keys[i] !in doc.fields && (forall j :: 0 <= j < i ==> keys[j] in doc.fields) ==>
        r == LoadFailed(KeyError(keys[i]))
    ensures r.Loaded? ==> Describes(doc, r.config)
  {
    match doc
    case JObj(fields) =>
      if "splash" !in fields then LoadFailed(KeyError("splash"))
      else
        var keys := KeysAfterSplash(fields["splash"]);
        var i := FirstMissing(fields, keys);
        if i < |keys| then LoadFailed(KeyError(keys[i]))
        else
          assert forall k :: k in keys ==> k in fields by {
            forall k | k in keys ensures k in fields {
              var j :| 0 <= j < |keys| && keys[j] == k;
            }
          }
          Typed(fields)
    case _ => LoadFailed(TypeError("subscript"))
  }

  /** `doc` is an object whose fields hold the settings `c`. */
  predicate Describes(doc: Json, c: Config)
  {
    doc.JObj? && "splash" in doc.fields && "main_module" in doc.fields && "main_func" in doc.fields &&
    "min_py_ver" in doc.fields && "requirements" in doc.fields &&
    doc.fields["main_module"] == JStr(c.mainModule) && doc.fields["main_func"] == JStr(c.mainFunc) &&
    AsMinVer(doc.fields["min_py_ver"]) == Some(c.minVer) && AsRequirements(doc.fields["requirements"]) == Some(c.requirements) &&
    AsOptString(doc.fields["splash"]) == Some(c.splash) &&
    (c.splash.None? ==> c.preMain.None?) &&
    (c.splash.Some? ==> "pre_main" in doc.fields && AsOptString(doc.fields["pre_main"]) == Some(c.preMain))
  }

  /** JSON for an element of a version minimum. */
  function PyValJson(v: PyVal): Json
  {
    match v
    case Int(n) => JNum(n)
    case Str(s) => JStr(s)
    case Other(j) => j
  }

  /** JSON for a version minimum: a list. */
  function MinVerJson(minVer: seq<PyVal>): (items: seq<Json>)
    ensures |items| == |minVer| && forall i :: 0 <= i < |minVer| ==> items[i] == PyValJson(minVer[i])
  {
    if minVer == [] then [] else [PyValJson(minVer[0])] + MinVerJson(minVer[1..])
  }

  /** JSON for a list of strings. */
  function StringsJson(names: seq<string>): (items: seq<Json>)
    ensures |items| == |names| && forall i :: 0 <= i < |names| ==> items[i] == JStr(names[i])
  {
    if names == [] then [] else [JStr(names[0])] + StringsJson(names[1..])
  }

  /** JSON for an optional string. */
  function OptJson(o: Option<string>): Json
  {
    if o.Some? then JStr(o.value) else JNull
  }

  /** The `launch.json` document that writes the settings `c`: the minimum
      and the requirements as lists. */
  function ConfigDoc(c: Config): Json
  {
    var fields := map["splash" := OptJson(c.splash), "main_module" := JStr(c.mainModule), "main_func" := JStr(c.mainFunc),
                      "min_py_ver" := JArr(MinVerJson(c.minVer)),
                      "requirements" := JArr(StringsJson(c.requirements))];
    JObj(if c.splash.Some? then fields["pre_main" := OptJson(c.preMain)] else fields)
  }

  /** The version minimum holds ints and strs only. */
  predicate PlainMinVer(minVer: seq<PyVal>)
  {
    forall i :: 0 <= i < |minVer| ==> !minVer[i].Other?
  }

  /** A minimum of ints and strs written as a list reads back unchanged. */
  lemma MinVerRoundTrip(minVer: seq<PyVal>)
    requires PlainMinVer(minVer)
    ensures AsMinVer(JArr(MinVerJson(minVer))) == Some(minVer)
  {
    assert PyVals(MinVerJson(minVer)) == minVer;
  }

  /** Package names written as a list of strings read back unchanged. */
  lemma RequirementsRoundTrip(requirements: seq<string>)
    ensures AsRequirements(JArr(StringsJson(requirements))) == Some(requirements)
  {
    var items := StringsJson(requirements);
    assert Strings(items).Some?;
    assert Strings(items).value == requirements;
  }

  /** Writing settings to `launch.json` and reading them back gives them
      again, for a minimum of ints and strs and a `pre_main` that is unset
      without a splash. */
  lemma ConfigRoundTrip(c: Config)
    requires PlainMinVer(c.minVer)
    requires c.splash.None? ==> c.preMain.None?
    ensures ParseConfig(ConfigDoc(c)) == Loaded(c)
  {
    var f := ConfigDoc(c).fields;
    ConfigDocFields(c);
    MinVerRoundTrip(c.minVer);
    RequirementsRoundTrip(c.requirements);
    TypedRoundTrip(c, f);
  }

  /** The fields of the written document hold the settings. */
  lemma ConfigDocFields(c: Config)
    ensures var f := ConfigDoc(c).fields;
      "splash" in f && "main_module" in f && "main_func" in f && "min_py_ver" in f && "requirements" in f &&
      f["main_module"] == JStr(c.mainModule) && f["main_func"] == JStr(c.mainFunc) &&
      f["min_py_ver"] == JArr(MinVerJson(c.minVer)) &&
      f["requirements"] == JArr(StringsJson(c.requirements)) &&
      AsOptString(f["splash"]) == Some(c.splash) &&
      (c.splash.Some? ==> "pre_main" in f && AsOptString(f["pre_main"]) == Some(c.preMain))
  {
  }

  /** Fields that hold every setting of `c`, with the right types, are read
      as `c`. */
  lemma TypedRoundTrip(c: Config, f: map<string, Json>)
    requires "splash" in f && "main_module" in f && "main_func" in f && "min_py_ver" in f && "requirements" in f
    requires f["main_module"] == JStr(c.mainModule) && f["main_func"] == JStr(c.mainFunc)
    requires AsMinVer(f["min_py_ver"]) == Some(c.minVer) && AsRequirements(f["requirements"]) == Some(c.requirements)
    requires AsOptString(f["splash"]) == Some(c.splash) && (c.splash.None? ==> c.preMain.None?)
    requires c.splash.Some? ==> "pre_main" in f && AsOptString(f["pre_main"]) == Some(c.preMain)
    ensures ParseConfig(JObj(f)) == Loaded(c)
  {
    var keys := KeysAfterSplash(f["splash"]);
    assert FirstMissing(f, keys) == |keys|;
  }

  /** The settings `run_main` loads: the text, `json.load` of it (`decode`,
      `None` for a `JSONDecodeError`), and the settings of the document. */
  function Load(h: Host, decode: string -> Option<Json>): (r: Loaded)
    ensures ConfigText(h).None? ==> r == LoadFailed(ConfigTextError(h))
    ensures ConfigText(h).Some? && decode(ConfigText(h).value).None? ==> r == LoadFailed(JsonDecodeError)
    ensures r.Loaded? ==> ConfigText(h).Some? && decode(ConfigText(h).value).Some? && Describes(decode(ConfigText(h).value).value, r.config)
  {
    match ConfigText(h)
    case None => LoadFailed(ConfigTextError(h))
    case Some(text) =>
      match decode(text)
      case None => LoadFailed(JsonDecodeError)
      case Some(doc) => ParseConfig(doc)
  }

  /** The `pre_main_name` argument as written: `''` for a null `pre_main`. */
  function PassedPreMain(preMain: Option<string>): (p: Option<string>)
    ensures p.Some?
    ensures preMain.Some? ==> p == preMain
  {
    if preMain.None? then Some("") else preMain
  }

  /** What the launcher started with loaded settings gives and does, with
      `preMainArg` as the `pre_main_name` argument of the splash launcher. */
  predicate Launched(h: Host, c: Config, preMainArg: Option<string>, out: Outcome, trace: seq<Event>)
  {
    (c.splash.None? ==> MainRun(h, c.mainModule, c.mainFunc, c.minVer, c.requirements, out, trace)) &&
    (c.splash.Some? ==> SplashRun(h, c.mainModule, c.mainFunc, c.minVer, c.requirements, c.splash.value, preMainArg, out, trace))
  }

  /** Start the launcher with loaded settings, passing `preMainArg` as
      `pre_main_name` to the splash launcher. */
  method Start(h: Host, c: Config, preMainArg: Option<string>) returns (out: Outcome, trace: seq<Event>)
    ensures Launched(h, c, preMainArg, out, trace)
  {
    if c.splash.None? {
      out, trace := MainFlow(h, c.mainModule, c.mainFunc, c.minVer, c.requirements);
    } else {
      out, trace := SplashMainFlow(h, c.mainModule, c.mainFunc, c.minVer, c.requirements, c.splash.value, preMainArg);
    }
  }

  /** What a statement that calls the launcher and drops its value passes on:
      an exception, and `None` for any value. */
  function Dropped(launched: Outcome): (out: Outcome)
    ensures out.Raised? <==> launched.Raised?
    ensures out.Raised? ==> out == launched
    ensures !out.Raised? ==> out == Done
  {
    if launched.Raised? then launched else Done
  }

  /** The exit status of `python -m ...` after the module body ends with
      `value`: 1 for an uncaught exception, 0 for `None`, and the status of
      `sys.exit(value)` for an int. */
  function ExitStatus(value: Outcome): int
  {
    match value
    case Raised(_) => 1
    case Done => 0
    case Returned(code) => code
  }

  /** `run_main()` as written: the launcher's value, `launched`, is dropped, so
      `run_main()` gives `None` unless the launcher raised. */
  method RunMain(h: Host, decode: string -> Option<Json>) returns (out: Outcome, launched: Outcome, trace: seq<Event>)
    ensures Load(h, decode).LoadFailed? ==> out == Raised(Load(h, decode).error) && launched == out && trace == []
    ensures Load(h, decode).Loaded? ==>
      var c := Load(h, decode).config;
      Launched(h, c, PassedPreMain(c.preMain), launched, trace) && out == Dropped(launched)
  {
    var loaded := Load(h, decode);
    if loaded.LoadFailed? {
      return Raised(loaded.error), Raised(loaded.error), [];
    }
    var c := loaded.config;
    launched, trace := Start(h, c, PassedPreMain(c.preMain));
    out := Dropped(launched);
  }

  /** `run_main()` as evidently intended: a null `pre_main` reaches the
      launcher as `None`, and the launcher's value is returned, to become the
      exit status through `sys.exit(run_main())`. */
  method RunMainIntended(h: Host, decode: string -> Option<Json>) returns (out: Outcome, trace: seq<Event>)
    ensures Load(h, decode).LoadFailed? ==> out == Raised(Load(h, decode).error) && trace == []
    ensures Load(h, decode).Loaded? ==>
      var c := Load(h, decode).config;
      Launched(h, c, c.preMain, out, trace)
  {
    var loaded := Load(h, decode);
    if loaded.LoadFailed? {
      return Raised(loaded.error), [];
    }
    var c := loaded.config;
    out, trace := Start(h, c, c.preMain);
  }

  /** As written, a launcher that refuses the interpreter returns 1, but the
      process still exits with status 0. */
  lemma StatusLost(h: Host, c: Config, launched: Outcome, trace: seq<Event>)
    requires c.splash.None? && VersionTooLow(h, c.minVer) == Some(true)
    requires Launched(h, c, PassedPreMain(c.preMain), launched, trace)
    ensures launched == Returned(1) && trace == [VersionTooOld]
    ensures ExitStatus(Dropped(launched)) == 0
  {
  }

  /** As intended, the launcher's status is the exit status: 1 for an
      interpreter it refuses, and the installer's failing status whenever
      the installer ran (without a splash, or with a splash whose icon
      loads). */
  lemma StatusPropagated(h: Host, c: Config, out: Outcome, trace: seq<Event>)
    requires Launched(h, c, c.preMain, out, trace)
    ensures VersionTooLow(h, c.minVer) == Some(true) ==> ExitStatus(out) == 1
    ensures VersionTooLow(h, c.minVer) == Some(false) && (c.splash.Some? && h.toolkit ==> IconError(h).None?) &&
            InstallOutcome(h, c.requirements).Returned? &&
            InstallOutcome(h, c.requirements) != Returned(0) ==>
      ExitStatus(out) == InstallOutcome(h, c.requirements).code
  {
    if c.splash.Some? && VersionTooLow(h, c.minVer) == Some(false) && h.toolkit && IconError(h).None? {
      assert SessionShown(h, c.mainModule, c.mainFunc, c.preMain, InstallOutcome(h, c.requirements), out, trace[2..]);
    }
  }

  /** As written, a splash configuration with a null `pre_main` never
      reaches its target: once PySide6 is present, the icon loads and the
      installation succeeds, `getattr(main_module, '')` raises. */
  lemma NullPreMainFails(h: Host, c: Config, out: Outcome, trace: seq<Event>)
    requires c.splash.Some? && c.preMain.None?
    requires SplashRun(h, c.mainModule, c.mainFunc, c.minVer, c.requirements, c.splash.value, PassedPreMain(c.preMain), out, trace)
    requires VersionTooLow(h, c.minVer) == Some(false) && h.toolkit && IconError(h).None?
    requires InstallOutcome(h, c.requirements) == Returned(0)
    requires h.mainModule.Some? && "" !in h.mainModule.value
    ensures out == Raised(AttributeError(""))
    ensures forall e :: e in trace ==> !e.CallMain?
  {
    var p := PassedPreMain(c.preMain);
    assert p == Some("");
    assert |trace| > 1 && !trace[0].CallMain? && !trace[1].CallMain? &&
      SessionShown(h, c.mainModule, c.mainFunc, p, Returned(0), out, trace[2..]);
    assert forall e :: e in trace[2..] ==> !e.CallMain?;
    NoCallAfterTwo(trace);
  }

  /** A trace with no call of the target in its first two steps and none
      after them has none at all. */
  lemma NoCallAfterTwo(trace: seq<Event>)
    requires |trace| > 1 && !trace[0].CallMain? && !trace[1].CallMain?
    requires forall e :: e in trace[2..] ==> !e.CallMain?
    ensures forall e :: e in trace ==> !e.CallMain?
  {
    forall e | e in trace ensures !e.CallMain? {
      var i :| 0 <= i < |trace| && trace[i] == e;
      if i >= 2 {
        assert trace[2..][i - 2] == e;
      }
    }
  }

  /** As intended, the same configuration calls the target with the
      application alone, as the last step. */
  lemma NullPreMainIntended(h: Host, c: Config, out: Outcome, trace: seq<Event>)
    requires c.splash.Some? && c.preMain.None?
    requires SplashRun(h, c.mainModule, c.mainFunc, c.minVer, c.requirements, c.splash.value, c.preMain, out, trace)
    requires VersionTooLow(h, c.minVer) == Some(false) && h.toolkit && IconError(h).None?
    requires InstallOutcome(h, c.requirements) == Returned(0)
    requires CallReady(h, c.mainFunc, None)
    ensures out == Returned(h.mainResult)
    ensures trace[|trace| - 1] == CallMain(c.mainFunc, [App])
  {
    var rest := trace[2..];
    assert trace[|trace| - 1] == rest[|rest| - 1];
  }
}
