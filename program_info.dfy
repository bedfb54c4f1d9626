/** `src/universal_main/program_informations.py`: the program's license,
    notice, name, description, license summary and icon, each looked up in
    the zip archive or next to the program, `None` when absent. */
module ProgramInfo {
  import opened Seqs
  import opened Launch
  import opened Json

  /** The index of the first candidate in `present`, `|candidates|` when
      none is. */
  function FirstPresent(candidates: seq<string>, present: set<string>): (i: nat)
    ensures i <= |candidates|
    ensures i < |candidates| ==> candidates[i] in present
    ensures forall j :: 0 <= j < i ==> candidates[j] !in present
  {
    if candidates == [] || candidates[0] in present then 0 else 1 + FirstPresent(candidates[1..], present)
  }

  /** The files tried outside a zipapp, in order: in the program directory,
      then in its parent. */
  function RootCandidates(h: Host, relpath: string): seq<string>
  {
    [h.programDir + relpath, h.programDir + "../" + relpath]
  }

  /** `_read_file_on_root(relpath)`. In a zipapp: the member, `None` when
      there is no such member. Otherwise: the first of the root candidates
      that exists, `None` when neither does. */
  function ReadFileOnRoot(h: Host, relpath: string): (r: Option<string>)
    ensures h.isZip ==> (r.Some? <==> relpath in h.archive.data) && (r.Some? ==> r.value == h.archive.data[relpath])
    ensures !h.isZip ==>
      var c := RootCandidates(h, relpath);
      var i := FirstPresent(c, h.files.Keys);
      r == if i < |c| then Some(h.files[c[i]]) else None
  {
    if h.isZip then
      if relpath in h.archive.data then Some(h.archive.data[relpath]) else None
    else
      var first := h.programDir + relpath;
      if first in h.files then Some(h.files[first])
      else
        var second := h.programDir + "../" + relpath;
        if second in h.files then Some(h.files[second]) else None
  }

  /** Outside a zipapp the program directory wins over its parent, and the
      lookup fails only when both files are missing; in a zipapp the parent
      directory is never consulted. */
  lemma RootPrecedence(h: Host, relpath: string)
    ensures !h.isZip && h.programDir + relpath in h.files ==>
      ReadFileOnRoot(h, relpath) == Some(h.files[h.programDir + relpath])
    ensures !h.isZip && h.programDir + relpath !in h.files && h.programDir + "../" + relpath in h.files ==>
      ReadFileOnRoot(h, relpath) == Some(h.files[h.programDir + "../" + relpath])
    ensures !h.isZip ==>
      (ReadFileOnRoot(h, relpath).None? <==> h.programDir + relpath !in h.files && h.programDir + "../" + relpath !in h.files)
    ensures h.isZip ==> ReadFileOnRoot(h, relpath) == ReadFileOnRoot(h.(files := map[]), relpath)
  {
    var c := RootCandidates(h, relpath);
    if !h.isZip && c[0] !in h.files {
      assert FirstPresent(c, h.files.Keys) == 1 + FirstPresent(c[1..], h.files.Keys);
    }
  }

  /** `get_license()`: the `LICENSE` file, `None` when absent. */
  function GetLicense(h: Host): (r: Option<string>)
    ensures h.isZip ==> (r.None? <==> "LICENSE" !in h.archive.data)
    ensures !h.isZip ==> (r.None? <==> h.programDir + "LICENSE" !in h.files && h.programDir + "../LICENSE" !in h.files)
    ensures r.Some? && h.isZip ==> r.value == h.archive.data["LICENSE"]
  {
    RootPrecedence(h, "LICENSE");
    assert h.programDir + "../" + "LICENSE" == h.programDir + "../LICENSE";
    ReadFileOnRoot(h, "LICENSE")
  }

  /** `get_opensource_notice()`: the `NOTICE` file, `None` when absent. */
  function GetOpensourceNotice(h: Host): (r: Option<string>)
    ensures h.isZip ==> (r.None? <==> "NOTICE" !in h.archive.data)
    ensures !h.isZip ==> (r.None? <==> h.programDir + "NOTICE" !in h.files && h.programDir + "../NOTICE" !in h.files)
    ensures r.Some? && h.isZip ==> r.value == h.archive.data["NOTICE"]
  {
    RootPrecedence(h, "NOTICE");
    assert h.programDir + "../" + "NOTICE" == h.programDir + "../NOTICE";
    ReadFileOnRoot(h, "NOTICE")
  }

  /** The document is an object whose field `key` is `v`. */
  predicate HasField(doc: Option<Json>, key: string, v: Json)
  {
    doc.Some? && doc.value.JObj? && key in doc.value.fields && doc.value.fields[key] == v
  }

  /** A getter's result: `None` for an absent file, the field's value, or the
      exception `json.loads(...)[key]` raises. */
  datatype Field = Absent | Found(value: Json) | Failed(error: Error)

  /** `json.loads(text)[key]` after the `None` check; `decode` is what
      `json.loads` makes of a text, `None` for a `JSONDecodeError`. Indexing
      anything but an object raises `TypeError`. */
  function JsonField(text: Option<string>, decode: string -> Option<Json>, key: string): (r: Field)
    ensures r.Absent? <==> text.None?
    ensures r.Found? ==> text.Some? && HasField(decode(text.value), key, r.value)
    ensures text.Some? && decode(text.value).Some? && decode(text.value).value.JObj? ==>
      (r.Found? <==> key in decode(text.value).value.fields)
    ensures r.Failed? ==>
      r.error == (if decode(text.value).None? then JsonDecodeError
                  else if decode(text.value).value.JObj? then KeyError(key)
                  else TypeError("subscript"))
  {
    match text
    case None => Absent
    case Some(t) =>
      match decode(t)
      case None => Failed(JsonDecodeError)
      case Some(JObj(fields)) => if key in fields then Found(fields[key]) else Failed(KeyError(key))
      case Some(_) => Failed(TypeError("subscript"))
  }

  /** `get_name()`: `program_name` of `launch.json`. `Absent`, the early
      `return None`, exactly when the file is absent; a field set to `null`
      is `Found(JNull)`, which the caller also sees as `None`. */
  function GetName(h: Host, decode: string -> Option<Json>): (r: Field)
    ensures r.Absent? <==> ReadFileOnRoot(h, "launch.json").None?
    ensures r.Found? ==> ReadFileOnRoot(h, "launch.json").Some? && HasField(decode(ReadFileOnRoot(h, "launch.json").value), "program_name", r.value)
  {
    JsonField(ReadFileOnRoot(h, "launch.json"), decode, "program_name")
  }

  /** `get_description()`: `description` of `programinfo.json`. `Absent`,
      the early `return None`, exactly when the file is absent; a field set
      to `null` is `Found(JNull)`, which the caller also sees as `None`. */
  function GetDescription(h: Host, decode: string -> Option<Json>): (r: Field)
    ensures r.Absent? <==> ReadFileOnRoot(h, "programinfo.json").None?
    ensures r.Found? ==> ReadFileOnRoot(h, "programinfo.json").Some? && HasField(decode(ReadFileOnRoot(h, "programinfo.json").value), "description", r.value)
  {
    JsonField(ReadFileOnRoot(h, "programinfo.json"), decode, "description")
  }

  /** `get_license_summary()`: `license_summary` of `programinfo.json`.
      `Absent`, the early `return None`, exactly when the file is absent; a
      field set to `null` is `Found(JNull)`, which the caller also sees as
      `None`. */
  function GetLicenseSummary(h: Host, decode: string -> Option<Json>): (r: Field)
    ensures r.Absent? <==> ReadFileOnRoot(h, "programinfo.json").None?
    ensures r.Found? ==> ReadFileOnRoot(h, "programinfo.json").Some? && HasField(decode(ReadFileOnRoot(h, "programinfo.json").value), "license_summary", r.value)
  {
    JsonField(ReadFileOnRoot(h, "programinfo.json"), decode, "license_summary")
  }

  /** The description and the license summary come from the same document:
      when that document is absent both are, and when it is not an object
      both fail alike. */
  lemma ProgramInfoShared(h: Host, decode: string -> Option<Json>)
    ensures GetDescription(h, decode).Absent? <==> GetLicenseSummary(h, decode).Absent?
    ensures var text := ReadFileOnRoot(h, "programinfo.json");
      text.Some? && (decode(text.value).None? || !decode(text.value).value.JObj?) ==>
        GetDescription(h, decode) == GetLicenseSummary(h, decode)
  {
  }

  /** The icon file names accepted, in order of preference. */
  const Logos: seq<string> := ["logo.png", "logo.jpg"]

  /** The names `get_icon` looks among: the archive's `namelist()`, or
      `os.listdir(PROGRAM_DIR)`. */
  function IconNames(h: Host): set<string>
  {
    if h.isZip then set n | n in h.archive.names else set n | n in h.listing
  }

  /** Where the chosen logo is read from: the member, or the file in the
      program directory. */
  function IconSource(h: Host, logo: string): string
  {
    if h.isZip then logo else h.programDir + logo
  }

  /** `get_icon()`, identified by the member or file the image is loaded
      from: `None` when PySide6 does not import or neither logo exists;
      otherwise `logo.png`, and `logo.jpg` only when there is no `logo.png`. */
  function GetIcon(h: Host): (r: Option<string>)
    ensures !h.toolkit ==> r.None?
    ensures h.toolkit && "logo.png" in IconNames(h) ==> r == Some(IconSource(h, "logo.png"))
    ensures h.toolkit && "logo.png" !in IconNames(h) && "logo.jpg" in IconNames(h) ==> r == Some(IconSource(h, "logo.jpg"))
    ensures h.toolkit && "logo.png" !in IconNames(h) && "logo.jpg" !in IconNames(h) ==> r.None?
  {
    if !h.toolkit then None
    else if h.isZip then
      if "logo.png" in h.archive.names then Some("logo.png")
      else if "logo.jpg" in h.archive.names then Some("logo.jpg")
      else None
    else
      if "logo.png" in h.listing then Some(h.programDir + "logo.png")
      else if "logo.jpg" in h.listing then Some(h.programDir + "logo.jpg")
      else None
  }

  /** With PySide6 the icon is the first of the accepted logos that exists. */
  lemma IconIsFirstLogo(h: Host)
    requires h.toolkit
    ensures var i := FirstPresent(Logos, IconNames(h));
      GetIcon(h) == if i < |Logos| then Some(IconSource(h, Logos[i])) else None
  {
    if "logo.png" !in IconNames(h) {
      assert FirstPresent(Logos, IconNames(h)) == 1 + FirstPresent(Logos[1..], IconNames(h));
      assert Logos[1..] == ["logo.jpg"];
      if "logo.jpg" !in IconNames(h) {
        assert FirstPresent(Logos[1..], IconNames(h)) == 1 + FirstPresent(Logos[1..][1..], IconNames(h));
      }
    }
  }
}
