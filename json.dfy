/** The values `json.load` and `json.loads` produce. */
module Json {

  /** A decoded JSON document: `None`, `bool`, `int`, `str`, `list`, `dict`. */
  datatype Json =
    | JNull
    | JBool(b: bool)
    | JNum(n: int)
    | JStr(s: string)
    | JArr(items: seq<Json>)
    | JObj(fields: map<string, Json>)
}
