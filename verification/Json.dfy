/** Parsed JSON as the configuration code sees it, and the type assertions made on it. */
module Json {
  datatype Json =
    | Null
    | Str(text: string)
    | Scalar(printed: string)   // a number or a boolean
    | Arr(items: seq<Json>)
    | Obj(fields: map<string, Json>)

  /** `items, _ := v.([]any)`: anything but an array counts as no items. */
  function Items(v: Json): seq<Json> {
    if v.Arr? then v.items else []
  }

  /** `m[key]`, nil if absent. */
  function Field(m: map<string, Json>, key: string): Json {
    if key in m then m[key] else Null
  }

  /** `s, _ := m[key].(string)`: anything but a string counts as empty. */
  function StringField(m: map<string, Json>, key: string): string {
    var v := Field(m, key);
    if v.Str? then v.text else ""
  }

  /** fmt.Sprint on a value. */
  type Printer = Json -> string

  function Tag(m: map<string, Json>): string {
    StringField(m, "tag")
  }

  /** The tag of an item of an array, "" if it has none. */
  function TagOf(item: Json): string {
    if item.Obj? then Tag(item.fields) else ""
  }

  predicate HasPrefix(s: string, prefix: string) {
    prefix <= s
  }
}
