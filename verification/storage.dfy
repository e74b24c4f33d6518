/** Browser storage as a key→value map, and the JSON values written into it. Text
    written with `JSON.stringify(v)` is kept as the value `v` itself; text written as
    is (a token, the string "true") is kept as text. */
module Storage {
  import opened Wrappers

  /** A parsed JSON value; an object keeps its fields in order, with distinct names. */
  datatype Json =
    | JNull
    | JBool(b: bool)
    | JNum(n: int)
    | JStr(s: string)
    | JArr(items: seq<Json>)
    | JObj(fields: seq<(string, Json)>)

  /** JavaScript truthiness of a value. */
  predicate Truthy(v: Json) {
    match v
    case JNull => false
    case JBool(b) => b
    case JNum(n) => n != 0
    case JStr(s) => s != ""
    case _ => true
  }

  /** `v?.[key]`: the field's value, `None` when it is missing or `v` is not an object. */
  function FieldOf(v: Json, key: string): (r: Option<Json>)
    ensures v.JObj? && (exists i :: 0 <= i < |v.fields| && v.fields[i].0 == key) ==> r.Some?
    ensures !v.JObj? ==> r.None?
  {
    if !v.JObj? then None
    else
      var i := FirstIndex(v.fields, key);
      if i < 0 then None else Some(v.fields[i].1)
  }

  function FirstIndex(fields: seq<(string, Json)>, key: string): (i: int)
    ensures -1 <= i < |fields|
    ensures 0 <= i ==> fields[i].0 == key
    ensures i < 0 <==> forall j :: 0 <= j < |fields| ==> fields[j].0 != key
  {
    if |fields| == 0 then -1
    else if fields[0].0 == key then 0
    else
      var k := FirstIndex(fields[1..], key);
      if k < 0 then -1 else k + 1
  }

  /** `v?.[key]` read as text: a string field's contents, otherwise "". */
  function TextField(v: Json, key: string): string {
    var f := FieldOf(v, key);
    if f.Some? && f.value.JStr? then f.value.s else ""
  }

  /** A stored entry. */
  datatype Entry = Text(text: string) | Encoded(value: Json)

  type Store = map<string, Entry>

  /** `localStorage.getItem(key)` is truthy: the key is present and its text is not
      empty (`JSON.stringify` never produces empty text). */
  predicate Has(store: Store, key: string) {
    key in store && (store[key].Encoded? || store[key].text != "")
  }

  /** `JSON.parse(localStorage.getItem(key))` of a present entry. Only text this code
      wrote with `JSON.stringify` is read back; other text gives `None`. */
  function Parse(e: Entry): Option<Json> {
    if e.Encoded? then Some(e.value) else None
  }

  /** Two stores agree everywhere except possibly on the given keys. */
  ghost predicate AgreeOutside(a: Store, b: Store, keys: set<string>) {
    forall k :: k !in keys ==> (k in a <==> k in b) && (k in a ==> a[k] == b[k])
  }
}
