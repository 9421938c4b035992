/** JSON values as `JSON.parse` produces them, with JavaScript truthiness and member access. */
module Json {
  import opened Wrappers

  /** A parsed JSON document. Numbers are modelled as integers. */
  datatype Json =
    | JNull
    | JBool(b: bool)
    | JNum(n: int)
    | JStr(s: string)
    | JArr(items: seq<Json>)
    | JObj(fields: map<string, Json>)

  /** JavaScript truthiness: `null`, `false`, `0` and `""` are falsy, every array and object is truthy. */
  predicate Truthy(v: Json) {
    match v
    case JNull => false
    case JBool(b) => b
    case JNum(n) => n != 0
    case JStr(s) => s != ""
    case JArr(_) => true
    case JObj(_) => true
  }

  /** `v[name]` on a non-null value. Only an object holding `name` yields a value; on anything else the
      access is `undefined` (the member names used by the trainer are never array indices or
      built-in string/array properties). */
  function Member(v: Json, name: string): (r: Option<Json>)
    ensures r.Some? <==> v.JObj? && name in v.fields
    ensures r.Some? ==> r.value == v.fields[name]
  {
    match v
    case JObj(fields) => if name in fields then Some(fields[name]) else None
    case _ => None
  }

  /** `Array.isArray(v) && v.includes(s)` for a string `s`: an element that is not a string never equals it. */
  predicate ArrayIncludesString(v: Json, s: string) {
    v.JArr? && JStr(s) in v.items
  }

  /** The JSON array of strings that `JSON.stringify` writes for a JavaScript array of strings. */
  function StringArray(ss: seq<string>): (r: Json)
    ensures r.JArr? && |r.items| == |ss|
    ensures forall i :: 0 <= i < |ss| ==> r.items[i] == JStr(ss[i])
    ensures forall s :: ArrayIncludesString(r, s) <==> s in ss
  {
    var items := seq(|ss|, i requires 0 <= i < |ss| => JStr(ss[i]));
    assert forall s :: JStr(s) in items <==> s in ss by {
      forall s ensures JStr(s) in items <==> s in ss {
        if s in ss {
          var i :| 0 <= i < |ss| && ss[i] == s;
          assert items[i] == JStr(s);
        }
      }
    }
    JArr(items)
  }

  /** The JSON object of numbers that `JSON.stringify` writes for a string-to-integer record. */
  function NumberObject(m: map<string, int>): (r: Json)
    ensures r.JObj? && r.fields.Keys == m.Keys
    ensures forall k :: k in m ==> r.fields[k] == JNum(m[k])
  {
    JObj(map k | k in m :: JNum(m[k]))
  }
}
