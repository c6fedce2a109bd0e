/** The JSON values the sync services pass around without looking inside,
    and the JavaScript operations applied to them: truthiness, `||`,
    property access and `String(v)`. */
module Json {
  import opened Text

  /** A parsed JSON value. Object members keep their written order. Numbers are integers. */
  datatype Json =
    | JNull
    | JBool(b: bool)
    | JNum(n: int)
    | JStr(s: string)
    | JArr(items: seq<Json>)
    | JObj(fields: seq<(string, Json)>)

  /** `Boolean(v)`. */
  predicate Truthy(v: Json) {
    match v
    case JNull => false
    case JBool(b) => b
    case JNum(n) => n != 0
    case JStr(s) => s != ""
    case _ => true
  }

  /** `Boolean(v)` where `None` is `undefined`. */
  predicate Present(v: Option<Json>) {
    v.Some? && Truthy(v.value)
  }

  /** The value bound to `key` among `fields`; a later binding hides an earlier one, as in `JSON.parse`. */
  function Lookup(fields: seq<(string, Json)>, key: string): (r: Option<Json>)
    ensures r.Some? <==> exists i :: 0 <= i < |fields| && fields[i].0 == key
    ensures r.Some? ==> (key, r.value) in fields
  {
    if |fields| == 0 then None
    else if fields[|fields| - 1].0 == key then Some(fields[|fields| - 1].1)
    else
      var r := Lookup(fields[..|fields| - 1], key);
      assert forall i :: 0 <= i < |fields| - 1 ==> fields[..|fields| - 1][i] == fields[i];
      r
  }

  /** `v[key]`, with `None` for `undefined` (a missing key, or `v` not an object). */
  function Get(v: Json, key: string): Option<Json> {
    if v.JObj? then Lookup(v.fields, key) else None
  }

  /** `a || b` for a possibly undefined left operand. */
  function Or(a: Option<Json>, b: Json): (r: Json)
    ensures Present(a) ==> r == a.value
    ensures !Present(a) ==> r == b
  {
    if Present(a) then a.value else b
  }

  /** An object with one extra (or replaced) member: `{...obj, [key]: value}`. */
  function Put(fields: seq<(string, Json)>, key: string, value: Json): seq<(string, Json)> {
    fields + [(key, value)]
  }

  lemma PutGet(fields: seq<(string, Json)>, key: string, value: Json, other: string)
    ensures Lookup(Put(fields, key, value), key) == Some(value)
    ensures other != key ==> Lookup(Put(fields, key, value), other) == Lookup(fields, other)
  {
    assert Put(fields, key, value)[..|fields|] == fields;
  }

  /** `String(v)`: an array joins its items with "," (a null item gives ""),
      an object gives "[object Object]". */
  function ToText(v: Json): string
    decreases v
  {
    match v
    case JNull => "null"
    case JBool(b) => if b then "true" else "false"
    case JNum(n) => IntToString(n)
    case JStr(s) => s
    case JArr(items) =>
      JoinItems(items, ",")
    case JObj(_) => "[object Object]"
  }

  /** `String(v)`, with `None` for `undefined`. */
  function StringOf(v: Option<Json>): string {
    if v.None? then "undefined" else ToText(v.value)
  }

  /** `String(value || '')`, with `None` for `undefined`. */
  function TextOrEmpty(value: Option<Json>): string {
    if Present(value) then ToText(value.value) else ""
  }

  /** `items.join(sep)`: every item as `String` gives it, a null item as "". */
  function JoinItems(items: seq<Json>, sep: string): string
    decreases items
  {
    Join(seq(|items|, i requires 0 <= i < |items| => if items[i].JNull? then "" else ToText(items[i])), sep)
  }

  /** `Array.isArray(value) ? value.join(', ') : (value || '')`, as the text it shows. */
  function ListText(value: Option<Json>): (r: string)
    ensures value.Some? && value.value.JArr? ==> r == JoinItems(value.value.items, ", ")
    ensures !(value.Some? && value.value.JArr?) ==> r == TextOrEmpty(value)
  {
    if value.Some? && value.value.JArr? then JoinItems(value.value.items, ", ")
    else TextOrEmpty(value)
  }

  /** The items of an array, and nothing for any other value. */
  function ArrayItems(v: Option<Json>): (r: seq<Json>)
    ensures v.Some? && v.value.JArr? ==> r == v.value.items
  {
    if v.Some? && v.value.JArr? then v.value.items else []
  }

  /** `Number(v)`, with `None` for `undefined`. */
  function ToNumber(v: Option<Json>): JsNum {
    if v.None? then NaN
    else match v.value
      case JNull => Num(0)
      case JBool(b) => Num(if b then 1 else 0)
      case JNum(n) => Num(n)
      case JStr(s) => NumberOf(s)
      case _ => NumberOf(ToText(v.value))
  }

  /** `items.map(Number)`: `Number` of every item of an array. */
  function ItemNumbers(items: seq<Json>): (r: seq<JsNum>)
    ensures |r| == |items|
    ensures forall i :: 0 <= i < |items| ==> r[i] == ToNumber(Some(items[i]))
  {
    seq(|items|, i requires 0 <= i < |items| => ToNumber(Some(items[i])))
  }

  /** `Number(obj[key]) || 0`. */
  function AmountOf(obj: Json, key: string): int {
    OrZero(ToNumber(Get(obj, key)))
  }

  /** `String(obj[key] || fallback)`. */
  function TextOr(obj: Json, key: string, fallback: string): (r: string)
    ensures Present(Get(obj, key)) ==> r == ToText(Get(obj, key).value)
    ensures !Present(Get(obj, key)) ==> r == fallback
  {
    if Present(Get(obj, key)) then ToText(Get(obj, key).value) else fallback
  }

  /** `data && data.state ? data.state : data`: a payload is unwrapped to its `state`
      member when it has a truthy one. */
  function Unwrap(data: Json): (r: Json)
    ensures Truthy(data) && Present(Get(data, "state")) ==> Some(r) == Get(data, "state") && Truthy(r)
    ensures !(Truthy(data) && Present(Get(data, "state"))) ==> r == data
  {
    if Truthy(data) && Present(Get(data, "state")) then Get(data, "state").value else data
  }

  /** The envelope the share server answers with: `{ state, lastUpdated }`. */
  function Envelope(state: Json, lastUpdated: int): Json {
    JObj([("state", state), ("lastUpdated", JNum(lastUpdated))])
  }

  /** Unwrapping an envelope around a non-empty state gives that state back;
      a bare object state without a `state` member is kept as it is. */
  lemma UnwrapEnvelope(state: Json, lastUpdated: int)
    requires Truthy(state)
    ensures Unwrap(Envelope(state, lastUpdated)) == state
    ensures state.JObj? && Lookup(state.fields, "state").None? ==> Unwrap(state) == state
  {
    var f := Envelope(state, lastUpdated).fields;
    assert f[..1] == [("state", state)];
    assert f[1].0 != "state";
    assert Lookup(f[..1], "state") == Some(state);
    assert Lookup(f, "state") == Some(state);
  }
}
