/** JSON request bodies as JavaScript sees them after `JSON.parse`, with the
    three JavaScript operations the handlers apply to them: property access
    `v[key]`, truthiness, and conversion to text (by a template literal and by
    `Array.prototype.join`). */
module JsonValue {
  import opened Maybe
  import opened JsString

  datatype Json =
    | JNull
    | JBool(b: bool)
    | JInt(i: int)
    | JStr(s: string)
    | JArr(elems: seq<Json>)
    | JObj(fields: seq<(string, Json)>)

  /** The outcome of evaluating `v[key]`. */
  datatype Access = Defined(value: Json) | Undefined | TypeError

  /** The value bound to `key` in an object's field list; when the text held
      the key twice, `JSON.parse` keeps the last one. */
  function Field(fields: seq<(string, Json)>, key: string): (r: Option<Json>)
    ensures r.Some? <==> exists i :: 0 <= i < |fields| && fields[i].0 == key
    ensures r.Some? ==> exists i :: 0 <= i < |fields| && fields[i] == (key, r.value)
  {
    if fields == [] then None
    else
      var last := fields[|fields| - 1];
      if last.0 == key then Some(last.1)
      else
        var r := Field(fields[..|fields| - 1], key);
        assert forall i :: 0 <= i < |fields| - 1 ==> fields[..|fields| - 1][i] == fields[i];
        r
  }

  /** A key that occurs, always with the same value, is read as that value. */
  lemma FieldIs(fields: seq<(string, Json)>, key: string, v: Json, at: nat)
    requires at < |fields| && fields[at].0 == key
    requires forall i :: 0 <= i < |fields| && fields[i].0 == key ==> fields[i].1 == v
    ensures Field(fields, key) == Some(v)
  {
  }

  /** Whether `key` is the canonical text of an array index (`"0"`, `"12"`,
      not `"012"`). */
  predicate IsIndexKey(key: string) {
    |key| > 0
    && (forall i :: 0 <= i < |key| ==> '0' <= key[i] <= '9')
    && (key[0] != '0' || |key| == 1)
  }

  /** `v[key]`: reading a property of `null` throws; an object yields its own
      field; an array or a string yields its `length` and its elements by
      index; anything else yields `undefined`. */
  function Get(v: Json, key: string): Access {
    match v
    case JNull => TypeError
    case JObj(fs) =>
      (match Field(fs, key) case Some(x) => Defined(x) case None => Undefined)
    case JArr(es) =>
      if key == "length" then Defined(JInt(|es|))
      else if IsIndexKey(key) && DigitsValue(key) < |es| then Defined(es[DigitsValue(key)])
      else Undefined
    case JStr(s) =>
      if key == "length" then Defined(JInt(|s|))
      else if IsIndexKey(key) && DigitsValue(key) < |s| then Defined(JStr([s[DigitsValue(key)]]))
      else Undefined
    case _ => Undefined
  }

  /** The value an access yields, `None` for `undefined`; used where the
      object accessed is known not to be `null`. */
  function Value(a: Access): Option<Json> {
    match a case Defined(x) => Some(x) case _ => None
  }

  /** `v?.[key]`: optional chaining yields `undefined` instead of throwing
      when `v` is `null` or `undefined`. */
  function GetOpt(v: Option<Json>, key: string): Option<Json> {
    match v
    case None => None
    case Some(JNull) => None
    case Some(x) => (match Get(x, key) case Defined(y) => Some(y) case _ => None)
  }

  /** JavaScript truthiness of a value that may be `undefined`. */
  predicate Truthy(v: Option<Json>) {
    match v
    case None => false
    case Some(JNull) => false
    case Some(JBool(b)) => b
    case Some(JInt(i)) => i != 0
    case Some(JStr(s)) => s != ""
    case Some(_) => true
  }

  /** `String(v)`: the text a template literal `${v}` produces for a value. */
  function ToText(v: Json): string
    decreases v, 1
  {
    match v
    case JNull => "null"
    case JBool(b) => if b then "true" else "false"
    case JInt(i) => IntToString(i)
    case JStr(s) => s
    case JArr(es) => JoinElements(es, 0)
    case JObj(_) => "[object Object]"
  }

  /** `${v}` for a value that may be `undefined`. */
  function TemplateText(v: Option<Json>): string {
    match v
    case None => "undefined"
    case Some(x) => ToText(x)
  }

  /** The text `Array.prototype.join` uses for one element: `null` (and
      `undefined`) become the empty string, anything else its `String`. */
  function JoinText(v: Json): string
    decreases v, 2
  {
    if v.JNull? then "" else ToText(v)
  }

  /** `es.slice(from).join(',')`, the text of an array. */
  function JoinElements(es: seq<Json>, from: nat): string
    requires from <= |es|
    decreases es, 0, |es| - from
  {
    if from == |es| then ""
    else if from + 1 == |es| then JoinText(es[from])
    else JoinText(es[from]) + "," + JoinElements(es, from + 1)
  }

  /** Only `null`'s own text spells "null": the join text of a null is empty,
      and the join text of a string is the string. */
  lemma JoinTextFacts(v: Json)
    ensures v.JNull? ==> JoinText(v) == "" && ToText(v) == "null"
    ensures v.JStr? ==> JoinText(v) == v.s
  {
  }
}
