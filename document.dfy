/** Firestore documents as the Cloud Functions build them from request
    bodies: a map from field names to values, where a value may be a JSON
    value, JavaScript's `undefined` (a key set to `newOrder.kcal` when the
    body has no `kcal`), or the server-timestamp sentinel. */
module Document {
  import opened Maybe
  import opened JsonValue

  datatype Slot = Val(v: Json) | Undef | ServerTimestamp

  type Record = map<string, Slot>

  /** The object `JSON.parse` built from a field list: every key once, with
      its last value. */
  function ObjectOf(fs: seq<(string, Json)>): (r: Record)
    ensures forall k :: k in r <==> Field(fs, k).Some?
    ensures forall k :: k in r ==> r[k] == Val(Field(fs, k).value)
  {
    if fs == [] then map[]
    else
      var last := fs[|fs| - 1];
      ObjectOf(fs[..|fs| - 1])[last.0 := Val(last.1)]
  }

  /** `{...body}` for a body that is an object; anything else is read as the
      empty object. */
  function Spread(body: Json): Record {
    match body
    case JObj(fs) => ObjectOf(fs)
    case _ => map[]
  }

  /** `o.k` on a record. */
  function Lookup(o: Record, k: string): Slot {
    if k in o then o[k] else Undef
  }

  /** JavaScript truthiness of a slot. */
  predicate SlotTruthy(s: Slot) {
    match s
    case Val(v) => JsonValue.Truthy(Some(v))
    case Undef => false
    case ServerTimestamp => true
  }

  /** Whether the Admin SDK accepts the record: it refuses a document with
      an `undefined` field unless `ignoreUndefinedProperties` is set, and
      the Cloud Functions never set it. */
  predicate Storable(r: Record) {
    forall k :: k in r ==> !r[k].Undef?
  }

  /** The record with its `undefined` fields left out, as the store keeps
      it when `ignoreUndefinedProperties` is set. */
  function DefinedOnly(r: Record): (d: Record)
    ensures Storable(d)
    ensures forall k :: k in d <==> k in r && !r[k].Undef?
    ensures forall k :: k in d ==> d[k] == r[k]
  {
    map k | k in r && !r[k].Undef? :: r[k]
  }

  /** `a || b` */
  function Or(a: Slot, b: Slot): Slot {
    if SlotTruthy(a) then a else b
  }

  /** `v.k` on a request value that is not `null`: the value, or
      `undefined`. */
  function Prop(v: Json, k: string): Slot {
    match Get(v, k)
    case Defined(x) => Val(x)
    case _ => Undef
  }

  /** Reading a key of the spread object is reading it from the body. */
  lemma SpreadLookup(fs: seq<(string, Json)>, k: string)
    ensures Lookup(Spread(JObj(fs)), k) == Prop(JObj(fs), k)
  {
  }
}
