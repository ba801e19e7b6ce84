/**
 * The parsed JSON values the validators look at, with the parts of JavaScript and chai
 * semantics they rely on: truthiness, reading a property (`v[k]` after `k in v`), and the
 * type names chai's `an('object')` and `an('array')` test.
 *
 * Numbers are integers here; property names inherited from a prototype (`constructor`,
 * `toString`, ...) are not modelled, so only own properties are found.
 */
module JsonValue {
  import opened Chars

  datatype Option<T> = None | Some(value: T)

  datatype Json =
    | JNull
    | JBool(b: bool)
    | JNumber(n: int)
    | JString(s: string)
    | JArray(items: seq<Json>)
    | JObject(fields: map<string, Json>)

  /** JavaScript truthiness: `null`, `false`, `0` and `""` are falsy, everything else truthy
      (arrays and objects included, even when empty). */
  predicate Truthy(v: Json) {
    match v
    case JNull => false
    case JBool(b) => b
    case JNumber(n) => n != 0
    case JString(s) => s != []
    case JArray(_) => true
    case JObject(_) => true
  }

  /** The value of a string of decimal digits. */
  function DigitsValue(k: string): nat
    requires forall c :: c in k ==> IsDigit(c)
  {
    if k == [] then 0
    else
      assert k[|k| - 1] in k;
      assert IsDigit(k[|k| - 1]);
      assert forall c :: c in k[..|k| - 1] ==> c in k;
      DigitsValue(k[..|k| - 1]) * 10 + (k[|k| - 1] as int - '0' as int)
  }

  /** The own index properties of an array or string are named by the canonical decimal
      form of each index: `"0"`, or digits that do not start with `0`. */
  predicate IsCanonicalIndex(k: string) {
    k != [] && (forall c :: c in k ==> IsDigit(c)) && (k[0] != '0' || |k| == 1)
  }

  function ArrayIndex(k: string): (r: Option<nat>)
    ensures r.Some? <==> IsCanonicalIndex(k)
  {
    if IsCanonicalIndex(k) then Some(DigitsValue(k)) else None
  }

  /** `k in Object(v) ? v[k] : undefined` for the own properties of `v`; `None` stands for
      `undefined`. Arrays and strings have their indices and `length`; numbers, booleans
      and `null` have no own properties. */
  function Prop(v: Json, k: string): (r: Option<Json>)
    ensures v.JObject? ==> (r.Some? <==> k in v.fields)
    ensures v.JObject? && k in v.fields ==> r == Some(v.fields[k])
    ensures v.JNull? || v.JBool? || v.JNumber? ==> r.None?
  {
    match v
    case JObject(fields) => if k in fields then Some(fields[k]) else None
    case JArray(items) =>
      if k == "length" then Some(JNumber(|items|))
      else (match ArrayIndex(k)
            case Some(i) => if i < |items| then Some(items[i]) else None
            case None => None)
    case JString(s) =>
      if k == "length" then Some(JNumber(|s|))
      else (match ArrayIndex(k)
            case Some(i) => if i < |s| then Some(JString([s[i]])) else None
            case None => None)
    case _ => None
  }

  /** A name that is neither `length` nor an index is an own property of objects only. */
  lemma PropOfPlainName(v: Json, k: string)
    requires k != "length" && (k == [] || !IsDigit(k[0]))
    ensures Prop(v, k) == (if v.JObject? && k in v.fields then Some(v.fields[k]) else None)
  {
    if k != [] {
      assert k[0] in k;
    }
  }

  /** `to.include.all.keys(...)`: the target is an object whose own keys include all of `keys`. */
  predicate HasAllKeys(v: Json, keys: set<string>) {
    v.JObject? && keys <= v.fields.Keys
  }
}
