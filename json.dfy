/**
 * JSON values as the route handlers see them after `JSON.parse`, together with
 * the JavaScript operations applied to them: truthiness, property lookup and
 * object spread.
 */
module Json {
  import opened Wrappers
  import opened JsStrings

  datatype JVal =
    | JNull
    | JBool(b: bool)
    | JNum(n: real)
    | JStr(s: string)
    | JArr(items: seq<JVal>)
    | JObj(fields: map<string, JVal>)

  /** JavaScript truthiness of a parsed value: `null`, `false`, `0` and `""` are falsy. */
  predicate Truthy(v: JVal) {
    match v
    case JNull => false
    case JBool(b) => b
    case JNum(n) => n != 0.0
    case JStr(s) => s != ""
    case _ => true
  }

  /** Truthiness of a property that may be absent (`undefined` is falsy). */
  predicate TruthyProp(o: Option<JVal>) {
    o.Some? && Truthy(o.value)
  }

  /**
   * `v[key]` for the property names the handlers use; `None` is `undefined`.
   * Only objects carry such properties (none of the names used is an index or
   * `length`). Looking a property up on `null` throws, which callers check with
   * `v.JNull?` first.
   */
  function Prop(v: JVal, key: string): (r: Option<JVal>)
    ensures r.Some? <==> v.JObj? && key in v.fields
    ensures r.Some? ==> r.value == v.fields[key]
  {
    if v.JObj? && key in v.fields then Some(v.fields[key]) else None
  }

  /** A property name made only of decimal digits: an array or string index. */
  predicate IsIndexKey(k: string) {
    |k| >= 1 && forall j :: 0 <= j < |k| ==> '0' <= k[j] <= '9'
  }

  /** The own enumerable properties of an array-like value: index `i`, as a decimal key, holds `items[i]`. */
  function Indexed(items: seq<JVal>): (m: map<string, JVal>)
    ensures forall k :: k in m ==> IsIndexKey(k)
    ensures forall i: nat :: i < |items| ==> NatToString(i) in m && m[NatToString(i)] == items[i]
  {
    if items == [] then map[]
    else
      var last := |items| - 1;
      NatToStringInjectiveAll();
      Indexed(items[..last])[NatToString(last) := items[last]]
  }

  /** `{...v}`: the properties an object spread copies out of `v`. */
  function Spread(v: JVal): (m: map<string, JVal>)
    ensures v.JObj? ==> m == v.fields
    ensures v.JNull? || v.JBool? || v.JNum? ==> m == map[]
    ensures v.JArr? ==> forall i: nat :: i < |v.items| ==> NatToString(i) in m && m[NatToString(i)] == v.items[i]
    ensures v.JStr? ==> forall i: nat :: i < |v.s| ==> NatToString(i) in m && m[NatToString(i)] == JStr([v.s[i]])
    ensures !v.JObj? ==> forall k :: k in m ==> IsIndexKey(k)
  {
    match v
    case JObj(fields) => fields
    case JArr(items) => Indexed(items)
    case JStr(s) => Indexed(seq(|s|, i requires 0 <= i < |s| => JStr([s[i]])))
    case _ => map[]
  }

  /** `{...a, ...b}` on two objects: every key of either, with `b` winning on a clash. */
  function Overlay(a: map<string, JVal>, b: map<string, JVal>): (m: map<string, JVal>)
    ensures m.Keys == a.Keys + b.Keys
    ensures forall k :: k in b ==> m[k] == b[k]
    ensures forall k :: k in a && k !in b ==> m[k] == a[k]
  {
    a + b
  }
}
