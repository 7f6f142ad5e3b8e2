/** JSON documents as the frontend sees them after `JSON.parse`, with the few JavaScript
    value semantics the system relies on: truthiness, `typeof v === "object"`, own-property
    lookup and `Object.entries`. Numbers are integers. */
module Json {
  import opened Wrappers
  import opened Text

  datatype Json =
    | JNull
    | JBool(b: bool)
    | JNum(n: int)
    | JStr(s: string)
    | JArr(items: seq<Json>)
    | JObj(fields: seq<Field>)

  /** One member of an object, in the object's enumeration order. */
  datatype Field = Field(key: string, value: Json)

  /** JavaScript truthiness: `null`, `false`, `0` and `""` are falsy; arrays and objects are not. */
  predicate Truthy(j: Json) {
    match j
    case JNull => false
    case JBool(b) => b
    case JNum(n) => n != 0
    case JStr(s) => s != []
    case _ => true
  }

  /** `Number(s)` on text, for the forms the model reads: after trimming, empty text is 0 and
      an optionally signed run of decimal digits is its value. Everything else is `None`. */
  function TextNumber(s: string): Option<int> {
    var t := Trim(s);
    if t == [] then Some(0)
    else if AllDigits(t) then Some(DecValue(t))
    else if |t| > 1 && (t[0] == '-' || t[0] == '+') && AllDigits(t[1..]) then
      var magnitude: int := DecValue(t[1..]);
      Some(if t[0] == '-' then -magnitude else magnitude)
    else None
  }

  /** The decimal rendering of a number reads back as that number. */
  lemma TextNumberOfDecimal(n: int)
    ensures TextNumber(IntToDec(n)) == Some(n)
  {
    var t := IntToDec(n);
    if n >= 0 {
      DecValueOfNatToDec(n);
    } else {
      DecValueOfNatToDec(-n);
      assert t[1..] == NatToDec(-n);
      assert !IsDigit(t[0]);
    }
    assert !IsSpace(t[0]) && !IsSpace(t[|t| - 1]);
    TrimOfTrimmed(t);
  }

  /** `typeof v === "object" && v !== null`: arrays and objects. */
  predicate IsObjectLike(j: Json) {
    j.JArr? || j.JObj?
  }

  /** The first member of `fields` named `key`. */
  function Lookup(fields: seq<Field>, key: string): (r: Option<Json>)
    ensures r.Some? <==> exists i :: 0 <= i < |fields| && fields[i].key == key
    ensures r.Some? ==> exists i :: 0 <= i < |fields| && fields[i] == Field(key, r.value)
  {
    if |fields| == 0 then None
    else if fields[0].key == key then Some(fields[0].value)
    else
      var r := Lookup(fields[1..], key);
      assert forall i :: 0 < i < |fields| ==> fields[i] == fields[1..][i - 1];
      r
  }

  /** Property access `v[key]` for a data key: an own member of an object, `undefined` otherwise. */
  function Get(j: Json, key: string): Option<Json> {
    if j.JObj? then Lookup(j.fields, key) else None
  }

  /** `a || b` on two possibly-undefined values: `a` when it is defined and truthy. */
  function JsOr(a: Option<Json>, b: Option<Json>): Option<Json> {
    if a.Some? && Truthy(a.value) then a else b
  }

  /** `value[key] || fallback`, where the member may be undefined. */
  function MemberOr(value: Json, key: string, fallback: Json): Json {
    JsOr(Get(value, key), Some(fallback)).GetOr(fallback)
  }

  /** `v[key]` when it is a non-empty string, which is what `v[key] || fallback` keeps when the
      member holds text. */
  function GetText(j: Json, key: string): (r: Option<string>)
    ensures r.Some? ==> r.value != [] && Get(j, key) == Some(JStr(r.value))
  {
    match Get(j, key)
    case Some(JStr(s)) => if s != [] then Some(s) else None
    case _ => None
  }

  /** `Object.entries(v)` for an object or array: members in order, or indices as keys. */
  function Entries(j: Json): (r: seq<Field>)
    ensures j.JObj? ==> r == j.fields
    ensures j.JArr? ==> |r| == |j.items|
  {
    match j
    case JObj(fields) => fields
    case JArr(items) => IndexedEntries(items, 0)
    case _ => []
  }

  /** The entries of array elements starting at index `from`. */
  function IndexedEntries(items: seq<Json>, from: nat): (r: seq<Field>)
    ensures |r| == |items|
    ensures forall i :: 0 <= i < |items| ==> r[i] == Field(NatToDec(from + i), items[i])
  {
    if |items| == 0 then [] else [Field(NatToDec(from), items[0])] + IndexedEntries(items[1..], from + 1)
  }
}
