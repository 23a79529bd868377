/**
 * JavaScript values as they appear as session data, with the two equality
 * tests the strategy uses: `===` (identity for objects) and `== null`.
 */
module JsValues {
  import opened Wrappers

  /**
   * The data model of JSON text. Numbers are integers in this model.
   * `JObject` admits repeated keys, which `JSON.stringify` never writes and
   * `JSON.parse` would collapse to the last; no value the strategy stores
   * has them.
   */
  datatype Json =
    | JNull
    | JBool(b: bool)
    | JNumber(n: int)
    | JString(s: string)
    | JArray(items: seq<Json>)
    | JObject(members: seq<(string, Json)>)

  /**
   * A JavaScript value. `Ref` is an object or array: `id` is its reference
   * identity and `content` is the JSON its current state serializes to, so
   * mutating an object in place keeps its `id` and changes its `content`.
   */
  datatype Value =
    | Undefined
    | Null
    | Bool(b: bool)
    | Number(n: int)
    | Str(s: string)
    | Ref(id: nat, content: Json)

  /** The exceptions that escape the strategy's operations. */
  datatype JsError =
    | SignTypeError     // `sign` given a non-string: `JSON.stringify(undefined)`
    | ParseSyntaxError  // `JSON.parse` of a correctly signed but malformed payload
    | SecureThrew       // the caller's `secure` predicate threw

  /**
   * `a === b`: primitives by value, objects by identity, `null !== undefined`.
   * Only objects can be `===` without being the same value.
   */
  predicate StrictEquals(a: Value, b: Value)
    ensures StrictEquals(a, b) && !a.Ref? ==> a == b
    ensures StrictEquals(a, b) ==> (a.Ref? <==> b.Ref?)
  {
    match (a, b)
    case (Undefined, Undefined) => true
    case (Null, Null) => true
    case (Bool(x), Bool(y)) => x == y
    case (Number(x), Number(y)) => x == y
    case (Str(x), Str(y)) => x == y
    case (Ref(i, _), Ref(j, _)) => i == j
    case _ => false
  }

  /** `v == null`: the same as `v === null || v === undefined`. */
  predicate IsNullish(v: Value)
    ensures IsNullish(v) <==> StrictEquals(v, Null) || StrictEquals(v, Undefined)
  {
    v.Undefined? || v.Null?
  }

  /** What `JSON.stringify` sees of a value; `undefined` has no JSON text. */
  function JsonOf(v: Value): (r: Option<Json>)
    ensures r.None? <==> v.Undefined?
    ensures v.Null? ==> r == Some(JNull)
  {
    match v
    case Undefined => None
    case Null => Some(JNull)
    case Bool(b) => Some(JBool(b))
    case Number(n) => Some(JNumber(n))
    case Str(s) => Some(JString(s))
    case Ref(_, c) => Some(c)
  }

  /**
   * The value `JSON.parse` returns for JSON `j`: arrays and objects are new
   * objects, here given the identity `newId`.
   */
  function FromJson(j: Json, newId: nat): (v: Value)
    ensures JsonOf(v) == Some(j)
    ensures !v.Undefined?
    ensures IsNullish(v) <==> j == JNull
    ensures v.Ref? ==> v.id == newId
  {
    match j
    case JNull => Null
    case JBool(b) => Bool(b)
    case JNumber(n) => Number(n)
    case JString(s) => Str(s)
    case JArray(_) => Ref(newId, j)
    case JObject(_) => Ref(newId, j)
  }

  /** `===` is an equivalence relation on the values modelled here. */
  lemma StrictEqualsIsEquivalence(a: Value, b: Value, c: Value)
    ensures StrictEquals(a, a)
    ensures StrictEquals(a, b) ==> StrictEquals(b, a)
    ensures StrictEquals(a, b) && StrictEquals(b, c) ==> StrictEquals(a, c)
  {
  }

  /**
   * `===` is not structural equality: it ignores an object's contents and
   * tells apart two objects with the same contents.
   */
  lemma StrictEqualsIsIdentity(i: nat, j: nat, c: Json, d: Json)
    ensures StrictEquals(Ref(i, c), Ref(i, d))
    ensures i != j ==> !StrictEquals(Ref(i, c), Ref(j, c))
  {
  }

  /** Two strictly equal values that are `== null` are the same value. */
  lemma StrictEqualNullishAreEqual(a: Value, b: Value)
    requires StrictEquals(a, b) && IsNullish(a)
    ensures a == b
  {
  }

  /** Reading back a stored object yields a new object, never `===` to the old one. */
  lemma ReparsedObjectIsNew(v: Value, newId: nat)
    requires v.Ref? && newId != v.id
    ensures !StrictEquals(FromJson(JsonOf(v).value, newId), v)
    ensures JsonOf(FromJson(JsonOf(v).value, newId)) == JsonOf(v)
  {
  }
}
