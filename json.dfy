/**
 * JavaScript values as the application sees them after JSON decoding:
 * `undefined` (also standing for an absent key), `null`, booleans, numbers,
 * strings, arrays and plain objects, with the JavaScript notions the source
 * leans on — truthiness, `a || b`, property reads, template strings and
 * thrown errors.
 */
module Json {
  import opened Wrappers
  import opened Strings

  /** A JavaScript value that JSON (plus `undefined`) can describe. Numbers are integers in this model. */
  datatype Json =
    | JUndef
    | JNull
    | JBool(b: bool)
    | JNum(n: int)
    | JStr(s: string)
    | JArr(items: seq<Json>)
    | JObj(fields: map<string, Json>)

  /** A plain object's own properties. */
  type Record = map<string, Json>

  /** JavaScript truthiness: `undefined`, `null`, `false`, `0` and `""` are falsy, everything else truthy. */
  predicate Truthy(j: Json) {
    match j
    case JUndef => false
    case JNull => false
    case JBool(b) => b
    case JNum(n) => n != 0
    case JStr(s) => s != ""
    case _ => true
  }

  /** `j === null || j === undefined`. */
  predicate Nullish(j: Json) {
    j == JUndef || j == JNull
  }

  /** `m[k]`, which is `undefined` for a missing key. */
  function Get(m: Record, k: string): Json {
    if k in m then m[k] else JUndef
  }

  /**
   * `a || b`: one of its operands, truthy exactly when either operand is,
   * and `a` whenever `a` is truthy.
   */
  function Or(a: Json, b: Json): (r: Json)
    ensures r == a || r == b
    ensures Truthy(r) <==> Truthy(a) || Truthy(b)
    ensures Truthy(a) ==> r == a
    ensures !Truthy(a) ==> r == b
  {
    if Truthy(a) then a else b
  }

  /** `||` groups either way, so `a || b || c` needs no parentheses. */
  lemma OrAssociative(a: Json, b: Json, c: Json)
    ensures Or(Or(a, b), c) == Or(a, Or(b, c))
  {
  }

  /** The entries of `m` whose keys are in `keys`. */
  function Pick(m: Record, keys: set<string>): (r: Record)
    ensures r.Keys == m.Keys * keys
    ensures forall k :: k in r ==> r[k] == m[k]
  {
    map k | k in m && k in keys :: m[k]
  }

  /**
   * Reading `j.key`: None is the TypeError raised when `j` is `null` or
   * `undefined`; arrays and strings have a `length`; any other missing
   * property reads as `undefined`.
   */
  function Prop(j: Json, key: string): (r: Option<Json>)
    ensures r.None? <==> Nullish(j)
    ensures j.JObj? ==> r == Some(Get(j.fields, key))
    ensures j.JArr? ==> r == Some(if key == "length" then JNum(|j.items|) else JUndef)
    ensures j.JStr? ==> r == Some(if key == "length" then JNum(|j.s|) else JUndef)
    ensures j.JBool? || j.JNum? ==> r == Some(JUndef)
  {
    match j
    case JUndef => None
    case JNull => None
    case JObj(m) => Some(Get(m, key))
    case JArr(xs) => Some(if key == "length" then JNum(|xs|) else JUndef)
    case JStr(s) => Some(if key == "length" then JNum(|s|) else JUndef)
    case _ => Some(JUndef)
  }

  /** Optional chaining `j?.key`: `undefined` when `j` is `null` or `undefined`. */
  function OptProp(j: Json, key: string): (r: Json)
    ensures Nullish(j) ==> r == JUndef
    ensures !Nullish(j) ==> Some(r) == Prop(j, key)
  {
    match Prop(j, key)
    case None => JUndef
    case Some(v) => v
  }

  /** The template-string rendering `${j}`. */
  function TemplateString(j: Json): string
    decreases j
  {
    match j
    case JUndef => "undefined"
    case JNull => "null"
    case JBool(b) => if b then "true" else "false"
    case JNum(n) => IntToString(n)
    case JStr(s) => s
    case JArr(xs) => JoinElements(xs)
    case JObj(_) => "[object Object]"
  }

  /** `Array.prototype.join(",")` on elements rendered as strings, `null` and `undefined` as "". */
  function JoinElements(xs: seq<Json>): string
    decreases xs
  {
    if |xs| == 0 then ""
    else
      var head := if Nullish(xs[0]) then "" else TemplateString(xs[0]);
      if |xs| == 1 then head else head + "," + JoinElements(xs[1..])
  }

  /** A thrown JavaScript value: an `Error` with its message, or anything else. */
  datatype Thrown = ErrorObject(message: string) | NonError

  /** The TypeError Node's engine raises for reading `key` of `null` or `undefined`. */
  function ReadError(j: Json, key: string): (e: Thrown)
    ensures e.ErrorObject?
  {
    ErrorObject("Cannot read properties of " + (if j == JNull then "null" else "undefined") + " (reading '" + key + "')")
  }

  /** The result of an expression that may throw. */
  datatype Eval<T> = Value(value: T) | Throw(thrown: Thrown)

  /** Reading `j.key`, throwing the engine's TypeError when `j` is `null` or `undefined`. */
  function Read(j: Json, key: string): (r: Eval<Json>)
    ensures r.Throw? <==> Nullish(j)
    ensures r.Value? ==> Some(r.value) == Prop(j, key)
  {
    match Prop(j, key)
    case None => Throw(ReadError(j, key))
    case Some(v) => Value(v)
  }

  /** `error instanceof Error ? error.message : fallback`. */
  function ErrorText(e: Thrown, fallback: string): string {
    match e
    case ErrorObject(m) => m
    case NonError => fallback
  }

  /** The `message` property of a thrown value as a template string renders it. */
  function ErrorMessageProp(e: Thrown): string {
    match e
    case ErrorObject(m) => m
    case NonError => "undefined"
  }
}
