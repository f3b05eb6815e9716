/** JavaScript values as they flow through the audit route and the home page:
    everything `JSON.parse` can produce, plus `undefined`. Exceptions are
    modelled as a completion carrying the thrown error's `message`. */
module JsValues {

  /** The completion of a JavaScript step: a normal value, or a thrown error
      whose `message` is recorded. */
  datatype Result<+T> = Ok(value: T) | Throw(message: string)

  datatype Option<+T> = None | Some(value: T)

  /** A JavaScript value. Numbers are reals: NaN cannot come out of JSON,
      and an overflowing literal such as `1e400` parses to an infinity, which
      `Num` does not represent. */
  datatype JsValue =
    | Undefined
    | Null
    | Bool(b: bool)
    | Num(n: real)
    | Str(s: string)
    | Arr(items: seq<JsValue>)
    | Obj(props: map<string, JsValue>)

  /** ECMAScript ToBoolean: the test behind `if (x)`, `!x` and `x || y`. */
  predicate Truthy(v: JsValue) {
    match v
    case Undefined => false
    case Null => false
    case Bool(b) => b
    case Num(n) => n != 0.0
    case Str(s) => s != ""
    case Arr(_) => true
    case Obj(_) => true
  }

  /** `a || b`: the first operand when it is truthy, otherwise the second. */
  function Or(a: JsValue, b: JsValue): JsValue {
    if Truthy(a) then a else b
  }

  /** The text of the TypeError V8 raises when a property is read from
      `undefined` or `null`. */
  function ReadError(receiver: string, key: string): string {
    "Cannot read properties of " + receiver + " (reading '" + key + "')"
  }

  /** The property read `v.key`. Reading from `undefined` or `null` throws a
      TypeError; an object yields its own property or `undefined`. None of the
      keys this model reads exists on strings, numbers, booleans or arrays, so
      those yield `undefined`. */
  function GetProp(v: JsValue, key: string): (r: Result<JsValue>)
    ensures r.Throw? <==> v == Undefined || v == Null
    ensures v.Obj? && key in v.props ==> r == Ok(v.props[key])
    ensures v.Obj? && key !in v.props ==> r == Ok(Undefined)
  {
    match v
    case Undefined => Throw(ReadError("undefined", key))
    case Null => Throw(ReadError("null", key))
    case Obj(props) => Ok(if key in props then props[key] else Undefined)
    case _ => Ok(Undefined)
  }

  /** Joins `parts` with `sep` between consecutive parts, as `Array.prototype.join`. */
  function Join(parts: seq<string>, sep: string): string {
    if |parts| == 0 then ""
    else if |parts| == 1 then parts[0]
    else parts[0] + sep + Join(parts[1..], sep)
  }

  /** The TypeError V8 raises when ToString finds neither a callable
      `toString` nor a `valueOf` that yields a primitive. */
  const ConvertError := "Cannot convert object to primitive value"

  /** ECMAScript ToString succeeds on `v`. A parsed object with its own
      `toString` key hides `Object.prototype.toString` behind a value that is
      not callable (JSON has no functions), and `Object.prototype.valueOf`
      yields the object itself, which is not a primitive. An array converts
      each of its elements. */
  predicate Convertible(v: JsValue) {
    match v
    case Obj(props) => "toString" !in props
    case Arr(items) => forall i | 0 <= i < |items| :: Convertible(items[i])
    case _ => true
  }

  /** The values of `parts` when none of them threw, else the first throw. */
  function Collect(parts: seq<Result<string>>): (r: Result<seq<string>>)
    ensures r.Ok? <==> forall i | 0 <= i < |parts| :: parts[i].Ok?
    ensures r.Ok? ==> |r.value| == |parts|
    ensures r.Ok? ==> forall i | 0 <= i < |parts| :: parts[i] == Ok(r.value[i])
    ensures r.Throw? ==> exists i | 0 <= i < |parts| :: parts[i] == Throw(r.message)
  {
    if |parts| == 0 then Ok([])
    else
      match parts[0]
      case Throw(m) => Throw(m)
      case Ok(first) =>
        match Collect(parts[1..])
        case Throw(m) => Throw(m)
        case Ok(rest) => Ok([first] + rest)
  }

  /** ECMAScript ToString, as used by template-literal interpolation. How a
      number is rendered is the engine's business and is passed in as
      `numberText`. An array joins its elements with "," and renders
      `undefined` and `null` elements as the empty string. */
  function ToJsString(v: JsValue, numberText: real -> string): (r: Result<string>)
    ensures r.Ok? <==> Convertible(v)
    ensures r.Throw? ==> r.message == ConvertError
  {
    match v
    case Undefined => Ok("undefined")
    case Null => Ok("null")
    case Bool(b) => Ok(if b then "true" else "false")
    case Num(n) => Ok(numberText(n))
    case Str(s) => Ok(s)
    case Arr(items) =>
      var parts := seq(|items|, i requires 0 <= i < |items| =>
        if items[i] == Undefined || items[i] == Null then Ok("")
        else ToJsString(items[i], numberText));
      (match Collect(parts)
       case Throw(m) => Throw(m)
       case Ok(texts) =>
         assert Convertible(v) by {
           forall i | 0 <= i < |items| ensures Convertible(items[i]) {
             assert parts[i].Ok?;
           }
         }
         Ok(Join(texts, ",")))
    case Obj(props) => if "toString" in props then Throw(ConvertError) else Ok("[object Object]")
  }
}
