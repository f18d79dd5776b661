/** The slice of JavaScript's value semantics the chat reducer relies on:
    plain data values, own-property reads, object spread, truthiness,
    property-key coercion, and the TypeError thrown by a property read on
    `undefined`/`null` or by calling a string method on a non-string. */
module JsValues {

  /** A JavaScript data value. Numbers are restricted to integers: the
      reducer only ever stores clock readings and flags in them. */
  datatype Value =
    | Undefined
    | Null
    | Bool(b: bool)
    | Num(n: int)
    | Str(s: string)
    | Arr(items: seq<Value>)
    | Obj(fields: map<string, Value>)
  {
    /** `undefined` or `null`: the values whose property reads throw. */
    predicate IsNullish() {
      Undefined? || Null?
    }
  }

  /** A plain object, viewed as its own enumerable properties. */
  type Record = map<string, Value>

  datatype JsError = TypeError

  /** The outcome of evaluating JavaScript code that may throw. */
  datatype Result<+T> = Success(value: T) | Failure(error: JsError) {
    predicate IsFailure() {
      Failure?
    }

    function PropagateFailure<U>(): Result<U>
      requires Failure?
    {
      Failure(error)
    }

    function Extract(): T
      requires Success?
    {
      value
    }
  }

  datatype Option<+T> = None | Some(value: T)

  /** `r.name` on a plain object: the own property, or `undefined`. */
  function Field(r: Record, name: string): Value {
    if name in r then r[name] else Undefined
  }

  /** `v.name` for a `v` that is not nullish. Strings, numbers, booleans and
      arrays have none of the data properties the reducer reads. */
  function Lookup(v: Value, name: string): Value {
    if v.Obj? then Field(v.fields, name) else Undefined
  }

  /** `v.name`, throwing on `undefined` and `null`. */
  function Prop(v: Value, name: string): (r: Result<Value>)
    ensures r.Failure? <==> v.IsNullish()
    ensures r.Success? ==> r.value == Lookup(v, name)
  {
    if v.IsNullish() then Failure(TypeError)
    else Success(Lookup(v, name))
  }

  /** The own properties `{...v}` copies: an object's fields; nothing for
      `undefined`, `null`, numbers and booleans. */
  function Spread(v: Value): (r: Record)
    ensures v.Obj? ==> r.Keys == v.fields.Keys
    ensures !v.Obj? ==> r == map[]
    ensures forall f :: f in r ==> r[f] == Lookup(v, f)
  {
    if v.Obj? then v.fields else map[]
  }

  /** JavaScript truthiness (`v || fallback` picks `v` exactly when truthy). */
  function Truthy(v: Value): (r: bool)
    ensures !r <==> v in {Undefined, Null, Bool(false), Num(0), Str("")}
  {
    match v
    case Undefined => false
    case Null => false
    case Bool(b) => b
    case Num(n) => n != 0
    case Str(s) => s != ""
    case Arr(_) => true
    case Obj(_) => true
  }

  /** Whether JavaScript can turn `v` into a property key without throwing.
      An object whose own `toString` is a data field throws: that
      `toString` cannot be called, and the inherited `valueOf` returns the
      object itself, which is not a primitive. An array is keyable exactly
      when all its elements are, since its key joins theirs. */
  ghost predicate Keyable(v: Value)
    decreases v
  {
    match v
    case Obj(fields) => "toString" !in fields
    case Arr(items) => forall i :: 0 <= i < |items| ==> Keyable(items[i])
    case _ => true
  }

  /** The property key a value becomes in `obj[v]` or `{[v]: …}`. A number
      is written out digit by digit; JavaScript's exponent notation from
      10^21 on is not modelled. */
  function ToKey(v: Value): (r: Result<string>)
    ensures r.Success? <==> Keyable(v)
    ensures v.Str? ==> r == Success(v.s)
    decreases v
  {
    match v
    case Undefined => Success("undefined")
    case Null => Success("null")
    case Bool(b) => Success(if b then "true" else "false")
    case Num(n) => Success(if n < 0 then "-" + NatToString(-n) else NatToString(n))
    case Str(s) => Success(s)
    case Arr(items) => JoinKeys(items)
    case Obj(fields) => if "toString" in fields then Failure(TypeError) else Success("[object Object]")
  }

  /** `Array.prototype.toString`: elements joined by commas, with `undefined`
      and `null` elements written as the empty string. It throws exactly
      when some element cannot become a key. */
  function JoinKeys(items: seq<Value>): (r: Result<string>)
    ensures r.Success? <==> forall i :: 0 <= i < |items| ==> Keyable(items[i])
    decreases items
  {
    if items == [] then Success("")
    else
      var head :- if items[0].IsNullish() then Success("") else ToKey(items[0]);
      if |items| == 1 then Success(head)
      else
        var tail :- JoinKeys(items[1..]);
        Success(head + "," + tail)
  }

  function NatToString(n: nat): string {
    var digit := ["0123456789"[n % 10]];
    if n < 10 then digit else NatToString(n / 10) + digit
  }
}
