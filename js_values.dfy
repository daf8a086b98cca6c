/** The runtime values that row queries return and that the masker and the fill renderers handle,
    and the pieces of the JavaScript runtime the model keeps abstract. */
module JsValues {

  /** A `Date` by its local-time components: getFullYear(), getMonth() + 1, getDate(), getHours(),
      getMinutes(), getSeconds(), getMilliseconds(). */
  datatype DateTime = DateTime(year: int, month: nat, day: nat,
                               hours: nat, minutes: nat, seconds: nat, millis: nat)

  datatype Value =
    | Null
    | Undefined
    | Num(text: string)          // a `number`, by the text `value.toString()` gives
    | Str(s: string)
    | Bool(b: bool)
    | BigInt(i: int)
    | Date(at: DateTime)
    | Arr(items: seq<Value>)
    | Obj(fields: seq<Field>)    // any other object, by its own enumerable keys in order
    | Opaque(text: string)       // functions, symbols: not objects and not handled scalars

  /** One own property of an object, or one column of a result row. */
  datatype Field = Field(key: string, value: Value)

  /** A result row: its columns in the order the driver reports them. */
  type Row = seq<Field>

  /** `Object.keys(row)`. */
  function Keys(row: Row): (ks: seq<string>)
    ensures |ks| == |row| && forall j :: 0 <= j < |row| ==> ks[j] == row[j].key
  {
    seq(|row|, j requires 0 <= j < |row| => row[j].key)
  }

  /** `row[key]`: the first property with that key, `undefined` when there is none. */
  function Get(row: Row, key: string): (v: Value)
    ensures (forall j :: 0 <= j < |row| ==> row[j].key != key) ==> v == Undefined
    ensures forall j :: (0 <= j < |row| && row[j].key == key &&
                         (forall k :: 0 <= k < j ==> row[k].key != key)) ==> v == row[j].value
  {
    if row == [] then Undefined
    else if row[0].key == key then row[0].value
    else Get(row[1..], key)
  }

  /** The values both fill renderers write as quoted text. */
  predicate IsQuoted(v: Value)
  {
    v.Str? || v.Arr? || v.Obj? || v.Opaque?
  }

  /** `val.toString()`: a string is its own text, anything else is rendered by the runtime. */
  function ValueText(v: Value, rt: Runtime): string
  {
    if v.Str? then v.s else rt.toText(v)
  }

  /** Runtime behaviour the model does not reimplement: Unicode letter classes and case mapping,
      calendar arithmetic on local time, number parsing, UTC formatting and the string conversion
      of arrays and objects. */
  datatype Runtime = Runtime(
    isLetter: char -> bool,                    // /\p{L}/u.test(c)
    toUpper: char -> char,                     // c.toUpperCase()
    addDays: (DateTime, int) -> DateTime,      // d.setDate(d.getDate() + n)
    addMinutes: (DateTime, int) -> DateTime,   // d.setMinutes(d.getMinutes() + n)
    parseFloat: string -> string,              // parseFloat(s), read back by toString()
    parseInt: string -> string,                // parseInt(s, 10), read back by toString()
    toIso: DateTime -> string,                 // d.toISOString()
    toText: Value -> string)                   // String(v) for arrays, objects and other values
}
