/** The JavaScript values a JSON request body can carry, with the truthiness and the
    numeric coercion (`Number(v)`, used by `isNaN` and by `<`) the handlers apply to them. */
module JsValues {
  import opened Outcomes
  import opened JsText

  /** One field of a request body. `Absent` is `undefined`: the key is not in the body.
      JSON numbers are integers here; `Other` is an object or an array. */
  datatype Value = Absent | Null | Bool(b: bool) | Num(n: int) | Str(s: string) | Other

  /** JavaScript truthiness. */
  predicate Truthy(v: Value) {
    match v
    case Absent | Null => false
    case Bool(b) => b
    case Num(n) => n != 0
    case Str(s) => s != ""
    case Other => true
  }

  /** Truthiness of a body field that is a string when present. */
  predicate Given(s: Option<string>) {
    s.Some? && s.value != ""
  }

  predicate IsDigit(c: char) {
    '0' <= c <= '9'
  }

  predicate AllDigits(s: string) {
    s != [] && forall i | 0 <= i < |s| :: IsDigit(s[i])
  }

  /** The value of a run of decimal digits. */
  function DigitsValue(ds: string): int
    requires forall i | 0 <= i < |ds| :: IsDigit(ds[i])
  {
    if ds == [] then 0
    else 10 * DigitsValue(ds[..|ds| - 1]) + (ds[|ds| - 1] as int - '0' as int)
  }

  /** `Number(s)` for a string; `None` is NaN. Surrounding whitespace is ignored and an
      empty string is 0, as in JavaScript; only an optionally signed run of decimal
      digits is read as a number. */
  function StringToNumber(s: string): Option<int> {
    var t := Trim(s);
    if t == "" then Some(0)
    else if AllDigits(t) then Some(DigitsValue(t))
    else if (t[0] == '+' || t[0] == '-') && AllDigits(t[1..]) then
      Some(if t[0] == '-' then -DigitsValue(t[1..]) else DigitsValue(t[1..]))
    else None
  }

  /** `Number(v)`; `None` is NaN. */
  function ToNumber(v: Value): Option<int> {
    match v
    case Absent => None
    case Null => Some(0)
    case Bool(b) => Some(if b then 1 else 0)
    case Num(n) => Some(n)
    case Str(s) => StringToNumber(s)
    case Other => None
  }

  /** `isNaN(v)`. */
  predicate IsNaN(v: Value) {
    ToNumber(v).None?
  }

  /** `v < k` for a number `k`: false whenever `v` is NaN. */
  predicate LessThan(v: Value, k: int) {
    ToNumber(v).Some? && ToNumber(v).value < k
  }

  /** `v > k` for a number `k`: false whenever `v` is NaN. */
  predicate GreaterThan(v: Value, k: int) {
    ToNumber(v).Some? && ToNumber(v).value > k
  }
}
