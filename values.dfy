/** Small value types shared by every handler: optional values, JSON request
    fields and the scalars a JSON body can carry. */
module Values {

  /** A value that may be absent (`None` in the handlers' dictionaries). */
  datatype Option<+T> = None | Some(value: T) {
    function GetOr(default: T): T {
      match this
      case Some(v) => v
      case None => default
    }
  }

  /** One field of a decoded JSON request body: the key is missing, the key
      holds `null`, or the key holds a value. */
  datatype Field<+T> = Absent | Null | Given(value: T)

  /** A non-null JSON scalar. */
  datatype Scalar = Bool(b: bool) | Number(x: real) | Text(s: string)

  /** Python truthiness of a request field: `key in data and data[key]`. */
  predicate Truthy(f: Field<Scalar>) {
    match f
    case Absent => false
    case Null => false
    case Given(Bool(b)) => b
    case Given(Number(x)) => x != 0.0
    case Given(Text(s)) => s != ""
  }

  /** Python truthiness of a text field. */
  predicate TruthyText(f: Field<string>) {
    f.Given? && f.value != ""
  }

  /** Python `float(v)` on a JSON scalar. `parse` stands for `float` on a
      string: `None` when the text is not a number (a `ValueError`). */
  function ToFloat(v: Scalar, parse: string -> Option<real>): Option<real> {
    match v
    case Bool(b) => Some(if b then 1.0 else 0.0)
    case Number(x) => Some(x)
    case Text(s) => parse(s)
  }
}
