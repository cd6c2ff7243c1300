/**
 * Python values as the QS client sees them: the JSON-shaped data that flows
 * through requests, caches and records, plus the exceptions the client raises.
 */
module Values {

  /** A Python value. `Obj` stands for any non-builtin object (a wrapper, a function). */
  datatype Value =
    | Null
    | Bool(b: bool)
    | Int(i: int)
    | Str(s: string)
    | List(items: seq<Value>)
    | SetOf(elems: set<Value>)
    | Dict(entries: map<string, Value>)
    | Obj(tag: nat)

  /** A dict-shaped API resource (a student, a section, ...). */
  type Record = map<string, Value>

  /**
   * The Python exceptions raised by the modelled code. `NameError` covers
   * its subclass UnboundLocalError.
   */
  datatype Error = ValueError | TypeError | KeyError | IndexError | LookupError | NameError

  datatype Option<+T> = None | Some(value: T)

  datatype Result<+T> = Ok(value: T) | Err(error: Error) {
    predicate IsFailure() { Err? }
    function PropagateFailure<U>(): Result<U>
      requires Err?
    {
      Err(error)
    }
    function Extract(): T
      requires Ok?
    {
      value
    }
  }

  /**
   * Values Python can hash (a dict key, a set element, `in` on a dict):
   * not a list, a set or a dict.
   */
  predicate Hashable(v: Value) {
    !v.List? && !v.SetOf? && !v.Dict?
  }

  /** Every value of `s` can be hashed. */
  predicate AllHashable(s: seq<Value>) {
    forall j :: 0 <= j < |s| ==> Hashable(s[j])
  }

  /** Python truthiness: `bool(v)`. */
  predicate Truthy(v: Value) {
    match v
    case Null => false
    case Bool(b) => b
    case Int(i) => i != 0
    case Str(s) => s != ""
    case List(items) => items != []
    case SetOf(elems) => elems != {}
    case Dict(entries) => entries != map[]
    case Obj(_) => true
  }

  /**
   * `type(v) is int` in Python 2 on a 64-bit platform: an integer outside
   * [-2^63, 2^63) is a `long`.
   */
  predicate IsPlainInt(v: Value) {
    v.Int? && -0x8000_0000_0000_0000 <= v.i < 0x8000_0000_0000_0000
  }

  /** `d.get(key)`: the value under `key`, or None when the key is absent. */
  function Get(d: Record, key: string): Value {
    if key in d then d[key] else Null
  }

  /** `d[key]`: raises KeyError when the key is absent. */
  function Index(d: Record, key: string): Result<Value> {
    if key in d then Ok(d[key]) else Err(KeyError)
  }

  /** `c.isdigit()` for a single character of a Python 2 byte string. */
  predicate IsDigit(c: char) {
    '0' <= c <= '9'
  }

  function DigitChar(d: nat): (c: char)
    requires d < 10
    ensures IsDigit(c)
  {
    "0123456789"[d]
  }

  /** Decimal representation of a natural number, as `str(n)` prints it. */
  function NatToString(n: nat): (r: string)
    ensures |r| >= 1
    ensures forall j :: 0 <= j < |r| ==> IsDigit(r[j])
  {
    if n < 10 then [DigitChar(n)] else NatToString(n / 10) + [DigitChar(n % 10)]
  }

  /** `str(i)` for a Python int. */
  function IntToString(i: int): (r: string)
    ensures |r| >= 1
    ensures forall j :: 0 <= j < |r| ==> IsDigit(r[j]) || r[j] == '-'
    ensures r[0] == '-' <==> i < 0
  {
    if i < 0 then "-" + NatToString(-i) else NatToString(i)
  }
}
