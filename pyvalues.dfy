/**
 * Dynamically typed values as the server receives them in JSON bodies, msgpack messages
 * and MongoDB documents, with the Python rules this model relies on: `isinstance`
 * (where `bool` is a subclass of `int`), equality between numbers and booleans, and
 * truthiness.
 */
module PyValues {
  import opened Wrappers

  datatype PyValue =
    | PNone
    | PBool(b: bool)
    | PInt(i: int)
    | PStr(s: string)
    | PList(items: seq<PyValue>)
    | PDict(entries: map<string, PyValue>)
    | POther  // any other Python object (float, bytes, ...)

  /** A document: a dict with string keys. */
  type Doc = map<string, PyValue>

  /** The Python classes a default value can have. */
  datatype PyType = TBool | TInt | TStr | TList | TDict | TNone | TObject

  function TypeOf(v: PyValue): PyType {
    match v
    case PNone => TNone
    case PBool(_) => TBool
    case PInt(_) => TInt
    case PStr(_) => TStr
    case PList(_) => TList
    case PDict(_) => TDict
    case POther => TObject
  }

  /** `isinstance(v, t)`; `True` and `False` are instances of `int` too. */
  predicate IsInstance(v: PyValue, t: PyType) {
    TypeOf(v) == t || (t == TInt && v.PBool?)
  }

  /** Python `v == n` for an integer literal `n` (`False == 0`, `True == 1`). */
  predicate EqualsInt(v: PyValue, n: int) {
    match v
    case PInt(i) => i == n
    case PBool(b) => (if b then 1 else 0) == n
    case _ => false
  }

  /** Python truthiness. */
  predicate Truthy(v: PyValue) {
    match v
    case PNone => false
    case PBool(b) => b
    case PInt(i) => i != 0
    case PStr(s) => s != ""
    case PList(xs) => xs != []
    case PDict(m) => m != map[]
    case POther => true
  }

  /** `len(v)` for the sized values. */
  function Len(v: PyValue): nat
    requires v.PStr? || v.PList? || v.PDict?
  {
    match v
    case PStr(s) => |s|
    case PList(xs) => |xs|
    case PDict(m) => |m|
  }

  /** The built-in exceptions the modelled code can raise. */
  datatype PyException = KeyError | TypeError | IndexError | ValueError | ZeroDivisionError

  /** `v[key]` for a string key: a dict lookup; any other value is not subscriptable by a string. */
  function Item(v: PyValue, key: string): (r: Result<PyValue, PyException>)
    ensures r.Ok? <==> v.PDict? && key in v.entries
    ensures r.Ok? ==> r.value == v.entries[key]
    ensures r.Err? ==> (r.error == KeyError <==> v.PDict?)
  {
    match v
    case PDict(m) => if key in m then Ok(m[key]) else Err(KeyError)
    case _ => Err(TypeError)
  }

  /** `v` as an operand of `<`, `&` or `|` with an int: ints and bools work, other values raise `TypeError`. */
  function IntOperand(v: PyValue): (r: Result<int, PyException>)
    ensures r.Ok? <==> IsInstance(v, TInt)
    ensures r.Err? ==> r.error == TypeError
    ensures forall n :: r == Ok(n) <==> EqualsInt(v, n)
  {
    match v
    case PInt(i) => Ok(i)
    case PBool(b) => Ok(if b then 1 else 0)
    case _ => Err(TypeError)
  }
}
