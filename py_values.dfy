/**
 * The Python scalar values that reach the backend from the graph driver
 * and from parsed JSON, with the pieces of Python semantics the
 * formatter relies on: truthiness, `a or b`, `dict.get` and the equality
 * under which dictionary keys collide.
 */
module PyValues {

  /** A Python scalar: `None`, `bool`, `int`, `float` (as a real) or `str`. */
  datatype Scalar = PyNone | Bool(b: bool) | Int(i: int) | Float(f: real) | Str(s: string)

  /** A Python `dict` with string keys and scalar values (a node's properties). */
  type Attrs = map<string, Scalar>

  /** Python truthiness: `None`, `False`, `0`, `0.0` and `""` are false. */
  predicate Truthy(v: Scalar) {
    match v
    case PyNone => false
    case Bool(b) => b
    case Int(i) => i != 0
    case Float(f) => f != 0.0
    case Str(s) => s != []
  }

  /** Python `a or b`: the first operand if it is truthy, else the second. */
  function Or(a: Scalar, b: Scalar): Scalar {
    if Truthy(a) then a else b
  }

  /** Python `d.get(k)`: the value under `k`, or `None` when `k` is absent. */
  function Get(d: Attrs, k: string): Scalar {
    if k in d then d[k] else PyNone
  }

  /**
   * The representative of `v`'s class under the equality Python uses for
   * dictionary keys: `True`, `1` and `1.0` are one key, as are `False`, `0`
   * and `0.0`.
   */
  function PyKey(v: Scalar): Scalar {
    match v
    case Bool(b) => Int(if b then 1 else 0)
    case Float(f) => if f == f.Floor as real then Int(f.Floor) else v
    case _ => v
  }

  /** Python's `==` on scalars: numbers compare by value, across `bool`, `int` and `float`. */
  predicate PyEq(a: Scalar, b: Scalar) {
    match (a, b)
    case (PyNone, PyNone) => true
    case (Str(x), Str(y)) => x == y
    case (PyNone, _) => false
    case (_, PyNone) => false
    case (Str(_), _) => false
    case (_, Str(_)) => false
    case _ => NumValue(a) == NumValue(b)
  }

  /** The numeric value of a `bool`, `int` or `float`. */
  function NumValue(v: Scalar): real
    requires v.Bool? || v.Int? || v.Float?
  {
    match v
    case Bool(b) => if b then 1.0 else 0.0
    case Int(i) => i as real
    case Float(f) => f
  }

  /** Two scalars are the same dictionary key exactly when Python finds them equal. */
  lemma PyKeyIsPyEq(a: Scalar, b: Scalar)
    ensures PyKey(a) == PyKey(b) <==> PyEq(a, b)
  {
    if (a.Bool? || a.Int? || a.Float?) && (b.Bool? || b.Int? || b.Float?) {
      KeyOfNumber(a);
      KeyOfNumber(b);
    }
  }

  /** The key of a number is `Int` of its value when that value is whole, else `Float` of it. */
  lemma KeyOfNumber(v: Scalar)
    requires v.Bool? || v.Int? || v.Float?
    ensures var x := NumValue(v);
      PyKey(v) == if x == x.Floor as real then Int(x.Floor) else Float(x)
  {
  }

  /** Choosing a key twice changes nothing. */
  lemma PyKeyIdempotent(v: Scalar)
    ensures PyKey(PyKey(v)) == PyKey(v)
  {
  }
}
