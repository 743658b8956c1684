/** Values shared by every part of the controller model: serial bytes, the
    Python exceptions the modelled code raises, and Python's own rules for
    indexing and for the `%` operator. */
module Common {

  /** One byte written to a serial port. */
  newtype byte = x: int | 0 <= x < 256

  datatype Option<T> = None | Some(value: T)

  /** The Python exceptions the modelled code can raise. */
  datatype Error = ValueError | IndexError

  /** A Python call that returns a value or raises. */
  datatype Result<T> = Ok(value: T) | Err(error: Error)

  /** Python/NumPy indexing into an axis of length `n`: `-n <= i < n` is
      accepted, a negative index counts from the end, anything else raises
      IndexError (None here). */
  function PyIndex(i: int, n: nat): (r: Option<nat>)
    ensures r.Some? <==> 0 <= i + n && i < n
    ensures r.Some? ==> r.value < n && (r.value == i || r.value == i + n)
  {
    if 0 <= i < n then Some(i) else if 0 <= i + n && i < 0 then Some(i + n) else None
  }

  /** Python's `a % b`: the remainder takes the sign of the divisor (Dafny's
      `%` is Euclidean, which agrees only for b > 0). */
  function PyMod(a: int, b: int): (r: int)
    requires b != 0
    ensures b > 0 ==> 0 <= r < b
    ensures b < 0 ==> b < r <= 0
    ensures b > 0 ==> r == a % b
    ensures exists q :: a == q * b + r
  {
    if b > 0 then
      assert a == (a / b) * b + a % b;
      a % b
    else
      var q := (-a) / (-b);
      assert -a == q * (-b) + (-a) % (-b);
      assert a == q * b + -((-a) % (-b));
      -((-a) % (-b))
  }

  /** The sum of a sequence of counts, taken from the last element back. */
  function Sum(s: seq<int>): int
  {
    if s == [] then 0 else Sum(s[..|s| - 1]) + s[|s| - 1]
  }
}
