/** The pieces of Python's own behaviour that the modelled code relies on:
    the exceptions it can raise, and how a sequence resolves an integer index. */
module Builtins {

  /** The built-in exceptions the modelled operations raise. */
  datatype Exception =
    | TypeError       // wrong argument count, unsupported operand, immutable container
    | IndexError      // sequence index out of range
    | ValueError      // math domain error
    | AttributeError  // a name the object does not have

  /** The outcome of a Python call: its value, or the exception it raises. */
  datatype Result<+T> = Ok(value: T) | Raise(exc: Exception)

  /** A value that may be absent (a model-side helper, not a Python value). */
  datatype Option<+T> = None | Some(value: T)

  /** `s[idx]` resolves `idx` to a slot: a negative index counts from the end,
      and anything outside `-|s| .. |s|-1` raises IndexError. */
  function ResolveIndex(n: nat, idx: int): (r: Result<nat>)
    ensures r.Ok? <==> -(n as int) <= idx < n
    ensures r.Raise? ==> r.exc == IndexError
    ensures r.Ok? ==> r.value < n && r.value % n == idx % n
  {
    if 0 <= idx < n then Ok(idx)
    else if -(n as int) <= idx < 0 then Ok(idx + n)
    else Raise(IndexError)
  }

  /** `s[idx]` for a Python list or tuple. */
  function Subscript<T>(s: seq<T>, idx: int): (r: Result<T>)
    ensures r.Ok? <==> -|s| <= idx < |s|
    ensures r.Ok? ==> r.value in s
    ensures 0 <= idx < |s| ==> r == Ok(s[idx])
    ensures -|s| <= idx < 0 ==> r == Ok(s[|s| + idx])
  {
    match ResolveIndex(|s|, idx)
    case Ok(k) => Ok(s[k])
    case Raise(e) => Raise(e)
  }
}
