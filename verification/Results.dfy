// The outcome of a source call: a value, or the class of the exception it raises.
module Results {

  datatype Option<+T> = None | Some(value: T)

  // SnmpError, asn1.BERError and the Python built-ins the codec can raise.
  datatype Error = SnmpError | BerError | IndexError | ValueError | OverflowError

  datatype Result<+T> = Ok(value: T) | Err(error: Error) {
    predicate IsFailure() {
      Err?
    }

    function PropagateFailure<U>(): Result<U>
      requires Err?
    {
      Err(error)
    }

    function Extract(): T
      requires Ok?
    {
      value
    }
  }

  // s[i] in Python, for a non-negative index.
  function At<T>(s: seq<T>, i: nat): Result<T> {
    if i < |s| then Ok(s[i]) else Err(IndexError)
  }
}
