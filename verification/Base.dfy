/** Bytes, optional values and the error values that stand for the C++ exceptions. */
module Base {

  type byte = x: int | 0 <= x < 256

  type bytes = seq<byte>

  datatype Option<+T> = None | Some(value: T)

  /** What the source signals by throwing, by ending a stream early, or by writing out of bounds. */
  datatype Error =
    | InvalidArgument // std::invalid_argument: no digits to convert
    | OutOfRange      // std::out_of_range: value or position too large
    | LengthError     // std::length_error: a vector resized to a negative length
    | Overrun         // payload copied past the end of the message buffer
    | UnknownType     // check_type met a command it does not know
    | EndOfStream     // the socket ended inside a request
    | IoFailure       // a system call on the storage file returned -1

  datatype Result<+T> = Ok(value: T) | Err(error: Error) {
    predicate IsFailure() {
      Err?
    }

    function PropagateFailure<U>(): Result<U>
      requires Err?
    {
      Err(error)
    }

    function Extract(): T
      requires Ok?
    {
      value
    }
  }

  function Min(a: int, b: int): int {
    if a < b then a else b
  }

  function Zeros(n: nat): bytes {
    seq(n, _ => 0)
  }

  /** std::string::resize and std::vector::resize: cut, or extend with zero bytes. */
  function Resize(s: bytes, n: nat): (r: bytes)
    ensures |r| == n
  {
    if n <= |s| then s[..n] else s + Zeros(n - |s|)
  }

  /** The next element of a walk over a map, in no particular order. */
  method AnyOf<T>(todo: set<T>) returns (element: T)
    requires todo != {}
    ensures element in todo
  {
    element :| element in todo;
  }
}
