/** Failure-compatible wrappers: PHP's `null` and PHP's exceptions as values. */
module Wrappers {

  /** A nullable value. */
  datatype Option<+T> = None | Some(value: T) {
    predicate IsFailure() { None? }
    function PropagateFailure<U>(): Option<U> requires None? { None }
    function Extract(): T requires Some? { value }
    function GetOr(default: T): T { if Some? then value else default }
  }

  /** Either the value an operation returns or the exception it raises. */
  datatype Result<+T, +E> = Ok(value: T) | Err(error: E) {
    predicate IsFailure() { Err? }
    function PropagateFailure<U>(): Result<U, E> requires Err? { Err(error) }
    function Extract(): T requires Ok? { value }
  }
}

/** The exceptions the decoders, the event stream and the connection raise. */
module Errors {
  import opened Wrappers
  import opened Bytes

  datatype Exception =
    | UnexpectedValue          // \UnexpectedValueException
    | LengthError              // \LengthException
    | OutOfBounds              // \OutOfBoundsException
    | Runtime                  // \RuntimeException
    | InvalidArgument          // \InvalidArgumentException
    | ValueError               // \ValueError: BackedEnum::from() of an unknown value
    | TypeError                // \TypeError: a null where the signature wants a value
    | UndefinedMethod          // \Error: a call to a method the class does not define
    | ServerError(code: nat, message: Bytes)  // \Exception built from an ERR packet
    | OutOfOrder               // \Exception: 'Got packets out of order'
    | PacketTooLarge           // \Exception: a payload of 0xFFFFFF bytes or more
    | ReadPastEnd              // a fixed-width read beyond the data
    | Stalled                  // a row image that consumed no bytes

  type Outcome<T> = Result<T, Exception>

  /** Prepends what was read before to the rest of a list read. */
  function Prepend<T>(acc: seq<T>, r: Outcome<seq<T>>): Outcome<seq<T>>
  {
    match r
    case Err(e) => Err(e)
    case Ok(rest) => Ok(acc + rest)
  }

  lemma PrependNil<T>(r: Outcome<seq<T>>)
    ensures Prepend([], r) == r
  {
    if r.Ok? {
      assert [] + r.value == r.value;
    }
  }

  lemma PrependTwice<T>(a: seq<T>, b: seq<T>, r: Outcome<seq<T>>)
    ensures Prepend(a, Prepend(b, r)) == Prepend(a + b, r)
  {
    if r.Ok? {
      assert a + (b + r.value) == (a + b) + r.value;
    }
  }

  lemma PrependAll<T>(acc: seq<T>)
    ensures Prepend(acc, Ok([])) == Ok(acc)
  {
    assert acc + [] == acc;
  }
}
