/** Option, the error taxonomy of the reader and the importers, and the
    failure-compatible Result and Status types used with `:-`. */
module Results {
  import opened Bytes

  datatype Option<+T> = None | Some(value: T)

  /** Every way a decode or an import step can fail. Each constructor stands
      for an exception the Python code raises (or lets escape). */
  datatype Error =
    | OutOfBounds(pos: int, width: nat)            // a read outside the file or buffer
    | BadMagic(expected: seq<byte>, actual: seq<byte>)
    | InvalidByteOrder(marker: nat)                 // ValueError in FRES.__init__
    | StringDecode(offset: int, head: seq<byte>)    // UnicodeDecodeError, re-raised
    | NoAttribute(name: string)                     // AttributeError (e.g. `rlt` before decode)
    | KeyError(key: string)
    | IndexError(index: int, length: nat)
    | EmptyMax                                      // ValueError from max() of an empty list
    | NotIterable                                   // TypeError: a scalar where a list was needed
    | UnpackSize(wanted: nat, given: nat)      // struct.error: wrong number of bytes
    | NotADict                                      // a bare format string used as a dict
    | TupleArity(arity: nat)                        // ValueError from `x, y, z = v`
    | UnsupportedFormat(fmt: string)                // UnsupportedFormatError
    | Collaborator(what: string)                    // failure inside a reader not modelled here

  /** A message the Python code prints and carries on after. */
  datatype Warning =
    | UnknownVersion(major: nat, minor: nat)
    | NonFinite(matrix: nat, x: nat, y: nat)
    | DuplicateBone(name: string)
    | ParentOutOfRange(bone: string, parentIdx: int, count: nat)
    | UnusedW(vertex: nat)

  datatype Result<+T> = Ok(value: T) | Err(error: Error) {
    predicate IsFailure() { Err? }
    function PropagateFailure<U>(): Result<U> requires Err? { Err(error) }
    function Extract(): T requires Ok? { value }
  }

  /** The outcome of a method that updates an object in place and returns nothing. */
  datatype Status = Done | Failed(error: Error) {
    predicate IsFailure() { Failed? }
    function PropagateFailure(): Status requires Failed? { this }
  }

  function StatusOf<T>(r: Result<T>): Status {
    match r
    case Ok(_) => Done
    case Err(e) => Failed(e)
  }

  /** `r` with `prefix` put in front of its success value. */
  function Prefixed<T>(prefix: seq<T>, r: Result<seq<T>>): Result<seq<T>> {
    match r
    case Ok(rest) => Ok(prefix + rest)
    case Err(e) => Err(e)
  }

  lemma PrefixedNil<T>(r: Result<seq<T>>)
    ensures Prefixed([], r) == r
  {
    if r.Ok? { assert [] + r.value == r.value; }
  }

  lemma PrefixedPrefixed<T>(a: seq<T>, b: seq<T>, r: Result<seq<T>>)
    ensures Prefixed(a, Prefixed(b, r)) == Prefixed(a + b, r)
  {
    if r.Ok? { assert a + (b + r.value) == (a + b) + r.value; }
  }
}
