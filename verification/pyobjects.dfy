/**
  The Python-side values the binding builds and the ways a call can end:
  a returned object, a raised exception, or (only in members that reproduce
  a defect of the C code) behaviour C leaves undefined.
 */
module PyObjects {

  /** One byte of a C buffer. */
  newtype byte = x: int | 0 <= x < 0x100

  /** A value C may leave NULL, or an optional argument. */
  datatype Option<+T> = None | Some(value: T)

  /** The Python objects the binding returns. */
  datatype PyValue =
    | PyNone
    | PyInt(i: int)
    | PyStr(s: string)
    | PyBytes(bytes: seq<byte>)
    | PyList(items: seq<PyValue>)
    | PyTuple(items: seq<PyValue>)

  /** The exception a call raises: Python's own classes and `rpm.error`. */
  datatype PyError =
    | KeyError(msg: string)
    | TypeError(msg: string)
    | RpmError(msg: string)
    /**
      The exception left pending by the run callback: whatever the user's
      callable raised, or the TypeError or OverflowError the "i" conversion
      sets when its answer to an open-file event is not a C int.
     */
    | CallbackError

  datatype Outcome<+T> =
    | Ok(value: T)
    | Raise(error: PyError)
    /** The C code reads memory it does not own or never initialised; no Python-level result exists. */
    | Undefined(why: string)
}
