/** Value types shared by every component: the log record and the
    option/result wrappers that stand in for Go's zero values and
    `(value, error)` returns. */
module Types {

  /** One log record. `ts` is the instant in whole seconds since the Unix
      epoch (UTC); the time-zone offset Go keeps inside `time.Time` is not
      modelled. Two entries are equal exactly when their
      `(instant, level, message)` triples are equal. The index
      de-duplicates on this value; the text key the source joins from the
      triple is `LogIndex.EntryKey`. */
  datatype LogEntry = LogEntry(ts: int, level: string, message: string)

  /** `None` stands for Go's zero `time.Time` ("unset") and for absent
      optional values. */
  datatype Option<T> = None | Some(value: T)

  /** Go's zero `time.Time`, 0001-01-01T00:00:00Z, in seconds since the
      Unix epoch. */
  const ZeroInstant := -62135596800

  /** A `time.Time` the code tests with `IsZero`: the zero instant is
      unset, whichever way it was obtained. */
  function Bound(t: int): (r: Option<int>)
    ensures r.None? <==> t == ZeroInstant
    ensures r.Some? ==> r.value == t
  {
    if t == ZeroInstant then None else Some(t)
  }

  /** A Go `(value, error)` pair: `Err` carries the error text. */
  datatype Result<T> = Ok(value: T) | Err(msg: string) {
    predicate IsFailure() {
      Err?
    }

    function PropagateFailure<U>(): Result<U>
      requires Err?
    {
      Err(msg)
    }

    function Extract(): T
      requires Ok?
    {
      value
    }
  }
}
