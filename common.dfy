/** Failure-carrying results and the exceptions the repository raises. */
module Common {

  datatype Option<+T> = None | Some(value: T) {
    predicate IsFailure() { None? }
    function PropagateFailure<U>(): Option<U> requires None? { None }
    function Extract(): T requires Some? { value }
  }

  /** The outcome of an operation that may raise one of the source's exceptions. */
  datatype Result<+T> = Ok(value: T) | Err(error: Error) {
    predicate IsFailure() { Err? }
    function PropagateFailure<U>(): Result<U> requires Err? { Err(error) }
    function Extract(): T requires Ok? { value }
  }

  /** The exceptions raised along the paths that are modelled. */
  datatype Error =
      /** ValueError from the value-type dispatch or cast: the metric's value type is not INT64. */
    | UnimplementedValueType
      /** ValueError from label validation, carrying the set of missing extra-label keys. */
    | MissingLabelValues(missing: set<string>)
      /** ValueError from strptime: the text does not match the expected pattern or is no valid date. */
    | TimeDataMismatch
      /** ValueError from int(): the text is not a decimal integer. */
    | InvalidLiteral
      /** TypeError: int(None), or a field of None read (the subscriber reducer on an empty stream). */
    | NoneValue
      /** KeyError: a dictionary key that is absent. */
    | MissingKey(key: string)
      /** AssertionError: non-200 HTTP status, or a query page that holds other than one series. */
    | Assertion(detail: AssertionDetail)
      /** OverflowError: an instant before datetime.min. */
    | DateOutOfRange
      /** NotFoundError: an unknown category was asked for. */
    | NotFound
      /** The monitoring backend rejected a write (for instance a duplicate point). */
    | BackendRejected

  datatype AssertionDetail = Non200Status(status: int) | SeriesCount(count: nat)
}
