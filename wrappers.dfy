/** Optional values, results, and the three states of a JSON object key. */
module Wrappers {

  datatype Option<+T> = None | Some(value: T)

  datatype Result<+T, +E> = Success(value: T) | Failure(error: E)

  /** A key of a JSON request body: missing, present with `null`, or present with a value. */
  datatype Field<+T> = Absent | Null | Given(value: T)

  /** Python truthiness of an optional string (`None` and `''` are falsy). */
  predicate TruthyText(o: Option<string>) {
    o.Some? && o.value != []
  }
}
