/** What an operation that may refuse returns: a value, or the code of the refusal. */
module Outcomes {
  datatype Result<+T> = Success(value: T) | Failure(error: string)
}
