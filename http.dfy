/** The shape of an HTTP answer: a status code and a JSON body. */
module Http {

  /** The field a failure body carries its text in: `{ error: ... }` or `{ message: ... }`. */
  datatype Key = ErrorKey | MessageKey

  datatype Reply<+T> =
    | Success(status: int, value: T)
    | Failure(status: int, key: Key, text: string)
}
