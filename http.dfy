/** A JSON response of the API routes: a status code and either `{ error }` or the payload. */
module Http {
  import opened Wrappers

  datatype Body<T> = Failure(error: string) | Payload(value: T)

  datatype Response<T> = Response(status: int, body: Body<T>)

  /** A request field that JavaScript treats as false: absent, null or the empty string. */
  predicate Falsy(field: Option<string>) {
    field.None? || field.value == ""
  }
}
