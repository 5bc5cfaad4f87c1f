/** Replies of the REST handlers. A failing handler answers with an HTTP
    status and a JSON body `{ message }`; that pair is all a client sees. */
module Http {

  /** A document identifier (`_id`), as it appears in routes, bodies and tokens. */
  type Id = string

  /** An optional value: a request-body field or a schema path that may be absent. */
  datatype Option<+T> = None | Some(value: T)

  /** An error reply: the status code and the `message` of its body. */
  datatype Error = Error(status: nat, message: string)

  /** The reply to an error a handler forwards with `next(error)`. The
      application's error middleware answers first, with the error's own
      status or else 500 and a body whose `message` is the error itself in
      development and `{}` otherwise; the handler's own 500 message is never
      sent. None of the errors forwarded here carries a status, and the body,
      which depends on the environment, is represented by an empty message. */
  const Unhandled := Error(500, "")

  /** The outcome of a handler: the value it computes, or the error reply it sends. */
  datatype Result<+T> = Ok(value: T) | Fail(error: Error)

  /** JavaScript truthiness of a string field: absent and "" are falsy. */
  predicate TruthyString(s: Option<string>) {
    s.Some? && s.value != ""
  }

  /** JavaScript truthiness of a numeric field: absent and 0 are falsy. */
  predicate TruthyNumber(n: Option<int>) {
    n.Some? && n.value != 0
  }
}
