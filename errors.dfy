/** Go `error` values as the model sees them: either an error produced by a
    call outside the model (an OS call, the HTTP transport), known only by its
    text, or an error wrapped by `fmt.Errorf` with a `%w` verb behind a fixed
    prefix. */
module Errors {
  import opened Wrappers

  datatype Error =
    | Message(text: string)
    | Wrapped(prefix: string, cause: Error)

  /** `err.Error()`: a wrapped error reads as its prefix followed by the
      text of its cause. */
  function Text(e: Error): string
  {
    match e
    case Message(t) => t
    case Wrapped(p, c) => p + Text(c)
  }

  /** `errors.Unwrap`: the cause of a wrapped error, nothing otherwise. */
  function Unwrap(e: Error): (r: Option<Error>)
    ensures r.Some? <==> e.Wrapped?
    ensures r.Some? ==> Text(e) == e.prefix + Text(r.value)
  {
    match e
    case Message(_) => None
    case Wrapped(_, c) => Some(c)
  }
}
