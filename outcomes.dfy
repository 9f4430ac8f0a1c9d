/** Shared vocabulary for the outcome of a remote call and of a Python call.

    A remote call (an HTTP request, a PyGithub request) is never executed by the
    model: its answer is an input, a `Reply`. A Python function either returns a
    value or raises an exception that travels to its caller: an `Outcome`. */
module Outcomes {

  datatype Option<+T> = None | Some(value: T)

  /** The exception classes the source distinguishes in its `except` clauses:
      `GithubException`, `requests.exceptions.RequestException`, and any other
      exception (`KeyError`, `AttributeError`, `TypeError`, ...). */
  datatype ErrorKind = GithubError | RequestError | OtherError

  /** The answer a remote service gives to one request: a decoded body, or the
      exception the client library raises for it. */
  datatype Reply<+T> = Ok(value: T) | Fail(kind: ErrorKind)

  /** How a Python call completes: it returns a value or raises. */
  datatype Outcome<+T> = Returned(value: T) | Raised(kind: ErrorKind)
}
