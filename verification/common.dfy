/** Small shared vocabulary: optional values and the errors of the use cases. */
module Common {

  datatype Option<+T> = None | Some(value: T)
  {
    /** The answer so far, or `other` if there is none yet and the condition holds: a chain of these
        reads as a list of checks, of which the first that holds decides. */
    function OrIf(condition: bool, other: T): Option<T> {
      if Some? || !condition then this else Some(other)
    }

    function OrElse(other: Option<T>): Option<T> { if Some? then this else other }
  }

  datatype Error =
    | NotFound
    | Unauthorized
    | Forbidden(code: string)
    | Unprocessable(reason: string)
    | Conflict(what: string)
    | PluginBlocked
    | Internal

  /** The start of a list of checks. */
  const ALLOWED: Option<Error> := None

  /** Nothing but white space. */
  predicate Blank(text: string) {
    forall c <- text :: c == ' ' || c == '\t' || c == '\n' || c == '\r'
  }

  /** The longest reason a warning or a temporary ban may carry. */
  const MAX_BAN_REASON_LEN := 1000
}
