// Option and Result values used for the agent's optional lookups and
// Go-style (value, error) returns.
module Wrappers {

  datatype Option<T> = None | Some(value: T)
  {
    predicate IsSome() { Some? }

    function GetOr(default: T): T
    {
      match this
      case None => default
      case Some(v) => v
    }
  }

  // An error is carried as its message text, since the source builds the
  // messages it reports to the client by string concatenation.
  datatype Result<T> = Ok(value: T) | Err(msg: string)
  {
    predicate IsFailure() { Err? }
  }
}
