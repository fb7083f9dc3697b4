/** What a handler answers, and the environment it cannot see.

    Every handler responds either with a resource (200), a creation notice
    carrying the new id (201), a confirmation message (200), or a JSON error
    body `{"error": ...}` with a 4xx/5xx status. */
module Replies {

  import opened Wrappers

  /** The outcome of the parts of a request that lie outside the handler:
      whether the database connection could be opened, and whether the one
      SQL statement the handler then runs raised (with the exception's text). */
  datatype Env = Env(connects: bool, fault: Option<string>)
  {
    /** Connection opened and the statement ran without raising. */
    predicate Healthy()
    {
      connects && fault.None?
    }
  }

  datatype Reply<+T> =
    | Ok(body: T)
    | Created(message: string, id: nat)
    | Done(message: string)
    | Failed(code: nat, error: string)
  {
    function Status(): nat
    {
      match this
      case Ok(_) => 200
      case Created(_, _) => 201
      case Done(_) => 200
      case Failed(code, _) => code
    }
  }

  const ConnectionMessage: string := "Error de conexión a base de datos"
  const NothingToUpdateMessage: string := "No hay campos para actualizar"

  function MissingFieldMessage(field: string): string
  {
    "Campo requerido: " + field
  }

  /** The reply when the connection cannot be opened. */
  function ConnectionFailed<T>(): Reply<T>
  {
    Failed(500, ConnectionMessage)
  }

  /** The reply when a required field of a create request is absent. */
  function MissingField<T>(field: string): Reply<T>
  {
    Failed(400, MissingFieldMessage(field))
  }

  /** The reply when an update names no column it may change. */
  function NothingToUpdate<T>(): Reply<T>
  {
    Failed(400, NothingToUpdateMessage)
  }

  /** The reply when the statement raised: status 500 with the exception text. */
  function Raised<T>(error: string): Reply<T>
  {
    Failed(500, error)
  }

  function NotFound<T>(message: string): Reply<T>
  {
    Failed(404, message)
  }
}
