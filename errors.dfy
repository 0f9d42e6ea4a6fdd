/** The three error kinds of web-server/internal/error/errors.go and the result wrappers
    every operation of the model returns. */
module Errors {

  /** ClientError: a problem with the request; ItemNotFoundError: a row the request names
      does not exist; ServerError: a failure of the store or the file system. Each carries
      the text its Error() method returns. */
  datatype Error =
    | ClientError(msg: string)
    | ItemNotFoundError(msg: string)
    | ServerError(msg: string)

  /** The text of an error wrapped with a description (errors.Wrap / errors.Wrapf). */
  function Wrap(desc: string, cause: string): string
  {
    desc + ": " + cause
  }

  /** NewServerErrorWrap: a ServerError whose text is the description followed by the cause. */
  function ServerErrorWrap(cause: Error, desc: string): Error
  {
    ServerError(Wrap(desc, cause.msg))
  }

  /** NewClientErrorWrap: a ClientError whose text is the description followed by the cause. */
  function ClientErrorWrap(cause: Error, desc: string): Error
  {
    ClientError(Wrap(desc, cause.msg))
  }

  /** What a Go function returning only `error` returns. */
  datatype Outcome = Pass | Fail(error: Error)

  /** What a Go function returning `(T, error)` returns. */
  datatype Result<T> = Ok(value: T) | Err(error: Error)

  datatype Option<T> = None | Some(value: T)
}
