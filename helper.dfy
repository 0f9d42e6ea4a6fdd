/** web-server/api/common/helper.go: reading the caller's id from the request context and
    turning an error into the HTTP reply the client sees. */
module Helper {
  import opened Errors
  import opened Gin

  const StatusOK := 200
  const StatusCreated := 201
  const StatusBadRequest := 400
  const StatusUnauthorized := 401
  const StatusForbidden := 403
  const StatusNotFound := 404
  const StatusInternalServerError := 500

  const ClientErrorPrefix := "Invalid request. Reason :"
  const ServerProblem := "Problem with the server, please try again later"

  /** getErrorResponseArguments: the status and message reported for an error. */
  function ErrorResponseArguments(err: Error): (r: (int, string))
    ensures r.0 == StatusBadRequest <==> err.ClientError?
    ensures r.0 == StatusNotFound <==> err.ItemNotFoundError?
    ensures r.0 == StatusInternalServerError <==> err.ServerError?
    ensures err.ClientError? ==> r.1 == ClientErrorPrefix + err.msg
    ensures err.ItemNotFoundError? ==> r.1 == err.msg
    ensures err.ServerError? ==> r.1 == ServerProblem
  {
    match err
    case ClientError(msg) => (StatusBadRequest, ClientErrorPrefix + msg)
    case ItemNotFoundError(msg) => (StatusNotFound, msg)
    case ServerError(_) => (StatusInternalServerError, ServerProblem)
  }

  /** The reply SendErrorResponse writes: its body repeats the status it is sent with. */
  function ErrorReply(err: Error): (r: Reply)
    ensures r.body.ErrorBody? && r.body.errorCode == r.status
    ensures (r.status, r.body.errorMsg) == ErrorResponseArguments(err)
  {
    var (code, msg) := ErrorResponseArguments(err);
    Reply(code, ErrorBody(code, msg))
  }

  /** The text of a server error never reaches the client: all server errors look alike. */
  lemma ServerErrorsLookAlike(e1: Error, e2: Error)
    requires e1.ServerError? && e2.ServerError?
    ensures ErrorReply(e1) == ErrorReply(e2)
  {
  }

  /** A client error or a missing item is reported with its full text: the reply tells the
      error apart from every other error that is not a server error. */
  lemma {:induction false} NonServerErrorsAreRecoverable(e1: Error, e2: Error)
    requires !e1.ServerError? && !e2.ServerError?
    requires ErrorReply(e1) == ErrorReply(e2)
    ensures e1 == e2
  {
    if e1.ClientError? {
      assert (ClientErrorPrefix + e1.msg)[|ClientErrorPrefix|..] == e1.msg;
      assert (ClientErrorPrefix + e2.msg)[|ClientErrorPrefix|..] == e2.msg;
    }
  }

  /** SendErrorResponse: one more reply, nothing else in the context changes. */
  method SendErrorResponse(c: Context, err: Error)
    modifies c
    ensures c.replies == old(c.replies) + [ErrorReply(err)]
    ensures c.headers == old(c.headers) && c.keys == old(c.keys)
    ensures c.aborted == old(c.aborted) && c.continued == old(c.continued)
  {
    var (code, msg) := ErrorResponseArguments(err);
    c.JSON(code, ErrorBody(code, msg));
  }

  const UserIdKey := "userID"
  const NoUserId := "Cannot retrieve the user id"
  const InvalidUserId := "Invalid user ID"

  /** GetIDFromContext: the id the authentication filter stored under "userID". */
  function GetIDFromContext(keys: map<string, Value>): (r: Result<nat>)
    ensures r.Ok? <==> UserIdKey in keys && keys[UserIdKey].UintValue?
    ensures r.Ok? ==> r.value == keys[UserIdKey].n
    ensures UserIdKey !in keys ==> r == Err(ServerError(NoUserId))
    ensures UserIdKey in keys && !keys[UserIdKey].UintValue? ==> r == Err(ClientError(InvalidUserId))
  {
    if UserIdKey !in keys then Err(ServerError(NoUserId))
    else match keys[UserIdKey]
      case UintValue(n) => Ok(n)
      case OtherValue => Err(ClientError(InvalidUserId))
  }

  /** The id a handler goes on with: Go returns 0 alongside the error. */
  function IdOrZero(r: Result<nat>): nat
  {
    if r.Ok? then r.value else 0
  }
}
