/** The part of a gin request context the handlers and the middleware touch: the request's
    headers, the per-request key/value store, the JSON replies written, and whether the
    handler chain was aborted or continued. */
module Gin {

  /** A value stored under a context key: an unsigned integer, or a value of any other type. */
  datatype Value = UintValue(n: nat) | OtherValue

  /** The JSON bodies the handlers write. */
  datatype Body =
    | ErrorBody(errorCode: int, errorMsg: string)   // common.ErrorResponse
    | BasicBody(status: int)                        // common.BasicResponse
    | LoginBody(status: int, token: string)         // common.LoginResponse
    | FileIdBody(status: int, fileId: nat)          // {"status", "file_id"} after an upload
    | FileBody(group: string, fileId: nat, fileName: string)  // c.File of <groupsDir>/<group>/<fileId>
    | NotFoundPage                                  // c.File of a path that does not exist

  /** One call of c.JSON (or c.File): the status and the body. */
  datatype Reply = Reply(status: int, body: Body)

  class Context {
    var headers: map<string, string>
    var keys: map<string, Value>
    var replies: seq<Reply>
    var aborted: bool
    var continued: bool

    constructor (headers: map<string, string>, keys: map<string, Value>)
      ensures this.headers == headers && this.keys == keys
      ensures replies == [] && !aborted && !continued
    {
      this.headers := headers;
      this.keys := keys;
      replies := [];
      aborted := false;
      continued := false;
    }

    /** Header.Get: the value of the header, or "" when it is absent. */
    function Header(name: string): (v: string)
      reads this
      ensures name !in headers ==> v == ""
      ensures name in headers ==> v == headers[name]
    {
      if name in headers then headers[name] else ""
    }

    method JSON(status: int, body: Body)
      modifies this
      ensures replies == old(replies) + [Reply(status, body)]
      ensures headers == old(headers) && keys == old(keys)
      ensures aborted == old(aborted) && continued == old(continued)
    {
      replies := replies + [Reply(status, body)];
    }

    method Abort()
      modifies this
      ensures aborted
      ensures headers == old(headers) && keys == old(keys) && replies == old(replies)
      ensures continued == old(continued)
    {
      aborted := true;
    }

    method Set(key: string, v: Value)
      modifies this
      ensures keys == old(keys)[key := v]
      ensures headers == old(headers) && replies == old(replies)
      ensures aborted == old(aborted) && continued == old(continued)
    {
      keys := keys[key := v];
    }

    /** c.Next: the rest of the handler chain runs (it is not part of this model). */
    method Next()
      modifies this
      ensures continued
      ensures headers == old(headers) && keys == old(keys) && replies == old(replies)
      ensures aborted == old(aborted)
    {
      continued := true;
    }
  }
}
