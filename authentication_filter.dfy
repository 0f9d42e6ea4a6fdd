/** AuthzFilterImpl (web-server/internal/middleware/authentication_filter.go): the middleware
    in front of every protected route. It reads the Authorization header, expects
    "Bearer <token>", validates the token and stores the caller's id in the context. Token
    validation (JWT signature and expiry) is a function the filter is given. */
module AuthenticationFilter {
  import opened Errors
  import opened GoStrings
  import opened Gin
  import opened Helper

  const AuthorizationHeader := "Authorization"
  const Bearer := "Bearer "
  const NoHeaderMsg := "No Authorization header provided"
  const BadFormatMsg := "Incorrect Format of Authorization Token"
  const BadTokenMsg := "Invalid Authorization token"

  /** What the header holds: nothing, something that is not "<x>Bearer <y>" with exactly one
      separator, or a token. */
  datatype HeaderClass = Missing | Malformed | Token(token: string)

  function ClassifyHeader(header: string): HeaderClass
  {
    if header == "" then Missing
    else
      var pieces := Split(header, Bearer);
      if |pieces| == 2 then Token(TrimSpace(pieces[1])) else Malformed
  }

  lemma BearerHeadOccursOnce()
    ensures HeadOccursOnce(Bearer)
  {
  }

  /** A header made of two pieces around a single "Bearer " carries the second piece,
      trimmed, as its token. */
  lemma TokenOfTwoPieces(a: string, b: string)
    requires !Contains(a, Bearer) && !Contains(b, Bearer)
    ensures ClassifyHeader(a + Bearer + b) == Token(TrimSpace(b))
  {
    BearerHeadOccursOnce();
    SplitTwo(a, b, Bearer);
  }

  /** Conversely, a header classified as a token is two such pieces around "Bearer ". */
  lemma TokenHasTwoPieces(header: string) returns (a: string, b: string)
    requires ClassifyHeader(header).Token?
    ensures header == a + Bearer + b && !Contains(a, Bearer) && !Contains(b, Bearer)
    ensures ClassifyHeader(header).token == TrimSpace(b)
  {
    var pieces := Split(header, Bearer);
    JoinSplit(header, Bearer);
    SplitPiecesLackSep(header, Bearer);
    a, b := pieces[0], pieces[1];
    assert pieces[1..] == [b];
  }

  // The headers of authentication_filter_test.go.

  lemma MalformedHeaderTestCase()
    ensures ClassifyHeader("Some token") == Malformed
  {
    var h := "Some token";
    LacksHeadLacksSep(h, Bearer);
    assert Split(h, Bearer) == [h];
  }

  /** The token of the test header holds no 'B', so no "Bearer " either, and no padding. */
  lemma TestTokenIsPlain(t: string)
    requires t == "sometoken"
    ensures !Contains(t, Bearer) && TrimSpace(t) == t
  {
    LacksHeadLacksSep(t, Bearer);
    TrimSpaceOfUnpadded(t);
  }

  lemma BearerHeaderTestCase()
    ensures ClassifyHeader(Bearer + "sometoken") == Token("sometoken")
  {
    var t := "sometoken";
    TestTokenIsPlain(t);
    assert !Contains("", Bearer);
    TokenOfTwoPieces("", t);
    assert "" + Bearer + t == Bearer + t;
  }

  /** The filter's decision: reject with a status and message, or admit the caller. */
  datatype Decision = Reject(status: int, msg: string) | Admit(userId: nat)

  function Decide(header: string, validateToken: string -> Result<nat>): (d: Decision)
  {
    match ClassifyHeader(header)
    case Missing => Reject(StatusForbidden, NoHeaderMsg)
    case Malformed => Reject(StatusBadRequest, BadFormatMsg)
    case Token(t) =>
      var claims := validateToken(t);
      if claims.Err? then Reject(StatusUnauthorized, BadTokenMsg) else Admit(claims.value)
  }

  /** The token validator is consulted only for a well-formed header: without one, the
      decision is the same whatever the validator. */
  lemma ValidatorOnlySeesTokens(header: string, v1: string -> Result<nat>, v2: string -> Result<nat>)
    requires !ClassifyHeader(header).Token?
    ensures Decide(header, v1) == Decide(header, v2)
    ensures Decide(header, v1).Reject? && Decide(header, v1).status != StatusUnauthorized
  {
  }

  /** The caller is admitted exactly when the header is "<a>Bearer <b>" with a single separator
      and the validator accepts the trimmed `b`; the admitted id is the one it returns. */
  lemma AdmitIff(a: string, b: string, validateToken: string -> Result<nat>)
    requires !Contains(a, Bearer) && !Contains(b, Bearer)
    ensures Decide(a + Bearer + b, validateToken).Admit? <==> validateToken(TrimSpace(b)).Ok?
    ensures Decide(a + Bearer + b, validateToken).Admit? ==>
      Decide(a + Bearer + b, validateToken).userId == validateToken(TrimSpace(b)).value
  {
    TokenOfTwoPieces(a, b);
  }

  class AuthzFilterImpl {
    const validateToken: string -> Result<nat>

    constructor (validateToken: string -> Result<nat>)
      ensures this.validateToken == validateToken
    {
      this.validateToken := validateToken;
    }

    /** Authz: a rejection writes one error reply whose code repeats the status, and aborts
        the chain; an admission stores the id under "userID", where GetIDFromContext finds
        it, and continues the chain. */
    method Authz(c: Context)
      modifies c
      ensures var d := Decide(old(c.Header(AuthorizationHeader)), validateToken);
        && (d.Reject? ==>
              && c.replies == old(c.replies) + [Reply(d.status, ErrorBody(d.status, d.msg))]
              && c.aborted && c.keys == old(c.keys) && c.continued == old(c.continued))
        && (d.Admit? ==>
              && c.keys == old(c.keys)[UserIdKey := UintValue(d.userId)]
              && GetIDFromContext(c.keys) == Ok(d.userId)
              && c.continued && c.replies == old(c.replies) && c.aborted == old(c.aborted))
      ensures c.headers == old(c.headers)
    {
      var clientToken := c.Header(AuthorizationHeader);
      if clientToken == "" {
        c.JSON(StatusForbidden, ErrorBody(StatusForbidden, NoHeaderMsg));
        c.Abort();
        return;
      }

      var extractedToken := Split(clientToken, Bearer);
      if |extractedToken| == 2 {
        clientToken := TrimSpace(extractedToken[1]);
      } else {
        c.JSON(StatusBadRequest, ErrorBody(StatusBadRequest, BadFormatMsg));
        c.Abort();
        return;
      }

      var claims := validateToken(clientToken);
      if claims.Err? {
        c.JSON(StatusUnauthorized, ErrorBody(StatusUnauthorized, BadTokenMsg));
        c.Abort();
        return;
      }

      c.Set(UserIdKey, UintValue(claims.value));
      c.Next();
    }
  }
}
