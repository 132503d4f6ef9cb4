/// `requireAuth`: parses `Authorization: Bearer <token>`, verifies the token and
/// picks the caller's user id from its payload. Token verification is a
/// parameter: `verify(token)` is the decoded payload, or None when it throws.
module AuthMiddleware {
  import opened Common
  import opened Text

  /** A JSON value found in a token payload. */
  datatype Claim = Undefined | Null | Bool(b: bool) | Num(n: int) | Str(s: string)

  predicate Truthy(c: Claim) {
    match c
    case Undefined => false
    case Null => false
    case Bool(b) => b
    case Num(n) => n != 0
    case Str(s) => s != ""
  }

  datatype TokenPayload = TokenPayload(userId: Claim, id: Claim, sub: Claim)

  /** Either the request is answered 401 with `error`, or `next()` runs with `req.userId` set. */
  datatype AuthOutcome = Unauthorized(error: string) | Next(userId: Claim)

  /** `decoded.userId || decoded.id || decoded.sub || null`. */
  function ResolveUserId(p: TokenPayload): (r: Claim)
    ensures Truthy(r) <==> Truthy(p.userId) || Truthy(p.id) || Truthy(p.sub)
    ensures Truthy(p.userId) ==> r == p.userId
    ensures !Truthy(p.userId) && Truthy(p.id) ==> r == p.id
    ensures !Truthy(p.userId) && !Truthy(p.id) && Truthy(p.sub) ==> r == p.sub
    ensures !Truthy(r) ==> r == Null
  {
    if Truthy(p.userId) then p.userId
    else if Truthy(p.id) then p.id
    else if Truthy(p.sub) then p.sub
    else Null
  }

  /** The token of a header that splits on single spaces into exactly `Bearer` and one more part. */
  function BearerToken(header: string): Option<string> {
    var parts := Split(header, ' ');
    if |parts| != 2 || parts[0] != "Bearer" then None else Some(parts[1])
  }

  /** A header is accepted exactly when it is `Bearer`, one space, and a token without spaces. */
  lemma BearerFormat(header: string, token: string)
    ensures BearerToken(header) == Some(token) <==> header == "Bearer " + token && ' ' !in token
  {
    if header == "Bearer " + token && ' ' !in token {
      assert header == Join(["Bearer", token], ' ');
      SplitJoin(["Bearer", token], ' ');
    }
    if BearerToken(header) == Some(token) {
      var parts := Split(header, ' ');
      assert header == Join(parts, ' ') == parts[0] + [' '] + parts[1];
    }
  }

  function RequireAuth(header: Option<string>, verify: string -> Option<TokenPayload>): (r: AuthOutcome)
    ensures !Present(header) ==> r == Unauthorized("Missing Authorization header")
    ensures Present(header) && BearerToken(header.value).None? ==> r == Unauthorized("Invalid Authorization format")
    ensures Present(header) && BearerToken(header.value).Some? && verify(BearerToken(header.value).value).None?
      ==> r == Unauthorized("Unauthorized")
    ensures r.Next? <==>
      && Present(header)
      && BearerToken(header.value).Some?
      && verify(BearerToken(header.value).value).Some?
      && Truthy(ResolveUserId(verify(BearerToken(header.value).value).value))
    ensures r.Next? ==> Truthy(r.userId) && r.userId == ResolveUserId(verify(BearerToken(header.value).value).value)
    ensures r.Unauthorized? && Present(header) && BearerToken(header.value).Some? && verify(BearerToken(header.value).value).Some?
      ==> r == Unauthorized("Invalid token payload")
  {
    if !Present(header) then Unauthorized("Missing Authorization header")
    else match BearerToken(header.value)
      case None => Unauthorized("Invalid Authorization format")
      case Some(token) =>
        match verify(token)
        case None => Unauthorized("Unauthorized")
        case Some(payload) =>
          var userId := ResolveUserId(payload);
          if !Truthy(userId) then Unauthorized("Invalid token payload") else Next(userId)
  }

  /** Only a well-formed bearer header whose verified payload names a user reaches `next()`. */
  lemma NextOnlyForBearer(header: Option<string>, verify: string -> Option<TokenPayload>)
    requires RequireAuth(header, verify).Next?
    ensures exists token :: header == Some("Bearer " + token) && ' ' !in token && verify(token).Some?
  {
    var token := BearerToken(header.value).value;
    BearerFormat(header.value, token);
  }
}
