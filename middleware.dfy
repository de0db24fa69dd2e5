/** Authentication middleware: how the bearer header and the outcome of JSON Web
    Token verification (RFC 7519) map to a rejection or to an authenticated
    request, the role guards, and the claims of issued tokens. Signing and
    verification themselves are parameters. */
module Middleware {
  import opened Common
  import opened Strings

  /** The claims a token carries and `req.user` holds. */
  datatype Claims = Claims(id: nat, username: string, email: string, role: string)

  /** What `jwt.verify` does with a token: decode it, or throw one of its errors. */
  datatype VerifyResult = Verified(claims: Claims) | Expired | Malformed | OtherFailure

  datatype AuthDecision = Pass(claims: Claims) | Reject(status: nat, error: string)

  /** `authHeader.split(' ')[1]`: the second space-separated word, that is the text
      after the first space up to the next space or the end; absent when the header
      holds no space. The scheme word before it is not checked. */
  function BearerToken(header: string): (r: Option<string>)
    ensures r.None? <==> ' ' !in header
    ensures r.Some? ==> ' ' !in r.value
    ensures r.Some? ==>
      (IndexOf(header, ' ').Some?
       && var rest := header[IndexOf(header, ' ').value + 1..];
          |r.value| <= |rest| && rest[..|r.value|] == r.value
          && (|r.value| < |rest| ==> rest[|r.value|] == ' '))
  {
    var parts := Split(header, ' ');
    match IndexOf(header, ' ')
    case None => None
    case Some(i) =>
      FirstSegmentIsPrefix(header[i + 1..], ' ');
      assert parts[1] == FirstSegment(header[i + 1..], ' ');
      Some(parts[1])
  }

  /** `authenticate`: 401 without a header or without a token, 500 without a secret;
      then the verification outcome decides: pass with its claims, 401 for an
      expired or malformed token, 500 for anything else. */
  function Authenticate(header: Option<string>, secret: Option<string>, verify: (string, string) -> VerifyResult)
    : (r: AuthDecision)
    ensures r.Reject? ==> r.status == UNAUTHORIZED || r.status == SERVER_ERROR
    ensures !Truthy(header) ==> r == Reject(UNAUTHORIZED, "No authorization header provided")
    ensures Truthy(header) && !Truthy(BearerToken(header.value)) ==> r == Reject(UNAUTHORIZED, "No token provided")
    ensures r.Pass? <==> (Truthy(header) && Truthy(BearerToken(header.value)) && Truthy(secret)
      && verify(BearerToken(header.value).value, secret.value).Verified?)
    ensures r.Pass? ==> r.claims == verify(BearerToken(header.value).value, secret.value).claims
    ensures r == Reject(UNAUTHORIZED, "Token expired") <==> (Truthy(header) && Truthy(BearerToken(header.value))
      && Truthy(secret) && verify(BearerToken(header.value).value, secret.value) == Expired)
    ensures Truthy(header) && Truthy(BearerToken(header.value)) && !Truthy(secret) ==>
      r == Reject(SERVER_ERROR, "Authentication failed")
    ensures (Truthy(header) && Truthy(BearerToken(header.value)) && Truthy(secret)
             && verify(BearerToken(header.value).value, secret.value) == Malformed) ==>
      r == Reject(UNAUTHORIZED, "Invalid token")
    ensures (Truthy(header) && Truthy(BearerToken(header.value)) && Truthy(secret)
             && verify(BearerToken(header.value).value, secret.value) == OtherFailure) ==>
      r == Reject(SERVER_ERROR, "Authentication failed")
  {
    if !Truthy(header) then Reject(UNAUTHORIZED, "No authorization header provided")
    else
      var token := BearerToken(header.value);
      if !Truthy(token) then Reject(UNAUTHORIZED, "No token provided")
      else if !Truthy(secret) then Reject(SERVER_ERROR, "Authentication failed")
      else
        match verify(token.value, secret.value)
        case Verified(c) => Pass(c)
        case Expired => Reject(UNAUTHORIZED, "Token expired")
        case Malformed => Reject(UNAUTHORIZED, "Invalid token")
        case OtherFailure => Reject(SERVER_ERROR, "Authentication failed")
  }

  /** The request as the middleware chain sees it: `authenticate` fills in `user`. */
  class Request {
    var user: Option<Claims>

    constructor()
      ensures user.None?
    {
      user := None;
    }

    /** `authenticate` on this request: on a pass `user` is set and `next` runs;
        on a rejection nothing changes and the status is returned. */
    method AuthenticateRequest(header: Option<string>, secret: Option<string>, verify: (string, string) -> VerifyResult)
      returns (rejected: Option<nat>, calledNext: bool)
      modifies this
      ensures calledNext <==> rejected.None?
      ensures Authenticate(header, secret, verify).Pass? ==> calledNext && user == Some(Authenticate(header, secret, verify).claims)
      ensures Authenticate(header, secret, verify).Reject? ==>
        rejected == Some(Authenticate(header, secret, verify).status) && user == old(user)
    {
      if header.None? || header.value == "" {
        return Some(UNAUTHORIZED), false;
      }
      var token := BearerToken(header.value);
      if token.None? || token.value == "" {
        return Some(UNAUTHORIZED), false;
      }
      if secret.None? || secret.value == "" {
        return Some(SERVER_ERROR), false;
      }
      var result := verify(token.value, secret.value);
      match result {
        case Verified(c) =>
          user := Some(c);
          rejected, calledNext := None, true;
        case Expired =>
          rejected, calledNext := Some(UNAUTHORIZED), false;
        case Malformed =>
          rejected, calledNext := Some(UNAUTHORIZED), false;
        case OtherFailure =>
          rejected, calledNext := Some(SERVER_ERROR), false;
      }
    }
  }

  /** `requireAdmin`: None lets the request through. */
  function RequireAdmin(user: Option<Claims>): (r: Option<nat>)
    ensures r.None? <==> user.Some? && user.value.role == "ADMIN"
    ensures r == Some(UNAUTHORIZED) <==> user.None?
    ensures r.Some? ==> r.value in {UNAUTHORIZED, FORBIDDEN_STATUS}
  {
    if user.None? then Some(UNAUTHORIZED)
    else if user.value.role != "ADMIN" then Some(FORBIDDEN_STATUS)
    else None
  }

  /** `requireUser`: both roles pass, any other role is refused. */
  function RequireUser(user: Option<Claims>): (r: Option<nat>)
    ensures r.None? <==> user.Some? && (user.value.role == "ADMIN" || user.value.role == "USER")
    ensures r == Some(UNAUTHORIZED) <==> user.None?
    ensures r.Some? ==> r.value in {UNAUTHORIZED, FORBIDDEN_STATUS}
  {
    if user.None? then Some(UNAUTHORIZED)
    else if user.value.role != "ADMIN" && user.value.role != "USER" then Some(FORBIDDEN_STATUS)
    else None
  }

  /** Whatever passes the admin guard passes the user guard. */
  lemma AdminPassesUserGuard(user: Option<Claims>)
    ensures RequireAdmin(user).None? ==> RequireUser(user).None?
  {
  }

  /** What `jwt.sign` is asked to sign. */
  datatype SignRequest = SignRequest(payload: Claims, secret: string, expiresIn: string)

  /** `generateToken`: None where it throws for a missing secret; otherwise it signs
      exactly the four claims, expiring after the configured time or "7d". */
  function GenerateToken(id: nat, username: string, email: string, role: string,
                         secret: Option<string>, expiresIn: Option<string>): (r: Option<SignRequest>)
    ensures r.None? <==> !Truthy(secret)
    ensures r.Some? ==> r.value.payload == Claims(id, username, email, role) && r.value.secret == secret.value
    ensures r.Some? && !Truthy(expiresIn) ==> r.value.expiresIn == "7d"
    ensures r.Some? && Truthy(expiresIn) ==> r.value.expiresIn == expiresIn.value
  {
    if !Truthy(secret) then None
    else Some(SignRequest(Claims(id, username, email, role), secret.value, OrElse(expiresIn, "7d")))
  }

  /** A token issued by `generateToken`, sent back as `Bearer <token>`, authenticates
      as exactly the claims it was issued for, provided the signer produces a
      non-empty token without spaces and verification accepts what the same secret signed. */
  lemma IssuedTokenAuthenticates(claims: Claims, secret: Option<string>, expiresIn: Option<string>,
                                 sign: SignRequest -> string, verify: (string, string) -> VerifyResult)
    requires Truthy(secret)
    requires var req := GenerateToken(claims.id, claims.username, claims.email, claims.role, secret, expiresIn).value;
      sign(req) != "" && ' ' !in sign(req) && verify(sign(req), secret.value) == Verified(req.payload)
    ensures var req := GenerateToken(claims.id, claims.username, claims.email, claims.role, secret, expiresIn).value;
      Authenticate(Some("Bearer " + sign(req)), secret, verify) == Pass(claims)
  {
    var req := GenerateToken(claims.id, claims.username, claims.email, claims.role, secret, expiresIn).value;
    var token := sign(req);
    assert "Bearer " + token == "Bearer" + [' '] + token;
    SplitAfterWord("Bearer", ' ', token);
    SplitNoSeparator(token, ' ');
    assert Split("Bearer " + token, ' ') == ["Bearer", token];
  }
}
