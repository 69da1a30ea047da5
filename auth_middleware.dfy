/**
 * The request gate in front of the protected routes: the bearer token is
 * read from the Authorization header and verified, then the role gates
 * compare the token's account type with the one the route demands.
 * jwt verification is the parameter `verify`.
 */
module AuthMiddleware {
  import opened Wrappers
  import opened Text
  import opened Schema
  import AuthController

  /** What a gate does with a request: answer it with an error, or pass it on with `req.user` set. */
  datatype Gate = Reject(code: nat, message: string) | Next(user: Claims)

  /** `authHeader && authHeader.split(' ')[1]`: the second space-separated word, if any and non-empty. */
  function TokenFrom(header: Option<string>): (token: Option<string>)
    ensures token.Some? ==> header.Some? && token.value != "" && ' ' !in token.value
    ensures token.Some? ==> |Split(header.value, ' ')| >= 2 && token.value == Split(header.value, ' ')[1]
    ensures header.Some? && |Split(header.value, ' ')| >= 2 && Split(header.value, ' ')[1] != "" ==> token.Some?
  {
    match header
    case None => None
    case Some(h) =>
      var words := Split(h, ' ');
      if |words| >= 2 && words[1] != "" then Some(words[1]) else None
  }

  /** A header written as `<scheme> <token>` yields the token, whatever the scheme word. */
  lemma BearerToken(scheme: string, token: string)
    requires ' ' !in scheme && ' ' !in token && token != ""
    ensures TokenFrom(Some(scheme + " " + token)) == Some(token)
  {
    SplitPieceThen(scheme, ' ', token);
    SplitPiece(token, ' ');
    assert scheme + " " + token == scheme + [' '] + token;
  }

  /** authenticateToken: 401 without a token, 403 for a token that does not verify, else its payload. */
  function AuthenticateToken(header: Option<string>, verify: string -> Option<Claims>): (g: Gate)
    ensures TokenFrom(header).None? ==> g == Reject(401, "Access token required")
    ensures TokenFrom(header).Some? && verify(TokenFrom(header).value).None? ==> g == Reject(403, "Invalid or expired token")
    ensures g.Next? <==> TokenFrom(header).Some? && verify(TokenFrom(header).value).Some?
    ensures g.Next? ==> g.user == verify(TokenFrom(header).value).value
  {
    match TokenFrom(header)
    case None => Reject(401, "Access token required")
    case Some(token) =>
      match verify(token)
      case None => Reject(403, "Invalid or expired token")
      case Some(user) => Next(user)
  }

  /** The refusal message of each role gate. */
  function RoleMessage(kind: string): string {
    if kind == AuthController.UserKind then "Access denied. User only."
    else if kind == AuthController.DriverKind then "Access denied. Driver only."
    else "Access denied. Admin only."
  }

  /** A role gate: token verification first, then the account type must be exactly `kind`. */
  function AuthenticateRole(header: Option<string>, verify: string -> Option<Claims>, kind: string): (g: Gate)
    ensures AuthenticateToken(header, verify).Reject? ==> g == AuthenticateToken(header, verify)
    ensures g.Next? <==> AuthenticateToken(header, verify).Next? && AuthenticateToken(header, verify).user.kind == kind
    ensures g.Next? ==> g == AuthenticateToken(header, verify)
    ensures AuthenticateToken(header, verify).Next? && !g.Next? ==> g == Reject(403, RoleMessage(kind))
  {
    match AuthenticateToken(header, verify)
    case Reject(code, message) => Reject(code, message)
    case Next(user) => if user.kind != kind then Reject(403, RoleMessage(kind)) else Next(user)
  }

  /** authenticateUser. */
  function AuthenticateUser(header: Option<string>, verify: string -> Option<Claims>): (g: Gate)
    ensures g.Next? ==> g.user.kind == AuthController.UserKind
  {
    AuthenticateRole(header, verify, AuthController.UserKind)
  }

  /** authenticateDriver. */
  function AuthenticateDriver(header: Option<string>, verify: string -> Option<Claims>): (g: Gate)
    ensures g.Next? ==> g.user.kind == AuthController.DriverKind
  {
    AuthenticateRole(header, verify, AuthController.DriverKind)
  }

  /** authenticateAdmin. */
  function AuthenticateAdmin(header: Option<string>, verify: string -> Option<Claims>): (g: Gate)
    ensures g.Next? ==> g.user.kind == AuthController.AdminKind
  {
    AuthenticateRole(header, verify, AuthController.AdminKind)
  }

  /**
   * A token issued for an account of type `kind`, sent back as `Bearer <token>`,
   * passes exactly the gate of that type, provided verification inverts signing.
   */
  lemma IssuedTokenAdmitted(id: nat, kind: string, other: string,
                            sign: Claims -> string, verify: string -> Option<Claims>)
    requires verify(sign(Claims(id, kind))) == Some(Claims(id, kind))
    requires ' ' !in sign(Claims(id, kind)) && sign(Claims(id, kind)) != ""
    requires other != kind
    ensures AuthenticateRole(Some("Bearer " + AuthController.GenerateToken(id, kind, sign)), verify, kind)
      == Next(Claims(id, kind))
    ensures AuthenticateRole(Some("Bearer " + AuthController.GenerateToken(id, kind, sign)), verify, other)
      == Reject(403, RoleMessage(other))
  {
    var token := AuthController.GenerateToken(id, kind, sign);
    assert "Bearer " + token == "Bearer" + " " + token;
    BearerToken("Bearer", token);
  }
}
