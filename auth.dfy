/**
 * The authentication guards and account routes: the two token middlewares,
 * the hard-coded token endpoint, sign-up and password change. The JWT
 * library and the identity provider are oracles (`verify`, `Identity`).
 */
module Auth {
  import opened Wrappers
  import opened Text
  import opened Providers
  import opened Validation

  /** What a middleware does: answer with an error status, or call `next` with `req.user` set. */
  datatype Gate = Halt(code: int) | Next(user: string)

  /**
   * authenticateToken: no `authorization` header answers 401; otherwise the
   * second space-separated field is verified, 403 on failure. A header with
   * no space has no second field, which the JWT library always rejects.
   */
  function AuthenticateToken(authorization: Option<string>, verify: string -> Option<string>): (g: Gate)
    ensures authorization.None? || authorization == Some("") ==> g == Halt(401)
    ensures g.Next? <==>
      && authorization.Some?
      && SecondField(authorization.value, ' ').Some?
      && verify(SecondField(authorization.value, ' ').value).Some?
    ensures g.Next? ==> Some(g.user) == verify(SecondField(authorization.value, ' ').value)
    ensures g.Halt? && g.code == 403 <==> authorization.Some? && authorization.value != "" && !g.Next?
  {
    match authorization
    case None => Halt(401)
    case Some(header) =>
      if header == "" then Halt(401)
      else
        match SecondField(header, ' ')
        case None => Halt(403)
        case Some(token) =>
          match verify(token)
          case None => Halt(403)
          case Some(user) => Next(user)
  }

  /** A `Bearer <token>` header passes exactly when the token verifies, and yields its user. */
  lemma BearerHeader(token: string, verify: string -> Option<string>)
    requires ' ' !in token
    ensures AuthenticateToken(Some("Bearer " + token), verify) ==
      match verify(token) case None => Halt(403) case Some(user) => Next(user)
  {
    assert "Bearer " + token == "Bearer" + [' '] + token;
    SecondFieldOfJoin("Bearer", ' ', token);
    assert FirstField(token, ' ') == token;
  }

  /** userAuth: the `auth` header must verify as an ID token, or the answer is 401. */
  function UserAuth(auth: Option<string>, identity: Identity): (g: Gate)
    ensures g.Halt? ==> g.code == 401
    ensures g.Next? <==> auth.Some? && identity.verifyIdToken(auth.value).Some?
    ensures g.Next? ==> Some(g.user) == identity.verifyIdToken(auth.value)
  {
    match auth
    case None => Halt(401)
    case Some(token) =>
      match identity.verifyIdToken(token)
      case None => Halt(401)
      case Some(decoded) => Next(decoded)
  }

  /**
   * `app.use(userAuth)` is registered before every route below, so each of
   * them runs only once the request's `auth` header has passed `UserAuth`.
   */
  predicate Authenticated(auth: Option<string>, identity: Identity)
  {
    UserAuth(auth, identity).Next?
  }

  /** GET /getaccount: behind `userAuth` and `authenticateToken`, answers with the decoded token's user. */
  function GetAccount(auth: Option<string>, identity: Identity, authorization: Option<string>,
                      verify: string -> Option<string>): (r: Reply<string>)
    ensures !Authenticated(auth, identity) || authorization.None? ==> r == Failure(401)
    ensures r.Failure? ==> r.code in {401, 403}
    ensures r.Success? <==>
      && Authenticated(auth, identity)
      && authorization.Some?
      && SecondField(authorization.value, ' ').Some?
      && verify(SecondField(authorization.value, ' ').value).Some?
    ensures r.Success? ==> Some(r.data) == verify(SecondField(authorization.value, ' ').value)
  {
    if !Authenticated(auth, identity) then Failure(401)
    else
      match AuthenticateToken(authorization, verify)
      case Halt(code) => Failure(code)
      case Next(user) => Success(user)
  }

  const TokenLifetime := 3600

  /** The `data` of a successful POST /token. */
  datatype TokenGrant = TokenGrant(accessToken: string, tokenType: string, expiresIn: int)

  /**
   * POST /token as written: the payload it signs names a `username` declared
   * nowhere, so the credentials that pass the check raise a reference error,
   * which the framework's default error handler answers with 500.
   */
  function IssueTokenAsWritten(auth: Option<string>, identity: Identity, email: string, password: string): (r: Reply<TokenGrant>)
    ensures r.Failure?
    ensures !Authenticated(auth, identity) ==> r.code == 401
    ensures Authenticated(auth, identity) ==> (r.code == 500 <==> email == "email" && password == "pass")
  {
    if !Authenticated(auth, identity) then Failure(401)
    else if email == "email" && password == "pass" then Failure(500)
    else Failure(401)
  }

  /**
   * POST /token as intended: behind `userAuth`, only the literal credentials
   * `email` / `pass` obtain a one-hour bearer token, the token `jwt.sign` returns.
   */
  function IssueToken(auth: Option<string>, identity: Identity, email: string, password: string, signed: string): (r: Reply<TokenGrant>)
    ensures r.Success? <==> Authenticated(auth, identity) && email == "email" && password == "pass"
    ensures r.Success? ==> r.data == TokenGrant(signed, "Bearer", TokenLifetime)
    ensures r.Failure? ==> r.code == 401
  {
    if !Authenticated(auth, identity) then Failure(401)
    else if email == "email" && password == "pass" then Success(TokenGrant(signed, "Bearer", TokenLifetime))
    else Failure(401)
  }

  /** The route as written never issues a token; where the intended one issues it, the written one answers 500. */
  lemma TokenRouteNeverIssues(auth: Option<string>, identity: Identity, signed: string)
    requires Authenticated(auth, identity)
    ensures IssueToken(auth, identity, "email", "pass", signed).Success?
    ensures IssueTokenAsWritten(auth, identity, "email", "pass") == Failure(500)
  {
  }

  /** POST /signup: behind `userAuth`, the password policy runs before the provider is asked to create the user. */
  function Signup(identity: Identity, auth: Option<string>, email: string, password: string): (r: Traced<string>)
    ensures !Authenticated(auth, identity) ==> r == Traced(Failure(401), [])
    ensures Authenticated(auth, identity) && !IsPasswordValid(password) ==> r == Traced(Failure(400), [])
    ensures Authenticated(auth, identity) && IsPasswordValid(password) ==> r.calls == [CreateUser(email, password)]
    ensures r.reply.Success? <==>
      Authenticated(auth, identity) && IsPasswordValid(password) && identity.createUser(email, password).Some?
    ensures r.reply.Success? ==> Some(r.reply.data) == identity.createUser(email, password)
    ensures r.reply.Failure? ==> r.reply.code in {400, 401, 500}
  {
    if !Authenticated(auth, identity) then Traced(Failure(401), [])
    else if !IsPasswordValid(password) then Traced(Failure(400), [])
    else
      var calls := [CreateUser(email, password)];
      match identity.createUser(email, password)
      case None => Traced(Failure(500), calls)
      case Some(user) => Traced(Success(user), calls)
  }

  /** Sign-up never hands the provider a password that breaks the policy. */
  lemma SignupGuardsProvider(identity: Identity, auth: Option<string>, email: string, password: string, c: Call)
    requires c in Signup(identity, auth, email, password).calls
    ensures c == CreateUser(email, password)
    ensures |c.password| >= MinPasswordLength
    ensures exists i :: 0 <= i < |c.password| && IsAsciiUpper(c.password[i])
    ensures exists j :: 0 <= j < |c.password| && c.password[j] in PasswordSymbols
  {
  }

  /** POST /changepassword: behind `userAuth`, look the user up by email, then pass the new password on as it is. */
  function ChangePassword(identity: Identity, auth: Option<string>, email: string, newPassword: string): (r: Traced<()>)
    ensures !Authenticated(auth, identity) ==> r == Traced(Failure(401), [])
    ensures Authenticated(auth, identity) && identity.getUserByEmail(email).None? ==>
      r == Traced(Failure(500), [GetUserByEmail(email)])
    ensures Authenticated(auth, identity) && identity.getUserByEmail(email).Some? ==>
      r.calls == [GetUserByEmail(email), UpdateUser(identity.getUserByEmail(email).value, newPassword)]
    ensures r.reply.Success? <==>
      && Authenticated(auth, identity)
      && identity.getUserByEmail(email).Some?
      && identity.updateUser(identity.getUserByEmail(email).value, newPassword)
    ensures r.reply.Failure? ==> r.reply.code in {401, 500}
  {
    if !Authenticated(auth, identity) then Traced(Failure(401), [])
    else
      var calls := [GetUserByEmail(email)];
      match identity.getUserByEmail(email)
      case None => Traced(Failure(500), calls)
      case Some(uid) =>
        var calls' := calls + [UpdateUser(uid, newPassword)];
        if identity.updateUser(uid, newPassword) then Traced(Success(()), calls') else Traced(Failure(500), calls')
  }

  /**
   * The password policy guards sign-up only: a password that sign-up refuses
   * with 400 is accepted by the password change when the provider takes it.
   */
  lemma ChangePasswordSkipsPolicy(identity: Identity, auth: Option<string>, email: string, password: string)
    requires Authenticated(auth, identity)
    requires !IsPasswordValid(password)
    requires identity.getUserByEmail(email).Some?
    requires identity.updateUser(identity.getUserByEmail(email).value, password)
    ensures Signup(identity, auth, email, password).reply == Failure(400)
    ensures ChangePassword(identity, auth, email, password).reply == Success(())
  {
  }

  /** The weak example password never reaches the provider; the strong one does once `userAuth` has passed. */
  lemma SignupExample(identity: Identity, auth: Option<string>, email: string)
    ensures Signup(identity, auth, email, "short1!").calls == []
    ensures Signup(identity, auth, email, "short1!").reply.Failure?
    ensures Authenticated(auth, identity) ==>
      Signup(identity, auth, email, "LongEnough1!").calls == [CreateUser(email, "LongEnough1!")]
  {
    PasswordExamples();
  }
}
