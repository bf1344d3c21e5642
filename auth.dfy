/** Sessions: the bearer token, login, and resolving the caller of a gated
    handler. Signing is abstract: a token either carries claims this server
    signed or it does not verify. */
module Auth {
  import opened Wrappers
  import opened Records

  const ACCESS_TOKEN_EXPIRE_MINUTES := 1440
  const TOKEN_LIFETIME_SECONDS := ACCESS_TOKEN_EXPIRE_MINUTES * 60

  /** The payload of a session token; exp is in POSIX seconds. */
  datatype Claims = Claims(userId: int, username: string, role: string, exp: int)

  /** A bearer credential as the server sees it: claims under this server's
      signature, or anything else (bad signature, malformed, other algorithm). */
  datatype Token = Signed(claims: Claims) | Unverifiable

  datatype LoginReply = LoginReply(accessToken: Token, tokenType: string, role: string)

  /** A token for the given identity that expires 1440 minutes after issuedAt. */
  function CreateAccessToken(userId: int, username: string, role: string, issuedAt: int): Token {
    Signed(Claims(userId, username, role, issuedAt + TOKEN_LIFETIME_SECONDS))
  }

  /** Signature and expiry check; the token library rejects exp <= now. */
  function VerifyToken(token: Token, now: int): (r: Result<Claims>)
    ensures r.Ok? <==> token.Signed? && now < token.claims.exp
    ensures r.Ok? ==> r.value == token.claims
    ensures r.Err? ==> r.error == Unauthorized("Invalid token")
  {
    match token
    case Unverifiable => Err(Unauthorized("Invalid token"))
    case Signed(claims) =>
      if claims.exp <= now then Err(Unauthorized("Invalid token")) else Ok(claims)
  }

  /** A freshly issued token verifies exactly until its expiry and gives
      back the identity it was issued for. */
  lemma TokenRoundTrip(userId: int, username: string, role: string, issuedAt: int, now: int)
    ensures VerifyToken(CreateAccessToken(userId, username, role, issuedAt), now).Ok?
            <==> now < issuedAt + 86400
    ensures var v := VerifyToken(CreateAccessToken(userId, username, role, issuedAt), now);
            v.Ok? ==> v.value.userId == userId && v.value.username == username && v.value.role == role
    ensures var v := VerifyToken(CreateAccessToken(userId, username, role, issuedAt), now);
            v.Err? ==> v.error == Unauthorized("Invalid token")
  {
  }

  predicate UniqueIds(users: seq<User>) {
    forall i, j :: 0 <= i < |users| && 0 <= j < |users| && users[i].id == users[j].id ==> i == j
  }

  predicate UniqueUsernames(users: seq<User>) {
    forall i, j :: 0 <= i < |users| && 0 <= j < |users| && users[i].username == users[j].username ==> i == j
  }

  /** SELECT * FROM users WHERE id = ?, first row. */
  function FindUser(users: seq<User>, id: int): (r: Option<User>)
    ensures r.Some? <==> exists i :: 0 <= i < |users| && users[i].id == id
    ensures r.Some? ==> r.value in users && r.value.id == id
  {
    if users == [] then None
    else if users[0].id == id then Some(users[0])
    else FindUser(users[1..], id)
  }

  /** SELECT * FROM users WHERE username = ? AND password = ?, first row. */
  function FindByCredentials(users: seq<User>, username: string, verifier: Digest): (r: Option<User>)
    ensures r.Some? <==> exists i :: 0 <= i < |users| && users[i].username == username && users[i].password == verifier
    ensures r.Some? ==> r.value in users && r.value.username == username && r.value.password == verifier
  {
    if users == [] then None
    else if users[0].username == username && users[0].password == verifier then Some(users[0])
    else FindByCredentials(users[1..], username, verifier)
  }

  /** POST /auth/login. */
  function Login(users: seq<User>, username: string, password: string, issuedAt: int): (r: Result<LoginReply>)
    ensures r.Ok? <==> exists u :: u in users && u.username == username && u.password == Sha256(password)
    ensures r.Ok? ==> exists u :: u in users && u.username == username && u.password == Sha256(password)
                        && r.value == LoginReply(CreateAccessToken(u.id, u.username, u.role, issuedAt), "bearer", u.role)
    ensures r.Err? ==> r.error == Unauthorized("Invalid credentials")
  {
    match FindByCredentials(users, username, Sha256(password))
    case None => Err(Unauthorized("Invalid credentials"))
    case Some(u) => Ok(LoginReply(CreateAccessToken(u.id, u.username, u.role, issuedAt), "bearer", u.role))
  }

  /** get_current_user: the caller is the users row the token's user_id names,
      looked up afresh; its role is the stored one, not the token's. */
  function GetCurrentUser(users: seq<User>, token: Token, now: int): (r: Result<User>)
    ensures r.Ok? <==> token.Signed? && now < token.claims.exp
                       && exists i :: 0 <= i < |users| && users[i].id == token.claims.userId
    ensures r.Ok? ==> r.value in users && r.value.id == token.claims.userId
    ensures r.Err? ==> r.error.StatusCode() == 401
    ensures r.Err? ==> r.error == if token.Signed? && now < token.claims.exp then Unauthorized("User not found")
                                  else Unauthorized("Invalid token")
  {
    match VerifyToken(token, now)
    case Err(e) => Err(e)
    case Ok(claims) =>
      match FindUser(users, claims.userId)
      case None => Err(Unauthorized("User not found"))
      case Some(u) => Ok(u)
  }

  /** The role check a gated handler makes after resolving its caller:
      401 comes first, then 403 for any other role. */
  function Authorize(users: seq<User>, token: Token, now: int, role: string, denial: string): (r: Result<User>)
    ensures r.Ok? <==> GetCurrentUser(users, token, now).Ok? && GetCurrentUser(users, token, now).value.role == role
    ensures r.Ok? ==> r.value == GetCurrentUser(users, token, now).value
    ensures GetCurrentUser(users, token, now).Err? ==> r == Err(GetCurrentUser(users, token, now).error)
    ensures GetCurrentUser(users, token, now).Ok? && r.Err? ==> r.error == Forbidden(denial)
  {
    match GetCurrentUser(users, token, now)
    case Err(e) => Err(e)
    case Ok(u) => if u.role != role then Err(Forbidden(denial)) else Ok(u)
  }

  /** Logging in and then presenting the token before it expires resolves
      to the very user whose credentials were given, with the role the
      login reply announced. */
  lemma LoginThenResolve(users: seq<User>, username: string, password: string, issuedAt: int, now: int)
    requires UniqueIds(users)
    requires Login(users, username, password, issuedAt).Ok?
    requires now < issuedAt + TOKEN_LIFETIME_SECONDS
    ensures var reply := Login(users, username, password, issuedAt).value;
            var caller := GetCurrentUser(users, reply.accessToken, now);
            caller.Ok? && caller.value.username == username && caller.value.password == Sha256(password)
            && caller.value.role == reply.role
  {
    var reply := Login(users, username, password, issuedAt).value;
    var u :| u in users && u.username == username && u.password == Sha256(password)
             && reply == LoginReply(CreateAccessToken(u.id, u.username, u.role, issuedAt), "bearer", u.role);
    var caller := GetCurrentUser(users, reply.accessToken, now);
    var i :| 0 <= i < |users| && users[i] == u;
    assert caller.Ok?;
    var j :| 0 <= j < |users| && users[j] == caller.value;
    assert users[i].id == users[j].id;
  }

  /** With unique usernames, a password other than the one a user's verifier
      was made from never logs that user in. */
  lemma WrongPasswordRejected(users: seq<User>, i: nat, password: string, issuedAt: int)
    requires UniqueUsernames(users)
    requires i < |users| && users[i].password != Sha256(password)
    ensures Login(users, users[i].username, password, issuedAt) == Err(Unauthorized("Invalid credentials"))
  {
  }

  /** With UNIQUE usernames, a user's own password logs that user in: the
      reply is a token for the user's id, username and role. */
  lemma RightPasswordAccepted(users: seq<User>, i: nat, password: string, issuedAt: int)
    requires UniqueUsernames(users)
    requires i < |users| && users[i].password == Sha256(password)
    ensures var u := users[i];
            Login(users, u.username, password, issuedAt)
            == Ok(LoginReply(CreateAccessToken(u.id, u.username, u.role, issuedAt), "bearer", u.role))
  {
    var r := Login(users, users[i].username, password, issuedAt);
    assert users[i] in users;
    var u :| u in users && u.username == users[i].username && u.password == Sha256(password)
             && r.value == LoginReply(CreateAccessToken(u.id, u.username, u.role, issuedAt), "bearer", u.role);
    var j :| 0 <= j < |users| && users[j] == u;
  }
}
