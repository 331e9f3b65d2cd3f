/** routes/auth.js: `POST /login` and `GET /me` (the latter behind middleware/auth.js). */
module AuthRoutes {
  import opened Wrappers
  import opened Text
  import opened Calendar
  import opened Services
  import opened Http
  import opened Collections
  import opened Guards
  import opened UserModel

  datatype LoginBody = LoginBody(email: Option<string>, password: Option<string>)

  datatype LoginOk = LoginOk(token: string, message: string)

  /** The token `POST /login` issues for a user: its id, seven days' life, signed with the route secret. */
  function SessionToken(srv: Services, id: Id, now: Time): string {
    srv.tokens.sign(SessionClaims(id, now), Secret(srv.jwtSecret, ROUTE_FALLBACK_SECRET))
  }

  /**
   * `POST /login`: both fields are required; an unknown email and a wrong password give the
   * same answer; a token only when the password matches the stored hash.
   */
  function Login(users: seq<User>, b: LoginBody, srv: Services, now: Time): (r: Reply<LoginOk>)
    ensures !Truthy(b.email) || !Truthy(b.password) ==>
              r == Failure(400, MessageKey, "Email and password required")
    ensures Truthy(b.email) && Truthy(b.password) && r.Failure? ==>
              r == Failure(400, MessageKey, "Invalid credentials")
    ensures r.Success? <==>
              && Truthy(b.email) && Truthy(b.password)
              && FindByEmail(users, b.email.value).Some?
              && srv.passwords.compare(b.password.value, users[FindByEmail(users, b.email.value).value].password)
    ensures r.Success? ==>
              var u := users[FindByEmail(users, b.email.value).value];
              r == Success(200, LoginOk(SessionToken(srv, u.id, now), "Login successful"))
  {
    if !Truthy(b.email) || !Truthy(b.password) then Failure(400, MessageKey, "Email and password required")
    else match FindByEmail(users, b.email.value)
      case None => Failure(400, MessageKey, "Invalid credentials")
      case Some(i) =>
        if !srv.passwords.compare(b.password.value, users[i].password) then Failure(400, MessageKey, "Invalid credentials")
        else Success(200, LoginOk(SessionToken(srv, users[i].id, now), "Login successful"))
  }

  /** An unknown email and a wrong password for a known one cannot be told apart. */
  lemma FailuresLookAlike(users: seq<User>, unknown: LoginBody, wrong: LoginBody, srv: Services, now: Time)
    requires Truthy(unknown.email) && Truthy(unknown.password) && FindByEmail(users, unknown.email.value).None?
    requires Truthy(wrong.email) && Truthy(wrong.password) && FindByEmail(users, wrong.email.value).Some?
    requires !srv.passwords.compare(wrong.password.value, users[FindByEmail(users, wrong.email.value).value].password)
    ensures Login(users, unknown, srv, now) == Login(users, wrong, srv, now)
  {
  }

  /**
   * For a stored user whose hash was made from `plain`, login succeeds exactly with the passwords
   * that agree with `plain` on the bytes bcrypt reads; when neither password holds U+0000 and
   * `plain` is shorter than 72 bytes, with `plain` alone.
   */
  lemma LoginIffPasswordMatches(users: seq<User>, i: nat, plain: string, salt: string, given: string, srv: Services, now: Time)
    requires SoundPasswords(srv.passwords) && Distinct(users, EmailOf)
    requires i < |users| && users[i].password == srv.passwords.hash(plain, salt) && users[i].email != ""
    requires given != ""
    ensures var r := Login(users, LoginBody(Some(users[i].email), Some(given)), srv, now);
            (r.Success? <==> BcryptInput(given) == BcryptInput(plain))
            && ('\0' !in plain && '\0' !in given && |Utf8(plain)| < BCRYPT_KEY_BYTES ==>
                  (r.Success? <==> given == plain))
            && (r.Success? ==> r.value.token == SessionToken(srv, users[i].id, now))
  {
    var k := FindByEmail(users, users[i].email).value;
    assert EmailOf(users[k]) == EmailOf(users[i]);
    if '\0' !in plain && '\0' !in given && |Utf8(plain)| < BCRYPT_KEY_BYTES {
      ShortPasswordExact(plain, given);
    }
  }

  /** `GET /me`: the user the middleware's payload names, without its password, or 404. */
  function Me(users: seq<User>, req: Request): (r: Reply<UserView>)
    ensures req.user.None? ==> r == Failure(500, MessageKey, "Server error")
    ensures req.user.Some? && FindById(users, req.user.value.id).None? ==>
              r == Failure(404, MessageKey, "User not found")
    ensures req.user.Some? ==> (r.Success? <==> FindById(users, req.user.value.id).Some?)
    ensures r.Success? ==>
              r.status == 200 && req.user.Some? &&
              exists i :: 0 <= i < |users| && users[i].id == req.user.value.id && r.value == View(users[i])
  {
    match req.user
    case None => Failure(500, MessageKey, "Server error")
    case Some(claims) =>
      match FindById(users, claims.id)
      case None => Failure(404, MessageKey, "User not found")
      case Some(i) => Success(200, View(users[i]))
  }
}
