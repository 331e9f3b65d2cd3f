/**
 * How the routes fit together: the token `POST /api/auth/login` issues, presented to the guards
 * of the other routers and to `GET /api/auth/me`, and a user created through `POST /api/users`
 * logging in.
 */
module Flows {
  import opened Wrappers
  import opened Text
  import opened Calendar
  import opened Services
  import opened Http
  import opened Collections
  import opened Guards
  import opened UserModel
  import opened Users
  import opened AuthRoutes

  /** The user a successful login is for. */
  function LoggedIn(users: seq<User>, b: LoginBody): (u: User)
    requires Truthy(b.email) && FindByEmail(users, b.email.value).Some?
    ensures u in users && u.email == b.email.value
  {
    users[FindByEmail(users, b.email.value).value]
  }

  /**
   * The login token opens the guard of routes/users.js, routes/reports.js and routes/activity.js
   * for six days, sent bare or as `Bearer <token>`, and the guard passes the user's id on.
   */
  lemma LoginTokenOpensRouteGuards(users: seq<User>, b: LoginBody, srv: Services, now: Time, later: nat,
                                   prefixed: bool)
    requires SoundTokens(srv.tokens) && Login(users, b, srv, now).Success? && later <= 6 * DAY_MS
    ensures var token := Login(users, b, srv, now).value.token;
            var req := Request(Some(if prefixed then BEARER + token else token), None, None);
            RouteAuthenticate(req, srv, now + later) == Next(req.(userId := Some(LoggedIn(users, b).id)))
  {
    var u := LoggedIn(users, b);
    var c := SessionClaims(u.id, now);
    var secret := Secret(srv.jwtSecret, ROUTE_FALLBACK_SECRET);
    var token := srv.tokens.sign(c, secret);
    NoBearerInSpaceless(token);
    SessionLifetime(srv, secret, u.id, now, later);
    var req := Request(Some(if prefixed then BEARER + token else token), None, None);
    if prefixed {
      ReplaceFirstOfPrefix(BEARER, token, "");
      assert "" + token == token;
    }
    assert Seconds(now + later) < c.exp;
  }

  /**
   * With `JWT_SECRET` set, both sides sign and verify with it: `Bearer <login token>` passes
   * the middleware and `GET /me` answers the logged-in user without its password.
   */
  lemma LoginThenMe(users: seq<User>, b: LoginBody, srv: Services, now: Time, later: nat)
    requires SoundTokens(srv.tokens) && Truthy(srv.jwtSecret) && Distinct(users, IdOf)
    requires Login(users, b, srv, now).Success? && later <= 6 * DAY_MS
    ensures var req := Request(Some(BEARER + Login(users, b, srv, now).value.token), None, None);
            var g := Authenticate(req, srv, now + later);
            g.Next? && Me(users, g.req) == Success(200, View(LoggedIn(users, b)))
  {
    var u := LoggedIn(users, b);
    var c := SessionClaims(u.id, now);
    var token := srv.tokens.sign(c, srv.jwtSecret.value);
    var req := Request(Some(BEARER + token), None, None);
    assert Seconds(now + later) < c.exp by {
      SessionLifetime(srv, srv.jwtSecret.value, u.id, now, later);
    }
    MiddlewareAdmits(req, srv, c, now + later);
    MeAnswersStoredUser(users, req.(user := Some(c)), u);
  }

  /** With unique ids, `/me` for a payload naming a stored user answers exactly that user. */
  lemma MeAnswersStoredUser(users: seq<User>, req: Request, u: User)
    requires Distinct(users, IdOf) && u in users && req.user.Some? && req.user.value.id == u.id
    ensures Me(users, req) == Success(200, View(u))
  {
    var k := FindById(users, u.id).value;
    var j :| 0 <= j < |users| && users[j] == u;
    assert IdOf(users[k]) == IdOf(users[j]);
  }

  /**
   * With `JWT_SECRET` unset, login signs with "fallbacksecret123" but the middleware verifies
   * with "smartpass2025supersecret": no login token ever passes the middleware, so `GET /me`
   * is unreachable.
   */
  lemma UnsetSecretLocksOutMe(users: seq<User>, b: LoginBody, srv: Services, now: Time, later: Time)
    requires SoundTokens(srv.tokens) && !Truthy(srv.jwtSecret) && Login(users, b, srv, now).Success?
    ensures var req := Request(Some(BEARER + Login(users, b, srv, now).value.token), None, None);
            Authenticate(req, srv, later) == Denied(401, MessageKey, "Token is not valid or expired")
  {
    var token := Login(users, b, srv, now).value.token;
    BearerTokenOf(token);
  }

  /**
   * A user just created through `POST /api/users` logs in with the temporary password and with
   * any password bcrypt cannot tell from it; when neither holds U+0000 and the temporary password
   * is shorter than 72 bytes, with that password alone.
   */
  lemma CreatedUserLogsIn(users: seq<User>, cb: CreateBody, id: Id, salt: string, now: Time,
                          given: string, srv: Services, later: Time)
    requires SoundPasswords(srv.passwords) && HasRequired(cb) && Truthy(Some(given))
    requires var u := NewUserOf(cb, id, srv.passwords.hash(cb.tempPassword.value, salt), now);
             Indexed(users + [u])
    ensures var u := NewUserOf(cb, id, srv.passwords.hash(cb.tempPassword.value, salt), now);
            var r := Login(users + [u], LoginBody(cb.email, Some(given)), srv, later);
            (r.Success? <==> BcryptInput(given) == BcryptInput(cb.tempPassword.value))
            && ('\0' !in cb.tempPassword.value && '\0' !in given && |Utf8(cb.tempPassword.value)| < BCRYPT_KEY_BYTES ==>
                  (r.Success? <==> given == cb.tempPassword.value))
            && (r.Success? ==> r.value.token == SessionToken(srv, id, later))
  {
    var u := NewUserOf(cb, id, srv.passwords.hash(cb.tempPassword.value, salt), now);
    var all := users + [u];
    LoginIffPasswordMatches(all, |users|, cb.tempPassword.value, salt, given, srv, later);
  }
}
