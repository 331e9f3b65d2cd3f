/**
 * The three bearer-token guards of the code base: the shared middleware (middleware/auth.js),
 * the copy inlined in routes/users.js, routes/reports.js and routes/activity.js, and the copy in
 * routes/employee.js. Each either answers 401 or hands the request on to the next handler.
 */
module Guards {
  import opened Wrappers
  import opened Text
  import opened Calendar
  import opened Services
  import opened Http

  /** The parts of an Express request the guards read and write. */
  datatype Request = Request(authorization: Option<string>, user: Option<Claims>, userId: Option<Id>)

  /** A guard either answers (and `next` is never called) or calls `next` once with the request. */
  datatype Gate = Denied(status: int, key: Key, text: string) | Next(req: Request)

  const BEARER: string := "Bearer "
  const MIDDLEWARE_FALLBACK_SECRET: string := "smartpass2025supersecret"
  const ROUTE_FALLBACK_SECRET: string := "fallbacksecret123"

  /** `authHeader.split(' ')[1]` for a header that starts with `Bearer `. */
  function BearerToken(header: string): (token: string)
    requires StartsWith(header, BEARER)
    ensures token == TakeUntil(header[|BEARER|..], ' ')
  {
    assert header == "Bearer" + [' '] + header[|BEARER|..];
    SecondPiece("Bearer", header[|BEARER|..], ' ');
    Split(header, ' ')[1]
  }

  /** The middleware: the header must start with `Bearer ` (exact case, one space). */
  function Authenticate(req: Request, srv: Services, now: Time): (g: Gate)
    ensures g.Denied? ==> g.status == 401 && g.key == MessageKey
    ensures (req.authorization.None? || !StartsWith(req.authorization.value, BEARER)) ==>
              g == Denied(401, MessageKey, "No token, authorization denied")
    ensures req.authorization.Some? && StartsWith(req.authorization.value, BEARER) ==>
              var decoded := srv.tokens.verify(BearerToken(req.authorization.value),
                                               Secret(srv.jwtSecret, MIDDLEWARE_FALLBACK_SECRET), now);
              g == if decoded.None? then Denied(401, MessageKey, "Token is not valid or expired")
                   else Next(req.(user := decoded))
  {
    match req.authorization
    case None => Denied(401, MessageKey, "No token, authorization denied")
    case Some(header) =>
      if !StartsWith(header, BEARER) then Denied(401, MessageKey, "No token, authorization denied")
      else
        var decoded := srv.tokens.verify(BearerToken(header), Secret(srv.jwtSecret, MIDDLEWARE_FALLBACK_SECRET), now);
        if decoded.None? then Denied(401, MessageKey, "Token is not valid or expired")
        else Next(req.(user := decoded))
  }

  /** `header?.replace('Bearer ', '')`: the first `Bearer ` anywhere in the header is removed. */
  function RouteToken(header: Option<string>): Option<string> {
    match header
    case None => None
    case Some(h) => Some(ReplaceFirst(h, BEARER, ""))
  }

  /** The guard inlined in routes/users.js, routes/reports.js and routes/activity.js. */
  function RouteAuthenticate(req: Request, srv: Services, now: Time): (g: Gate)
    ensures g.Denied? ==> g.status == 401 && g.key == ErrorKey
    ensures !Truthy(RouteToken(req.authorization)) ==> g == Denied(401, ErrorKey, "No token")
    ensures Truthy(RouteToken(req.authorization)) ==>
              var decoded := srv.tokens.verify(RouteToken(req.authorization).value,
                                               Secret(srv.jwtSecret, ROUTE_FALLBACK_SECRET), now);
              g == if decoded.None? then Denied(401, ErrorKey, "Invalid token")
                   else Next(req.(userId := Some(decoded.value.id)))
  {
    var token := RouteToken(req.authorization);
    if !Truthy(token) then Denied(401, ErrorKey, "No token")
    else
      match srv.tokens.verify(token.value, Secret(srv.jwtSecret, ROUTE_FALLBACK_SECRET), now)
      case None => Denied(401, ErrorKey, "Invalid token")
      case Some(decoded) => Next(req.(userId := Some(decoded.id)))
  }

  /**
   * The guard in routes/employee.js: the raw header is the token, and `JWT_SECRET` has no
   * fallback; `jwt.verify` throws when it is unset, which answers "Invalid token".
   */
  function EmployeeAuthenticate(req: Request, srv: Services, now: Time): (g: Gate)
    ensures g.Denied? ==> g.status == 401 && g.key == ErrorKey
    ensures !Truthy(req.authorization) ==> g == Denied(401, ErrorKey, "No token")
    ensures Truthy(req.authorization) && !Truthy(srv.jwtSecret) ==> g == Denied(401, ErrorKey, "Invalid token")
    ensures Truthy(req.authorization) && Truthy(srv.jwtSecret) ==>
              var decoded := srv.tokens.verify(req.authorization.value, srv.jwtSecret.value, now);
              g == if decoded.None? then Denied(401, ErrorKey, "Invalid token")
                   else Next(req.(userId := Some(decoded.value.id)))
  {
    if !Truthy(req.authorization) then Denied(401, ErrorKey, "No token")
    else if !Truthy(srv.jwtSecret) then Denied(401, ErrorKey, "Invalid token")
    else
      match srv.tokens.verify(req.authorization.value, srv.jwtSecret.value, now)
      case None => Denied(401, ErrorKey, "Invalid token")
      case Some(decoded) => Next(req.(userId := Some(decoded.id)))
  }

  /** The middleware verifies the second space-separated word: "Bearer a b" verifies "a", "Bearer " verifies "". */
  lemma BearerTokenExamples()
    ensures BearerToken("Bearer a b") == "a"
    ensures BearerToken("Bearer ") == ""
  {
    assert ("Bearer a b")[7..] == "a b";
    assert ("a b")[1..] == " b";
    assert TakeUntil(" b", ' ') == "";
    assert ("Bearer ")[7..] == "";
  }

  /** A token without spaces after `Bearer ` is exactly what the middleware verifies. */
  lemma BearerTokenOf(t: string)
    requires ' ' !in t
    ensures BearerToken(BEARER + t) == t
  {
    assert (BEARER + t)[|BEARER|..] == t;
    TakeUntilNoSeparator(t, ' ');
  }

  lemma {:induction false} TakeUntilNoSeparator(t: string, c: char)
    requires c !in t
    ensures TakeUntil(t, c) == t
  {
    if t != [] {
      TakeUntilNoSeparator(t[1..], c);
      assert t == [t[0]] + t[1..];
    }
  }

  /** Under the middleware, `Bearer ` alone reaches `jwt.verify` with the empty token and is refused. */
  lemma EmptyBearerRejected(req: Request, srv: Services, now: Time)
    requires SoundTokens(srv.tokens) && req.authorization == Some(BEARER)
    ensures Authenticate(req, srv, now) == Denied(401, MessageKey, "Token is not valid or expired")
  {
    assert BEARER == BEARER + "";
    BearerTokenOf("");
  }

  /** A well-formed header carrying a live token signed with the middleware's secret is let through. */
  lemma MiddlewareAdmits(req: Request, srv: Services, c: Claims, now: Time)
    requires SoundTokens(srv.tokens)
    requires req.authorization == Some(BEARER + srv.tokens.sign(c, Secret(srv.jwtSecret, MIDDLEWARE_FALLBACK_SECRET)))
    requires Seconds(now) < c.exp
    ensures Authenticate(req, srv, now) == Next(req.(user := Some(c)))
  {
    BearerTokenOf(srv.tokens.sign(c, Secret(srv.jwtSecret, MIDDLEWARE_FALLBACK_SECRET)));
  }

  /**
   * The route guard strips a leading `Bearer `, and otherwise the first one found later in the
   * header; a header without one, however short, passes unchanged.
   */
  lemma RouteTokenStrips(t: string, a: string, b: string)
    requires IndexOf(a, BEARER).None?
    ensures RouteToken(Some(BEARER + t)) == Some(t)
    ensures RouteToken(Some(a + BEARER + b)) == Some(a + b)
    ensures RouteToken(Some(a)) == Some(a)
  {
    ReplaceFirstOfPrefix(BEARER, t, "");
    assert "" + t == t;
    var h := a + BEARER + b;
    assert OccursAt(h, BEARER, |a|);
    forall j | 0 <= j < |a| ensures !OccursAt(h, BEARER, j) {
      if j + |BEARER| <= |a| {
        assert h[j..j + |BEARER|] == a[j..j + |BEARER|];
        assert !OccursAt(a, BEARER, j);
      } else {
        assert h[j + 6] == BEARER[j + 6 - |a|] != BEARER[6];
        assert h[j..j + |BEARER|][6] == h[j + 6];
      }
    }
    assert IndexOf(h, BEARER) == Some(|a|);
    assert h[..|a|] == a && h[|a| + |BEARER|..] == b;
    assert ReplaceFirst(h, BEARER, "") == a + "" + b;
    assert a + "" + b == a + b;
  }

  /** A string without a space never contains `Bearer `. */
  lemma NoBearerInSpaceless(s: string)
    requires ' ' !in s
    ensures IndexOf(s, BEARER).None?
  {
    forall j | 0 <= j ensures !OccursAt(s, BEARER, j) {
      if j + |BEARER| <= |s| {
        assert s[j + 6] in s;
        assert s[j..j + |BEARER|][6] != BEARER[6];
      }
    }
  }

  /** A route guard admits a live token signed with its secret, sent with or without `Bearer `. */
  lemma RouteAdmits(req: Request, srv: Services, c: Claims, now: Time, prefixed: bool)
    requires SoundTokens(srv.tokens)
    requires var token := srv.tokens.sign(c, Secret(srv.jwtSecret, ROUTE_FALLBACK_SECRET));
             req.authorization == Some(if prefixed then BEARER + token else token)
    requires Seconds(now) < c.exp
    ensures RouteAuthenticate(req, srv, now) == Next(req.(userId := Some(c.id)))
  {
    var token := srv.tokens.sign(c, Secret(srv.jwtSecret, ROUTE_FALLBACK_SECRET));
    if prefixed {
      ReplaceFirstOfPrefix(BEARER, token, "");
      assert "" + token == token;
    } else {
      NoBearerInSpaceless(token);
    }
  }

  /** The employee guard passes the whole header to `jwt.verify`, so the `Bearer ` form is always refused. */
  lemma EmployeeRejectsBearerForm(req: Request, srv: Services, token: string, now: Time)
    requires SoundTokens(srv.tokens) && req.authorization == Some(BEARER + token)
    ensures EmployeeAuthenticate(req, srv, now) == Denied(401, ErrorKey, "Invalid token")
  {
    assert (BEARER + token)[6] == ' ';
  }

  /** The employee guard admits a bare live token signed with the configured secret. */
  lemma EmployeeAdmitsBareToken(req: Request, srv: Services, c: Claims, now: Time)
    requires SoundTokens(srv.tokens) && Truthy(srv.jwtSecret)
    requires req.authorization == Some(srv.tokens.sign(c, srv.jwtSecret.value)) && Seconds(now) < c.exp
    ensures EmployeeAuthenticate(req, srv, now) == Next(req.(userId := Some(c.id)))
  {
  }
}
