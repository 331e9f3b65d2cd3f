/**
 * The libraries the handlers call but whose code is not modelled: jsonwebtoken (`sign`, `verify`)
 * and bcryptjs (`hash`, `compare`), plus the `JWT_SECRET` environment variable. They are passed
 * in as values; what the handlers rely on them to do is stated by `SoundTokens` and
 * `SoundPasswords`.
 */
module Services {
  import opened Wrappers
  import opened Text
  import opened Calendar

  /** A MongoDB ObjectId in its 24-hex-digit string form. */
  type Id = string

  /** A JWT payload: the user id, and the issue and expiry times in whole seconds. */
  datatype Claims = Claims(id: Id, iat: int, exp: int)

  /** `jwt.sign(payload, secret)` and `jwt.verify(token, secret)` at a given clock time. */
  datatype TokenLibrary = TokenLibrary(
    sign: (Claims, string) -> string,
    verify: (string, string, Time) -> Option<Claims>)

  /** `bcrypt.hash(plain, salt)` and `bcrypt.compare(plain, hash)`. */
  datatype PasswordLibrary = PasswordLibrary(
    hash: (string, string) -> string,
    compare: (string, string) -> bool)

  /** The environment a request is served in. */
  datatype Services = Services(jwtSecret: Option<string>, tokens: TokenLibrary, passwords: PasswordLibrary)

  /** `Math.floor(Date.now() / 1000)`, the clock jsonwebtoken reads. */
  function Seconds(t: Time): int {
    t / 1000
  }

  /**
   * What an HMAC-signed JWT guarantees: a token verifies, before its expiry, under the secret it
   * was signed with and under no other, and only ever to the payload it was signed with; no secret (the empty string) verifies nothing; the empty
   * token verifies nothing; tokens are base64url segments, so they contain no space, and a string
   * with a space in it (such as a whole `Bearer ...` header) is never a valid token.
   */
  ghost predicate SoundTokens(t: TokenLibrary) {
    && (forall c: Claims, s: string, now: Time :: s != "" && Seconds(now) < c.exp ==> t.verify(t.sign(c, s), s, now) == Some(c))
    && (forall c: Claims, s: string, s': string, now: Time ::
          t.verify(t.sign(c, s), s', now).Some? ==> t.verify(t.sign(c, s), s', now) == Some(c))
    && (forall c: Claims, s: string, s': string, now: Time :: s != s' ==> t.verify(t.sign(c, s), s', now) == None)
    && (forall tok: string, s: string, now: Time :: t.verify(tok, s, now).Some? ==> Seconds(now) < t.verify(tok, s, now).value.exp)
    && (forall tok: string, now: Time :: t.verify(tok, "", now) == None)
    && (forall s: string, now: Time :: t.verify("", s, now) == None)
    && (forall tok: string, s: string, now: Time :: ' ' in tok ==> t.verify(tok, s, now) == None)
    && (forall c: Claims, s: string :: ' ' !in t.sign(c, s) && t.sign(c, s) != "")
  }

  /** bcrypt's key schedule takes 18 32-bit words of key: 72 bytes. */
  const BCRYPT_KEY_BYTES: nat := 72

  /** `n` bytes read from `d` cyclically, starting again at its first byte whenever it runs out. */
  function Cycle(d: seq<int>, n: nat): (r: seq<int>)
    requires d != []
    ensures |r| == n
    decreases n
  {
    if n <= |d| then d[..n] else d + Cycle(d, n - |d|)
  }

  /**
   * The key bytes bcryptjs hashes for a `$2a$` or `$2b$` salt (what `genSalt` makes): the UTF-8
   * bytes of the password and a closing 0 byte, read cyclically until 72 bytes are taken.
   */
  function BcryptInput(s: string): seq<int> {
    Cycle(Utf8(s) + [0], BCRYPT_KEY_BYTES)
  }

  /** A salted hash is never the empty string. */
  ghost predicate HashesNonEmpty(p: PasswordLibrary) {
    forall plain: string, salt: string :: p.hash(plain, salt) != ""
  }

  /**
   * bcryptjs: a hash is non-empty, and a password matches a hash made from `plain` exactly when
   * bcrypt reads the same key bytes from both (bcrypt itself is taken to be collision-free).
   */
  ghost predicate SoundPasswords(p: PasswordLibrary) {
    && HashesNonEmpty(p)
    && (forall plain: string, other: string, salt: string ::
          p.compare(other, p.hash(plain, salt)) == (BcryptInput(other) == BcryptInput(plain)))
  }

  /** A buffer at least as long as the data starts with one whole copy of it. */
  lemma CyclePrefix(d: seq<int>, n: nat)
    requires d != [] && |d| <= n
    ensures Cycle(d, n)[..|d|] == d
  {
  }

  /** Reading a doubled buffer cyclically gives the same bytes as reading it once. */
  lemma {:induction false} CycleDoubled(d: seq<int>, n: nat)
    requires d != []
    ensures Cycle(d + d, n) == Cycle(d, n)
    decreases n
  {
    if n <= |d| {
      assert (d + d)[..n] == d[..n];
    } else if n <= 2 * |d| {
      assert (d + d)[..n] == d + d[..n - |d|];
    } else {
      CycleDoubled(d, n - 2 * |d|);
      assert Cycle(d, n - |d|) == d + Cycle(d, n - 2 * |d|);
      assert Cycle(d + d, n) == (d + d) + Cycle(d, n - 2 * |d|);
    }
  }

  /**
   * The key bytes of a password without U+0000: the password and its 0 byte when it is shorter
   * than 72 bytes, and no 0 byte at all otherwise.
   */
  lemma KeyBytes(s: string)
    requires '\0' !in s
    ensures 0 !in Utf8(s)
    ensures |Utf8(s)| < BCRYPT_KEY_BYTES ==> BcryptInput(s)[..|Utf8(s)| + 1] == Utf8(s) + [0]
    ensures |Utf8(s)| >= BCRYPT_KEY_BYTES ==> BcryptInput(s) == Utf8(s)[..BCRYPT_KEY_BYTES]
  {
    Utf8HasNoZero(s);
    var d := Utf8(s) + [0];
    if |Utf8(s)| < BCRYPT_KEY_BYTES {
      CyclePrefix(d, BCRYPT_KEY_BYTES);
    } else {
      LongKey(s);
    }
  }

  /**
   * A password without U+0000 and shorter than 72 bytes is matched by itself and by no other
   * password without U+0000.
   */
  lemma ShortPasswordExact(plain: string, other: string)
    requires '\0' !in plain && '\0' !in other && |Utf8(plain)| < BCRYPT_KEY_BYTES
    ensures BcryptInput(other) == BcryptInput(plain) <==> other == plain
  {
    if BcryptInput(other) == BcryptInput(plain) {
      var p, o, key := Utf8(plain), Utf8(other), BcryptInput(plain);
      KeyBytes(plain);
      KeyBytes(other);
      assert key[|p|] == 0;
      assert forall i :: 0 <= i < |p| ==> key[i] == p[i] != 0;
      assert |o| < BCRYPT_KEY_BYTES by {
        assert 0 in key;
      }
      assert key[|o|] == 0;
      assert forall i :: 0 <= i < |o| ==> key[i] == o[i] != 0;
      assert |o| == |p|;
      assert o == key[..|p|] == p;
      Utf8Injective(other, plain);
    }
  }

  /**
   * The closing 0 byte makes a password with U+0000 in it collide below 72 bytes: `s`, then
   * U+0000, then `s` again matches a hash of `s`.
   */
  lemma NulRepeatCollides(s: string)
    ensures BcryptInput(s + "\0" + s) == BcryptInput(s)
  {
    var d := Utf8(s) + [0];
    Utf8Append(s + "\0", s);
    Utf8Append(s, "\0");
    assert Utf8("\0") == [0];
    assert Utf8(s + "\0" + s) + [0] == d + d;
    CycleDoubled(d, BCRYPT_KEY_BYTES);
  }

  /** Of a password of at least 72 bytes bcrypt reads its first 72 bytes and no 0 byte. */
  lemma LongKey(s: string)
    requires |Utf8(s)| >= BCRYPT_KEY_BYTES
    ensures BcryptInput(s) == Utf8(s)[..BCRYPT_KEY_BYTES]
  {
    assert (Utf8(s) + [0])[..BCRYPT_KEY_BYTES] == Utf8(s)[..BCRYPT_KEY_BYTES];
  }

  /** Two passwords that share a prefix of at least 72 bytes are indistinguishable to bcrypt. */
  lemma LongPasswordsCollide(prefix: string, tail: string, tail': string)
    requires |Utf8(prefix)| >= BCRYPT_KEY_BYTES
    ensures BcryptInput(prefix + tail) == BcryptInput(prefix + tail')
  {
    var p := Utf8(prefix);
    Utf8Append(prefix, tail);
    Utf8Append(prefix, tail');
    LongKey(prefix + tail);
    LongKey(prefix + tail');
    assert (p + Utf8(tail))[..BCRYPT_KEY_BYTES] == p[..BCRYPT_KEY_BYTES];
    assert (p + Utf8(tail'))[..BCRYPT_KEY_BYTES] == p[..BCRYPT_KEY_BYTES];
  }

  /** `process.env.JWT_SECRET || fallback`. */
  function Secret(env: Option<string>, fallback: string): (s: string)
    ensures Truthy(env) ==> s == env.value
    ensures !Truthy(env) ==> s == fallback
  {
    if Truthy(env) then env.value else fallback
  }

  /** `expiresIn: '7d'`, in seconds. */
  const SESSION_SECONDS: nat := 7 * 24 * 60 * 60

  /** The payload `jwt.sign({ id }, secret, { expiresIn: '7d' })` produces at time `now`. */
  function SessionClaims(id: Id, now: Time): (c: Claims)
    ensures c.id == id && c.exp - c.iat == SESSION_SECONDS
  {
    Claims(id, Seconds(now), Seconds(now) + SESSION_SECONDS)
  }

  /** A session token issued at `t` is still accepted six days later and no longer seven days later. */
  lemma SessionLifetime(srv: Services, secret: string, id: Id, t: Time, later: nat)
    requires SoundTokens(srv.tokens) && secret != ""
    ensures var token := srv.tokens.sign(SessionClaims(id, t), secret);
            (later <= 6 * DAY_MS ==> srv.tokens.verify(token, secret, t + later) == Some(SessionClaims(id, t)))
            && (later >= 7 * DAY_MS ==> srv.tokens.verify(token, secret, t + later) == None)
  {
    var c := SessionClaims(id, t);
    var token := srv.tokens.sign(c, secret);
    if later <= 6 * DAY_MS {
      assert Seconds(t + later) <= Seconds(t + 6 * DAY_MS);
      assert Seconds(t + 6 * DAY_MS) == Seconds(t) + 518400;
    }
    if later >= 7 * DAY_MS {
      assert Seconds(t + later) >= Seconds(t + 7 * DAY_MS);
      assert Seconds(t + 7 * DAY_MS) == c.exp;
    }
  }
}
