/**
 * The JWT utility: configuration read once from the environment, minting and
 * verifying access and refresh tokens over an abstract signing codec, bearer-header
 * extraction and token refresh.
 */
module Jwt {
  import opened Wrappers
  import opened Text

  type Token = string

  /** The token payload: `userId`, `account`, `tokenVersion` and the optional `role`, `email`, `phone`. */
  datatype Claims = Claims(
    userId: string,
    account: string,
    role: Option<string>,
    tokenVersion: int,
    email: Option<string>,
    phone: Option<string>)

  /** What a successful verification returns: the payload plus the `iat` and `exp` the codec added. */
  datatype Decoded = Decoded(claims: Claims, iat: int, exp: int)

  /**
   * The signing library, kept abstract: `sign(payload, secret, expiresIn, now)` and
   * `verify(token, secret, now)`; `seconds` reads a lifetime string such as "7d".
   * Signature algorithm, encoding and duration parsing are not modelled.
   */
  datatype Codec = Codec(
    sign: (Claims, string, string, int) -> Token,
    verify: (Token, string, int) -> Option<Decoded>,
    seconds: string -> int)

  /** The codec laws the core relies on. A token signed with `s` at `t0` verifies under `s`
      to its payload (stamped with `iat` and `exp`) until it expires and to nothing afterwards;
      under any other secret it verifies to nothing. */
  ghost predicate Lawful(c: Codec) {
    && (forall p, s, d, t0, t ::
          c.verify(c.sign(p, s, d, t0), s, t)
          == if t < t0 + c.seconds(d) then Some(Decoded(p, t0, t0 + c.seconds(d))) else None)
    && (forall p, s, s', d, t0, t :: s' != s ==> c.verify(c.sign(p, s, d, t0), s', t) == None)
  }

  /** The environment variables the utility consults (`None` = unset). */
  datatype Env = Env(
    jwtSecret: Option<string>,
    jwtExpiresIn: Option<string>,
    jwtRefreshSecret: Option<string>,
    jwtRefreshExpiresIn: Option<string>)

  const DefaultSecret := "default-secret-do-not-use-in-production"
  const DefaultExpiresIn := "7d"
  const BearerPrefix := "Bearer "

  /** JavaScript's `v || fallback` on an optional string: unset and empty both fall back. */
  function OrElse(v: Option<string>, fallback: string): (r: string)
    ensures r == fallback <==> v.None? || v.value == "" || v.value == fallback
    ensures v.Some? && v.value != "" ==> r == v.value
  {
    if v.Some? && v.value != "" then v.value else fallback
  }

  datatype Config = Config(secret: string, expiresIn: string, refreshSecret: string, refreshExpiresIn: string)

  /** The four settings as the constructor reads them. */
  function ConfigOf(env: Env): Config {
    var secret := OrElse(env.jwtSecret, DefaultSecret);
    Config(secret,
           OrElse(env.jwtExpiresIn, DefaultExpiresIn),
           OrElse(env.jwtRefreshSecret, secret),
           OrElse(env.jwtRefreshExpiresIn, DefaultExpiresIn))
  }

  /** The refresh secret is the access secret unless JWT_REFRESH_SECRET is set (and non-empty);
      the refresh lifetime is "7d" unless JWT_REFRESH_EXPIRES_IN is set; an unset or empty JWT_SECRET
      gives the default secret. */
  lemma RefreshDefaults(env: Env)
    ensures env.jwtRefreshSecret.None? || env.jwtRefreshSecret.value == ""
            ==> ConfigOf(env).refreshSecret == ConfigOf(env).secret
    ensures env.jwtRefreshSecret.Some? && env.jwtRefreshSecret.value != ""
            ==> ConfigOf(env).refreshSecret == env.jwtRefreshSecret.value
    ensures env.jwtRefreshExpiresIn.None? || env.jwtRefreshExpiresIn.value == ""
            ==> ConfigOf(env).refreshExpiresIn == "7d"
    ensures env.jwtSecret.None? || env.jwtSecret.value == "" ==> ConfigOf(env).secret == DefaultSecret
  {
  }

  /** A token pair; the source's type makes the refresh token optional, but it is always set. */
  datatype JwtTokens = JwtTokens(accessToken: Token, refreshToken: Token)

  class JwtUtil {
    const codec: Codec
    const secret: string
    const expiresIn: string
    const refreshSecret: string
    const refreshExpiresIn: string

    /** Reads the configuration once; nothing ever reassigns it. */
    constructor (codec: Codec, env: Env)
      ensures this.codec == codec
      ensures Config(secret, expiresIn, refreshSecret, refreshExpiresIn) == ConfigOf(env)
    {
      var c := ConfigOf(env);
      this.codec := codec;
      secret := c.secret;
      expiresIn := c.expiresIn;
      refreshSecret := c.refreshSecret;
      refreshExpiresIn := c.refreshExpiresIn;
    }

    function GetAccessToken(payload: Claims, now: int): Token {
      codec.sign(payload, secret, expiresIn, now)
    }

    function GetRefreshToken(payload: Claims, now: int): Token {
      codec.sign(payload, refreshSecret, refreshExpiresIn, now)
    }

    function GenerateTokens(payload: Claims, now: int): JwtTokens {
      JwtTokens(GetAccessToken(payload, now), GetRefreshToken(payload, now))
    }

    /** Never throws: every verification failure is `None`. */
    function VerifyAccessToken(token: Token, now: int): Option<Decoded> {
      codec.verify(token, secret, now)
    }

    function VerifyRefreshToken(token: Token, now: int): Option<Decoded> {
      codec.verify(token, refreshSecret, now)
    }

    /** A token is found only behind the exact, case-sensitive prefix "Bearer ", and it is
        everything after that prefix, untrimmed. */
    function ExtractTokenFromHeader(authHeader: Option<string>): (r: Option<string>)
      ensures r.None? <==> authHeader.None? || !StartsWith(authHeader.value, BearerPrefix)
      ensures r.Some? ==> authHeader.value == BearerPrefix + r.value
    {
      if authHeader.None? || authHeader.value == "" || !StartsWith(authHeader.value, BearerPrefix) then None
      else Some(authHeader.value[|BearerPrefix|..])
    }

    /** A refresh token that verifies is exchanged for a new pair minted from its payload with
        `iat` and `exp` dropped; one that does not verify gives `None`. */
    function RefreshTokens(refreshToken: Token, now: int): (r: Option<JwtTokens>)
      ensures r.None? <==> VerifyRefreshToken(refreshToken, now).None?
      ensures r.Some? ==> exists d :: VerifyRefreshToken(refreshToken, now) == Some(d)
                                      && r.value == GenerateTokens(d.claims, now)
    {
      var payload := VerifyRefreshToken(refreshToken, now);
      if payload.None? then None
      else Some(GenerateTokens(payload.value.claims, now))
    }
  }

  /** Extraction undoes prefixing: "Bearer " followed by any `t`, even empty or blank, gives back `t`. */
  lemma ExtractRoundTrip(u: JwtUtil, t: string)
    ensures u.ExtractTokenFromHeader(Some(BearerPrefix + t)) == Some(t)
  {
    assert (BearerPrefix + t)[..|BearerPrefix|] == BearerPrefix;
  }

  /** `generateTokens` mints both tokens from the identical payload: before its lifetime runs out, the
      access token verifies under the access secret and the refresh token under the refresh secret, each
      to that payload. */
  lemma GeneratedTokensVerify(u: JwtUtil, p: Claims, t0: int, t: int)
    requires Lawful(u.codec)
    ensures var pair := u.GenerateTokens(p, t0);
      && (t < t0 + u.codec.seconds(u.expiresIn)
          ==> u.VerifyAccessToken(pair.accessToken, t) == Some(Decoded(p, t0, t0 + u.codec.seconds(u.expiresIn))))
      && (t < t0 + u.codec.seconds(u.refreshExpiresIn)
          ==> u.VerifyRefreshToken(pair.refreshToken, t) == Some(Decoded(p, t0, t0 + u.codec.seconds(u.refreshExpiresIn))))
  {
  }

  /** Signature and expiry are the only things verification looks at: a token signed under any other
      secret is refused, and so is an access token past its lifetime. */
  lemma AccessTokenRejections(u: JwtUtil, p: Claims, s: string, d: string, t0: int, t: int)
    requires Lawful(u.codec)
    ensures s != u.secret ==> u.VerifyAccessToken(u.codec.sign(p, s, d, t0), t) == None
    ensures t >= t0 + u.codec.seconds(u.expiresIn) ==> u.VerifyAccessToken(u.GetAccessToken(p, t0), t) == None
  {
  }

  /** The two kinds of token are told apart only by their secrets. When the refresh secret is the access
      secret, as it is when JWT_REFRESH_SECRET is unset, a live access token also passes as a refresh
      token, and a refresh token within the access lifetime passes as an access token; with distinct
      secrets neither passes as the other. */
  lemma TokenKindsSeparatedOnlyBySecrets(u: JwtUtil, p: Claims, t0: int, t: int)
    requires Lawful(u.codec)
    ensures u.refreshSecret == u.secret && t < t0 + u.codec.seconds(u.expiresIn)
            ==> u.VerifyRefreshToken(u.GetAccessToken(p, t0), t) == Some(Decoded(p, t0, t0 + u.codec.seconds(u.expiresIn)))
    ensures u.refreshSecret == u.secret && t < t0 + u.codec.seconds(u.refreshExpiresIn)
            ==> u.VerifyAccessToken(u.GetRefreshToken(p, t0), t) == Some(Decoded(p, t0, t0 + u.codec.seconds(u.refreshExpiresIn)))
    ensures u.refreshSecret != u.secret
            ==> u.VerifyRefreshToken(u.GetAccessToken(p, t0), t) == None && u.VerifyAccessToken(u.GetRefreshToken(p, t0), t) == None
  {
  }

  /** Refreshing carries the claims over: a refresh token minted from `p` and still alive is exchanged for
      a pair minted from `p` itself, whose access token decodes to `p` again. */
  lemma RefreshCarriesClaims(u: JwtUtil, p: Claims, t0: int, t: int)
    requires Lawful(u.codec)
    requires t < t0 + u.codec.seconds(u.refreshExpiresIn)
    ensures u.RefreshTokens(u.GetRefreshToken(p, t0), t) == Some(u.GenerateTokens(p, t))
    ensures t < t + u.codec.seconds(u.expiresIn)
            ==> u.VerifyAccessToken(u.RefreshTokens(u.GetRefreshToken(p, t0), t).value.accessToken, t)
                == Some(Decoded(p, t, t + u.codec.seconds(u.expiresIn)))
  {
  }

  /** The process-wide holder of the single `JwtUtil` (the class's static `instance`). */
  class JwtRegistry {
    var instance: JwtUtil?

    constructor ()
      ensures instance == null
    {
      instance := null;
    }

    /** Creates the utility on first use and hands back that same object on every later call. */
    method GetInstance(codec: Codec, env: Env) returns (u: JwtUtil)
      modifies this
      ensures instance == u
      ensures old(instance) != null ==> u == old(instance)
      ensures old(instance) == null ==>
                && fresh(u) && u.codec == codec
                && Config(u.secret, u.expiresIn, u.refreshSecret, u.refreshExpiresIn) == ConfigOf(env)
    {
      if instance == null {
        instance := new JwtUtil(codec, env);
      }
      u := instance;
    }
  }

  /** Two calls, even with different arguments, yield one object configured by the first. */
  method GetInstanceTwice(r: JwtRegistry, c1: Codec, e1: Env, c2: Codec, e2: Env) returns (a: JwtUtil, b: JwtUtil)
    requires r.instance == null
    modifies r
    ensures a == b && a.codec == c1
    ensures Config(a.secret, a.expiresIn, a.refreshSecret, a.refreshExpiresIn) == ConfigOf(e1)
  {
    a := r.GetInstance(c1, e1);
    b := r.GetInstance(c2, e2);
  }
}
