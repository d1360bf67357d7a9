/**
 * The authentication middleware: extract the bearer token, verify it as an access
 * token, and either answer (always with HTTP status 200, the outcome in `code`) or
 * attach the decoded payload to the request and pass control on.
 */
module Auth {
  import opened Wrappers
  import opened Text
  import opened Http
  import opened Jwt

  const NoTokenMsg := "未提供认证令牌"
  const BadTokenMsg := "令牌无效或已过期"
  const GateErrorMsg := "认证过程发生错误"

  datatype Decision = NoToken | Rejected | Admitted(payload: Decoded)

  /** The gate's decision, in terms of the raw header: no usable token (absent header, wrong prefix,
      or nothing after "Bearer "), a token that fails verification, or the decoded payload. The stored
      token version plays no part in it. */
  function Decide(jwt: JwtUtil, authHeader: Option<string>, now: int): (d: Decision)
    ensures d.NoToken? <==>
              authHeader.None? || !StartsWith(authHeader.value, BearerPrefix) || authHeader.value == BearerPrefix
    ensures d.Rejected? <==>
              && authHeader.Some? && StartsWith(authHeader.value, BearerPrefix) && authHeader.value != BearerPrefix
              && jwt.VerifyAccessToken(authHeader.value[|BearerPrefix|..], now).None?
    ensures d.Admitted? ==>
              && authHeader.Some? && StartsWith(authHeader.value, BearerPrefix)
              && jwt.VerifyAccessToken(authHeader.value[|BearerPrefix|..], now) == Some(d.payload)
  {
    var token := jwt.ExtractTokenFromHeader(authHeader);
    if token.None? || token.value == "" then NoToken
    else
      var payload := jwt.VerifyAccessToken(token.value, now);
      if payload.None? then Rejected else Admitted(payload.value)
  }

  /** One request passing through the middleware: the header it carries, `req.user`, the reply
      written to `res` (if any), how many times `next` was called, and whether the promise the
      handler returns was rejected. */
  class Exchange {
    const authorization: Option<string>
    var user: Option<Decoded>
    var reply: Option<Reply>
    var nextCalls: nat
    var rejected: bool

    constructor (authorization: Option<string>)
      ensures this.authorization == authorization
      ensures user == None && reply == None && nextCalls == 0 && !rejected
    {
      this.authorization := authorization;
      user, reply, nextCalls, rejected := None, None, 0, false;
    }
  }

  /** How the debug logger behaves: it never throws, it throws on the refusal messages only, or it
      throws on every call, the one inside `catch` included. */
  datatype LogFault = NoFault | FailsOnRefusal | FailsAlways

  /** The reply the middleware writes for a refusal. A logger that throws on the refusal message turns
      it into the catch-all answer with code 500; one that throws in `catch` as well leaves nothing
      written. */
  function Refusal(code: int, msg: string, log: LogFault): (r: Option<Reply>)
    ensures r.None? <==> log.FailsAlways?
    ensures r.Some? ==> r.value.Json? && r.value.status == 200 && r.value.body.Coded?
    ensures r.Some? ==> r.value.body.code == (if log.FailsOnRefusal? then 500 else code)
  {
    match log
    case NoFault => Some(Json(200, Coded(code, msg)))
    case FailsOnRefusal => Some(Json(200, Coded(500, GateErrorMsg)))
    case FailsAlways => None
  }

  /**
   * `authenticate`. `log` stands for the debug logger, the only step inside the `try` that can throw,
   * and it is only called on the refusal paths. Without a token: 401; with a token that does not
   * verify: 403; otherwise `req.user` is the decoded payload and `next` runs once, with nothing
   * written. When the logger also throws in `catch`, nothing is written and the promise is rejected.
   */
  method Authenticate(jwt: JwtUtil, x: Exchange, now: int, log: LogFault)
    modifies x
    ensures var d := Decide(jwt, x.authorization, now);
            var r := match d
                     case NoToken => Refusal(401, NoTokenMsg, log)
                     case Rejected => Refusal(403, BadTokenMsg, log)
                     case Admitted(_) => None;
      && x.nextCalls == old(x.nextCalls) + (if d.Admitted? then 1 else 0)
      && x.user == (if d.Admitted? then Some(d.payload) else old(x.user))
      && x.reply == (if r.Some? then r else old(x.reply))
      && x.rejected == (old(x.rejected) || (!d.Admitted? && log.FailsAlways?))
  {
    var token := jwt.ExtractTokenFromHeader(x.authorization);
    var refusal: Option<Reply> := None;
    if token.None? || token.value == "" {
      refusal := Refusal(401, NoTokenMsg, log);
    } else {
      var payload := jwt.VerifyAccessToken(token.value, now);
      if payload.None? {
        refusal := Refusal(403, BadTokenMsg, log);
      } else {
        x.user := payload;
        x.nextCalls := x.nextCalls + 1;
        return;
      }
    }
    if refusal.Some? {
      x.reply := refusal;
    } else {
      x.rejected := true;
    }
  }

  /** "Bearer " with nothing after it extracts the empty token, which the falsy check treats as no token. */
  lemma EmptyBearerIsNoToken(jwt: JwtUtil, now: int)
    ensures jwt.ExtractTokenFromHeader(Some(BearerPrefix)) == Some("")
    ensures Decide(jwt, Some(BearerPrefix), now) == NoToken
  {
    ExtractRoundTrip(jwt, "");
  }

  /** A freshly minted access token presented as "Bearer <token>" before it expires is admitted with
      exactly the payload it was minted from. */
  lemma FreshTokenAdmitted(jwt: JwtUtil, p: Claims, t0: int, t: int)
    requires Lawful(jwt.codec)
    requires t < t0 + jwt.codec.seconds(jwt.expiresIn)
    requires jwt.GetAccessToken(p, t0) != ""
    ensures Decide(jwt, Some(BearerPrefix + jwt.GetAccessToken(p, t0)), t)
            == Admitted(Decoded(p, t0, t0 + jwt.codec.seconds(jwt.expiresIn)))
  {
    ExtractRoundTrip(jwt, jwt.GetAccessToken(p, t0));
  }

  /** A non-empty token signed under another secret, or an expired access token, is refused with 403. */
  lemma ForeignOrExpiredTokenRejected(jwt: JwtUtil, p: Claims, s: string, d: string, t0: int, t: int)
    requires Lawful(jwt.codec)
    ensures var tok := jwt.codec.sign(p, s, d, t0);
            s != jwt.secret && tok != "" ==> Decide(jwt, Some(BearerPrefix + tok), t) == Rejected
    ensures var tok := jwt.GetAccessToken(p, t0);
            t >= t0 + jwt.codec.seconds(jwt.expiresIn) && tok != "" ==> Decide(jwt, Some(BearerPrefix + tok), t) == Rejected
  {
    ExtractRoundTrip(jwt, jwt.codec.sign(p, s, d, t0));
    ExtractRoundTrip(jwt, jwt.GetAccessToken(p, t0));
  }
}
