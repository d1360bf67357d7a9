/**
 * Issuing a token pair for a user: the claims are copied from the record and the
 * returned user view carries no password.
 */
module UserToken {
  import opened Wrappers
  import opened Http
  import opened Jwt
  import opened Users

  /** The claims object both handlers build: id as a string, account, role name and token version;
      phone and e-mail are left out. */
  function ClaimsOf(u: User): Claims {
    Claims(u.id, u.account, Some(RoleName(u.role)), u.tokenVersion, None, None)
  }

  /** The bundle `generateUserToken` returns: the user re-read by id without its password, serialised
      through `toJSON`, spread with the token pair. */
  function UserTokenSpec(jwt: JwtUtil, rs: seq<User>, u: User, now: int): TokenBundle {
    var tokens := jwt.GenerateTokens(ClaimsOf(u), now);
    var i := IndexOf(rs, ById, u.id);
    var view := if i.Some? then Some(JsonView(ToObject(rs[i.value]) - {"password"})) else None;
    TokenBundle(view, tokens.accessToken, tokens.refreshToken)
  }

  /** The bundle `generateUserTokenFromExisting` returns: a `toObject` copy of the document with
      `password` and `__v` deleted (its `_id` is kept), spread with the token pair. */
  function FromExistingSpec(jwt: JwtUtil, u: User, now: int): TokenBundle {
    var tokens := jwt.GenerateTokens(ClaimsOf(u), now);
    TokenBundle(Some(ToObject(u) - {"password", "__v"}), tokens.accessToken, tokens.refreshToken)
  }

  /** `generateUserToken`: mints the pair, then reads the store; it writes nothing. */
  method GenerateUserToken(jwt: JwtUtil, store: UserStore, u: User, now: int) returns (b: TokenBundle)
    ensures b == UserTokenSpec(jwt, store.records, u, now)
  {
    var tokens := jwt.GenerateTokens(ClaimsOf(u), now);
    var i := IndexOf(store.records, ById, u.id);
    var view: Option<Obj> := None;
    if i.Some? {
      var selected := ToObject(store.records[i.value]) - {"password"};
      var json := TransformToJSON(selected);
      view := Some(json);
    }
    b := TokenBundle(view, tokens.accessToken, tokens.refreshToken);
  }

  /** `generateUserTokenFromExisting`: deletes from a copy only, so the document itself (which the
      method may not modify) and the store are untouched. */
  method GenerateUserTokenFromExisting(jwt: JwtUtil, doc: UserDocument, now: int) returns (b: TokenBundle)
    ensures b == FromExistingSpec(jwt, doc.rec, now)
  {
    var tokens := jwt.GenerateTokens(ClaimsOf(doc.rec), now);
    var userObj := ToObject(doc.rec);
    userObj := userObj - {"password"};
    userObj := userObj - {"__v"};
    assert userObj == ToObject(doc.rec) - {"password", "__v"};
    b := TokenBundle(Some(userObj), tokens.accessToken, tokens.refreshToken);
  }

  /** Both tokens of a bundle decode, while alive, to exactly the user's id, account, role and current
      token version, with no phone and no e-mail. */
  lemma BundleCarriesClaims(jwt: JwtUtil, rs: seq<User>, u: User, t0: int, t: int)
    requires Lawful(jwt.codec)
    ensures var exp := t0 + jwt.codec.seconds(jwt.expiresIn);
      var b := FromExistingSpec(jwt, u, t0);
      && b.accessToken == UserTokenSpec(jwt, rs, u, t0).accessToken
      && b.refreshToken == UserTokenSpec(jwt, rs, u, t0).refreshToken
      && (t < exp ==> jwt.VerifyAccessToken(b.accessToken, t) == Some(Decoded(ClaimsOf(u), t0, exp)))
    ensures var c := ClaimsOf(u);
      && c.userId == u.id && c.account == u.account && c.role == Some(RoleName(u.role))
      && c.tokenVersion == u.tokenVersion && c.email.None? && c.phone.None?
  {
    GeneratedTokensVerify(jwt, ClaimsOf(u), t0, t);
  }

  /** The view `generateUserTokenFromExisting` returns has no password and no `__v` but keeps `_id`. */
  lemma FromExistingHidesPassword(jwt: JwtUtil, u: User, now: int)
    ensures FromExistingSpec(jwt, u, now).user.Some?
    ensures var v := FromExistingSpec(jwt, u, now).user.value;
      && "password" !in v && "__v" !in v
      && "_id" in v && v["_id"] == ObjectId(u.id)
      && "tokenVersion" in v && v["tokenVersion"] == Num(u.tokenVersion)
  {
    var o := ToObject(u);
    assert "_id" in o && "tokenVersion" in o;
  }

  /** The view `generateUserToken` returns for a stored user is its JSON form: `id`, no password. */
  lemma UserTokenHidesPassword(jwt: JwtUtil, rs: seq<User>, u: User, now: int)
    requires IndexOf(rs, ById, u.id).Some?
    ensures UserTokenSpec(jwt, rs, u, now).user.Some?
    ensures var v := UserTokenSpec(jwt, rs, u, now).user.value;
      "password" !in v && "__v" !in v && "_id" !in v && "id" in v && v["id"] == Str(u.id)
  {
    UserJsonView(rs[IndexOf(rs, ById, u.id).value]);
  }
}
