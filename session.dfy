/**
 * What the handlers and the gate guarantee together about the session state: the
 * outcomes of each handler, token versions that only grow, unique keys that stay
 * unique, and the end-to-end behaviour of issued tokens (including that the gate
 * never consults the stored token version).
 */
module Session {
  import opened Wrappers
  import opened Http
  import opened Jwt
  import opened Auth
  import opened Users
  import opened UserToken
  import opened UserController
  import RegisterRules
  import Text

  /** Records are never removed or reordered, and no token version ever goes down. */
  ghost predicate VersionsGrow(rs: seq<User>, rs': seq<User>) {
    && |rs| <= |rs'|
    && forall k :: 0 <= k < |rs| ==> rs'[k].id == rs[k].id && rs[k].tokenVersion <= rs'[k].tokenVersion
  }

  /** `register` either stores exactly the new user and answers 200 with a bundle for it (its JSON view
      under `id`, no password, tokens carrying its version, 0 unless the body set one), or stores
      nothing and answers 409 (a unique key is taken) or 400 (validation); 500 cannot come out of the
      model's store. */
  lemma RegisterOutcome(jwt: JwtUtil, rs: seq<User>, hash: string -> string, body: NewUserFields, id: string, now: int)
    ensures var st := RegisterSpec(jwt, rs, hash, body, id, now);
            var c := CreateSpec(rs, body, id, hash);
      && (c.Failure? ==> st.records == rs && st.reply.Json? && (st.reply.status == 400 || st.reply.status == 409))
      && (c.Success? ==>
            && st.records == rs + [c.value]
            && st.reply.Json? && st.reply.status == 200 && st.reply.body.CodedData? && st.reply.body.code == 200
            && st.reply.body.data.Some?
            && var b := st.reply.body.data.value;
               && b.user.Some? && "id" in b.user.value && b.user.value["id"] == Str(id) && "password" !in b.user.value
               && "account" in b.user.value && b.user.value["account"] == Str(c.value.account)
               && b.accessToken == jwt.GetAccessToken(ClaimsOf(c.value), now)
               && b.refreshToken == jwt.GetRefreshToken(ClaimsOf(c.value), now)
               && ClaimsOf(c.value).tokenVersion == body.tokenVersion.GetOr(0))
  {
    var c := CreateSpec(rs, body, id, hash);
    if c.Success? {
      var u := c.value;
      CreatedUser(rs, body, id, hash);
      RegisterSucceeds(jwt, rs, hash, body, id, now, u);
      assert forall k :: 0 <= k < |rs| ==> rs[k].id != u.id by {
        forall k | 0 <= k < |rs| ensures rs[k].id != u.id {
          assert !Collide(rs[k], u);
        }
      }
      IssuedBundle(jwt, rs, u, now);
    } else {
      assert RegisterSpec(jwt, rs, hash, body, id, now) == Step(RegisterFailure(c.error), rs);
    }
  }

  /** `login` never changes the store. It looks the account up trimmed; an unknown account ends in 500;
      a wrong password (an absent one counts as "undefined") is refused with code 1000 and no data; the
      right password yields tokens for the stored record as it is, carrying its current token version. */
  lemma LoginOutcome(jwt: JwtUtil, rs: seq<User>, hash: string -> string, account: string, password: Option<string>, now: int)
    ensures var r := LoginSpec(jwt, rs, hash, account, password, now);
            var i := IndexOf(rs, ByAccount, Text.Trim(account));
            var p := if password.Some? then password.value else "undefined";
      && (i.None? ==> r == Json(500, CodedError(1000)))
      && (i.Some? && hash(p) != rs[i.value].password ==> r == Json(200, CodedData(1000, BadCredentialsMsg, None)))
      && (i.Some? && hash(p) == rs[i.value].password ==>
            && r.Json? && r.status == 200 && r.body.CodedData? && r.body.code == 200 && r.body.data.Some?
            && r.body.data.value.accessToken == jwt.GetAccessToken(ClaimsOf(rs[i.value]), now)
            && ClaimsOf(rs[i.value]).tokenVersion == rs[i.value].tokenVersion
            && "password" !in r.body.data.value.user.value)
  {
  }

  /** Surrounding white space in the account a client logs in with makes no difference. */
  lemma LoginTrimsAccount(jwt: JwtUtil, rs: seq<User>, hash: string -> string, account: string, password: Option<string>, now: int)
    ensures LoginSpec(jwt, rs, hash, account, password, now) == LoginSpec(jwt, rs, hash, Text.Trim(account), password, now)
  {
    var a := Text.Trim(account);
    Text.TrimIdempotent(account);
    assert IndexOf(rs, ByAccount, Text.Trim(a)) == IndexOf(rs, ByAccount, a);
  }

  /** The two refusals of `login` can be told apart: an unknown account answers 500, a known account
      with a wrong password answers 200. */
  lemma LoginRevealsUnknownAccount(jwt: JwtUtil, rs: seq<User>, hash: string -> string, a1: string, a2: string, p: string, now: int)
    requires IndexOf(rs, ByAccount, Text.Trim(a1)).None?
    requires IndexOf(rs, ByAccount, Text.Trim(a2)).Some? && hash(p) != rs[IndexOf(rs, ByAccount, Text.Trim(a2)).value].password
    ensures LoginSpec(jwt, rs, hash, a1, Some(p), now).status == 500
    ensures LoginSpec(jwt, rs, hash, a2, Some(p), now).status == 200
  {
  }

  /** `upDatePsw` refuses, in this order: no user id, a missing or empty password, equal passwords, an
      unknown user, a wrong old password; every refusal answers 200 with code 1000 and leaves the store
      as it was. */
  lemma UpDatePswRefusals(rs: seq<User>, hash: string -> string, user: Option<Decoded>, oldPw: Option<string>, newPw: Option<string>)
    ensures var st := UpDatePswSpec(rs, hash, user, oldPw, newPw);
      && (st.reply.body.code != 200 ==> st.records == rs && st.reply.Json? && st.reply.status == 200 && st.reply.body.code == 1000)
      && (user.None? || user.value.claims.userId == "" ==> st.reply == Reject(LoginFirstMsg))
      && ((user.Some? && user.value.claims.userId != "" && (oldPw.None? || oldPw.value == "" || newPw.None? || newPw.value == ""))
          ==> st.reply == Reject(PasswordsEmptyMsg))
      && ((user.Some? && user.value.claims.userId != "" && oldPw.Some? && oldPw.value != "" && oldPw == newPw)
          ==> st.reply == Reject(SamePasswordMsg))
      && ((user.Some? && user.value.claims.userId != "" && oldPw.Some? && oldPw.value != "" && newPw.Some?
           && newPw.value != "" && oldPw != newPw && IndexOf(rs, ById, user.value.claims.userId).None?)
          ==> st.reply == Reject(NoSuchUserMsg))
      && ((user.Some? && user.value.claims.userId != "" && oldPw.Some? && oldPw.value != "" && newPw.Some?
           && newPw.value != "" && oldPw != newPw && IndexOf(rs, ById, user.value.claims.userId).Some?
           && hash(oldPw.value) != rs[IndexOf(rs, ById, user.value.claims.userId).value].password)
          ==> st.reply == Reject(WrongOldPasswordMsg))
  {
  }

  /** A successful password change leaves the record's digest at the digest of the new password (hashed
      once, not twice) unless the new password is the stored digest itself, which the hook then leaves
      alone; the token version is one higher; every other field and every other record is unchanged. */
  lemma UpDatePswSuccess(rs: seq<User>, hash: string -> string, user: Decoded, oldPw: string, newPw: string)
    requires user.claims.userId != "" && oldPw != "" && newPw != "" && oldPw != newPw
    requires IndexOf(rs, ById, user.claims.userId).Some?
    requires hash(oldPw) == rs[IndexOf(rs, ById, user.claims.userId).value].password
    ensures var st := UpDatePswSpec(rs, hash, Some(user), Some(oldPw), Some(newPw));
            var i := IndexOf(rs, ById, user.claims.userId).value;
      && st.reply == Json(200, CodedData(200, PasswordChangedMsg, None))
      && st.records == rs[i := PasswordChanged(rs[i], newPw, hash)]
      && |st.records| == |rs|
      && (newPw != rs[i].password ==> st.records[i].password == hash(newPw))
      && (newPw == rs[i].password ==> st.records[i].password == rs[i].password)
      && st.records[i].tokenVersion == rs[i].tokenVersion + 1
      && st.records[i] == rs[i].(password := st.records[i].password, tokenVersion := st.records[i].tokenVersion)
      && forall k :: 0 <= k < |rs| && k != i ==> st.records[k] == rs[k]
  {
  }

  /** Replacing a record by one with the same account keeps it the record a login with that (trimmed)
      account finds. */
  lemma SameAccountFound(rs: seq<User>, i: nat, u: User, account: string)
    requires UniqueKeys(rs) && i < |rs|
    requires u.account == rs[i].account && Text.Trim(account) == rs[i].account
    ensures IndexOf(rs[i := u], ByAccount, Text.Trim(account)) == Some(i)
  {
    var rs' := rs[i := u];
    forall k | 0 <= k < i ensures KeyOf(rs'[k], ByAccount) != rs[i].account {
      assert !Collide(rs[k], rs[i]);
    }
    IndexOfIsFirst(rs', ByAccount, rs[i].account, i);
  }

  /** After a password change to a new password other than the stored digest, the new password logs in
      and yields tokens with the new version, and the old one is refused unless the two passwords share a
      digest. */
  lemma LoginAfterPasswordChange(jwt: JwtUtil, rs: seq<User>, hash: string -> string, user: Decoded,
                                 oldPw: string, newPw: string, account: string, now: int)
    requires UniqueKeys(rs)
    requires user.claims.userId != "" && oldPw != "" && newPw != "" && oldPw != newPw
    requires IndexOf(rs, ById, user.claims.userId).Some?
    requires hash(oldPw) == rs[IndexOf(rs, ById, user.claims.userId).value].password
    requires Text.Trim(account) == rs[IndexOf(rs, ById, user.claims.userId).value].account
    requires newPw != rs[IndexOf(rs, ById, user.claims.userId).value].password
    ensures var i := IndexOf(rs, ById, user.claims.userId).value;
            var rs' := UpDatePswSpec(rs, hash, Some(user), Some(oldPw), Some(newPw)).records;
            var u' := PasswordChanged(rs[i], newPw, hash);
            var r := LoginSpec(jwt, rs', hash, account, Some(newPw), now);
      && r.Json? && r.status == 200 && r.body.CodedData? && r.body.code == 200 && r.body.data.Some?
      && r.body.data.value.accessToken == jwt.GetAccessToken(ClaimsOf(u'), now)
      && ClaimsOf(u').tokenVersion == rs[i].tokenVersion + 1
      && (hash(oldPw) != hash(newPw) ==> LoginSpec(jwt, rs', hash, account, Some(oldPw), now) == Reject(BadCredentialsMsg))
  {
    var i := IndexOf(rs, ById, user.claims.userId).value;
    var u' := PasswordChanged(rs[i], newPw, hash);
    UpDatePswSuccess(rs, hash, user, oldPw, newPw);
    SameAccountFound(rs, i, u', account);
    assert u'.password == hash(newPw);
    assert LoginSpec(jwt, rs[i := u'], hash, account, Some(newPw), now)
           == Json(200, CodedData(200, CreatedMsg, Some(FromExistingSpec(jwt, u', now))));
  }

  /** When the new password is the stored digest itself, the hook sees no modification: the digest
      stays, so the old password still logs in (now with the bumped version). */
  lemma DigestAsNewPasswordKeepsOldOne(jwt: JwtUtil, rs: seq<User>, hash: string -> string, user: Decoded,
                                       oldPw: string, newPw: string, account: string, now: int)
    requires UniqueKeys(rs)
    requires user.claims.userId != "" && oldPw != "" && newPw != "" && oldPw != newPw
    requires IndexOf(rs, ById, user.claims.userId).Some?
    requires hash(oldPw) == rs[IndexOf(rs, ById, user.claims.userId).value].password
    requires Text.Trim(account) == rs[IndexOf(rs, ById, user.claims.userId).value].account
    requires newPw == rs[IndexOf(rs, ById, user.claims.userId).value].password
    ensures var i := IndexOf(rs, ById, user.claims.userId).value;
            var rs' := UpDatePswSpec(rs, hash, Some(user), Some(oldPw), Some(newPw)).records;
            var u' := PasswordChanged(rs[i], newPw, hash);
            var r := LoginSpec(jwt, rs', hash, account, Some(oldPw), now);
      && u'.password == rs[i].password
      && r.Json? && r.status == 200 && r.body.CodedData? && r.body.code == 200 && r.body.data.Some?
      && r.body.data.value.accessToken == jwt.GetAccessToken(ClaimsOf(u'), now)
      && ClaimsOf(u').tokenVersion == rs[i].tokenVersion + 1
  {
    var i := IndexOf(rs, ById, user.claims.userId).value;
    var u' := PasswordChanged(rs[i], newPw, hash);
    UpDatePswSuccess(rs, hash, user, oldPw, newPw);
    SameAccountFound(rs, i, u', account);
    assert u'.password == rs[i].password;
    assert LoginSpec(jwt, rs[i := u'], hash, account, Some(oldPw), now)
           == Json(200, CodedData(200, CreatedMsg, Some(FromExistingSpec(jwt, u', now))));
  }

  /** `register` drops no record and lowers no token version. */
  lemma RegisterKeepsVersionsGrowing(jwt: JwtUtil, rs: seq<User>, hash: string -> string, body: NewUserFields, id: string, now: int)
    ensures VersionsGrow(rs, RegisterSpec(jwt, rs, hash, body, id, now).records)
  {
    var c := CreateSpec(rs, body, id, hash);
    if c.Success? {
      RegisterSucceeds(jwt, rs, hash, body, id, now, c.value);
      assert (rs + [c.value])[..|rs|] == rs;
    }
  }

  /** `upDatePsw` drops no record and lowers no token version. */
  lemma UpDatePswKeepsVersionsGrowing(rs: seq<User>, hash: string -> string, user: Option<Decoded>, oldPw: Option<string>, newPw: Option<string>)
    ensures VersionsGrow(rs, UpDatePswSpec(rs, hash, user, oldPw, newPw).records)
  {
    var rs' := UpDatePswSpec(rs, hash, user, oldPw, newPw).records;
    if rs' != rs {
      var i := IndexOf(rs, ById, user.value.claims.userId).value;
      assert rs' == rs[i := PasswordChanged(rs[i], newPw.value, hash)];
    }
  }

  /** `register` keeps every unique key unique. */
  lemma RegisterKeepsKeysUnique(jwt: JwtUtil, rs: seq<User>, hash: string -> string, body: NewUserFields, id: string, now: int)
    requires UniqueKeys(rs)
    ensures UniqueKeys(RegisterSpec(jwt, rs, hash, body, id, now).records)
  {
    var c := CreateSpec(rs, body, id, hash);
    if c.Success? {
      RegisterSucceeds(jwt, rs, hash, body, id, now, c.value);
      CreatePreservesUniqueKeys(rs, body, id, hash);
    }
  }

  /** `upDatePsw` keeps every unique key unique: it changes no key field. */
  lemma UpDatePswKeepsKeysUnique(rs: seq<User>, hash: string -> string, user: Option<Decoded>, oldPw: Option<string>, newPw: Option<string>)
    requires UniqueKeys(rs)
    ensures UniqueKeys(UpDatePswSpec(rs, hash, user, oldPw, newPw).records)
  {
    var rs' := UpDatePswSpec(rs, hash, user, oldPw, newPw).records;
    if rs' != rs {
      var i := IndexOf(rs, ById, user.value.claims.userId).value;
      var u := PasswordChanged(rs[i], newPw.value, hash);
      assert rs' == rs[i := u];
      SameKeysKeepUnique(rs, i, u);
    }
  }

  /** Replacing a record by one with the same key fields keeps the keys unique. */
  lemma SameKeysKeepUnique(rs: seq<User>, i: nat, u: User)
    requires UniqueKeys(rs) && i < |rs|
    requires u.id == rs[i].id && u.account == rs[i].account && u.employeeId == rs[i].employeeId
             && u.phone == rs[i].phone && u.email == rs[i].email
    ensures UniqueKeys(rs[i := u])
  {
    var rs' := rs[i := u];
    forall j, k | 0 <= j < k < |rs'| ensures !Collide(rs'[j], rs'[k]) {
      assert !Collide(rs[j], rs[k]);
    }
  }

  /** The gate never reads the stored version: an access token issued at login is still admitted after
      a successful password change (until it expires), although the version it carries is now one behind
      the stored one. */
  lemma TokenOutlivesPasswordChange(jwt: JwtUtil, rs: seq<User>, hash: string -> string, user: Decoded,
                                    oldPw: string, newPw: string, t0: int, t: int)
    requires Lawful(jwt.codec)
    requires user.claims.userId != "" && oldPw != "" && newPw != "" && oldPw != newPw
    requires IndexOf(rs, ById, user.claims.userId).Some?
    requires hash(oldPw) == rs[IndexOf(rs, ById, user.claims.userId).value].password
    requires t < t0 + jwt.codec.seconds(jwt.expiresIn)
    requires FromExistingSpec(jwt, rs[IndexOf(rs, ById, user.claims.userId).value], t0).accessToken != ""
    ensures var i := IndexOf(rs, ById, user.claims.userId).value;
            var token := FromExistingSpec(jwt, rs[i], t0).accessToken;
            var rs' := UpDatePswSpec(rs, hash, Some(user), Some(oldPw), Some(newPw)).records;
            var d := Decide(jwt, Some(BearerPrefix + token), t);
      && d.Admitted?
      && d.payload.claims.tokenVersion == rs[i].tokenVersion
      && rs'[i].tokenVersion == d.payload.claims.tokenVersion + 1
  {
    var i := IndexOf(rs, ById, user.claims.userId).value;
    FreshTokenAdmitted(jwt, ClaimsOf(rs[i]), t0, t);
  }

  /** A body giving only an account (2 to 50 UTF-16 units once trimmed) and a non-empty password
      creates, in an empty store, the record with the trimmed account, every default filled in and the
      password digested. */
  lemma MinimalRegistration(hash: string -> string, id: string, account: string, password: string)
    requires 2 <= Text.Utf16Length(Text.Trim(account)) <= 50
    requires password != ""
    ensures CreateSpec([], NewUserFields(Some(account), Some(password), None, None, None, None, None, None, None, None), id, hash)
            == Success(User(id, Text.Trim(account), hash(password), DefaultUsername, None, None, Employee, "", None, None, 0))
  {
    var f := NewUserFields(Some(account), Some(password), None, None, None, None, None, None, None, None);
    var n := Normalise(f);
    assert n == f.(account := Some(Text.Trim(account)));
    assert SchemaValid(n);
    var u := Build(id, n, hash);
    assert u == User(id, Text.Trim(account), hash(password), DefaultUsername, None, None, Employee, "", None, None, 0);
    assert !Clashes([], u);
  }

  /** Registering such a body into an empty store answers 200 with a view showing the trimmed account,
      and the access token carries the new id, that account, role "employee" and token version 0. */
  lemma MinimalRegistrationReply(jwt: JwtUtil, hash: string -> string, id: string, account: string, password: string, now: int)
    requires 2 <= Text.Utf16Length(Text.Trim(account)) <= 50
    requires password != ""
    ensures var st := RegisterSpec(jwt, [], hash, NewUserFields(Some(account), Some(password), None, None, None, None, None, None, None, None), id, now);
      && st.reply.Json? && st.reply.status == 200 && st.reply.body.CodedData? && st.reply.body.code == 200
      && |st.records| == 1 && st.records[0].tokenVersion == 0
      && st.reply.body.data.Some? && st.reply.body.data.value.user.Some?
      && "account" in st.reply.body.data.value.user.value
      && st.reply.body.data.value.user.value["account"] == Str(Text.Trim(account))
      && st.reply.body.data.value.accessToken == jwt.GetAccessToken(Claims(id, Text.Trim(account), Some("employee"), 0, None, None), now)
  {
    var body := NewUserFields(Some(account), Some(password), None, None, None, None, None, None, None, None);
    var u := User(id, Text.Trim(account), hash(password), DefaultUsername, None, None, Employee, "", None, None, 0);
    MinimalRegistration(hash, id, account, password);
    assert CreateSpec([], body, id, hash) == Success(u);
    RegisterSucceeds(jwt, [], hash, body, id, now, u);
    IssuedBundle(jwt, [], u, now);
    assert ClaimsOf(u) == Claims(id, Text.Trim(account), Some("employee"), 0, None, None);
  }

  /** A successful creation determines `register`'s whole effect. */
  lemma RegisterSucceeds(jwt: JwtUtil, rs: seq<User>, hash: string -> string, body: NewUserFields, id: string, now: int, u: User)
    requires CreateSpec(rs, body, id, hash) == Success(u)
    ensures RegisterSpec(jwt, rs, hash, body, id, now)
            == Step(Json(200, CodedData(200, CreatedMsg, Some(UserTokenSpec(jwt, rs + [u], u, now)))), rs + [u])
  {
  }

  /** The bundle issued for a user just appended under a fresh id: its JSON view under `id`, without
      the password, showing the account, and the token pair for its claims. */
  lemma IssuedBundle(jwt: JwtUtil, rs: seq<User>, u: User, now: int)
    requires forall k :: 0 <= k < |rs| ==> rs[k].id != u.id
    ensures var b := UserTokenSpec(jwt, rs + [u], u, now);
      && b.user.Some? && "password" !in b.user.value
      && "id" in b.user.value && b.user.value["id"] == Str(u.id)
      && "account" in b.user.value && b.user.value["account"] == Str(u.account)
      && b.accessToken == jwt.GetAccessToken(ClaimsOf(u), now)
      && b.refreshToken == jwt.GetRefreshToken(ClaimsOf(u), now)
  {
    IndexOfIsFirst(rs + [u], ById, u.id, |rs|);
    UserJsonView(u);
  }

  /** Scenario: registering `{ account: "alice01", password: "abc_123" }` into an empty store issues an
      access token carrying version 0. */
  lemma AliceRegisters(jwt: JwtUtil, hash: string -> string, id: string, now: int)
    ensures var st := RegisterSpec(jwt, [], hash, NewUserFields(Some("alice01"), Some("abc_123"), None, None, None, None, None, None, None, None), id, now);
      && st.reply.Json? && st.reply.status == 200 && st.reply.body.CodedData? && st.reply.body.data.Some?
      && st.reply.body.data.value.accessToken == jwt.GetAccessToken(Claims(id, "alice01", Some("employee"), 0, None, None), now)
  {
    Text.TrimStartOfNoSpace("alice01");
    Text.TrimEndOfNoSpace("alice01");
    MinimalRegistrationReply(jwt, hash, id, "alice01", "abc_123", now);
  }
}
