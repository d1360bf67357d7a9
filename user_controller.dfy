/**
 * The user handlers over the store: `register`, `login`, `upDatePsw`, `loginOut` and
 * `upDateUserInfo`. Each handler is a method on the store's objects and is tied by its
 * postcondition to a function (`...Spec`) giving its reply and the store afterwards;
 * the lemmas below state what those functions guarantee.
 */
module UserController {
  import opened Wrappers
  import opened Text
  import opened Http
  import opened Jwt
  import opened Users
  import opened UserToken

  const CreatedMsg := "用户创建成功"
  const DuplicateMsg := "该账号已被注册"
  const InvalidDataMsg := "数据验证失败"
  const ServerErrorMsg := "服务器内部错误"
  const BadCredentialsMsg := "用户名密码不正确"
  const LoginFirstMsg := "请先登录"
  const PasswordsEmptyMsg := "旧密码和新密码不能为空"
  const SamePasswordMsg := "旧密码不能与新密码相同"
  const NoSuchUserMsg := "用户不存在"
  const WrongOldPasswordMsg := "旧密码错误"
  const PasswordChangedMsg := "密码修改成功，请重新登录"
  const LoggedOutText := "退出登录"
  const UserInfoText := "修改用户信息"

  /** What `String(undefined)` gives: the digest helper concatenates its argument with the salt, so
      an absent password is digested as this text. */
  const UndefinedText := "undefined"

  /** A handler's effect: the reply written and the records afterwards. */
  datatype Step = Step(reply: Reply, records: seq<User>)

  /** `register`'s catch block: a duplicate key is 409, a validation error 400 with its messages, and
      anything else 500, each with `success: false`. */
  function RegisterFailure(e: StoreError): (r: Reply)
    ensures r.Json? && r.body.Outcome? && !r.body.success
    ensures r.status == (if e.MongoServerError? && e.code == DuplicateKeyCode then 409
                         else if e.ValidationError? then 400 else 500)
    ensures r.body.errors.Some? <==> e.ValidationError?
    ensures e.ValidationError? ==> r.body.errors == Some(e.messages)
  {
    if e.MongoServerError? && e.code == DuplicateKeyCode then Json(409, Outcome(false, DuplicateMsg, None))
    else if e.ValidationError? then Json(400, Outcome(false, InvalidDataMsg, Some(e.messages)))
    else Json(500, Outcome(false, ServerErrorMsg, None))
  }

  function RegisterSpec(jwt: JwtUtil, rs: seq<User>, hash: string -> string, body: NewUserFields, id: string, now: int): Step {
    match CreateSpec(rs, body, id, hash)
    case Failure(e) => Step(RegisterFailure(e), rs)
    case Success(u) =>
      var rs' := rs + [u];
      Step(Json(200, CodedData(200, CreatedMsg, Some(UserTokenSpec(jwt, rs', u, now)))), rs')
  }

  /** `register`: create the user from the body, then answer with a token bundle. `id` is the
      ObjectId the driver generates for the new document. */
  method Register(jwt: JwtUtil, store: UserStore, body: NewUserFields, id: string, now: int) returns (reply: Reply)
    modifies store
    ensures Step(reply, store.records) == RegisterSpec(jwt, old(store.records), store.hash, body, id, now)
  {
    var r := store.Create(body, id);
    if r.Failure? {
      reply := RegisterFailure(r.error);
      return;
    }
    var tokenData := GenerateUserToken(jwt, store, r.value, now);
    reply := Json(200, CodedData(200, CreatedMsg, Some(tokenData)));
  }

  /** `login`'s answer. The account is looked up after the schema's `trim` setter; an absent password is
      compared as the text "undefined". */
  function LoginSpec(jwt: JwtUtil, rs: seq<User>, hash: string -> string, account: string, password: Option<string>, now: int): Reply {
    var i := IndexOf(rs, ByAccount, Trim(account));
    if i.None? then Json(500, CodedError(1000))
    else if hash(password.GetOr(UndefinedText)) != rs[i.value].password then Json(200, CodedData(1000, BadCredentialsMsg, None))
    else Json(200, CodedData(200, CreatedMsg, Some(FromExistingSpec(jwt, rs[i.value], now))))
  }

  /** `login`. `comparePassword` is called before the null check, so an unknown account throws and
      ends in the catch block with status 500. The method has no licence to modify the store. */
  method Login(jwt: JwtUtil, store: UserStore, account: string, password: Option<string>, now: int) returns (reply: Reply)
    ensures reply == LoginSpec(jwt, store.records, store.hash, account, password, now)
  {
    var user := store.FindOneByAccount(account);
    if user.None? {
      reply := Json(500, CodedError(1000));
      return;
    }
    var isPasswordValid := user.value.ComparePassword(password.GetOr(UndefinedText));
    if !isPasswordValid {
      reply := Json(200, CodedData(1000, BadCredentialsMsg, None));
      return;
    }
    var tokenData := GenerateUserTokenFromExisting(jwt, user.value, now);
    reply := Json(200, CodedData(200, CreatedMsg, Some(tokenData)));
  }

  function Reject(msg: string): Reply {
    Json(200, CodedData(1000, msg, None))
  }

  /** The record after a password change: the new password goes through the pre-save hook, which
      digests it unless it equals the stored digest (then the path is not modified and the digest
      stays); the version is one higher; nothing else is touched. */
  function PasswordChanged(u: User, newPassword: string, hash: string -> string): User {
    u.(password := HashIfModified(newPassword, newPassword != u.password, hash), tokenVersion := u.tokenVersion + 1)
  }

  function UpDatePswSpec(rs: seq<User>, hash: string -> string, user: Option<Decoded>,
                         oldPassword: Option<string>, newPassword: Option<string>): Step
  {
    if user.None? || user.value.claims.userId == "" then Step(Reject(LoginFirstMsg), rs)
    else if oldPassword.None? || oldPassword.value == "" || newPassword.None? || newPassword.value == "" then
      Step(Reject(PasswordsEmptyMsg), rs)
    else if oldPassword.value == newPassword.value then Step(Reject(SamePasswordMsg), rs)
    else
      var i := IndexOf(rs, ById, user.value.claims.userId);
      if i.None? then Step(Reject(NoSuchUserMsg), rs)
      else if hash(oldPassword.value) != rs[i.value].password then Step(Reject(WrongOldPasswordMsg), rs)
      else Step(Json(200, CodedData(200, PasswordChangedMsg, None)),
                rs[i.value := PasswordChanged(rs[i.value], newPassword.value, hash)])
  }

  /** `upDatePsw`, for the authenticated `req.user`: five ordered refusals, then the new password is
      assigned, saved (the hook hashes it) and the token version incremented (a second save, which
      leaves the already hashed password alone). */
  method UpDatePsw(store: UserStore, user: Option<Decoded>, oldPassword: Option<string>, newPassword: Option<string>)
    returns (reply: Reply)
    modifies store
    ensures Step(reply, store.records) == UpDatePswSpec(old(store.records), store.hash, user, oldPassword, newPassword)
  {
    if user.None? || user.value.claims.userId == "" {
      reply := Reject(LoginFirstMsg);
      return;
    }
    if oldPassword.None? || oldPassword.value == "" || newPassword.None? || newPassword.value == "" {
      reply := Reject(PasswordsEmptyMsg);
      return;
    }
    if oldPassword.value == newPassword.value {
      reply := Reject(SamePasswordMsg);
      return;
    }
    var found := store.FindById(user.value.claims.userId);
    if found.None? {
      reply := Reject(NoSuchUserMsg);
      return;
    }
    var doc := found.value;
    var isPasswordValid := doc.ComparePassword(oldPassword.value);
    if !isPasswordValid {
      reply := Reject(WrongOldPasswordMsg);
      return;
    }
    ghost var rs := store.records;
    ghost var i := IndexOf(rs, ById, doc.rec.id).value;
    doc.SetPassword(newPassword.value);
    var saved := doc.Save();
    assert saved;
    assert store.records == rs[i := doc.rec];
    var bumped := doc.IncrementTokenVersion();
    assert bumped;
    assert store.records == rs[i := PasswordChanged(rs[i], newPassword.value, store.hash)];
    reply := Json(200, CodedData(200, PasswordChangedMsg, None));
  }

  /** `loginOut`: answers with a fixed text and, having no licence to modify the store, leaves every
      token version (and so every issued token) as it was. */
  method LoginOut(store: UserStore) returns (reply: Reply)
    ensures reply == Text(200, LoggedOutText)
  {
    reply := Text(200, LoggedOutText);
  }

  /** `upDateUserInfo`: a stub that answers with a fixed text and changes nothing. */
  method UpDateUserInfo(store: UserStore) returns (reply: Reply)
    ensures reply == Text(200, UserInfoText)
  {
    reply := Text(200, UserInfoText);
  }
}
