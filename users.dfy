/**
 * The user model: the record, its schema (setters, defaults, validators and unique
 * indexes), the pre-save hashing hook, `comparePassword`, `incrementTokenVersion`
 * and the `toJSON` transform, over an abstract store that keeps records in insertion
 * order. The password digest function is a parameter of the store (`hash`).
 */
module Users {
  import opened Wrappers
  import opened Text
  import opened Http

  datatype Role = Admin | Manager | Employee | Guest

  function RoleName(r: Role): string {
    match r
    case Admin => "admin"
    case Manager => "manager"
    case Employee => "employee"
    case Guest => "guest"
  }

  /** The enum check: exactly the four role names are accepted, each naming its role. */
  function ParseRole(s: string): (r: Option<Role>)
    ensures r.Some? <==> s == "admin" || s == "manager" || s == "employee" || s == "guest"
    ensures r.Some? ==> RoleName(r.value) == s
  {
    if s == "admin" then Some(Admin)
    else if s == "manager" then Some(Manager)
    else if s == "employee" then Some(Employee)
    else if s == "guest" then Some(Guest)
    else None
  }

  /** A stored user. `password` holds the digest once the record has been saved. */
  datatype User = User(
    id: string,
    account: string,
    password: string,
    username: string,
    employeeId: Option<string>,
    department: Option<string>,
    role: Role,
    avatar: string,
    phone: Option<string>,
    email: Option<string>,
    tokenVersion: int)

  /** The fields a creation request may carry (`None` = not present in the body). */
  datatype NewUserFields = NewUserFields(
    account: Option<string>,
    password: Option<string>,
    username: Option<string>,
    employeeId: Option<string>,
    department: Option<string>,
    role: Option<string>,
    avatar: Option<string>,
    phone: Option<string>,
    email: Option<string>,
    tokenVersion: Option<int>)

  const DefaultUsername := "默认用户"
  const DuplicateKeyCode := 11000

  const AccountRequired := "账号不能为空"
  const AccountTooShort := "账号长度不能小于2"
  const AccountTooLong := "账号长度不能大于50"
  const PasswordRequired := "密码不能为空"
  const UsernameTooShort := "姓名长度不能小于2"
  const UsernameTooLong := "姓名长度不能大于50"
  const EmployeeIdTooShort := "工号长度不能小于2"
  const EmployeeIdTooLong := "工号长度不能大于20"
  const DepartmentTooLong := "部门名称不能大于50"
  const RoleRequired := "角色不能为空"
  const PhoneInvalid := "手机号格式不正确"
  const EmailInvalid := "邮箱格式不正确"

  function RoleEnumMessage(v: string): string {
    "`" + v + "` is not a valid enum value for path `role`."
  }

  /** `/^1[3-9]\d{9}$/`: eleven ASCII digits, the first `1`, the second between 3 and 9. */
  predicate PhoneMatches(s: string) {
    && |s| == 11
    && s[0] == '1'
    && '3' <= s[1] <= '9'
    && forall k :: 2 <= k < |s| ==> IsDigit(s[k])
  }

  /** `/^\S+@\S+\.\S+$/`: no white space anywhere, an `@` after at least one character, and a `.`
      with at least one character between it and the `@` and at least one after it. */
  predicate EmailMatches(s: string) {
    && (forall k :: 0 <= k < |s| ==> !IsSpace(s[k]))
    && exists i, j :: 1 <= i && i + 2 <= j && j + 2 <= |s| && s[i] == '@' && s[j] == '.'
  }

  /** The schema validators `!v || regex.test(v)`: an unset or empty value always passes. */
  predicate PhoneValidator(v: Option<string>) {
    v.None? || v.value == "" || PhoneMatches(v.value)
  }

  predicate EmailValidator(v: Option<string>) {
    v.None? || v.value == "" || EmailMatches(v.value)
  }

  function TrimOpt(v: Option<string>): Option<string> {
    if v.Some? then Some(Trim(v.value)) else None
  }

  /** The schema's setters, applied when the document is built: `trim` on account, username, employeeId,
      department, phone and email, and `lowercase` on email. */
  function Normalise(f: NewUserFields): NewUserFields {
    f.(account := TrimOpt(f.account),
       username := TrimOpt(f.username),
       employeeId := TrimOpt(f.employeeId),
       department := TrimOpt(f.department),
       phone := TrimOpt(f.phone),
       email := if f.email.Some? then Some(ToLower(Trim(f.email.value))) else None)
  }

  /** The setters are idempotent: normalising normalised fields changes nothing, so a value read back
      from the store and assigned again is stored as it was. */
  lemma NormaliseIdempotent(f: NewUserFields)
    ensures Normalise(Normalise(f)) == Normalise(f)
  {
    if f.account.Some? { TrimIdempotent(f.account.value); }
    if f.username.Some? { TrimIdempotent(f.username.value); }
    if f.employeeId.Some? { TrimIdempotent(f.employeeId.value); }
    if f.department.Some? { TrimIdempotent(f.department.value); }
    if f.phone.Some? { TrimIdempotent(f.phone.value); }
    if f.email.Some? {
      TrimOfLoweredTrim(f.email.value);
      ToLowerIdempotent(Trim(f.email.value));
    }
  }

  /** A phone or e-mail that passes its validator contains no white space at its ends, so the `trim`
      setter leaves it as it is. */
  lemma ValidatedContactsNeedNoTrim(s: string)
    ensures PhoneMatches(s) ==> Trim(s) == s
    ensures EmailMatches(s) ==> Trim(s) == s
  {
    if PhoneMatches(s) || EmailMatches(s) {
      assert s != [] && !IsSpace(s[0]) && !IsSpace(s[|s| - 1]);
      TrimStartOfNoSpace(s);
      TrimEndOfNoSpace(s);
    }
  }

  /** The first failing validator of each path (required first, then in declaration order). The
      `minlength` and `maxlength` validators measure `Utf16Length`. */
  function AccountError(v: Option<string>): Option<string> {
    if v.None? || v.value == "" then Some(AccountRequired)
    else if Utf16Length(v.value) < 2 then Some(AccountTooShort)
    else if Utf16Length(v.value) > 50 then Some(AccountTooLong)
    else None
  }

  function PasswordError(v: Option<string>): Option<string> {
    if v.None? || v.value == "" then Some(PasswordRequired) else None
  }

  function UsernameError(v: Option<string>): Option<string> {
    if v.None? then None
    else if Utf16Length(v.value) < 2 then Some(UsernameTooShort)
    else if Utf16Length(v.value) > 50 then Some(UsernameTooLong)
    else None
  }

  function EmployeeIdError(v: Option<string>): Option<string> {
    if v.None? then None
    else if Utf16Length(v.value) < 2 then Some(EmployeeIdTooShort)
    else if Utf16Length(v.value) > 20 then Some(EmployeeIdTooLong)
    else None
  }

  function DepartmentError(v: Option<string>): Option<string> {
    if v.Some? && Utf16Length(v.value) > 50 then Some(DepartmentTooLong) else None
  }

  function RoleError(v: Option<string>): Option<string> {
    if v.None? then None
    else if v.value == "" then Some(RoleRequired)
    else if ParseRole(v.value).None? then Some(RoleEnumMessage(v.value))
    else None
  }

  function PhoneError(v: Option<string>): Option<string> {
    if PhoneValidator(v) then None else Some(PhoneInvalid)
  }

  function EmailError(v: Option<string>): Option<string> {
    if EmailValidator(v) then None else Some(EmailInvalid)
  }

  function Report(e: Option<string>): seq<string> {
    if e.Some? then [e.value] else []
  }

  /** The messages of a `ValidationError`, paths in schema order, on already normalised fields. */
  function SchemaMessages(n: NewUserFields): seq<string> {
    Report(AccountError(n.account)) + Report(PasswordError(n.password)) + Report(UsernameError(n.username))
    + Report(EmployeeIdError(n.employeeId)) + Report(DepartmentError(n.department)) + Report(RoleError(n.role))
    + Report(PhoneError(n.phone)) + Report(EmailError(n.email))
  }

  /** The document `create` saves from normalised fields: defaults filled in and the password
      replaced by its digest by the pre-save hook (a new document's password counts as modified). */
  function Build(id: string, n: NewUserFields, hash: string -> string): User {
    var role := ParseRole(n.role.GetOr("employee"));
    User(id, n.account.GetOr(""), hash(n.password.GetOr("")), n.username.GetOr(DefaultUsername),
         n.employeeId, n.department, if role.Some? then role.value else Employee,
         n.avatar.GetOr(""), n.phone, n.email, n.tokenVersion.GetOr(0))
  }

  /** Two records collide on a unique index: `_id`, `account`, or one of the sparse indexes
      (`employeeId`, `phone`, `email`), which only see documents that have the field. */
  predicate Collide(a: User, b: User) {
    || a.id == b.id
    || a.account == b.account
    || (b.employeeId.Some? && a.employeeId == b.employeeId)
    || (b.phone.Some? && a.phone == b.phone)
    || (b.email.Some? && a.email == b.email)
  }

  predicate Clashes(rs: seq<User>, u: User) {
    exists k :: 0 <= k < |rs| && Collide(rs[k], u)
  }

  /** What the unique indexes guarantee of the stored collection. */
  ghost predicate UniqueKeys(rs: seq<User>) {
    forall i, j :: 0 <= i < j < |rs| ==> !Collide(rs[i], rs[j])
  }

  datatype StoreError = MongoServerError(code: int) | ValidationError(messages: seq<string>)

  /** Every path passes its validators. */
  predicate SchemaValid(n: NewUserFields) {
    && AccountError(n.account).None? && PasswordError(n.password).None? && UsernameError(n.username).None?
    && EmployeeIdError(n.employeeId).None? && DepartmentError(n.department).None? && RoleError(n.role).None?
    && PhoneError(n.phone).None? && EmailError(n.email).None?
  }

  /** A `ValidationError` is raised exactly when some path fails, and it then lists at least one message. */
  lemma SchemaMessagesEmptyIff(n: NewUserFields)
    ensures SchemaMessages(n) == [] <==> SchemaValid(n)
  {
  }

  /** `UserModel.create(fields)`: validation, then the pre-save hook, then the insert, which a unique
      index refuses with code 11000. */
  function CreateSpec(rs: seq<User>, f: NewUserFields, id: string, hash: string -> string): Result<User, StoreError> {
    var n := Normalise(f);
    if !SchemaValid(n) then Failure(ValidationError(SchemaMessages(n)))
    else
      var u := Build(id, n, hash);
      if Clashes(rs, u) then Failure(MongoServerError(DuplicateKeyCode)) else Success(u)
  }

  /** What a successful creation stores: the id asked for, the trimmed account of 2 to 50 UTF-16 units, the
      digest of the given password, role employee unless one was given, version 0 unless one was given,
      and nothing that collides with an existing record. */
  lemma CreatedUser(rs: seq<User>, f: NewUserFields, id: string, hash: string -> string)
    requires CreateSpec(rs, f, id, hash).Success?
    ensures var u := CreateSpec(rs, f, id, hash).value;
      && u.id == id
      && f.account.Some? && u.account == Trim(f.account.value) && 2 <= Utf16Length(u.account) <= 50
      && f.password.Some? && f.password.value != "" && u.password == hash(f.password.value)
      && u.tokenVersion == f.tokenVersion.GetOr(0)
      && (f.role.None? ==> u.role == Employee)
      && (f.role.Some? ==> RoleName(u.role) == f.role.value)
      && PhoneValidator(u.phone) && EmailValidator(u.email)
      && !Clashes(rs, u)
  {
    var n := Normalise(f);
    assert SchemaValid(n);
    var u := Build(id, n, hash);
    assert CreateSpec(rs, f, id, hash) == Success(u);
    assert n.account.Some? && n.account.value == Trim(f.account.value);
    assert n.password == f.password && n.role == f.role && n.tokenVersion == f.tokenVersion;
  }

  /** A stored e-mail address is the given one trimmed and lower-cased, so it carries no surrounding
      white space and no upper-case letter. */
  lemma StoredEmailNormalised(rs: seq<User>, f: NewUserFields, id: string, hash: string -> string)
    requires CreateSpec(rs, f, id, hash).Success?
    requires CreateSpec(rs, f, id, hash).value.email.Some?
    ensures f.email.Some?
    ensures var e := CreateSpec(rs, f, id, hash).value.email.value;
      && e == ToLower(Trim(f.email.value))
      && (e == [] || (!IsSpace(e[0]) && !IsSpace(e[|e| - 1])))
      && forall k :: 0 <= k < |e| ==> !IsUpper(e[k])
  {
    var n := Normalise(f);
    assert SchemaValid(n);
    assert CreateSpec(rs, f, id, hash) == Success(Build(id, n, hash));
    assert n.email.Some?;
    var t := Trim(f.email.value);
    var e := ToLower(t);
    assert n.email.value == e;
    if e != [] {
      assert e[0] == LowerChar(t[0]);
      assert e[|e| - 1] == LowerChar(t[|t| - 1]);
    }
  }

  /** Creation keeps the unique indexes intact: the new record collides with none already stored. */
  lemma CreatePreservesUniqueKeys(rs: seq<User>, f: NewUserFields, id: string, hash: string -> string)
    requires UniqueKeys(rs)
    requires CreateSpec(rs, f, id, hash).Success?
    ensures UniqueKeys(rs + [CreateSpec(rs, f, id, hash).value])
  {
    var u := CreateSpec(rs, f, id, hash).value;
    var rs' := rs + [u];
    forall i, j | 0 <= i < j < |rs'| ensures !Collide(rs'[i], rs'[j]) {
      if j == |rs| {
        assert rs'[i] == rs[i];
      }
    }
  }

  /** The two fields the handlers look records up by: `_id` (`findById`) and `account` (`findOne`). */
  datatype Key = ById | ByAccount

  function KeyOf(u: User, key: Key): string {
    match key
    case ById => u.id
    case ByAccount => u.account
  }

  /** `findById` / `findOne`: the first record in natural order whose key field holds `v`. */
  function IndexOf(rs: seq<User>, key: Key, v: string): (r: Option<nat>)
    ensures r.Some? ==> r.value < |rs| && KeyOf(rs[r.value], key) == v
    ensures r.Some? ==> forall k :: 0 <= k < r.value ==> KeyOf(rs[k], key) != v
    ensures r.None? ==> forall k :: 0 <= k < |rs| ==> KeyOf(rs[k], key) != v
  {
    if rs == [] then None
    else if KeyOf(rs[0], key) == v then Some(0)
    else
      var r := IndexOf(rs[1..], key, v);
      if r.None? then None else Some(r.value + 1)
  }

  /** Writing a document back: the record with its id is replaced, and nothing happens when there is none. */
  function WriteBack(rs: seq<User>, u: User): (rs': seq<User>)
    ensures |rs'| == |rs|
    ensures IndexOf(rs', ById, u.id) == IndexOf(rs, ById, u.id)
    ensures forall k :: 0 <= k < |rs| && Some(k) != IndexOf(rs, ById, u.id) ==> rs'[k] == rs[k]
    ensures IndexOf(rs, ById, u.id).Some? ==> rs'[IndexOf(rs, ById, u.id).value] == u
  {
    var i := IndexOf(rs, ById, u.id);
    if i.None? then rs
    else
      var rs' := rs[i.value := u];
      IndexOfIsFirst(rs', ById, u.id, i.value);
      rs'
  }

  /** The index `IndexOf` finds is pinned down by being the first match. */
  lemma IndexOfIsFirst(rs: seq<User>, key: Key, v: string, i: nat)
    requires i < |rs| && KeyOf(rs[i], key) == v
    requires forall k :: 0 <= k < i ==> KeyOf(rs[k], key) != v
    ensures IndexOf(rs, key, v) == Some(i)
  {
  }

  /** The pre-save hook: the password is replaced by its digest only when it was modified. */
  function HashIfModified(password: string, modified: bool, hash: string -> string): string {
    if modified then hash(password) else password
  }

  class UserStore {
    const hash: string -> string
    var records: seq<User>

    constructor (hash: string -> string)
      ensures this.hash == hash && records == []
    {
      this.hash := hash;
      records := [];
    }

    method Create(f: NewUserFields, id: string) returns (r: Result<User, StoreError>)
      modifies this
      ensures r == CreateSpec(old(records), f, id, hash)
      ensures records == if r.Success? then old(records) + [r.value] else old(records)
    {
      r := CreateSpec(records, f, id, hash);
      if r.Success? {
        records := records + [r.value];
      }
    }

    /** Loads the first record with the id, password selected, as a fresh document. */
    method FindById(id: string) returns (d: Option<UserDocument>)
      ensures d.None? <==> IndexOf(records, ById, id).None?
      ensures d.Some? ==> && fresh(d.value) && d.value.store == this && !d.value.passwordModified
                          && d.value.rec == records[IndexOf(records, ById, id).value]
    {
      var i := IndexOf(records, ById, id);
      if i.None? {
        d := None;
      } else {
        var doc := new UserDocument.Load(this, records[i.value]);
        d := Some(doc);
      }
    }

    /** Loads, as a fresh document with the password selected, the first record whose account is the
        queried one after the schema's `trim` setter, which also applies to query values. */
    method FindOneByAccount(account: string) returns (d: Option<UserDocument>)
      ensures d.None? <==> IndexOf(records, ByAccount, Trim(account)).None?
      ensures d.Some? ==> && fresh(d.value) && d.value.store == this && !d.value.passwordModified
                          && d.value.rec == records[IndexOf(records, ByAccount, Trim(account)).value]
    {
      var i := IndexOf(records, ByAccount, Trim(account));
      if i.None? {
        d := None;
      } else {
        var doc := new UserDocument.Load(this, records[i.value]);
        d := Some(doc);
      }
    }
  }

  /** A loaded user document: its fields, whether `password` was assigned since loading, and the store
      it saves to. */
  class UserDocument {
    const store: UserStore
    var rec: User
    var passwordModified: bool

    constructor Load(store: UserStore, rec: User)
      ensures this.store == store && this.rec == rec && !passwordModified
    {
      this.store := store;
      this.rec := rec;
      passwordModified := false;
    }

    /** `comparePassword`: the digest of the candidate equals the stored digest. */
    predicate ComparePassword(candidate: string)
      reads this
    {
      store.hash(candidate) == rec.password
    }

    /** `user.password = p`. The path is marked modified only when `p` differs from the value it holds:
        assigning the same string again is no change. */
    method SetPassword(p: string)
      modifies this
      ensures rec == old(rec).(password := p)
      ensures passwordModified == (old(passwordModified) || p != old(rec).password)
    {
      if p != rec.password {
        passwordModified := true;
      }
      rec := rec.(password := p);
    }

    /** `save()`: the pre-save hook, then the write. Saving a document whose record has gone
        fails (`ok` false) and writes nothing; a successful save clears the modified mark. After
        the hook, `comparePassword` accepts the plain password that was assigned. */
    method Save() returns (ok: bool)
      modifies this, store
      ensures rec == old(rec).(password := HashIfModified(old(rec).password, old(passwordModified), store.hash))
      ensures ok <==> IndexOf(old(store.records), ById, rec.id).Some?
      ensures store.records == WriteBack(old(store.records), rec)
      ensures passwordModified == (old(passwordModified) && !ok)
      ensures old(passwordModified) ==> ComparePassword(old(rec).password)
    {
      if passwordModified {
        rec := rec.(password := store.hash(rec.password));
      }
      ok := IndexOf(store.records, ById, rec.id).Some?;
      store.records := WriteBack(store.records, rec);
      if ok {
        passwordModified := false;
      }
    }

    /** `incrementTokenVersion()`: one more than before, then saved; no other field changes. */
    method IncrementTokenVersion() returns (ok: bool)
      modifies this, store
      ensures rec == old(rec).(tokenVersion := old(rec).tokenVersion + 1,
                               password := HashIfModified(old(rec).password, old(passwordModified), store.hash))
      ensures ok <==> IndexOf(old(store.records), ById, rec.id).Some?
      ensures store.records == WriteBack(old(store.records), rec)
      ensures passwordModified == (old(passwordModified) && !ok)
    {
      rec := rec.(tokenVersion := rec.tokenVersion + 1);
      ok := Save();
    }
  }

  /** Renders a value as `String(v)` / `v.toString()` does. */
  function IntText(n: int): string
    decreases if n < 0 then 1 - n else n
  {
    if n < 0 then "-" + IntText(-n)
    else if n < 10 then [('0' as int + n) as char]
    else IntText(n / 10) + IntText(n % 10)
  }

  function ValueText(v: Value): string {
    match v
    case Str(s) => s
    case Num(n) => IntText(n)
    case ObjectId(h) => h
  }

  predicate Truthy(v: Value) {
    match v
    case Str(s) => s != ""
    case Num(n) => n != 0
    case ObjectId(_) => true
  }

  function Optional(key: string, v: Option<string>): Obj {
    if v.Some? then map[key := Str(v.value)] else map[]
  }

  /** `toObject()` of a document loaded with its password: every stored field, `_id` and `__v`. */
  function ToObject(u: User): (o: Obj)
    ensures "_id" in o && o["_id"] == ObjectId(u.id)
    ensures "password" in o && "__v" in o
    ensures "account" in o && o["account"] == Str(u.account)
    ensures "tokenVersion" in o && o["tokenVersion"] == Num(u.tokenVersion)
  {
    Optional("employeeId", u.employeeId) + Optional("department", u.department)
    + Optional("phone", u.phone) + Optional("email", u.email)
    + map["_id" := ObjectId(u.id), "account" := Str(u.account), "password" := Str(u.password),
          "username" := Str(u.username), "role" := Str(RoleName(u.role)), "avatar" := Str(u.avatar),
          "tokenVersion" := Num(u.tokenVersion), "__v" := Num(0)]
  }

  /** The serialised form `toJSON` produces: no `password`, no `__v`, and a truthy `_id` renamed to a
      string `id`; every other property is kept as it was. */
  function JsonView(ret: Obj): (r: Obj)
    ensures "password" !in r && "__v" !in r
    ensures "_id" in ret && Truthy(ret["_id"]) ==> "_id" !in r && "id" in r && r["id"] == Str(ValueText(ret["_id"]))
    ensures forall k :: k in ret && k != "password" && k != "__v" && k != "_id" && k != "id" ==> k in r && r[k] == ret[k]
    ensures forall k :: k in r ==> k in ret || k == "id"
  {
    var r := ret - {"password", "__v"};
    if "_id" in r && Truthy(r["_id"]) then r["id" := Str(ValueText(r["_id"]))] - {"_id"} else r
  }

  /** The `toJSON` transform, deleting and renaming properties of `ret` one step at a time. */
  method TransformToJSON(ret: Obj) returns (out: Obj)
    ensures out == JsonView(ret)
  {
    out := ret;
    out := out - {"password"};
    out := out - {"__v"};
    if "_id" in out && Truthy(out["_id"]) {
      out := out["id" := Str(ValueText(out["_id"]))];
      out := out - {"_id"};
    }
  }

  /** The JSON form of a stored user, read with or without its password: its id as `id`, no password,
      and the stored account and version. */
  lemma UserJsonView(u: User)
    ensures var j := JsonView(ToObject(u) - {"password"});
      && "password" !in j && "__v" !in j && "_id" !in j
      && "id" in j && j["id"] == Str(u.id)
      && "account" in j && j["account"] == Str(u.account)
      && "tokenVersion" in j && j["tokenVersion"] == Num(u.tokenVersion)
  {
    var full := ToObject(u);
    var o := full - {"password"};
    assert "_id" in o && o["_id"] == ObjectId(u.id) && Truthy(o["_id"]);
    assert "account" in o && o["account"] == Str(u.account);
    assert "tokenVersion" in o && o["tokenVersion"] == Num(u.tokenVersion);
  }
}
