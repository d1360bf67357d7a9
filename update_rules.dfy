/**
 * The profile-update request rules: every field is optional (absent fields are
 * never checked), and a present field is checked before the trim sanitizer runs.
 * `isURL` and `isEmail` are the library's predicates, passed in; `isLength` measures
 * `ValidatorLength`, whereas the schema measures `Utf16Length`.
 */
module UpdateUserInfoRules {
  import opened Wrappers
  import opened Text
  import opened Users
  import opened RegisterRules

  datatype ProfileFields = ProfileFields(
    username: Option<string>,
    avatar: Option<string>,
    phone: Option<string>,
    email: Option<string>,
    department: Option<string>,
    employeeId: Option<string>)

  const UsernameMsg := "姓名长度在2-50之间"
  const AvatarMsg := "头像地址不正确"
  const PhoneMsg := "手机号输入不正确"
  const EmailMsg := "邮箱格式不正确"
  const DepartmentMsg := "部门名称不能超过50字"
  const EmployeeIdMsg := "工号长度在2-20之间"

  /** An optional rule: an absent field passes, a present one fails when `bad` holds of it. */
  function Rule(v: Option<string>, bad: bool, path: string, msg: string): seq<ValidationItem> {
    if v.Some? && bad then [ValidationItem(path, msg)] else []
  }

  function UpdateErrors(f: ProfileFields, isURL: string -> bool, isEmail: string -> bool): seq<ValidationItem> {
    Rule(f.username, f.username.Some? && !(2 <= ValidatorLength(f.username.value) <= 30), "username", UsernameMsg)
    + Rule(f.avatar, f.avatar.Some? && !isURL(f.avatar.value), "avatar", AvatarMsg)
    + Rule(f.phone, f.phone.Some? && !PhoneMatches(f.phone.value), "phone", PhoneMsg)
    + Rule(f.email, f.email.Some? && !isEmail(f.email.value), "email", EmailMsg)
    + Rule(f.department, f.department.Some? && ValidatorLength(f.department.value) > 50, "department", DepartmentMsg)
    + Rule(f.employeeId, f.employeeId.Some? && !(2 <= ValidatorLength(f.employeeId.value) <= 20), "employeeId", EmployeeIdMsg)
  }

  predicate Present(f: ProfileFields, path: string) {
    || (path == "username" && f.username.Some?)
    || (path == "avatar" && f.avatar.Some?)
    || (path == "phone" && f.phone.Some?)
    || (path == "email" && f.email.Some?)
    || (path == "department" && f.department.Some?)
    || (path == "employeeId" && f.employeeId.Some?)
  }

  /** Errors name only fields that are present, so a body without any of the fields passes. */
  lemma OnlyPresentFieldsFail(f: ProfileFields, isURL: string -> bool, isEmail: string -> bool)
    ensures forall e :: e in UpdateErrors(f, isURL, isEmail) ==> Present(f, e.path)
    ensures f == ProfileFields(None, None, None, None, None, None) ==> UpdateErrors(f, isURL, isEmail) == []
  {
  }

  /** The username limit enforced is 30, although the message speaks of 50. */
  lemma UsernameLimitIs30(s: string, isURL: string -> bool, isEmail: string -> bool)
    requires 30 < ValidatorLength(s) <= 50
    ensures UpdateErrors(ProfileFields(Some(s), None, None, None, None, None), isURL, isEmail)
            == [ValidationItem("username", UsernameMsg)]
  {
  }

  /** For a present, non-empty phone that needs no trimming, the update rule and the schema validator
      agree; the empty string, which the schema accepts, is refused here. */
  lemma PhoneRuleAgreesWithSchema(s: string, isURL: string -> bool, isEmail: string -> bool)
    ensures var errs := UpdateErrors(ProfileFields(None, None, Some(s), None, None, None), isURL, isEmail);
      && (s != "" ==> (errs == [] <==> PhoneValidator(Some(s))))
      && (s == "" ==> errs != [] && PhoneValidator(Some(s)))
  {
  }

  /** For a present employee id that needs no trimming, the update rule accepts 2 to 20 as `isLength`
      measures and the schema 2 to 20 UTF-16 units; on plain text the two agree. */
  lemma EmployeeIdRuleAgreesWithSchema(s: string, isURL: string -> bool, isEmail: string -> bool)
    ensures var errs := UpdateErrors(ProfileFields(None, None, None, None, None, Some(s)), isURL, isEmail);
      && (errs == [] <==> 2 <= ValidatorLength(s) <= 20)
      && (EmployeeIdError(Some(s)).None? <==> 2 <= Utf16Length(s) <= 20)
      && (Plain(s) ==> (errs == [] <==> EmployeeIdError(Some(s)).None?))
  {
    if Plain(s) {
      PlainLengths(s);
    }
  }

  /** A present username passes the update rule exactly when `isLength` measures 2 to 30, and the schema
      exactly when it has 2 to 50 UTF-16 units; on plain text every username the rule accepts the schema
      accepts too, but not the other way round (`UsernameLimitIs30`). */
  lemma UsernameRuleAgreesWithSchema(s: string, isURL: string -> bool, isEmail: string -> bool)
    ensures var errs := UpdateErrors(ProfileFields(Some(s), None, None, None, None, None), isURL, isEmail);
      && (errs == [] <==> 2 <= ValidatorLength(s) <= 30)
      && (UsernameError(Some(s)).None? <==> 2 <= Utf16Length(s) <= 50)
      && (Plain(s) && errs == [] ==> UsernameError(Some(s)).None?)
  {
    if Plain(s) {
      PlainLengths(s);
    }
  }

  /** A present department passes the update rule exactly when `isLength` measures at most 50, and the
      schema exactly when it has at most 50 UTF-16 units; on plain text the two agree. */
  lemma DepartmentRuleAgreesWithSchema(s: string, isURL: string -> bool, isEmail: string -> bool)
    ensures var errs := UpdateErrors(ProfileFields(None, None, None, None, Some(s), None), isURL, isEmail);
      && (errs == [] <==> ValidatorLength(s) <= 50)
      && (DepartmentError(Some(s)).None? <==> Utf16Length(s) <= 50)
      && (Plain(s) ==> (errs == [] <==> DepartmentError(Some(s)).None?))
  {
    if Plain(s) {
      PlainLengths(s);
    }
  }

  /** Outside plain text the two measures part: an id of one emoji is two UTF-16 units, which the schema
      accepts, and one character to `isLength`, which the update rule refuses. */
  lemma EmployeeIdRuleDivergesOnEmoji(isURL: string -> bool, isEmail: string -> bool)
    ensures var s := "\U{1F600}";
      && UpdateErrors(ProfileFields(None, None, None, None, None, Some(s)), isURL, isEmail)
         == [ValidationItem("employeeId", EmployeeIdMsg)]
      && EmployeeIdError(Some(s)).None?
  {
    var s := "\U{1F600}";
    assert s[1..] == [];
    assert ValidatorLength(s) == 1;
    assert Utf16Length(s) == 2;
  }
}
