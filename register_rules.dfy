/**
 * The registration request rules (express-validator chains on `account` and
 * `password`) and the middleware that turns their failures into a 400 report.
 * A chain reports every validator that fails; a missing field is read as "".
 * `isLength` measures `ValidatorLength`.
 */
module RegisterRules {
  import opened Wrappers
  import opened Text
  import opened Http

  /** One entry of `validationResult(req).array()`: the field path and the rule's message. */
  datatype ValidationItem = ValidationItem(path: string, msg: string)

  const AccountEmptyMsg := "账号不能为空"
  const AccountLengthMsg := "账号长度在2-50之间"
  const PasswordEmptyMsg := "密码不能为空"
  const PasswordPatternMsg := "密码必须包含字母、数字和下划线"
  const PasswordLengthMsg := "密码长度在2-50之间"

  predicate IsWordChar(c: char) { IsAsciiLetter(c) || IsDigit(c) || c == '_' }

  /** `/^(?=.*[a-zA-Z])(?=.*\d)(?=.*_)[a-zA-Z0-9_]+$/`: non-empty, only letters, digits and underscores,
      with at least one of each. */
  predicate PasswordPattern(s: string) {
    && |s| > 0
    && (forall k :: 0 <= k < |s| ==> IsWordChar(s[k]))
    && (exists k :: 0 <= k < |s| && IsAsciiLetter(s[k]))
    && (exists k :: 0 <= k < |s| && IsDigit(s[k]))
    && (exists k :: 0 <= k < |s| && s[k] == '_')
  }

  function Fail(b: bool, path: string, msg: string): seq<ValidationItem> {
    if b then [ValidationItem(path, msg)] else []
  }

  function AccountErrors(v: Option<string>): seq<ValidationItem> {
    var s := v.GetOr("");
    Fail(s == "", "account", AccountEmptyMsg) + Fail(!(2 <= ValidatorLength(s) <= 50), "account", AccountLengthMsg)
  }

  function PasswordErrors(v: Option<string>): seq<ValidationItem> {
    var s := v.GetOr("");
    Fail(s == "", "password", PasswordEmptyMsg)
    + Fail(!PasswordPattern(s), "password", PasswordPatternMsg)
    + Fail(!(2 <= ValidatorLength(s) <= 50), "password", PasswordLengthMsg)
  }

  /** The errors the `register` chains collect, account first. */
  function RegisterErrors(account: Option<string>, password: Option<string>): seq<ValidationItem> {
    AccountErrors(account) + PasswordErrors(password)
  }

  /** The pattern needs a letter, a digit and an underscore at three different places, so with the
      length rule the effective minimum length is 3, not 2. */
  lemma {:induction false} PasswordPatternMinLength(s: string)
    requires PasswordPattern(s)
    ensures |s| >= 3
  {
    var a :| 0 <= a < |s| && IsAsciiLetter(s[a]);
    var d :| 0 <= d < |s| && IsDigit(s[d]);
    var u :| 0 <= u < |s| && s[u] == '_';
    assert a != d && d != u && a != u;
  }

  /** Every character the pattern admits is plain ASCII, so `isLength` counts a matching password
      character by character. */
  lemma PasswordPatternIsPlain(s: string)
    requires PasswordPattern(s)
    ensures Plain(s) && ValidatorLength(s) == |s|
  {
    PlainLengths(s);
  }

  /** A password passes the register rules exactly when it matches the pattern and has at most 50
      characters; a shortest one has three, such as "a1_". */
  lemma PasswordAccepted(v: Option<string>)
    ensures PasswordErrors(v) == [] <==> v.Some? && PasswordPattern(v.value) && |v.value| <= 50
    ensures PasswordErrors(Some("a1_")) == []
  {
    if v.Some? && PasswordPattern(v.value) {
      PasswordPatternMinLength(v.value);
      PasswordPatternIsPlain(v.value);
    }
    var w := "a1_";
    assert IsAsciiLetter(w[0]) && IsDigit(w[1]) && w[2] == '_';
    assert PasswordPattern(w);
    PasswordPatternIsPlain(w);
  }

  /** An account passes the register rules exactly when `isLength` measures 2 to 50 (checked before
      the trim sanitizer runs); on plain text that is 2 to 50 characters. */
  lemma AccountAccepted(v: Option<string>)
    ensures AccountErrors(v) == [] <==> v.Some? && 2 <= ValidatorLength(v.value) <= 50
    ensures v.Some? && Plain(v.value) ==> (AccountErrors(v) == [] <==> 2 <= |v.value| <= 50)
  {
    if v.Some? && Plain(v.value) {
      PlainLengths(v.value);
    }
  }

  /** A registration request passes exactly when both fields do: an account `isLength` measures at 2
      to 50 and a password matching the pattern with at most 50 characters. */
  lemma RegisterAccepted(account: Option<string>, password: Option<string>)
    ensures RegisterErrors(account, password) == [] <==>
              && account.Some? && 2 <= ValidatorLength(account.value) <= 50
              && password.Some? && PasswordPattern(password.value) && |password.value| <= 50
  {
    AccountAccepted(account);
    PasswordAccepted(password);
  }

  /** The `{ field, message }` list: one entry per error, in order. */
  function ToFieldErrors(errs: seq<ValidationItem>): (r: seq<FieldError>)
    ensures |r| == |errs|
    ensures forall i :: 0 <= i < |errs| ==> r[i] == FieldError(errs[i].path, errs[i].msg)
  {
    if errs == [] then [] else [FieldError(errs[0].path, errs[0].msg)] + ToFieldErrors(errs[1..])
  }

  datatype Handled = CallNext | Respond(reply: Reply)

  /** `handleValidationErrors`: any error is answered with status 400, `success: false` and the
      mapped list, and `next` is not called; no error means `next` and nothing written. */
  function HandleValidationErrors(errs: seq<ValidationItem>): (r: Handled)
    ensures r.CallNext? <==> errs == []
    ensures r.Respond? ==> r.reply.Json? && r.reply.status == 400 && r.reply.body.FieldReport?
                           && !r.reply.body.success && |r.reply.body.fieldErrors| == |errs|
                           && forall i :: 0 <= i < |errs| ==>
                                r.reply.body.fieldErrors[i] == FieldError(errs[i].path, errs[i].msg)
  {
    if errs != [] then Respond(Json(400, FieldReport(false, ToFieldErrors(errs)))) else CallNext
  }
}
