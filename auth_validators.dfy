/** The zod schemas of the authentication routes, as predicates on request bodies. */
module AuthValidators {
  import opened Common
  import opened Text
  import opened Schema

  const MinPasswordLength := 8
  const MaxPasswordLength := 64

  /** One failed check of the password chain, in the order the chain declares them. */
  datatype PasswordRule = TooShort | TooLong | NoLowercase | NoUppercase | NoDigit | NoSpecial

  /** The rule, when its check did not pass. */
  function Failing(ok: bool, rule: PasswordRule): (r: set<PasswordRule>)
    ensures rule in r <==> !ok
    ensures r <= {rule}
  {
    if ok then {} else {rule}
  }

  /** The checks of the password chain that fail: zod runs every check of a string chain
      and reports each one that fails. */
  function PasswordIssues(p: string): (r: set<PasswordRule>)
    ensures TooShort in r <==> |p| < MinPasswordLength
    ensures TooLong in r <==> |p| > MaxPasswordLength
    ensures NoLowercase in r <==> forall i :: 0 <= i < |p| ==> !IsAsciiLower(p[i])
    ensures NoUppercase in r <==> forall i :: 0 <= i < |p| ==> !IsAsciiUpper(p[i])
    ensures NoDigit in r <==> forall i :: 0 <= i < |p| ==> !IsAsciiDigit(p[i])
    ensures NoSpecial in r <==> forall i :: 0 <= i < |p| ==> !IsSpecial(p[i])
  {
    Failing(|p| >= MinPasswordLength, TooShort)
    + Failing(|p| <= MaxPasswordLength, TooLong)
    + Failing(Any(p, IsAsciiLower), NoLowercase)
    + Failing(Any(p, IsAsciiUpper), NoUppercase)
    + Failing(Any(p, IsAsciiDigit), NoDigit)
    + Failing(Any(p, IsSpecial), NoSpecial)
  }

  /** The password chain shared by every schema that takes a password. */
  predicate PasswordAccepted(p: string)
  {
    PasswordIssues(p) == {}
  }

  /** A password passes exactly when its length is in [8, 64] and it has an ASCII lowercase
      letter, an ASCII uppercase letter, a digit and a character outside `[a-zA-Z0-9]`. */
  lemma PasswordAcceptedIff(p: string)
    ensures PasswordAccepted(p) <==>
      && MinPasswordLength <= |p| <= MaxPasswordLength
      && (exists i :: 0 <= i < |p| && IsAsciiLower(p[i]))
      && (exists i :: 0 <= i < |p| && IsAsciiUpper(p[i]))
      && (exists i :: 0 <= i < |p| && IsAsciiDigit(p[i]))
      && (exists i :: 0 <= i < |p| && IsSpecial(p[i]))
  {
    var r := PasswordIssues(p);
    if r != {} {
      var rule :| rule in r;
      match rule
      case TooShort =>
      case TooLong =>
      case NoLowercase =>
      case NoUppercase =>
      case NoDigit =>
      case NoSpecial =>
    }
  }

  /** `/^[A-Za-z]+$/`: a non-empty run of ASCII letters. */
  predicate AlphabeticName(s: string)
  {
    s != [] && All(s, IsAsciiLetter)
  }

  datatype RegisterBody = RegisterBody(email: Option<string>, username: Option<string>, password: Option<string>, fullName: Option<string>)
  datatype Registration = Registration(email: string, username: string, password: string, fullName: Option<string>)

  /** `registerValidator`; `isEmail` is the check behind `z.email()`. */
  function ValidateRegister(b: RegisterBody, isEmail: string -> bool): (r: Validation<Registration>)
    ensures r.Accepted? <==>
      && RequiredOk(b.email, isEmail)
      && b.username.Some? && b.username.value != [] && (forall i :: 0 <= i < |b.username.value| ==> IsAsciiLetter(b.username.value[i]))
      && RequiredOk(b.password, PasswordAccepted)
      && OptionalOk(b.fullName, AlphabeticName)
    ensures r.Accepted? ==> r.value == Registration(b.email.value, b.username.value, b.password.value, b.fullName)
    ensures r.Rejected? ==> r.fields != {} && r.fields <= {"email", "username", "password", "fullName"}
  {
    var fields := IssueAt("email", RequiredOk(b.email, isEmail))
      + IssueAt("username", RequiredOk(b.username, AlphabeticName))
      + IssueAt("password", RequiredOk(b.password, PasswordAccepted))
      + IssueAt("fullName", OptionalOk(b.fullName, AlphabeticName));
    if fields == {} then Accepted(Registration(b.email.value, b.username.value, b.password.value, b.fullName))
    else Rejected(fields)
  }

  datatype LoginBody = LoginBody(email: Option<string>, username: Option<string>, password: Option<string>)
  datatype Credentials = Credentials(email: string, username: string, password: string)

  /** `loginValidator`: email, alphabetic username and a password obeying the same chain. */
  function ValidateLogin(b: LoginBody, isEmail: string -> bool): (r: Validation<Credentials>)
    ensures r.Accepted? <==> RequiredOk(b.email, isEmail) && RequiredOk(b.username, AlphabeticName) && RequiredOk(b.password, PasswordAccepted)
    ensures r.Accepted? ==> r.value == Credentials(b.email.value, b.username.value, b.password.value)
    ensures r.Rejected? ==> r.fields != {} && r.fields <= {"email", "username", "password"}
  {
    var fields := IssueAt("email", RequiredOk(b.email, isEmail))
      + IssueAt("username", RequiredOk(b.username, AlphabeticName))
      + IssueAt("password", RequiredOk(b.password, PasswordAccepted));
    if fields == {} then Accepted(Credentials(b.email.value, b.username.value, b.password.value))
    else Rejected(fields)
  }

  /** Login accepts exactly the bodies that registration without a full name accepts. */
  lemma LoginMatchesRegister(email: Option<string>, username: Option<string>, password: Option<string>, isEmail: string -> bool)
    ensures ValidateLogin(LoginBody(email, username, password), isEmail).Accepted?
        <==> ValidateRegister(RegisterBody(email, username, password, None), isEmail).Accepted?
  {
  }

  /** `fpValidator`: only an email. */
  function ValidateForgotPassword(email: Option<string>, isEmail: string -> bool): (r: Validation<string>)
    ensures r.Accepted? <==> email.Some? && isEmail(email.value)
    ensures r.Accepted? ==> r.value == email.value
    ensures r.Rejected? ==> r.fields == {"email"}
  {
    if RequiredOk(email, isEmail) then Accepted(email.value) else Rejected({"email"})
  }

  /** `fpRValidator`: only a `newPassword` obeying the password chain. */
  function ValidateResetPassword(newPassword: Option<string>): (r: Validation<string>)
    ensures r.Accepted? <==> newPassword.Some? && PasswordIssues(newPassword.value) == {}
    ensures r.Accepted? ==> r.value == newPassword.value
    ensures r.Rejected? ==> r.fields == {"newPassword"}
  {
    if RequiredOk(newPassword, PasswordAccepted) then Accepted(newPassword.value) else Rejected({"newPassword"})
  }

  datatype PasswordChange = PasswordChange(oldPassword: string, newPassword: string)

  /** `cPValidator`: both passwords obey the chain, and the refinement rejects a new password
      equal to the old one, reporting the issue on `newPassword`. The refinement is evaluated
      here only when both fields passed their own checks. */
  function ValidateChangePassword(oldPassword: Option<string>, newPassword: Option<string>): (r: Validation<PasswordChange>)
    ensures r.Accepted? <==> RequiredOk(oldPassword, PasswordAccepted) && RequiredOk(newPassword, PasswordAccepted) && oldPassword.value != newPassword.value
    ensures r.Accepted? ==> r.value == PasswordChange(oldPassword.value, newPassword.value)
    ensures r.Rejected? ==> r.fields != {} && r.fields <= {"oldPassword", "newPassword"}
  {
    var fields := IssueAt("oldPassword", RequiredOk(oldPassword, PasswordAccepted))
      + IssueAt("newPassword", RequiredOk(newPassword, PasswordAccepted));
    if fields != {} then Rejected(fields)
    else if oldPassword.value == newPassword.value then Rejected({"newPassword"})
    else Accepted(PasswordChange(oldPassword.value, newPassword.value))
  }

  /** Reusing the old password is refused, with the issue on `newPassword` and nowhere else. */
  lemma ChangePasswordRejectsReuse(p: string)
    requires PasswordAccepted(p)
    ensures ValidateChangePassword(Some(p), Some(p)) == Rejected({"newPassword"})
  {
  }
}
