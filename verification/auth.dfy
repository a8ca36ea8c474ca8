/** The login and registration page (auth.js): the password strength meter, the
    checks made before an account is created, the landing page chosen by role,
    and the messages shown for authentication errors. The authentication service
    and the store are outside the model: what they answer is passed in. */
module Auth {
  import opened Common

  // ---------------------------------------------------------------------------
  // Password strength meter

  predicate IsLowerLetter(c: char) { 'a' <= c <= 'z' }

  predicate IsUpperLetter(c: char) { 'A' <= c <= 'Z' }

  predicate IsDigit(c: char) { '0' <= c <= '9' }

  /** Anything outside `[a-zA-Z0-9]`. */
  predicate IsSymbol(c: char) { !IsLowerLetter(c) && !IsUpperLetter(c) && !IsDigit(c) }

  /** `/[…]/.test(password)` for one character class. */
  predicate HasLower(pw: string) { exists i :: 0 <= i < |pw| && IsLowerLetter(pw[i]) }

  predicate HasUpper(pw: string) { exists i :: 0 <= i < |pw| && IsUpperLetter(pw[i]) }

  predicate HasDigit(pw: string) { exists i :: 0 <= i < |pw| && IsDigit(pw[i]) }

  predicate HasSymbol(pw: string) { exists i :: 0 <= i < |pw| && IsSymbol(pw[i]) }

  function Point(b: bool): nat { if b then 1 else 0 }

  /** checkPasswordStrength's score: a point for reaching 8 characters, one for
      reaching 12, and one for each character class present. */
  function StrengthScore(pw: string): (score: nat)
    ensures score <= 6
    ensures score == 0 <==> pw == []
    ensures |pw| < 8 ==> score <= 4
    ensures |pw| < 12 ==> score <= 5
  {
    assert pw != [] ==> HasLower(pw) || HasUpper(pw) || HasDigit(pw) || HasSymbol(pw) by {
      if pw != [] {
        assert IsLowerLetter(pw[0]) || IsUpperLetter(pw[0]) || IsDigit(pw[0]) || IsSymbol(pw[0]);
      }
    }
    Point(|pw| >= 8) + Point(|pw| >= 12)
      + Point(HasLower(pw)) + Point(HasUpper(pw)) + Point(HasDigit(pw)) + Point(HasSymbol(pw))
  }

  /** Typing more characters never lowers the score. */
  lemma StrengthMonotone(pw: string, more: string)
    ensures StrengthScore(pw + more) >= StrengthScore(pw)
  {
    var longer := pw + more;
    assert forall i :: 0 <= i < |pw| ==> longer[i] == pw[i];
    if HasLower(pw) { var i :| 0 <= i < |pw| && IsLowerLetter(pw[i]); assert IsLowerLetter(longer[i]); }
    if HasUpper(pw) { var i :| 0 <= i < |pw| && IsUpperLetter(pw[i]); assert IsUpperLetter(longer[i]); }
    if HasDigit(pw) { var i :| 0 <= i < |pw| && IsDigit(pw[i]); assert IsDigit(longer[i]); }
    if HasSymbol(pw) { var i :| 0 <= i < |pw| && IsSymbol(pw[i]); assert IsSymbol(longer[i]); }
  }

  datatype Strength = Blank | Weak | Medium | Strong

  /** The meter's verdict: nothing for an empty field, then weak up to 2 points,
      medium up to 4, strong above. */
  function StrengthLevel(pw: string): (level: Strength)
    ensures level == Blank <==> pw == []
    ensures level == Weak <==> pw != [] && StrengthScore(pw) <= 2
    ensures level == Strong <==> StrengthScore(pw) >= 5
  {
    if |pw| == 0 then Blank
    else
      var score := StrengthScore(pw);
      if score <= 2 then Weak else if score <= 4 then Medium else Strong
  }

  /** The order of the verdicts. */
  function Rank(s: Strength): nat
  {
    match s
    case Blank => 0
    case Weak => 1
    case Medium => 2
    case Strong => 3
  }

  /** A password under 8 characters is never strong, and one under 12 characters
      is strong only when it uses all four character classes. */
  lemma StrongNeedsLength(pw: string)
    ensures |pw| < 8 ==> StrengthLevel(pw) != Strong
    ensures |pw| < 12 && StrengthLevel(pw) == Strong ==>
      |pw| >= 8 && HasLower(pw) && HasUpper(pw) && HasDigit(pw) && HasSymbol(pw)
  {
  }

  /** Typing more characters never lowers the verdict. */
  lemma StrengthLevelMonotone(pw: string, more: string)
    ensures Rank(StrengthLevel(pw + more)) >= Rank(StrengthLevel(pw))
  {
    StrengthMonotone(pw, more);
    if pw != [] {
      assert (pw + more)[0] == pw[0];
    }
  }

  // ---------------------------------------------------------------------------
  // Registration

  datatype RegisterCheck = PasswordsDiffer | PasswordTooShort | MayRegister

  /** The checks made before an account is requested: matching confirmation
      first, then at least six characters. */
  function CheckRegistration(password: string, confirm: string): (r: RegisterCheck)
    ensures r == MayRegister <==> password == confirm && |password| >= 6
    ensures r == PasswordsDiffer <==> password != confirm
  {
    if password != confirm then PasswordsDiffer
    else if |password| < 6 then PasswordTooShort
    else MayRegister
  }

  /** The meter is advisory: a password it calls weak is still accepted. */
  lemma WeakPasswordAccepted()
    ensures CheckRegistration("aaaaaa", "aaaaaa") == MayRegister
    ensures StrengthLevel("aaaaaa") == Weak
  {
    var pw := "aaaaaa";
    assert IsLowerLetter(pw[0]);
    assert !HasUpper(pw) && !HasDigit(pw) && !HasSymbol(pw) by {
      forall i | 0 <= i < |pw| ensures pw[i] == 'a' { }
    }
  }

  datatype Page = AdminPage | ShopPage

  /** The page a role lands on: the dashboard for `admin`, the shop for anything else. */
  function LandingPage(role: string): (page: Page)
    ensures page == AdminPage <==> role == "admin"
  {
    if role == "admin" then AdminPage else ShopPage
  }

  /** The user record written at `users/<uid>`, without its server timestamp. */
  datatype UserRecord = UserRecord(name: string, email: string, role: string)

  datatype RegisterOutcome =
    | RegisterRefused(check: RegisterCheck)
    | RegisterFailed(message: string)
    | Registered(record: UserRecord, landing: Page)

  /** The register form: the local checks, then the account service, whose error
      code (if any) is `serviceError`. The role is whatever the form selected. */
  function Register(name: string, email: string, password: string, confirm: string, role: string,
                    serviceError: Option<string>): (r: RegisterOutcome)
    ensures r.RegisterRefused? <==> CheckRegistration(password, confirm) != MayRegister
    ensures r.RegisterRefused? ==> r.check == CheckRegistration(password, confirm)
    ensures r.RegisterFailed? <==> CheckRegistration(password, confirm) == MayRegister && serviceError.Some?
    ensures r.RegisterFailed? ==> r.message == ErrorMessage(serviceError.value)
    ensures r.Registered? ==>
      && password == confirm && |password| >= 6
      && r.record == UserRecord(name, email, role)
      && (r.landing == AdminPage <==> role == "admin")
  {
    var check := CheckRegistration(password, confirm);
    if check != MayRegister then RegisterRefused(check)
    else match serviceError
      case Some(code) => RegisterFailed(ErrorMessage(code))
      case None => Registered(UserRecord(name, email, role), LandingPage(role))
  }

  // ---------------------------------------------------------------------------
  // Login

  datatype LoginOutcome =
    | LoginFailed(message: string)
    | RoleMismatch
    | Redirect(page: Page)

  /** The login form: the sign-in error code (if any), then the role stored for
      the account (`None` when there is none) against the role selected. On a
      mismatch the session is signed out again. */
  function Login(signInError: Option<string>, storedRole: Option<string>, selectedRole: string): (r: LoginOutcome)
    ensures r.LoginFailed? <==> signInError.Some?
    ensures r.LoginFailed? ==> r.message == ErrorMessage(signInError.value)
    ensures r.Redirect? <==> signInError.None? && storedRole == Some(selectedRole)
    ensures r.Redirect? ==> r.page == LandingPage(selectedRole)
  {
    match signInError
    case Some(code) => LoginFailed(ErrorMessage(code))
    case None =>
      if storedRole == Some(selectedRole) then Redirect(LandingPage(selectedRole)) else RoleMismatch
  }

  /** Login reaches the admin dashboard only for an account whose stored role is `admin`. */
  lemma AdminPageNeedsAdminRole(signInError: Option<string>, storedRole: Option<string>, selectedRole: string)
    ensures Login(signInError, storedRole, selectedRole) == Redirect(AdminPage) ==>
      signInError.None? && storedRole == Some("admin")
  {
  }

  // ---------------------------------------------------------------------------
  // Error messages

  const KnownCodes: seq<string> := [
    "auth/user-not-found",
    "auth/wrong-password",
    "auth/email-already-in-use",
    "auth/weak-password",
    "auth/invalid-email",
    "auth/too-many-requests"]

  const FallbackMessage: string := "An error occurred. Please try again"

  /** getErrorMessage: a message of its own for each known code, the fallback otherwise. */
  function ErrorMessage(code: string): (msg: string)
    ensures code !in KnownCodes <==> msg == FallbackMessage
  {
    match code
    case "auth/user-not-found" => "No user found with this email"
    case "auth/wrong-password" => "Incorrect password"
    case "auth/email-already-in-use" => "Email already in use"
    case "auth/weak-password" => "Password is too weak"
    case "auth/invalid-email" => "Invalid email address"
    case "auth/too-many-requests" => "Too many attempts. Please try again later"
    case _ => FallbackMessage
  }

  /** Distinct known codes give distinct messages, so the message identifies the error. */
  lemma ErrorMessagesDistinct(a: string, b: string)
    requires a in KnownCodes && b in KnownCodes && a != b
    ensures ErrorMessage(a) != ErrorMessage(b)
  {
  }
}
