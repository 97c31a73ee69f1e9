/**
 * The register and login forms: the password rule, the ordered checks of
 * each submit button (the first failing check decides the one message
 * shown), and the screen state the handlers change. The authentication
 * service's answers arrive as parameters; what the screens do in response
 * is recorded, in order, in an effect log.
 */
module AuthForms {
  import opened Wrappers
  import opened Text
  import opened EmailFormat

  function Any(s: string, p: char -> bool): (b: bool)
    ensures b <==> exists i :: 0 <= i < |s| && p(s[i])
  {
    if |s| == 0 then false else p(s[0]) || Any(s[1..], p)
  }

  /** `isPasswordValid`: at least one letter and at least one digit (ASCII classes). */
  function IsPasswordValid(password: string): (ok: bool)
    ensures ok <==> ((exists i :: 0 <= i < |password| && IsLetter(password[i]))
                     && (exists j :: 0 <= j < |password| && IsDigit(password[j])))
  {
    Any(password, IsLetter) && Any(password, IsDigit)
  }

  /**
   * Kotlin's `String.length`: the number of UTF-16 code units. A character
   * beyond the Basic Multilingual Plane takes a surrogate pair, two units.
   */
  function Utf16Length(s: string): (n: nat)
    ensures |s| <= n <= 2 * |s|
    ensures n == |s| <==> forall i :: 0 <= i < |s| ==> s[i] < '\U{10000}'
  {
    if |s| == 0 then 0
    else (if s[0] >= '\U{10000}' then 2 else 1) + Utf16Length(s[1..])
  }

  /** The length of a concatenation is the sum of the lengths. */
  lemma {:induction false} Utf16LengthAppend(s: string, t: string)
    ensures Utf16Length(s + t) == Utf16Length(s) + Utf16Length(t)
  {
    if |s| != 0 {
      assert (s + t)[0] == s[0] && (s + t)[1..] == s[1..] + t;
      Utf16LengthAppend(s[1..], t);
    } else {
      assert s + t == t;
    }
  }

  /** Two emoji, a letter and a digit: four characters, but six UTF-16 units. */
  lemma AstralPasswordIsLongEnough()
    ensures Utf16Length("\U{1F600}\U{1F600}a1") == 6
    ensures !Fails(ShortPassword, "a@b.co", "\U{1F600}\U{1F600}a1", "\U{1F600}\U{1F600}a1")
  {
    Utf16LengthAppend("\U{1F600}\U{1F600}", "a1");
  }

  /** The register form's checks, in the order they are tried. */
  datatype RegisterError = EmptyEmail | InvalidEmail | EmptyPassword | ShortPassword | Mismatch | WeakPassword
  {
    function Rank(): nat {
      match this
      case EmptyEmail => 0
      case InvalidEmail => 1
      case EmptyPassword => 2
      case ShortPassword => 3
      case Mismatch => 4
      case WeakPassword => 5
    }

    function Message(): string {
      match this
      case EmptyEmail => "Please enter your email"
      case InvalidEmail => "Please enter a valid email"
      case EmptyPassword => "Please enter your password"
      case ShortPassword => "Password must be at least 6 characters"
      case Mismatch => "Passwords do not match"
      case WeakPassword => "Password must include both letters and numbers"
    }
  }

  /** Whether the check `e` fails on the form's contents. */
  predicate Fails(e: RegisterError, email: string, password: string, confirmPassword: string) {
    match e
    case EmptyEmail => |email| == 0
    case InvalidEmail => !IsValidEmail(email)
    case EmptyPassword => |password| == 0
    case ShortPassword => Utf16Length(password) < 6
    case Mismatch => password != confirmPassword
    case WeakPassword => !IsPasswordValid(password)
  }

  /**
   * The `when` chain of the Register button: the first failing check, or
   * `None` when registration may start.
   */
  function RegisterValidation(email: string, password: string, confirmPassword: string): (r: Option<RegisterError>)
    ensures r.Some? ==> Fails(r.value, email, password, confirmPassword)
    ensures r.Some? ==> forall e: RegisterError :: e.Rank() < r.value.Rank() ==> !Fails(e, email, password, confirmPassword)
    ensures r.None? ==> forall e: RegisterError :: !Fails(e, email, password, confirmPassword)
  {
    if |email| == 0 then Some(EmptyEmail)
    else if !IsValidEmail(email) then Some(InvalidEmail)
    else if |password| == 0 then Some(EmptyPassword)
    else if Utf16Length(password) < 6 then Some(ShortPassword)
    else if password != confirmPassword then Some(Mismatch)
    else if !IsPasswordValid(password) then Some(WeakPassword)
    else None
  }

  /** A too-short password is reported as such even when the confirmation differs too. */
  lemma ShortPasswordBeforeMismatch(email: string, password: string, confirmPassword: string)
    requires IsValidEmail(email) && 0 < |password| && Utf16Length(password) < 6 && password != confirmPassword
    ensures RegisterValidation(email, password, confirmPassword) == Some(ShortPassword)
  {
  }

  /** A form that passes every check has a well-formed email and a strong, confirmed password. */
  lemma AcceptedRegistration(email: string, password: string, confirmPassword: string)
    requires RegisterValidation(email, password, confirmPassword).None?
    ensures EmailShape(email) && 6 <= Utf16Length(password) && password == confirmPassword
    ensures exists i, j :: 0 <= i < |password| && 0 <= j < |password| && IsLetter(password[i]) && IsDigit(password[j])
  {
    ValidEmailIffShape(email);
    assert !Fails(InvalidEmail, email, password, confirmPassword);
    assert !Fails(ShortPassword, email, password, confirmPassword);
    assert !Fails(Mismatch, email, password, confirmPassword);
    assert !Fails(WeakPassword, email, password, confirmPassword);
  }

  /** The login form's checks, in order. */
  datatype LoginError = LoginEmptyEmail | LoginEmptyPassword
  {
    function Message(): string {
      match this
      case LoginEmptyEmail => "Please enter your email"
      case LoginEmptyPassword => "Please enter your password"
    }
  }

  /** The `when` chain of the Login button. */
  function LoginValidation(email: string, password: string): (r: Option<LoginError>)
    ensures r == Some(LoginEmptyEmail) <==> |email| == 0
    ensures r == Some(LoginEmptyPassword) <==> |email| != 0 && |password| == 0
    ensures r.None? <==> |email| != 0 && |password| != 0
  {
    if |email| == 0 then Some(LoginEmptyEmail)
    else if |password| == 0 then Some(LoginEmptyPassword)
    else None
  }

  const RegisterFailedFallback := "Registration failed. Please try again."
  const LoginFailedFallback := "Login failed. Please check your credentials."

  datatype Route = Home

  /** What a screen asks of the outside world, in the order it asks. */
  datatype Effect =
    | RegisterRequest(email: string, password: string)
    | LoginRequest(email: string, password: string)
    | PasswordResetRequest(email: string)
    | SaveUserId(uid: string)
    | Toast(text: string)
    | Navigate(route: Route)

  /** The authentication service's answer: the signed-in uid, or the failure's message if it has one. */
  datatype AuthOutcome = Authenticated(uid: string) | AuthFailed(message: Option<string>)

  /** The message a failure shows: its own, or the fallback text. */
  function FailureText(message: Option<string>, fallback: string): string {
    message.GetOr(fallback)
  }

  /** Kotlin's rendering of a nullable message inside a string template. */
  function TemplateText(message: Option<string>): string {
    message.GetOr("null")
  }

  /**
   * How the "Forgot Password?" coroutine's call to `sendPasswordResetEmail`
   * ends. The call catches every failure itself and returns a `Result`:
   * `error` is `None` for success, or the failure's message. Only a
   * cancelled coroutine makes the call throw.
   */
  datatype ResetCompletion =
    | ResetReturned(error: Option<Option<string>>)
    | ResetCancelled(message: Option<string>)

  const ResetSentPrefix := "Password reset email sent to "
  const ResetFailedPrefix := "Failed to send reset email: "

  /** The toast says the reset e-mail went out to `email`. */
  predicate ReportsSent(text: string, email: string) {
    text == ResetSentPrefix + email
  }

  /**
   * The button's toast as written: the returned `Result` is discarded, so it
   * reports the e-mail as sent whenever the call returns, failed or not.
   */
  function ResetToast(email: string, completion: ResetCompletion): (text: string)
    ensures ReportsSent(text, email) <==> completion.ResetReturned?
  {
    match completion
    case ResetReturned(_) => ResetSentPrefix + email
    case ResetCancelled(message) =>
      var text := ResetFailedPrefix + TemplateText(message);
      assert text[0] != (ResetSentPrefix + email)[0];
      text
  }

  /** The toast when the returned `Result` is checked: the e-mail is reported sent only on success. */
  function CheckedResetToast(email: string, completion: ResetCompletion): (text: string)
    ensures ReportsSent(text, email) <==> completion == ResetReturned(None)
  {
    var failure := match completion
      case ResetReturned(error) => error
      case ResetCancelled(message) => Some(message);
    if failure.None? then ResetSentPrefix + email
    else
      var text := ResetFailedPrefix + TemplateText(failure.value);
      assert text[0] != (ResetSentPrefix + email)[0];
      text
  }

  /** A reset the service refused still toasts that the e-mail was sent. */
  lemma RefusedResetReportsSent(email: string, reason: Option<string>)
    ensures ReportsSent(ResetToast(email, ResetReturned(Some(reason))), email)
    ensures !ReportsSent(CheckedResetToast(email, ResetReturned(Some(reason))), email)
  {
  }

  class RegisterScreen {
    var email: string
    var password: string
    var confirmPassword: string
    var errorMessage: Option<string>
    var isLoading: bool
    var effects: seq<Effect>

    constructor ()
      ensures email == "" && password == "" && confirmPassword == ""
      ensures errorMessage.None? && !isLoading && effects == []
    {
      email, password, confirmPassword := "", "", "";
      errorMessage, isLoading, effects := None, false, [];
    }

    /**
     * The Register button (enabled only while not loading): clear the
     * message, then show the first failing check's message, or start
     * registration.
     */
    method OnRegisterClick()
      requires !isLoading
      modifies this
      ensures email == old(email) && password == old(password) && confirmPassword == old(confirmPassword)
      ensures match RegisterValidation(email, password, confirmPassword)
        case Some(e) => errorMessage == Some(e.Message()) && !isLoading && effects == old(effects)
        case None => errorMessage.None? && isLoading && effects == old(effects) + [RegisterRequest(email, password)]
    {
      errorMessage := None;
      var check := RegisterValidation(email, password, confirmPassword);
      if check.Some? {
        errorMessage := Some(check.value.Message());
      } else {
        isLoading := true;
        effects := effects + [RegisterRequest(email, password)];
      }
    }

    /** The registration request completes: stop loading, then go Home or show why it failed. */
    method OnRegisterResult(outcome: AuthOutcome)
      modifies this
      ensures email == old(email) && password == old(password) && confirmPassword == old(confirmPassword)
      ensures !isLoading
      ensures outcome.Authenticated? ==>
        errorMessage == old(errorMessage) && effects == old(effects) + [Toast("Registration successful!"), Navigate(Home)]
      ensures outcome.AuthFailed? ==>
        errorMessage == Some(FailureText(outcome.message, RegisterFailedFallback)) && effects == old(effects)
    {
      isLoading := false;
      if outcome.Authenticated? {
        effects := effects + [Toast("Registration successful!"), Navigate(Home)];
      } else {
        errorMessage := Some(FailureText(outcome.message, RegisterFailedFallback));
      }
    }
  }

  class LoginScreen {
    var email: string
    var password: string
    var errorMessage: Option<string>
    var isLoading: bool
    var effects: seq<Effect>

    constructor ()
      ensures email == "" && password == "" && errorMessage.None? && !isLoading && effects == []
    {
      email, password := "", "";
      errorMessage, isLoading, effects := None, false, [];
    }

    /** The Login button (enabled only while not loading). */
    method OnLoginClick()
      requires !isLoading
      modifies this
      ensures email == old(email) && password == old(password)
      ensures match LoginValidation(email, password)
        case Some(e) => errorMessage == Some(e.Message()) && !isLoading && effects == old(effects)
        case None => errorMessage.None? && isLoading && effects == old(effects) + [LoginRequest(email, password)]
    {
      errorMessage := None;
      var check := LoginValidation(email, password);
      if check.Some? {
        errorMessage := Some(check.value.Message());
      } else {
        isLoading := true;
        effects := effects + [LoginRequest(email, password)];
      }
    }

    /** The login request completes: on success save the uid, then go Home; otherwise show the failure. */
    method OnLoginResult(outcome: AuthOutcome)
      modifies this
      ensures email == old(email) && password == old(password)
      ensures !isLoading
      ensures outcome.Authenticated? ==>
        errorMessage == old(errorMessage)
        && effects == old(effects) + [SaveUserId(outcome.uid), Toast("Login successful"), Navigate(Home)]
      ensures outcome.AuthFailed? ==>
        errorMessage == Some(FailureText(outcome.message, LoginFailedFallback)) && effects == old(effects)
    {
      isLoading := false;
      if outcome.Authenticated? {
        effects := effects + [SaveUserId(outcome.uid), Toast("Login successful"), Navigate(Home)];
      } else {
        errorMessage := Some(FailureText(outcome.message, LoginFailedFallback));
      }
    }

    /**
     * "Forgot Password?": with an email, request a reset and toast how the
     * call ended (`ResetToast`); without one, show the email message and
     * send nothing.
     */
    method OnForgotPassword(completion: ResetCompletion)
      modifies this
      ensures email == old(email) && password == old(password) && isLoading == old(isLoading)
      ensures |email| == 0 ==> errorMessage == Some("Please enter your email") && effects == old(effects)
      ensures |email| != 0 ==> (errorMessage == old(errorMessage)
        && effects == old(effects) + [PasswordResetRequest(email), Toast(ResetToast(email, completion))])
    {
      if |email| != 0 {
        effects := effects + [PasswordResetRequest(email), Toast(ResetToast(email, completion))];
      } else {
        errorMessage := Some("Please enter your email");
      }
    }
  }
}
