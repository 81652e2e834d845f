/** The login screen: `handleLogin` refuses an empty email or password,
    signs in through the identity backend, then writes or clears the
    remembered email in the preference store, and maps a rejection code to a
    fixed message. On mount, a remembered email pre-fills the form. Both
    awaited calls (sign-in and the storage write) are parameters. */
module LoginScreen {
  import opened Common

  // ---------------------------------------------------------------------------
  // Error codes
  // ---------------------------------------------------------------------------

  const WrongPasswordText: string := "La contraseña es incorrecta."
  const LoginGenericText: string := "Hubo un problema al iniciar sesión."

  const LoginKnownCodes: set<string> :=
    {"auth/invalid-email", "auth/wrong-password",
     "auth/user-not-found", "auth/network-request-failed"}

  const LoginMessages: set<string> :=
    {InvalidEmailText, WrongPasswordText, UserNotFoundText, NetworkErrorText, LoginGenericText}

  /** The message for an error caught by `handleLogin`: a fixed text per
      recognised code and the generic text for any other; the error's own
      text is never shown. */
  function LoginErrorMessage(code: string): (m: string)
    ensures m in LoginMessages
    ensures m == LoginGenericText <==> code !in LoginKnownCodes
  {
    if code == "auth/invalid-email" then InvalidEmailText
    else if code == "auth/wrong-password" then WrongPasswordText
    else if code == "auth/user-not-found" then UserNotFoundText
    else if code == "auth/network-request-failed" then NetworkErrorText
    else LoginGenericText
  }

  /** Distinct recognised codes are told apart by their messages. */
  lemma LoginErrorMessagesDistinct(c1: string, c2: string)
    requires c1 in LoginKnownCodes && c2 in LoginKnownCodes && c1 != c2
    ensures LoginErrorMessage(c1) != LoginErrorMessage(c2)
  {
  }

  // ---------------------------------------------------------------------------
  // handleLogin
  // ---------------------------------------------------------------------------

  /** The form state: the two fields and the remember-me switch. */
  datatype LoginForm = LoginForm(email: string, password: string, rememberMe: bool)

  /** The form as the screen first renders it. */
  const BlankLoginForm: LoginForm := LoginForm("", "", false)

  datatype LoginOutcome =
    | MissingCredentials
    | LoggedIn
    | LoginFailed(message: string)

  /** One press of the login button: how it ends, whether the sign-in call
      was made and resolved (the session exists), and the `userEmail` entry
      of the preference store afterwards. */
  datatype LoginRun = LoginRun(
    outcome: LoginOutcome,
    signInCalled: bool,
    sessionStarted: bool,
    savedEmail: Option<string>)

  /** The `userEmail` entry a successful sign-in leaves behind. */
  function RememberedAfter(f: LoginForm): Option<string> {
    if f.rememberMe then Some(f.email) else None
  }

  /** `handleLogin`, given what sign-in and the following storage write
      (`setItem` or `removeItem`) would reply, and the stored entry before.
      A failing storage write lands in the same `catch` as a failing
      sign-in, so it is reported as a login error although the session
      already exists. */
  function HandleLogin(f: LoginForm, signIn: Reply, store: Reply, saved: Option<string>): (r: LoginRun)
    ensures r.signInCalled <==> Truthy(f.email) && Truthy(f.password)
    ensures r.outcome == MissingCredentials <==> !r.signInCalled
    ensures r.sessionStarted <==> r.signInCalled && signIn == Resolved
    ensures r.outcome == LoggedIn <==> r.sessionStarted && store == Resolved
    ensures r.outcome == LoggedIn ==> r.savedEmail == RememberedAfter(f)
    ensures r.outcome != LoggedIn ==> r.savedEmail == saved
    ensures r.outcome.LoginFailed? ==>
              r.outcome.message == LoginErrorMessage(if r.sessionStarted then store.code else signIn.code)
  {
    if !Truthy(f.email) || !Truthy(f.password) then
      LoginRun(MissingCredentials, false, false, saved)
    else
      match signIn
      case Rejected(code, _) =>
        LoginRun(LoginFailed(LoginErrorMessage(code)), true, false, saved)
      case Resolved =>
        match store
        case Resolved => LoginRun(LoggedIn, true, true, RememberedAfter(f))
        case Rejected(code, _) => LoginRun(LoginFailed(LoginErrorMessage(code)), true, true, saved)
  }

  /** A failed sign-in leaves the stored email exactly as it was: the
      storage step only runs after the awaited sign-in resolved. */
  lemma FailedSignInKeepsStoredEmail(f: LoginForm, code: string, msg: string, store: Reply, saved: Option<string>)
    ensures HandleLogin(f, Rejected(code, msg), store, saved).savedEmail == saved
    ensures !HandleLogin(f, Rejected(code, msg), store, saved).sessionStarted
  {
  }

  /** The alert and navigation for each outcome; only a successful login
      navigates, resetting the stack to `Home`. */
  function LoginFeedback(o: LoginOutcome): (fb: Feedback)
    ensures fb.nav.Some? <==> o == LoggedIn
    ensures fb.nav.Some? ==> fb.nav.value == ResetStack([Home])
    ensures o != LoggedIn ==> fb.alert.title == ErrorTitle
    ensures o.LoginFailed? ==> fb.alert == Alert(ErrorTitle, o.message)
  {
    match o
    case MissingCredentials =>
      Feedback(Alert(ErrorTitle, "Por favor ingrese ambos campos."), None)
    case LoggedIn =>
      Feedback(Alert("Login exitoso", "Has iniciado sesión correctamente."), Some(ResetStack([Home])))
    case LoginFailed(message) =>
      Feedback(Alert(ErrorTitle, message), None)
  }

  // ---------------------------------------------------------------------------
  // The mount effect that restores a remembered email
  // ---------------------------------------------------------------------------

  /** The effect run on mount, given what `getItem("userEmail")` yields
      (`None` for a missing entry; a rejected read changes nothing either).
      Only a truthy stored value fills the email field and turns
      remember-me on. */
  function Prefill(f: LoginForm, stored: Option<string>): (g: LoginForm)
    ensures stored.Some? && Truthy(stored.value) ==>
              g == LoginForm(stored.value, f.password, true)
    ensures !(stored.Some? && Truthy(stored.value)) ==> g == f
  {
    match stored
    case Some(e) => if Truthy(e) then f.(email := e, rememberMe := true) else f
    case None => f
  }

  /** Remember-me round trip: after a successful login, the next mount of
      the screen comes back with the same email and remember-me on when the
      switch was on, and as a blank form when it was off. */
  lemma RememberMeRoundTrip(f: LoginForm, saved: Option<string>)
    requires Truthy(f.email) && Truthy(f.password)
    ensures var r := HandleLogin(f, Resolved, Resolved, saved);
            && r.outcome == LoggedIn
            && Prefill(BlankLoginForm, r.savedEmail) ==
                 (if f.rememberMe then LoginForm(f.email, "", true) else BlankLoginForm)
  {
  }

  /** The remembered email is a convenience only: whatever is stored, a
      login attempt from a pre-filled form still needs the password and a
      resolved sign-in before a session starts. */
  lemma PrefillIsNotAuthentication(stored: Option<string>, signIn: Reply, store: Reply)
    ensures !HandleLogin(Prefill(BlankLoginForm, stored), signIn, store, stored).sessionStarted
  {
  }
}
