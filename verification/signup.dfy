/** The registration screen: `handleSignUp` checks the form in a fixed order
    (every field present, password equals its confirmation, password strong
    enough), only then asks the identity backend to create the account, and
    turns a rejection code into one of five fixed messages. The backend call
    is a parameter: its `Reply` is only looked at once every check passed. */
module SignUpScreen {
  import opened Common

  // ---------------------------------------------------------------------------
  // The password pattern ^(?=.*[a-z])(?=.*[A-Z])(?=.*\d)[A-Za-z\d]{6,}$
  // ---------------------------------------------------------------------------

  /** The classes the three look-aheads search for. */
  datatype CharClass = LowerClass | UpperClass | DigitClass

  predicate InClass(c: char, k: CharClass) {
    match k
    case LowerClass => IsLower(c)
    case UpperClass => IsUpper(c)
    case DigitClass => IsDigit(c)
  }

  /** `(?=.*X)` tried at the start of the input: a character of class `k`
      is reached after a run of characters `.` matches, i.e. with no line
      terminator before it. */
  predicate LookaheadFinds(p: string, k: CharClass) {
    exists i | 0 <= i < |p| ::
      InClass(p[i], k) && forall j | 0 <= j < i :: !IsLineTerminator(p[j])
  }

  /** The whole pattern, anchored at both ends: the three look-aheads, then
      six or more characters of `[A-Za-z\d]` up to the end of the input. */
  predicate PasswordPattern(p: string) {
    && LookaheadFinds(p, LowerClass)
    && LookaheadFinds(p, UpperClass)
    && LookaheadFinds(p, DigitClass)
    && |p| >= 6
    && forall i | 0 <= i < |p| :: IsAlnum(p[i])
  }

  predicate Contains(p: string, k: CharClass) {
    exists i | 0 <= i < |p| :: InClass(p[i], k)
  }

  /** What the pattern is meant to say, stated without regular-expression
      machinery: at least six characters, all ASCII letters or digits, with
      a lower-case letter, an upper-case letter and a digit among them. */
  predicate StrongPassword(p: string) {
    && |p| >= 6
    && (forall i | 0 <= i < |p| :: IsAlnum(p[i]))
    && Contains(p, LowerClass)
    && Contains(p, UpperClass)
    && Contains(p, DigitClass)
  }

  /** The pattern accepts exactly the strong passwords. */
  lemma PasswordPatternMeaning(p: string)
    ensures PasswordPattern(p) <==> StrongPassword(p)
  {
  }

  /** One character outside `[A-Za-z0-9]` (a symbol, a space, an accented
      letter) rejects the password whatever else it contains. */
  lemma NonAlphanumericRejected(p: string, i: int)
    requires 0 <= i < |p| && !IsAlnum(p[i])
    ensures !PasswordPattern(p) && !StrongPassword(p)
  {
  }

  /** `passwordRegex.test(password)` as a single left-to-right scan. */
  method MatchPassword(p: string) returns (ok: bool)
    ensures ok <==> PasswordPattern(p)
  {
    PasswordPatternMeaning(p);
    var lower, upper, digit := false, false, false;
    var n := 0;
    while n < |p|
      invariant 0 <= n <= |p|
      invariant forall j | 0 <= j < n :: IsAlnum(p[j])
      invariant lower <==> exists j | 0 <= j < n :: IsLower(p[j])
      invariant upper <==> exists j | 0 <= j < n :: IsUpper(p[j])
      invariant digit <==> exists j | 0 <= j < n :: IsDigit(p[j])
    {
      var c := p[n];
      if !IsAlnum(c) {
        NonAlphanumericRejected(p, n);
        return false;
      }
      lower := lower || IsLower(c);
      upper := upper || IsUpper(c);
      digit := digit || IsDigit(c);
      n := n + 1;
    }
    assert lower <==> Contains(p, LowerClass);
    assert upper <==> Contains(p, UpperClass);
    assert digit <==> Contains(p, DigitClass);
    ok := |p| >= 6 && lower && upper && digit;
  }

  // ---------------------------------------------------------------------------
  // Error codes
  // ---------------------------------------------------------------------------

  const EmailInUseText: string := "El correo electrónico ya está en uso."
  const WeakPasswordText: string := "La contraseña es demasiado débil."
  const SignUpGenericText: string := "Hubo un problema al registrar el usuario."

  /** The codes the `switch` recognises. */
  const SignUpKnownCodes: set<string> :=
    {"auth/email-already-in-use", "auth/invalid-email",
     "auth/weak-password", "auth/network-request-failed"}

  /** Every message a failed registration can show. */
  const SignUpMessages: set<string> :=
    {EmailInUseText, InvalidEmailText, WeakPasswordText, NetworkErrorText, SignUpGenericText}

  /** The message for a rejected `createUserWithEmailAndPassword`: a fixed
      text per recognised code, the generic text for any other; the
      backend's own error text is never shown. */
  function SignUpErrorMessage(code: string): (m: string)
    ensures m in SignUpMessages
    ensures m == SignUpGenericText <==> code !in SignUpKnownCodes
  {
    if code == "auth/email-already-in-use" then EmailInUseText
    else if code == "auth/invalid-email" then InvalidEmailText
    else if code == "auth/weak-password" then WeakPasswordText
    else if code == "auth/network-request-failed" then NetworkErrorText
    else SignUpGenericText
  }

  /** Distinct recognised codes are told apart by their messages. */
  lemma SignUpErrorMessagesDistinct(c1: string, c2: string)
    requires c1 in SignUpKnownCodes && c2 in SignUpKnownCodes && c1 != c2
    ensures SignUpErrorMessage(c1) != SignUpErrorMessage(c2)
  {
  }

  // ---------------------------------------------------------------------------
  // handleSignUp
  // ---------------------------------------------------------------------------

  datatype SignUpForm = SignUpForm(
    firstName: string,
    lastName: string,
    email: string,
    password: string,
    confirmPassword: string)

  /** How one press of the register button ends. */
  datatype SignUpOutcome =
    | MissingFields
    | PasswordMismatch
    | WeakPassword
    | Registered
    | RegistrationFailed(message: string)

  predicate AllFilled(f: SignUpForm) {
    && Truthy(f.firstName)
    && Truthy(f.lastName)
    && Truthy(f.email)
    && Truthy(f.password)
    && Truthy(f.confirmPassword)
  }

  /** Whether the outcome is one in which the account creation was called. */
  predicate CreationAttempted(o: SignUpOutcome) {
    o.Registered? || o.RegistrationFailed?
  }

  /** `handleSignUp`, given what account creation would reply. */
  function HandleSignUp(f: SignUpForm, create: Reply): (o: SignUpOutcome)
    ensures o == MissingFields <==> !AllFilled(f)
    ensures o == PasswordMismatch <==> AllFilled(f) && f.password != f.confirmPassword
    ensures o == WeakPassword <==>
              AllFilled(f) && f.password == f.confirmPassword && !StrongPassword(f.password)
    ensures CreationAttempted(o) <==>
              AllFilled(f) && f.password == f.confirmPassword && StrongPassword(f.password)
    ensures o == Registered <==> CreationAttempted(o) && create == Resolved
    ensures o.RegistrationFailed? ==> o.message == SignUpErrorMessage(create.code)
  {
    PasswordPatternMeaning(f.password);
    if !AllFilled(f) then MissingFields
    else if f.password != f.confirmPassword then PasswordMismatch
    else if !PasswordPattern(f.password) then WeakPassword
    else
      match create
      case Resolved => Registered
      case Rejected(code, _) => RegistrationFailed(SignUpErrorMessage(code))
  }

  /** A form turned away by validation never reaches the backend: its
      outcome is the same whatever account creation would have replied. */
  lemma RejectedFormIgnoresBackend(f: SignUpForm, r1: Reply, r2: Reply)
    requires !CreationAttempted(HandleSignUp(f, r1))
    ensures HandleSignUp(f, r1) == HandleSignUp(f, r2)
  {
  }

  /** The alert shown and the navigation issued for each outcome; only a
      successful registration navigates, resetting the stack to `Login`. */
  function SignUpFeedback(o: SignUpOutcome): (fb: Feedback)
    ensures fb.nav.Some? <==> o == Registered
    ensures fb.nav.Some? ==> fb.nav.value == ResetStack([Login])
    ensures o != Registered ==> fb.alert.title == ErrorTitle
    ensures o.RegistrationFailed? ==> fb.alert == Alert(ErrorTitle, o.message)
  {
    match o
    case MissingFields =>
      Feedback(Alert(ErrorTitle, "Todos los campos son obligatorios."), None)
    case PasswordMismatch =>
      Feedback(Alert(ErrorTitle, "Las contraseñas no coinciden."), None)
    case WeakPassword =>
      Feedback(Alert(ErrorTitle, "La contraseña debe tener al menos 6 caracteres, incluyendo una letra mayúscula, una minúscula y un número."), None)
    case Registered =>
      Feedback(Alert("Registro exitoso", "Usuario registrado con éxito."), Some(ResetStack([Login])))
    case RegistrationFailed(message) =>
      Feedback(Alert(ErrorTitle, message), None)
  }

  /** A registration that goes through leaves exactly one screen on the
      stack, `Login`; every other press leaves the stack alone and shows an
      error alert. */
  lemma SignUpNavigatesOnlyOnSuccess(f: SignUpForm, create: Reply)
    ensures var fb := SignUpFeedback(HandleSignUp(f, create));
            && (fb.nav.Some? <==>
                  AllFilled(f) && f.password == f.confirmPassword
                  && StrongPassword(f.password) && create == Resolved)
            && (fb.nav.Some? ==> fb.nav.value.routes == [Login])
            && (fb.nav.None? ==> fb.alert.title == ErrorTitle)
  {
  }
}
