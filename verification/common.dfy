/** Vocabulary shared by the authentication screens and the navigator:
    character classes used by the two form patterns, the registered route
    names, the navigation commands a screen issues, and the opaque result of
    a call into the identity backend or the local preference store. */
module Common {

  datatype Option<+T> = None | Some(value: T)

  // ---------------------------------------------------------------------------
  // Character classes (ASCII classes of the regular expressions)
  // ---------------------------------------------------------------------------

  predicate IsLower(c: char) { 'a' <= c <= 'z' }

  predicate IsUpper(c: char) { 'A' <= c <= 'Z' }

  /** `\d` without the `u` flag: the ASCII digits only. */
  predicate IsDigit(c: char) { '0' <= c <= '9' }

  /** The class `[A-Za-z\d]`. */
  predicate IsAlnum(c: char) { IsLower(c) || IsUpper(c) || IsDigit(c) }

  /** ECMAScript LineTerminator: the characters `.` does not match. */
  const LineTerminators: set<char> := {'\n', '\r', '\U{2028}', '\U{2029}'}

  /** ECMAScript WhiteSpace: TAB, VT, FF, ZWNBSP and the space separators
      (general category Zs). */
  const WhiteSpaces: set<char> :=
    {'\t', '\U{B}', '\U{C}', '\U{FEFF}',
     ' ', '\U{A0}', '\U{1680}',
     '\U{2000}', '\U{2001}', '\U{2002}', '\U{2003}', '\U{2004}', '\U{2005}',
     '\U{2006}', '\U{2007}', '\U{2008}', '\U{2009}', '\U{200A}',
     '\U{202F}', '\U{205F}', '\U{3000}'}

  predicate IsLineTerminator(c: char) { c in LineTerminators }

  /** The class `\s`: WhiteSpace or LineTerminator. */
  predicate IsSpace(c: char) { c in WhiteSpaces || c in LineTerminators }

  // ---------------------------------------------------------------------------
  // Routes and navigation commands
  // ---------------------------------------------------------------------------

  /** The screen names the stack navigator registers. */
  datatype Route = Welcome | Login | SignUp | ForgotPassword | Home | AboutUs

  /** `navigation.reset({index: 0, routes})` replaces the whole stack;
      `navigation.replace(r)` swaps the top screen; `navigation.navigate(r)`
      pushes (or returns to) a screen. */
  datatype NavCommand =
    | ResetStack(routes: seq<Route>)
    | Replace(target: Route)
    | Navigate(target: Route)

  /** An `Alert.alert(title, body)` shown to the user. */
  datatype Alert = Alert(title: string, body: string)

  /** What a form handler shows, and the navigation it issues right after. */
  datatype Feedback = Feedback(alert: Alert, nav: Option<NavCommand>)

  // ---------------------------------------------------------------------------
  // Opaque results of foreign calls
  // ---------------------------------------------------------------------------

  /** What an awaited backend or storage call did: it resolved, or it
      rejected with an error carrying `code` and `message`. */
  datatype Reply = Resolved | Rejected(code: string, message: string)

  /** A JavaScript string is truthy exactly when it is non-empty. */
  predicate Truthy(s: string) { |s| > 0 }

  // Messages worded identically on more than one screen.

  const NetworkErrorText: string := "Error de conexión, por favor intenta más tarde."

  const InvalidEmailText: string := "El formato del correo electrónico no es válido."

  const UserNotFoundText: string := "No se encontró un usuario con este correo."

  const ErrorTitle: string := "Error"
}
