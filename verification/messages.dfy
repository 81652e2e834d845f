/** Error codes recognised by more than one screen. The screens each keep
    their own `switch`, but a code they share is shown with the same text on
    every screen that recognises it. */
module SharedMessages {
  import opened Common
  import SignUpScreen
  import LoginScreen
  import ForgotPasswordScreen

  /** `auth/invalid-email` and `auth/network-request-failed` read the same on
      all three screens, and `auth/user-not-found` the same on login and
      password reset, whatever error text the backend attached. */
  lemma SharedCodesShareMessages(message: string)
    ensures SignUpScreen.SignUpErrorMessage("auth/invalid-email") == InvalidEmailText
    ensures LoginScreen.LoginErrorMessage("auth/invalid-email") == InvalidEmailText
    ensures ForgotPasswordScreen.ResetErrorMessage("auth/invalid-email", message) == InvalidEmailText
    ensures SignUpScreen.SignUpErrorMessage("auth/network-request-failed") == NetworkErrorText
    ensures LoginScreen.LoginErrorMessage("auth/network-request-failed") == NetworkErrorText
    ensures ForgotPasswordScreen.ResetErrorMessage("auth/network-request-failed", message) == NetworkErrorText
    ensures LoginScreen.LoginErrorMessage("auth/user-not-found") == UserNotFoundText
    ensures ForgotPasswordScreen.ResetErrorMessage("auth/user-not-found", message) == UserNotFoundText
  {
  }
}
