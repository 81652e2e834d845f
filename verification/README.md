# Authentication screens and root navigator of the school portal app

This project models the client-side rules of a React Native school portal.
It covers the three authentication screens and the root navigator. The rest
of the app is layout.

- **Sign-up** (`SignUpScreen`, `signup.dfy`). `handleSignUp` checks the form
  in a fixed order: all five fields present, then password equals its
  confirmation, then password strength. Only then does it ask the backend to
  create the account. A rejection code maps to one of five fixed messages.
  The strength regex
  `^(?=.*[a-z])(?=.*[A-Z])(?=.*\d)[A-Za-z\d]{6,}$` is modelled in two ways:
  - `PasswordPattern`, a predicate that follows the regex's structure. Its
    look-aheads use `.`, which cannot cross a line terminator.
  - `StrongPassword`, a plain statement of what the regex means.

  A lemma proves the two agree, and `MatchPassword` decides the pattern in a
  single scan.
- **Login** (`LoginScreen`, `login.dfy`). `handleLogin` runs the
  required-fields check, then sign-in. After sign-in it writes or clears the
  remembered email, then maps error codes. A mount effect fills the form
  from a remembered email.
- **Password reset** (`ForgotPasswordScreen`, `forgot_password.dfy`).
  `handleResetPassword` runs the empty check, then the e-mail regex
  `^[^\s@]+@[^\s@]+\.[^\s@]+$`. Like the password regex, it has a structural
  predicate (`EmailPattern`), a plain one (`EmailShape`), an equivalence
  lemma and a scanner (`MatchEmail`). The module also covers:
  - the `isLoading` flag, as the sequence of values written to it;
  - the error mapping, whose `default` branch shows the backend's own text;
  - the three ways back to `Login`.
- **Root navigator** (`AppNavigation`, `navigation.dfy`). `isAuthenticated`
  is `null` until the first auth notification and a boolean afterwards.
  Notifications are folded over in delivery order. Unsubscribing stops them
  from having any effect. Rendering shows nothing while the state is `null`.
  Otherwise it mounts a stack whose initial route is `Home` or `Welcome`,
  with six registered screens and the back gesture off.

`messages.dfy` (`SharedMessages`) relates the three error mappings.

`common.dfy` (`Common`) holds the shared pieces:
- the character classes;
- the route names;
- navigation commands and alerts;
- `Reply`, the opaque result of an awaited foreign call. `Reply` is either
  `Resolved` or `Rejected(code, message)`.

Calls into the identity backend and the preference store are not executed.
Each handler takes the `Reply` such a call would produce as a parameter.

Two behaviours of the code are worth knowing:
- In `handleLogin`, the preference-store write runs after sign-in inside the
  same `try`. If that write fails, the user sees a login error and is not
  navigated, even though the session already exists. `HandleLogin` models
  this with a second `Reply` and a `sessionStarted` flag.
- On the reset screen, the on-screen back button is disabled while
  `isLoading` is true. The hardware back key is not, so it still replaces
  the screen with `Login` during a request.

The navigator has no route permissions: any registered route can be
navigated to in any state. The authenticated initial route is always
`Home`, and an error from the auth listener is not handled.

## Model

| member | source | states |
|---|---|---|
| SignUpScreen.PasswordPatternMeaning | screens/SignUp.js:39 | the password regex accepts a string exactly when it has length at least 6, only `[A-Za-z0-9]` characters, and at least one lower-case letter, one upper-case letter and one digit |
| SignUpScreen.NonAlphanumericRejected | screens/SignUp.js:39-40 | a single character outside `[A-Za-z0-9]` (symbol, space, accented letter) makes the password fail, whatever else it contains |
| SignUpScreen.MatchPassword | screens/SignUp.js:39-40 | the one-pass scan returns true exactly when the regex matches the password |
| SignUpScreen.SignUpErrorMessage | screens/SignUp.js:52-67 | a creation error always maps to one of five fixed messages and never to the backend's text; the generic message is shown exactly for codes other than the four recognised ones |
| SignUpScreen.SignUpErrorMessagesDistinct | screens/SignUp.js:54-66 | the four recognised codes produce four different messages |
| SignUpScreen.HandleSignUp | screens/SignUp.js:28-69 | the checks run in order: any empty field gives the required-fields error; otherwise a mismatch gives the mismatch error; otherwise a password that is not strong gives the strength error. Account creation is attempted exactly when all three pass, and registration succeeds exactly when it is attempted and the backend resolves |
| SignUpScreen.RejectedFormIgnoresBackend | screens/SignUp.js:29-49 | a form rejected by validation gets the same outcome whatever the backend would reply, so the backend is never consulted |
| SignUpScreen.SignUpFeedback | screens/SignUp.js:30-68 | only a successful registration navigates, resetting the stack to `[Login]`; every other outcome shows an error-titled alert, with the mapped message for a backend failure |
| SignUpScreen.SignUpNavigatesOnlyOnSuccess | screens/SignUp.js:48-51 | the stack is reset, to exactly one route `Login`, if and only if every check passed and creation resolved |
| LoginScreen.LoginErrorMessage | screens/Login.js:52-66 | a caught login error maps to one of five fixed messages and never to the error's text; the generic message is shown exactly for codes other than the four recognised ones |
| LoginScreen.LoginErrorMessagesDistinct | screens/Login.js:53-65 | the four recognised codes produce four different messages |
| LoginScreen.HandleLogin | screens/Login.js:34-69 | sign-in is called exactly when both fields are non-empty. Success requires both sign-in and the storage write to resolve. On success the stored email becomes the entered email if remember-me is on and is removed otherwise. On any other outcome the stored email is unchanged. A failed storage write after a resolved sign-in is reported with the login error mapping |
| LoginScreen.FailedSignInKeepsStoredEmail | screens/Login.js:40-47 | a rejected sign-in neither writes nor clears the stored email, and no session starts |
| LoginScreen.LoginFeedback | screens/Login.js:36-67 | only a successful login navigates, resetting the stack to `[Home]`; every other outcome shows an error-titled alert, a failure with its mapped message |
| LoginScreen.Prefill | screens/Login.js:71-79 | a non-empty stored email fills the email field and turns remember-me on; a missing or empty one changes nothing |
| LoginScreen.RememberMeRoundTrip | screens/Login.js:41-79 | after a successful login, the next mount of the screen shows the same email with remember-me on if the switch was on, and a blank form if it was off |
| LoginScreen.PrefillIsNotAuthentication | screens/Login.js:34-79 | a pre-filled form never starts a session on its own: the password is still required |
| ForgotPasswordScreen.EmailPatternMeaning | screens/ForgotPassword.js:51 | the e-mail regex accepts a string exactly when it has no whitespace, exactly one `@`, a non-empty part before it, and a `.` after it that is neither the first nor the last character of that part |
| ForgotPasswordScreen.MatchEmail | screens/ForgotPassword.js:50-52 | the two scans return true exactly when the regex matches the address |
| ForgotPasswordScreen.ResetErrorMessage | screens/ForgotPassword.js:72-88 | each of the four recognised codes maps to a fixed message; any other code maps to `Error: <code>. <message>` |
| ForgotPasswordScreen.ResetErrorMessagesDistinct | screens/ForgotPassword.js:73-85 | the four recognised codes produce four different messages, whatever the backend's text |
| ForgotPasswordScreen.UnknownCodeEchoesBackendText | screens/ForgotPassword.js:86-87 | for an unrecognised code the message shown starts with `Error: ` and the code, and ends with the backend's own error text |
| ForgotPasswordScreen.KnownCodeIgnoresBackendText | screens/ForgotPassword.js:73-85 | for a recognised code the backend's text has no influence on the message |
| ForgotPasswordScreen.HandleResetPassword | screens/ForgotPassword.js:44-93 | an empty email gives the enter-email error; a non-empty malformed one gives the valid-email error. The request is sent exactly when the address is well shaped. `isLoading` is set to true then false around a sent request, is not touched otherwise, and always ends false |
| ForgotPasswordScreen.EmptyCheckPrecedesFormatCheck | screens/ForgotPassword.js:45-55 | the empty address is also malformed, but it gets the enter-email error because that check runs first |
| ForgotPasswordScreen.LoadingClearedOnEveryPath | screens/ForgotPassword.js:57-92 | the loading flag is raised only for a request that is actually sent, and it is down after every press whether the request succeeded or failed |
| ForgotPasswordScreen.ResetAlert | screens/ForgotPassword.js:45-89 | only a sent link shows a non-error alert; a failed request shows its mapped message |
| ForgotPasswordScreen.ConfirmLinkSent | screens/ForgotPassword.js:61-69 | confirming the link-sent alert replaces the screen with `Login` |
| ForgotPasswordScreen.OnHardwareBack | screens/ForgotPassword.js:30-34 | the hardware back press replaces the screen with `Login` and reports the event as consumed |
| ForgotPasswordScreen.OnBackButton | screens/ForgotPassword.js:152-156 | the on-screen back button does nothing while loading and otherwise replaces the screen with `Login` |
| ForgotPasswordScreen.EveryWayBackLeadsToLogin | screens/ForgotPassword.js:30-34 | a summary of the three back handlers: every way off the screen (hardware key, alert confirmation, back button) replaces it with `Login`, never `Welcome` |
| SharedMessages.SharedCodesShareMessages | screens/Login.js:52-66 | `auth/invalid-email` and `auth/network-request-failed` get the same text on sign-up, login and password reset, and `auth/user-not-found` the same text on login and password reset, naming which text each code gets |
| AppNavigation.OnAuthStateChanged | navigation/Navigation.js:19-21 | while subscribed, a notification sets the state to whether a user is present, which is always a boolean and never `null`; once released, a notification changes nothing |
| AppNavigation.Unsubscribe | navigation/Navigation.js:23 | the cleanup releases the subscription and keeps the current state |
| AppNavigation.DeliverKeepsSubscription | navigation/Navigation.js:18-24 | delivering notifications never changes whether the subscription is live |
| AppNavigation.DeliverReflectsLast | navigation/Navigation.js:19-21 | while subscribed, after a non-empty run of notifications the state is the last notification's verdict |
| AppNavigation.KnownStaysKnown | navigation/Navigation.js:16-21 | once the state is a boolean it never returns to `null` |
| AppNavigation.UnknownUntilFirstNotification | navigation/Navigation.js:16-21 | from mounting, the state is `null` exactly when no notification has arrived yet |
| AppNavigation.StateWritesInDeliveryOrder | navigation/Navigation.js:19-21 | while subscribed, each notification writes `isAuthenticated` once, in delivery order: the k-th value written is `!!user` of the k-th notification, none skipped |
| AppNavigation.UnsubscribedIgnoresNotifications | navigation/Navigation.js:23 | after the cleanup, any run of notifications leaves the navigator exactly as it was |
| AppNavigation.InitialRoute | navigation/Navigation.js:37 | the initial route is `Home` exactly when authenticated and `Welcome` exactly when not |
| AppNavigation.Render | navigation/Navigation.js:26-45 | nothing is rendered exactly while the state is `null`; otherwise the navigator mounts with the initial route chosen from the state, which is a registered route |
| AppNavigation.BackGestureDisabledEverywhere | navigation/Navigation.js:33-44 | in a mounted navigator the default back gesture is off, it is off on every route, and `Login`, `SignUp`, `ForgotPassword` and `AboutUs` turn it off explicitly |
| AppNavigation.RegisteredRoutesAreAllRoutes | navigation/Navigation.js:39-44 | the registered routes are exactly `Welcome`, `Login`, `SignUp`, `ForgotPassword`, `Home` and `AboutUs`, and the initial route is one of them |
| AppNavigation.RenderAfterNotifications | navigation/Navigation.js:16-37 | after mounting and a run of notifications, nothing is rendered exactly when the run is empty; otherwise the initial route follows the latest notification |
| AppNavigation.SignInSignOutScenario | navigation/Navigation.js:16-37 | a worked instance of `RenderAfterNotifications`: the notifications anonymous, signed in, then signed out give the initial routes `Welcome`, `Home`, `Welcome` |

## Left out

- Firebase sign-in, account creation, password-reset e-mail and AsyncStorage are foreign calls. Their results are the `Reply` parameters; what they do inside is not modelled.
- A failed `setItem`/`removeItem` is assumed to leave the stored entry unchanged, because the store's failure behaviour is foreign code.
- A rejected `getItem` in the login mount effect is an unhandled rejection that changes no state. `Prefill` covers it as the missing-entry case (`None`).
- Rendering, styling, focus highlighting and the show-password toggles are presentation only. The two plain links (`navigate('SignUp')` from login, `navigate('Login')` from sign-up) are left out as well: they contain no logic.
- React may merge several `isAuthenticated` writes into one re-render, and skips a re-render for a write of the value already held. The model speaks of the sequence of writes, not of renders.
- Asynchronous timing is not modelled. Notifications are a sequence applied in order. A handler's awaited calls are resolved by its parameters.
- `IsSpace` lists ECMAScript WhiteSpace (including the Unicode space separators of current Unicode versions) and LineTerminator explicitly. A JavaScript engine takes the space separators from its own Unicode version.
- JavaScript strings are sequences of UTF-16 code units, while the model uses Dafny `char` (Unicode scalar values). A character outside the Basic Multilingual Plane therefore counts once here, but twice in `password.length`. Such characters are never in `[A-Za-z\d]` and never `\s` or `@`, so neither regex verdict changes.
- `screens/ForgotPassword.js` is wrapped in unresolved merge-conflict markers (lines 1-2 and 323). Only the code between them is modelled.
- The auth listener's user object is reduced to an optional opaque id, because the code keeps only whether it is present (`!!user`).
- React Navigation reads `initialRouteName` only when the navigator first mounts. The model states which initial route each render asks for, not which screen the library then shows.
