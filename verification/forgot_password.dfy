/** The password-reset screen: `handleResetPassword` refuses an empty email,
    then one that does not fit the e-mail pattern, and only then raises the
    loading flag and asks the identity backend to send a reset link; the
    flag is lowered again whatever the backend replied. Unlike the other two
    screens, an unrecognised error code is shown together with the
    backend's own error text. Every way back leads to `Login`. */
module ForgotPasswordScreen {
  import opened Common

  // ---------------------------------------------------------------------------
  // The e-mail pattern ^[^\s@]+@[^\s@]+\.[^\s@]+$
  // ---------------------------------------------------------------------------

  /** Every character is in `[^\s@]`. */
  predicate NoSpaceOrAt(s: string) {
    forall k | 0 <= k < |s| :: !IsSpace(s[k]) && s[k] != '@'
  }

  /** The pattern: the input splits as `local '@' host '.' tail` with three
      non-empty runs of `[^\s@]`; `i` is the position of the `@` and `j`
      that of the dot. */
  predicate EmailPattern(s: string) {
    exists i, j | 0 < i < |s| && 0 < j < |s| && i + 1 < j && j + 1 < |s| ::
      && s[i] == '@'
      && s[j] == '.'
      && NoSpaceOrAt(s[..i])
      && NoSpaceOrAt(s[i + 1..j])
      && NoSpaceOrAt(s[j + 1..])
  }

  /** Position `i` holds the only `@` of `s`. */
  predicate OnlyAtSignAt(s: string, i: int) {
    && 0 <= i < |s|
    && s[i] == '@'
    && forall k | 0 <= k < |s| && k != i :: s[k] != '@'
  }

  /** The domain has a dot that is neither its first nor its last character. */
  predicate HasInnerDot(d: string) {
    exists k | 0 < k < |d| - 1 :: d[k] == '.'
  }

  /** What the pattern is meant to say: no whitespace, exactly one `@`, a
      non-empty part before it, and a dot strictly inside the part after it. */
  predicate EmailShape(s: string) {
    && (forall k | 0 <= k < |s| :: !IsSpace(s[k]))
    && exists i | 0 < i < |s| :: OnlyAtSignAt(s, i) && HasInnerDot(s[i + 1..])
  }

  /** A match with the `@` at `i` and the dot at `j` has the shape, the `@`
      at `i` being the only one. */
  lemma PatternHasShape(s: string, i: int, j: int)
    requires 0 < i && i + 1 < j && j + 1 < |s|
    requires s[i] == '@' && s[j] == '.'
    requires NoSpaceOrAt(s[..i]) && NoSpaceOrAt(s[i + 1..j]) && NoSpaceOrAt(s[j + 1..])
    ensures forall k | 0 <= k < |s| && k != i :: !IsSpace(s[k]) && s[k] != '@'
    ensures EmailShape(s)
  {
    forall k | 0 <= k < |s| && k != i
      ensures !IsSpace(s[k]) && s[k] != '@'
    {
      if k < i {
        assert s[..i][k] == s[k];
      } else if k < j {
        assert s[i + 1..j][k - (i + 1)] == s[k];
      } else if k > j {
        assert s[j + 1..][k - (j + 1)] == s[k];
      }
    }
    assert s[i + 1..][j - (i + 1)] == '.';
    assert OnlyAtSignAt(s, i) && HasInnerDot(s[i + 1..]);
  }

  /** A well-shaped address whose only `@` is at `i`, with a dot at offset
      `k` of the domain, matches with that `@` and that dot. */
  lemma ShapeHasPattern(s: string, i: int, k: int)
    requires forall m | 0 <= m < |s| :: !IsSpace(s[m])
    requires 0 < i && OnlyAtSignAt(s, i)
    requires 0 < k < |s[i + 1..]| - 1 && s[i + 1..][k] == '.'
    ensures EmailPattern(s)
  {
  }

  /** The pattern accepts exactly the well-shaped addresses. */
  lemma EmailPatternMeaning(s: string)
    ensures EmailPattern(s) <==> EmailShape(s)
  {
    if EmailPattern(s) {
      var i, j :| 0 < i < |s| && 0 < j < |s| && i + 1 < j && j + 1 < |s|
                  && s[i] == '@' && s[j] == '.'
                  && NoSpaceOrAt(s[..i]) && NoSpaceOrAt(s[i + 1..j]) && NoSpaceOrAt(s[j + 1..]);
      PatternHasShape(s, i, j);
    }
    if EmailShape(s) {
      var i :| 0 < i < |s| && OnlyAtSignAt(s, i) && HasInnerDot(s[i + 1..]);
      var k :| 0 < k < |s[i + 1..]| - 1 && s[i + 1..][k] == '.';
      ShapeHasPattern(s, i, k);
    }
  }

  /** `emailRegex.test(email)` as two left-to-right scans: one that finds the
      `@` and rejects whitespace or a second `@`, one that looks for a dot
      strictly inside the domain. */
  method MatchEmail(s: string) returns (ok: bool)
    ensures ok <==> EmailPattern(s)
  {
    EmailPatternMeaning(s);
    var at := -1;
    var n := 0;
    while n < |s|
      invariant 0 <= n <= |s|
      invariant -1 <= at < n
      invariant forall k | 0 <= k < n :: !IsSpace(s[k])
      invariant at >= 0 ==> s[at] == '@'
      invariant forall k | 0 <= k < n && k != at :: s[k] != '@'
    {
      if IsSpace(s[n]) {
        return false;
      }
      if s[n] == '@' {
        if at >= 0 {
          assert forall i | 0 <= i < |s| :: !OnlyAtSignAt(s, i) by {
            forall i | 0 <= i < |s| ensures !OnlyAtSignAt(s, i) {
              if i != at {
                assert s[at] == '@';
              } else {
                assert s[n] == '@';
              }
            }
          }
          return false;
        }
        at := n;
      }
      n := n + 1;
    }
    if at < 0 {
      assert forall i | 0 <= i < |s| :: !OnlyAtSignAt(s, i);
      return false;
    }
    if at == 0 {
      assert forall i | 0 < i < |s| :: !OnlyAtSignAt(s, i) by {
        forall i | 0 < i < |s| ensures !OnlyAtSignAt(s, i) {
          assert s[0] == '@';
        }
      }
      return false;
    }
    assert forall i | 0 < i < |s| && i != at :: !OnlyAtSignAt(s, i);
    var d := s[at + 1..];
    var k := 1;
    while k < |d| - 1
      invariant 1 <= k
      invariant forall m | 0 < m < k && m < |d| :: d[m] != '.'
    {
      if d[k] == '.' {
        return true;
      }
      k := k + 1;
    }
    ok := false;
  }

  // ---------------------------------------------------------------------------
  // Error codes
  // ---------------------------------------------------------------------------

  const TooManyRequestsText: string :=
    "Demasiados intentos. Por favor espera antes de intentar nuevamente."

  const ResetKnownCodes: set<string> :=
    {"auth/invalid-email", "auth/user-not-found",
     "auth/network-request-failed", "auth/too-many-requests"}

  const ResetFixedMessages: set<string> :=
    {InvalidEmailText, UserNotFoundText, NetworkErrorText, TooManyRequestsText}

  /** The template of the `default` branch: `Error: ${code}. ${message}`. */
  function RawErrorText(code: string, message: string): string {
    "Error: " + code + ". " + message
  }

  /** The message for a rejected `sendPasswordResetEmail`: a fixed text per
      recognised code; any other code falls to the `default` branch, which
      echoes the code and the backend's message. */
  function ResetErrorMessage(code: string, message: string): (m: string)
    ensures code in ResetKnownCodes ==> m in ResetFixedMessages
    ensures code !in ResetKnownCodes ==> m == RawErrorText(code, message)
  {
    if code == "auth/invalid-email" then InvalidEmailText
    else if code == "auth/user-not-found" then UserNotFoundText
    else if code == "auth/network-request-failed" then NetworkErrorText
    else if code == "auth/too-many-requests" then TooManyRequestsText
    else RawErrorText(code, message)
  }

  /** Distinct recognised codes are told apart by their messages. */
  lemma ResetErrorMessagesDistinct(c1: string, c2: string, m1: string, m2: string)
    requires c1 in ResetKnownCodes && c2 in ResetKnownCodes && c1 != c2
    ensures ResetErrorMessage(c1, m1) != ResetErrorMessage(c2, m2)
  {
  }

  /** For an unrecognised code the backend's own text reaches the user: the
      shown message starts with `Error: ` followed by the code, and ends with
      the backend's text, so it differs for different backend texts. */
  lemma UnknownCodeEchoesBackendText(code: string, message: string)
    requires code !in ResetKnownCodes
    ensures var m := ResetErrorMessage(code, message);
            && |m| >= 7 + |code| + |message|
            && m[..7] == "Error: "
            && m[7..7 + |code|] == code
            && m[|m| - |message|..] == message
  {
  }

  /** For a recognised code the backend's text plays no part. */
  lemma KnownCodeIgnoresBackendText(code: string, m1: string, m2: string)
    requires code in ResetKnownCodes
    ensures ResetErrorMessage(code, m1) == ResetErrorMessage(code, m2)
  {
  }

  // ---------------------------------------------------------------------------
  // handleResetPassword and the loading flag
  // ---------------------------------------------------------------------------

  datatype ResetOutcome =
    | MissingEmail
    | MalformedEmail
    | LinkSent
    | ResetFailed(message: string)

  predicate RequestSent(o: ResetOutcome) {
    o.LinkSent? || o.ResetFailed?
  }

  /** One press of the send button: how it ends and the successive values
      written to `isLoading` (`setIsLoading(true)` before the request, the
      `finally` block's `setIsLoading(false)` after it). */
  datatype ResetRun = ResetRun(outcome: ResetOutcome, loadingWrites: seq<bool>)

  /** The flag's value after a sequence of writes, starting from `before`. */
  function LoadingAfter(before: bool, writes: seq<bool>): bool {
    if |writes| == 0 then before else writes[|writes| - 1]
  }

  /** `handleResetPassword`, given what the reset request would reply. */
  function HandleResetPassword(email: string, send: Reply): (r: ResetRun)
    ensures r.outcome == MissingEmail <==> !Truthy(email)
    ensures r.outcome == MalformedEmail <==> Truthy(email) && !EmailShape(email)
    ensures RequestSent(r.outcome) <==> EmailShape(email)
    ensures r.outcome == LinkSent <==> EmailShape(email) && send == Resolved
    ensures r.outcome.ResetFailed? ==>
              r.outcome.message == ResetErrorMessage(send.code, send.message)
    ensures RequestSent(r.outcome) ==> r.loadingWrites == [true, false]
    ensures !RequestSent(r.outcome) ==> r.loadingWrites == []
    ensures !LoadingAfter(false, r.loadingWrites)
  {
    EmailPatternMeaning(email);
    if !Truthy(email) then
      ResetRun(MissingEmail, [])
    else if !EmailPattern(email) then
      ResetRun(MalformedEmail, [])
    else
      match send
      case Resolved => ResetRun(LinkSent, [true, false])
      case Rejected(code, message) => ResetRun(ResetFailed(ResetErrorMessage(code, message)), [true, false])
  }

  /** The empty check comes first: the empty string is also malformed, but
      the user is told to enter an address, not to fix one. */
  lemma EmptyCheckPrecedesFormatCheck(send: Reply)
    ensures !EmailShape("")
    ensures HandleResetPassword("", send).outcome == MissingEmail
  {
  }

  /** The loading flag is up exactly while the request is in flight: it is
      raised only for a request that is actually sent, and the press ends
      with it down whatever the backend replied. */
  lemma LoadingClearedOnEveryPath(email: string, send: Reply)
    ensures var r := HandleResetPassword(email, send);
            && (true in r.loadingWrites <==> RequestSent(r.outcome))
            && !LoadingAfter(false, r.loadingWrites)
  {
  }

  /** The alert for each outcome. After a sent link, the alert's only button
      (`OK`) leads on with `ConfirmLinkSent`. */
  function ResetAlert(o: ResetOutcome): (a: Alert)
    ensures o.LinkSent? <==> a.title != ErrorTitle
    ensures o.ResetFailed? ==> a.body == o.message
  {
    match o
    case MissingEmail => Alert(ErrorTitle, "Por favor ingrese su correo electrónico.")
    case MalformedEmail => Alert(ErrorTitle, "Por favor ingrese un correo electrónico válido.")
    case LinkSent =>
      Alert("Correo enviado", "Se ha enviado un enlace para restablecer tu contraseña a tu correo electrónico.")
    case ResetFailed(message) => Alert(ErrorTitle, message)
  }

  // ---------------------------------------------------------------------------
  // Ways back
  // ---------------------------------------------------------------------------

  /** Pressing `OK` on the link-sent alert. */
  function ConfirmLinkSent(): (c: NavCommand)
    ensures c == Replace(Login)
  {
    Replace(Login)
  }

  /** The hardware back handler: it replaces the screen with `Login` and
      returns `true`, which tells the platform the press was consumed. */
  function OnHardwareBack(): (r: (NavCommand, bool))
    ensures r.0 == Replace(Login) && r.1
  {
    (Replace(Login), true)
  }

  /** The on-screen back button, which is disabled while loading. */
  function OnBackButton(loading: bool): (c: Option<NavCommand>)
    ensures c.Some? <==> !loading
    ensures c.Some? ==> c.value == Replace(Login)
  {
    if loading then None else Some(Replace(Login))
  }

  /** Every way off this screen replaces it with `Login`, never with
      `Welcome` and never by popping the stack; the hardware key does so
      even while a request is in flight. */
  lemma EveryWayBackLeadsToLogin(loading: bool)
    ensures OnHardwareBack().0.Replace? && OnHardwareBack().0.target == Login
    ensures OnHardwareBack().0.target != Welcome
    ensures ConfirmLinkSent().target == Login
    ensures OnBackButton(loading).Some? ==> OnBackButton(loading).value.target == Login
  {
  }
}
