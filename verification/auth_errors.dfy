/** The messages shown for failed sign-in, sign-up and account operations. */
module AuthErrors {
  import opened MatchTypes

  /**
   * A thrown authentication error as far as the mapping looks at it: a
   * value that is not an object carrying a `code` key, or one that does,
   * whose code may be absent (`null` or `undefined`).
   */
  datatype AuthError = NoCode | WithCode(code: Option<string>)

  const DefaultMessage := "Authentication failed. Please try again."

  /** The codes with a message of their own. */
  const KnownCodes: map<string, string> := map[
    "auth/invalid-email" := "Invalid email format.",
    "auth/user-not-found" := "Invalid email or password.",
    "auth/wrong-password" := "Invalid email or password.",
    "auth/invalid-credential" := "Invalid email or password.",
    "auth/email-already-in-use" := "This email is already in use.",
    "auth/weak-password" := "Password must contain at least 6 characters.",
    "auth/too-many-requests" := "Too many attempts. Please wait and retry.",
    "auth/network-request-failed" := "Network error. Check connection and retry.",
    "auth/requires-recent-login" := "Please sign out and sign in again before deleting your account.",
    "auth/user-disabled" := "This account has been disabled."
  ]

  /** Every message the mapping can produce. */
  const Messages: set<string> := {
    DefaultMessage,
    "Invalid email format.",
    "Invalid email or password.",
    "This email is already in use.",
    "Password must contain at least 6 characters.",
    "Too many attempts. Please wait and retry.",
    "Network error. Check connection and retry.",
    "Please sign out and sign in again before deleting your account.",
    "This account has been disabled."
  }

  /** The code the mapping switches on: "" when there is none. */
  function CodeOf(error: AuthError): string
  {
    match error
    case NoCode => ""
    case WithCode(code) => code.GetOr("")
  }

  /** The user-facing message for an authentication error. */
  function MapAuthError(error: AuthError): (message: string)
    ensures message in Messages
    ensures CodeOf(error) in KnownCodes ==> message == KnownCodes[CodeOf(error)]
    ensures CodeOf(error) !in KnownCodes ==> message == DefaultMessage
  {
    var code := CodeOf(error);
    if code == "" then DefaultMessage
    else if code == "auth/invalid-email" then "Invalid email format."
    else if code == "auth/user-not-found" || code == "auth/wrong-password" || code == "auth/invalid-credential" then
      "Invalid email or password."
    else if code == "auth/email-already-in-use" then "This email is already in use."
    else if code == "auth/weak-password" then "Password must contain at least 6 characters."
    else if code == "auth/too-many-requests" then "Too many attempts. Please wait and retry."
    else if code == "auth/network-request-failed" then "Network error. Check connection and retry."
    else if code == "auth/requires-recent-login" then "Please sign out and sign in again before deleting your account."
    else if code == "auth/user-disabled" then "This account has been disabled."
    else DefaultMessage
  }

  /**
   * Every message of the message set is what some error maps to, so with
   * the mapping's own contract the set is exactly the mapping's range.
   */
  lemma EveryMessageIsReachable()
    ensures forall m :: m in Messages ==> exists e :: MapAuthError(e) == m
  {
    forall m | m in Messages
      ensures exists e :: MapAuthError(e) == m
    {
      var codeFor := map[
        "Invalid email format." := "auth/invalid-email",
        "Invalid email or password." := "auth/wrong-password",
        "This email is already in use." := "auth/email-already-in-use",
        "Password must contain at least 6 characters." := "auth/weak-password",
        "Too many attempts. Please wait and retry." := "auth/too-many-requests",
        "Network error. Check connection and retry." := "auth/network-request-failed",
        "Please sign out and sign in again before deleting your account." := "auth/requires-recent-login",
        "This account has been disabled." := "auth/user-disabled"
      ];
      if m == DefaultMessage {
        assert MapAuthError(NoCode) == m;
      } else {
        assert m in codeFor;
        assert MapAuthError(WithCode(Some(codeFor[m]))) == m;
      }
    }
  }

  /** Credential failures of every kind share one message, so the cause is not revealed. */
  lemma CredentialFailuresLookAlike()
    ensures MapAuthError(WithCode(Some("auth/user-not-found")))
            == MapAuthError(WithCode(Some("auth/wrong-password")))
            == MapAuthError(WithCode(Some("auth/invalid-credential")))
            == "Invalid email or password."
  {
  }

  /** An error without a usable code gets the default message. */
  lemma MissingCodeGetsDefault(error: AuthError)
    requires error.NoCode? || error.code.None? || error.code == Some("")
    ensures MapAuthError(error) == DefaultMessage
  {
  }
}
