/** The transport app's login page: validation of the server's reply, what is
    written to storage, the route chosen by role, and the forgot-password guard. */
module TransportLogin {
  import opened Wrappers
  import opened Text
  import opened Storage
  import opened TransportData

  const TokenKey: string := "token"
  const UserKey: string := "user"
  const InvalidResponseMessage: string := "Invalid login response from server."
  const LoginFailedMessage: string := "Login failed. Check your credentials."
  const MissingEmailMessage: string := "Please enter your email."
  const ResetSentMessage: string := "Password reset link sent to your email."
  const ResetFailedMessage: string := "Failed to send reset link."

  /** The login request's outcome: the reply body, or a failure carrying the server's
      `message` if it sent one. */
  datatype LoginReply = Reply(data: Json) | RequestFailed(message: Option<string>)

  /** After submitting: the storage, the route navigated to (if any) and the toast. */
  datatype LoginOutcome = LoginOutcome(store: Store, route: Option<string>, toast: Toast)

  /** `data && data.user && data.token` */
  predicate ValidReply(data: Json) {
    Truthy(data) && FieldOf(data, "user").Some? && Truthy(FieldOf(data, "user").value) &&
    FieldOf(data, "token").Some? && Truthy(FieldOf(data, "token").value)
  }

  /** The role switch. */
  function RouteFor(role: string): (r: string)
    ensures role == "PARENT" <==> r == "/parent-portal"
    ensures role == "DRIVER" <==> r == "/driver-portal"
    ensures role == "ASSISTANT" <==> r == "/assistant-portal"
    ensures role !in {"PARENT", "DRIVER", "ASSISTANT"} <==> r == "/dashboard"
  {
    if role == "PARENT" then "/parent-portal"
    else if role == "DRIVER" then "/driver-portal"
    else if role == "ASSISTANT" then "/assistant-portal"
    else "/dashboard"
  }

  /** `setItem("token", token)`: a string token is stored as its text; any other value
      is stored as its encoding. */
  function TokenEntry(token: Json): (r: Entry)
    ensures token.JStr? ==> r == Text(token.s)
    ensures Has(map[TokenKey := r], TokenKey) <==> token != JStr("")
  {
    if token.JStr? then Text(token.s) else Encoded(token)
  }

  /** `handleSubmit` once the request has settled. */
  function Submit(store: Store, reply: LoginReply): (r: LoginOutcome)
    ensures reply.RequestFailed? ==>
              r == LoginOutcome(store, None, ErrorToast(MessageOr(reply.message, LoginFailedMessage)))
    ensures reply.Reply? && !ValidReply(reply.data) ==>
              r == LoginOutcome(store, None, ErrorToast(InvalidResponseMessage))
    ensures r.route.Some? <==> reply.Reply? && ValidReply(reply.data)
    ensures r.route.Some? ==>
              var user := FieldOf(reply.data, "user").value;
              r.route.value == RouteFor(TextField(user, "role")) &&
              r.toast == SuccessToast("Welcome back, " + MessageOr(Some(TextField(user, "name")), "User") + "!")
    ensures r.route.Some? ==> AgreeOutside(r.store, store, {AuthenticatedKey, TokenKey, UserKey})
  {
    match reply
    case RequestFailed(message) => LoginOutcome(store, None, ErrorToast(MessageOr(message, LoginFailedMessage)))
    case Reply(data) =>
      if !ValidReply(data) then LoginOutcome(store, None, ErrorToast(InvalidResponseMessage))
      else
        var user := FieldOf(data, "user").value;
        var token := FieldOf(data, "token").value;
        var written := store[AuthenticatedKey := Text("true")][TokenKey := TokenEntry(token)][UserKey := Encoded(user)];
        LoginOutcome(written, Some(RouteFor(TextField(user, "role"))),
                     SuccessToast("Welcome back, " + MessageOr(Some(TextField(user, "name")), "User") + "!"))
  }

  /** After a successful login the flag reads "true", the stored token is the one
      received, and the stored user reads back as the user received. */
  lemma SuccessfulLoginReadsBack(store: Store, data: Json)
    requires ValidReply(data)
    ensures var s := Submit(store, Reply(data)).store;
            AuthenticatedKey in s && s[AuthenticatedKey] == Text("true") &&
            Has(s, TokenKey) && s[TokenKey] == TokenEntry(FieldOf(data, "token").value) &&
            UserKey in s && Parse(s[UserKey]) == FieldOf(data, "user")
  {
    var token := FieldOf(data, "token").value;
    assert Truthy(token);
  }

  /** A reply is only accepted with all three parts: whatever its token, a reply whose
      user is missing or falsy (`null`, "", 0, false) changes nothing. */
  lemma ReplyWithoutUserChangesNothing(store: Store, data: Json)
    requires FieldOf(data, "user").None? || !Truthy(FieldOf(data, "user").value)
    ensures Submit(store, Reply(data)) == LoginOutcome(store, None, ErrorToast(InvalidResponseMessage))
  {
  }

  /** The outcome of the forgot-password form. */
  datatype ForgotOutcome = ForgotOutcome(requested: bool, toast: Toast, closeDialog: bool)

  /** The reset request's outcome. */
  datatype ResetReply = ResetSent | ResetFailed(message: Option<string>)

  /** `handleForgotPassword`: an empty email sends nothing; otherwise the request is
      sent and the dialog closes only when it succeeds. */
  function ForgotPassword(email: string, reply: ResetReply): (r: ForgotOutcome)
    ensures r.requested <==> email != ""
    ensures email == "" ==> r.toast == ErrorToast(MissingEmailMessage) && !r.closeDialog
    ensures r.closeDialog <==> email != "" && reply.ResetSent?
    ensures email != "" && reply.ResetFailed? ==> r.toast == ErrorToast(MessageOr(reply.message, ResetFailedMessage))
  {
    if email == "" then ForgotOutcome(false, ErrorToast(MissingEmailMessage), false)
    else match reply
      case ResetSent => ForgotOutcome(true, SuccessToast(ResetSentMessage), true)
      case ResetFailed(message) => ForgotOutcome(true, ErrorToast(MessageOr(message, ResetFailedMessage)), false)
  }
}
