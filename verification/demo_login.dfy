/** The demo app's login page: an empty-field guard, sign-up that accepts any
    credentials, and sign-in that accepts only the demo pair. */
module DemoLogin {
  import opened Wrappers
  import opened Storage
  import opened TransportData

  const DemoEmail: string := "demo@schooltrack.com"
  const DemoPassword: string := "demo1234"
  const MissingFieldsMessage: string := "Please fill in all fields"
  const SignedUpMessage: string := "Account created successfully!"
  const WelcomeMessage: string := "Welcome to the SchoolTrack Demo!"
  const WrongCredentialsMessage: string := "Invalid credentials. Use: demo@schooltrack.com / demo1234"
  const HomeRoute: string := "/dashboard"

  /** After submitting: the storage, the route navigated to (if any) and the toast. */
  datatype DemoOutcome = DemoOutcome(store: Store, route: Option<string>, toast: Toast)

  predicate Authenticates(email: string, password: string, isSignUp: bool) {
    email != "" && password != "" && (isSignUp || (email == DemoEmail && password == DemoPassword))
  }

  /** `handleSubmit` */
  function Submit(store: Store, email: string, password: string, isSignUp: bool): (r: DemoOutcome)
    ensures email == "" || password == "" ==> r == DemoOutcome(store, None, ErrorToast(MissingFieldsMessage))
    ensures r.route.Some? <==> Authenticates(email, password, isSignUp)
    ensures r.route.Some? ==> r.route.value == HomeRoute && r.store == store[AuthenticatedKey := Text("true")]
    ensures r.route.None? ==> r.store == store && r.toast.ErrorToast?
    ensures email != "" && password != "" && !isSignUp && r.route.None? ==> r.toast == ErrorToast(WrongCredentialsMessage)
  {
    if email == "" || password == "" then DemoOutcome(store, None, ErrorToast(MissingFieldsMessage))
    else if isSignUp then DemoOutcome(store[AuthenticatedKey := Text("true")], Some(HomeRoute), SuccessToast(SignedUpMessage))
    else if email == DemoEmail && password == DemoPassword then
      DemoOutcome(store[AuthenticatedKey := Text("true")], Some(HomeRoute), SuccessToast(WelcomeMessage))
    else DemoOutcome(store, None, ErrorToast(WrongCredentialsMessage))
  }

  /** Signing in works for the demo pair only; signing up works for any filled-in pair. */
  lemma SignInAcceptsOnlyTheDemoPair(store: Store, email: string, password: string)
    ensures Submit(store, email, password, false).route.Some? <==> email == DemoEmail && password == DemoPassword
    ensures Submit(store, email, password, true).route.Some? <==> email != "" && password != ""
  {
  }

  /** A failed attempt leaves the flag as it was, whatever it was. */
  lemma FailedAttemptKeepsFlag(store: Store, email: string, password: string, isSignUp: bool)
    requires !Authenticates(email, password, isSignUp)
    ensures var s := Submit(store, email, password, isSignUp).store;
            (AuthenticatedKey in s <==> AuthenticatedKey in store) &&
            (AuthenticatedKey in store ==> s[AuthenticatedKey] == store[AuthenticatedKey])
  {
  }
}
