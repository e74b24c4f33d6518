/** The inventory app's authentication context (mock credentials, the stored user,
    guarded navigation) and the layout that depends on it. */
module InventoryAuth {
  import opened Wrappers
  import opened Text
  import opened Storage
  import MockData

  /** A bundled account, password included. */
  datatype MockUser = MockUser(id: string, email: string, password: string, role: string, name: string)

  const MockUsers: seq<MockUser> := [
    MockUser("1", "admin@jendie.com", "admin123", "admin", "Admin User"),
    MockUser("2", "dealer@jendie.com", "dealer123", "dealer", "Dealer User")
  ]

  const UserKey: string := "mockUser"
  const InvalidCredentials: string := "Invalid credentials"

  /** The user record without its password, as stored and as held in state. */
  function PublicUser(u: MockUser): Json {
    JObj([("id", JStr(u.id)), ("email", JStr(u.email)), ("role", JStr(u.role)), ("name", JStr(u.name))])
  }

  /** The stripped record keeps every field but the password. */
  lemma PublicUserHasNoPassword(u: MockUser)
    ensures FieldOf(PublicUser(u), "password") == None
    ensures FieldOf(PublicUser(u), "email") == Some(JStr(u.email))
    ensures FieldOf(PublicUser(u), "name") == Some(JStr(u.name))
    ensures FieldOf(PublicUser(u), "role") == Some(JStr(u.role))
    ensures FieldOf(PublicUser(u), "id") == Some(JStr(u.id))
  {
    var f := PublicUser(u).fields;
    assert FirstIndex(f[2..], "role") == 0;
    assert FirstIndex(f[1..], "role") == 1;
    assert FirstIndex(f[3..], "name") == 0;
    assert FirstIndex(f[2..], "name") == 1;
    assert FirstIndex(f[1..], "name") == 2;
  }

  /** The context's state: the current user (`None` is `null`), the loading flag, the
      router's current path, and browser storage. */
  datatype AuthState = AuthState(user: Option<Json>, isLoading: bool, path: string, store: Store)

  /** `safeNavigate`: the resulting path, and whether `navigate` was called. */
  function SafeNavigate(current: string, target: string): (r: (string, bool))
    ensures r.0 == target
    ensures r.1 <==> current != target
  {
    if current != target then (target, true) else (current, false)
  }

  predicate Matches(u: MockUser, email: string, password: string) {
    u.email == email && u.password == password
  }

  /** `login`: the first bundled account matching both fields is stored without its
      password, becomes the current user, and the page moves to /dashboard. Without a
      match the call throws and the state is left as it was. */
  function Login(state: AuthState, email: string, password: string): (r: (AuthState, Option<string>))
    ensures r.1.None? <==> exists i :: 0 <= i < |MockUsers| && Matches(MockUsers[i], email, password)
    ensures r.1.Some? ==> r.1.value == InvalidCredentials && r.0 == state
    ensures r.1.None? ==>
              exists i :: 0 <= i < |MockUsers| && Matches(MockUsers[i], email, password) &&
                r.0 == AuthState(Some(PublicUser(MockUsers[i])), state.isLoading, "/dashboard",
                                 state.store[UserKey := Encoded(PublicUser(MockUsers[i]))])
  {
    if Matches(MockUsers[0], email, password) then
      var u := PublicUser(MockUsers[0]);
      (AuthState(Some(u), state.isLoading, SafeNavigate(state.path, "/dashboard").0,
                 state.store[UserKey := Encoded(u)]), None)
    else if Matches(MockUsers[1], email, password) then
      var u := PublicUser(MockUsers[1]);
      (AuthState(Some(u), state.isLoading, SafeNavigate(state.path, "/dashboard").0,
                 state.store[UserKey := Encoded(u)]), None)
    else (state, Some(InvalidCredentials))
  }

  /** Only the two bundled pairs log in. */
  lemma LoginAcceptsExactlyTheBundledPairs(state: AuthState, email: string, password: string)
    ensures Login(state, email, password).1.None? <==>
              (email == "admin@jendie.com" && password == "admin123") ||
              (email == "dealer@jendie.com" && password == "dealer123")
  {
  }

  /** `logout`: the stored user is removed, the current user cleared, and the page
      moves to /login; every other key stays. */
  function Logout(state: AuthState): (r: AuthState)
    ensures UserKey !in r.store && r.user.None? && r.path == "/login"
    ensures AgreeOutside(r.store, state.store, {UserKey})
    ensures r.isLoading == state.isLoading
  {
    AuthState(None, state.isLoading, SafeNavigate(state.path, "/login").0, state.store - {UserKey})
  }

  const RestoreUnreadable: string := "stored user is not readable"

  /** The mount effect: seed the demo collections, then restore the stored user when the
      key holds one (a stored `null` restores no user); loading ends either way. */
  function Mount(store: Store, path: string): (r: Result<AuthState, string>)
    ensures r.Success? ==> !r.value.isLoading && r.value.path == path
    ensures r.Success? ==> r.value.store == MockData.InitializeMockData(store)
    ensures !Has(store, UserKey) ==> r.Success? && r.value.user.None?
    ensures Has(store, UserKey) && store[UserKey].Encoded? ==>
              r.Success? && (r.value.user.Some? <==> store[UserKey].value != JNull)
    ensures Has(store, UserKey) && store[UserKey].Encoded? && store[UserKey].value != JNull ==>
              r.value.user == Some(store[UserKey].value)
  {
    var seeded := MockData.InitializeMockData(store);
    assert Has(seeded, UserKey) <==> Has(store, UserKey);
    if !Has(seeded, UserKey) then Success(AuthState(None, false, path, seeded))
    else
      var parsed := Parse(seeded[UserKey]);
      if parsed.None? then Failure(RestoreUnreadable)
      else if parsed.value == JNull then Success(AuthState(None, false, path, seeded))
      else Success(AuthState(Some(parsed.value), false, path, seeded))
  }

  /** Reloading after a successful login restores the same user. */
  lemma MountAfterLoginRestoresUser(state: AuthState, email: string, password: string)
    requires Login(state, email, password).1.None?
    ensures var after := Login(state, email, password).0;
            Mount(after.store, after.path).Success? &&
            Mount(after.store, after.path).value.user == after.user
  {
    var after := Login(state, email, password).0;
    assert Has(after.store, UserKey);
  }

  /** Reloading after logout restores nobody. */
  lemma MountAfterLogoutRestoresNobody(state: AuthState)
    ensures var after := Logout(state);
            Mount(after.store, after.path).Success? && Mount(after.store, after.path).value.user.None?
  {
  }

  // ---- The layout ----

  const NavPaths: seq<string> := ["/dashboard", "/inventory", "/dealers", "/sales"]

  /** What the layout renders: a redirect to /login, or the shell with the avatar
      letter, display name, role and each nav item's active flag. */
  datatype LayoutView =
    | RedirectToLogin
    | Shell(avatar: string, displayName: string, role: string, active: seq<bool>)

  /** `firstLetter`: the upper-cased first character of the name, else of the email,
      else "?". */
  function FirstLetter(user: Json): (r: string)
    ensures |r| == 1
    ensures TextField(user, "name") != "" ==> r == [UpperChar(TextField(user, "name")[0])]
    ensures TextField(user, "name") == "" && TextField(user, "email") != "" ==>
              r == [UpperChar(TextField(user, "email")[0])]
    ensures TextField(user, "name") == "" && TextField(user, "email") == "" ==> r == "?"
  {
    var name := TextField(user, "name");
    var email := TextField(user, "email");
    if name != "" then FirstUpper(name)
    else if email != "" then FirstUpper(email)
    else "?"
  }

  function Layout(user: Option<Json>, pathname: string): (r: LayoutView)
    ensures user.None? || !Truthy(user.value) <==> r == RedirectToLogin
    ensures r.Shell? ==> |r.active| == |NavPaths|
    ensures r.Shell? ==> forall i :: 0 <= i < |NavPaths| ==> (r.active[i] <==> StartsWith(pathname, NavPaths[i]))
    ensures r.Shell? ==> r.avatar == FirstLetter(user.value)
    ensures r.Shell? ==> r.displayName == (if TextField(user.value, "name") != "" then TextField(user.value, "name") else "User")
    ensures r.Shell? ==> (TextField(user.value, "role") == "" ==> r.role == "staff")
    ensures r.Shell? ==> (TextField(user.value, "role") != "" ==> r.role == TextField(user.value, "role"))
  {
    if user.None? || !Truthy(user.value) then RedirectToLogin
    else
      var u := user.value;
      var name := TextField(u, "name");
      var role := TextField(u, "role");
      Shell(FirstLetter(u),
            if name != "" then name else "User",
            if role != "" then role else "staff",
            seq(|NavPaths|, i requires 0 <= i < |NavPaths| => StartsWith(pathname, NavPaths[i])))
  }

  /** On /inventory/new only the Inventory item is highlighted; on /dashboard only
      Dashboard. */
  lemma ActiveItemExamples(u: Json)
    requires Truthy(u)
    ensures Layout(Some(u), "/inventory/new").active == [false, true, false, false]
    ensures Layout(Some(u), "/dashboard").active == [true, false, false, false]
  {
    assert "/inventory/new"[1] != "/dashboard"[1] && "/inventory/new"[1] != "/dealers"[1];
    assert "/inventory/new"[1] != "/sales"[1] && "/dashboard"[1] != "/inventory"[1];
    assert "/dashboard"[2] != "/dealers"[2] && "/dashboard"[1] != "/sales"[1];
    assert StartsWith("/inventory/new", "/inventory");
  }

  /** Two prefixes of the same path agree wherever both are defined. */
  lemma PrefixesAgree(path: string, a: string, b: string, k: nat)
    requires k < |a| && k < |b|
    ensures StartsWith(path, a) && StartsWith(path, b) ==> a[k] == b[k]
  {
    if StartsWith(path, a) && StartsWith(path, b) {
      assert a[k] == path[k];
    }
  }

  /** No nav path is a prefix of another: any two differ at a position both have. */
  lemma NavPathsDiverge(i: nat, j: nat) returns (k: nat)
    requires i < j < |NavPaths|
    ensures k < |NavPaths[i]| && k < |NavPaths[j]| && NavPaths[i][k] != NavPaths[j][k]
  {
    k := if i == 0 && j == 2 then 2 else 1;
  }

  /** Whatever the path, at most one nav item is highlighted. */
  lemma AtMostOneActiveItem(u: Json, pathname: string)
    requires Truthy(u)
    ensures var active := Layout(Some(u), pathname).active;
            forall i, j :: 0 <= i < j < |active| ==> !(active[i] && active[j])
  {
    forall i, j | 0 <= i < j < |NavPaths|
      ensures !(StartsWith(pathname, NavPaths[i]) && StartsWith(pathname, NavPaths[j]))
    {
      var k := NavPathsDiverge(i, j);
      PrefixesAgree(pathname, NavPaths[i], NavPaths[j], k);
    }
  }
}
