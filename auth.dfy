/** The session helpers: the stored user, signing out, the authenticated
    check and the demo credential check. */
module Auth {
  import opened Wrappers
  import opened Text
  import opened Storage

  datatype User = User(id: string, name: string, email: string, avatar: Option<string>)

  /** The user described by the store, or `None` when `userId` or `name` is
      absent or empty. */
  function StoredUser(items: map<string, string>): (r: Option<User>)
    ensures r.None? <==> !Present(Lookup(items, "userId")) || !Present(Lookup(items, "name"))
    ensures r.Some? ==> r.value.id == items["userId"] && r.value.name == items["name"]
    ensures r.Some? ==> r.value.email == (if Present(Lookup(items, "email")) then items["email"] else "")
    ensures r.Some? ==> r.value.avatar == (if Present(Lookup(items, "avatar")) then Some(items["avatar"]) else None)
  {
    var userId := Lookup(items, "userId");
    var name := Lookup(items, "name");
    var email := Lookup(items, "email");
    var avatar := Lookup(items, "avatar");
    if !Present(userId) || !Present(name) then None
    else Some(User(userId.value, name.value, if Present(email) then email.value else "",
                   if Present(avatar) then avatar else None))
  }

  /** `getStoredUser()`: `None` without a window. */
  function GetStoredUser(store: LocalStorage?): (r: Option<User>)
    reads store
    ensures store == null ==> r.None?
    ensures store != null ==> r == StoredUser(store.items)
  {
    if store == null then None else StoredUser(store.items)
  }

  /** The six keys that signing out removes. */
  const AuthKeys: set<string> := {"accessToken", "refreshToken", "userId", "name", "email", "avatar"}

  /** The store after signing out. */
  function Cleared(items: map<string, string>): map<string, string>
  {
    items - AuthKeys
  }

  /** Signing out removes exactly the six session keys and leaves every other
      entry as it was. */
  lemma ClearedKeys(items: map<string, string>)
    ensures forall k :: k in AuthKeys ==> k !in Cleared(items)
    ensures forall k :: k !in AuthKeys ==> Lookup(Cleared(items), k) == Lookup(items, k)
  {
  }

  /** Signing out twice is signing out once. */
  lemma ClearIdempotent(items: map<string, string>)
    ensures Cleared(Cleared(items)) == Cleared(items)
  {
  }

  /** After signing out nobody is authenticated and there is no stored user. */
  lemma ClearedSignedOut(items: map<string, string>)
    ensures !HasToken(Cleared(items))
    ensures StoredUser(Cleared(items)) == None
  {
    assert "accessToken" in AuthKeys && "userId" in AuthKeys;
  }

  /** The six removals, one key at a time, remove exactly the session keys. */
  lemma SixRemovals(m: map<string, string>)
    ensures m - {"accessToken"} - {"refreshToken"} - {"userId"} - {"name"} - {"email"} - {"avatar"} == Cleared(m)
  {
    var r := m - {"accessToken"} - {"refreshToken"} - {"userId"} - {"name"} - {"email"} - {"avatar"};
    assert r.Keys == m.Keys - AuthKeys;
  }

  /** `clearAuthData()`: six `removeItem` calls; nothing without a window. */
  method ClearAuthData(store: LocalStorage?)
    modifies store
    ensures store != null ==> store.items == Cleared(old(store.items))
  {
    if store == null {
      return;
    }
    ghost var m := store.items;
    store.RemoveItem("accessToken");
    store.RemoveItem("refreshToken");
    store.RemoveItem("userId");
    store.RemoveItem("name");
    store.RemoveItem("email");
    store.RemoveItem("avatar");
    assert store.items == m - {"accessToken"} - {"refreshToken"} - {"userId"} - {"name"} - {"email"} - {"avatar"};
    SixRemovals(m);
  }

  /** A non-empty access token is stored. */
  predicate HasToken(items: map<string, string>)
  {
    Present(Lookup(items, "accessToken"))
  }

  /** `isAuthenticated()`: false without a window. */
  function IsAuthenticated(store: LocalStorage?): (r: bool)
    reads store
    ensures r <==> store != null && "accessToken" in store.items && store.items["accessToken"] != ""
  {
    store != null && HasToken(store.items)
  }

  // ---------------------------------------------------------------------------
  // Demo login

  datatype AuthUser = AuthUser(id: nat, name: string, email: string, avatar: Option<string>)

  datatype AuthResponse = AuthResponse(accessToken: string, refreshToken: string, user: AuthUser)

  const DemoEmail := "admin@example.com"
  const DemoPassword := "password123"
  const DemoUser := AuthUser(1, "John Developer", "admin@example.com", Some("/developer-avatar.png"))

  /** `mockLogin(email, password)` once its delay has passed; `now` is
      `Date.now()`. */
  function MockLogin(email: string, password: string, now: nat): (r: Result<AuthResponse>)
    ensures r.Ok? <==> email == DemoEmail && password == DemoPassword
    ensures r.Failure? ==> r.message == "Invalid credentials"
    ensures r.Ok? ==> r.value.user == DemoUser
  {
    if email == DemoEmail && password == DemoPassword then
      Ok(AuthResponse("mock-access-token-" + DecimalString(now), "mock-refresh-token-" + DecimalString(now), DemoUser))
    else
      Failure("Invalid credentials")
  }

  /** The demo tokens are non-empty, distinct, and carry the clock reading
      after their prefixes. */
  lemma MockTokens(now: nat)
    ensures var r := MockLogin(DemoEmail, DemoPassword, now).value;
      && r.accessToken != "" && r.refreshToken != ""
      && r.accessToken != r.refreshToken
      && r.accessToken == "mock-access-token-" + DecimalString(now)
      && r.refreshToken == "mock-refresh-token-" + DecimalString(now)
  {
    var r := MockLogin(DemoEmail, DemoPassword, now).value;
    assert r.accessToken[5] == 'a' && r.refreshToken[5] == 'r';
  }
}
