/** The login page: the redirect of a visitor who is already signed in, and
    the store writes and status fields of a submit. */
module LoginPage {
  import opened Wrappers
  import opened Text
  import opened Storage
  import opened Auth
  import opened Api

  const SuccessMessage := "Login successful! Redirecting..."
  const ErrorMessage := "Invalid email or password. Please try again."

  /** The store after a successful login: the tokens, the id as a decimal
      string and the name, then the avatar when it is non-empty. The email is
      never written. */
  function Written(items: map<string, string>, r: AuthResponse): map<string, string>
  {
    var m := items["accessToken" := r.accessToken]["refreshToken" := r.refreshToken]
                  ["userId" := DecimalString(r.user.id)]["name" := r.user.name];
    if r.user.avatar.Some? && r.user.avatar.value != "" then m["avatar" := r.user.avatar.value] else m
  }

  /** The store after a submit: written on success, untouched on failure. */
  function AfterLogin(items: map<string, string>, r: Result<AuthResponse>): map<string, string>
  {
    if r.Ok? then Written(items, r.value) else items
  }

  /** A successful login sets the four session keys, sets the avatar only when
      it is non-empty, and leaves every other key, the email included, as it
      was. */
  lemma WrittenKeys(items: map<string, string>, r: AuthResponse)
    ensures var w := Written(items, r);
      && w["accessToken"] == r.accessToken && w["refreshToken"] == r.refreshToken
      && w["userId"] == DecimalString(r.user.id) && w["name"] == r.user.name
      && (r.user.avatar.Some? && r.user.avatar.value != "" ==> w["avatar"] == r.user.avatar.value)
      && (!(r.user.avatar.Some? && r.user.avatar.value != "") ==> Lookup(w, "avatar") == Lookup(items, "avatar"))
      && Lookup(w, "email") == Lookup(items, "email")
      && forall k :: k !in AuthKeys ==> Lookup(w, k) == Lookup(items, k)
  {
  }

  /** Sign out, then sign in with the demo credentials: the session is
      authenticated and the stored user is the demo user, with the email "". */
  lemma SignInAfterSignOut(items: map<string, string>, now: nat)
    ensures var w := AfterLogin(Cleared(items), Login(DemoEmail, DemoPassword, now));
      && HasToken(w)
      && StoredUser(w) == Some(User("1", "John Developer", "", Some("/developer-avatar.png")))
  {
    MockTokens(now);
    var c := Cleared(items);
    assert "email" !in c && "avatar" !in c;
    assert DecimalString(1) == "1";
  }

  /** A failed login leaves the store as it was. */
  lemma FailedLoginWritesNothing(items: map<string, string>, email: string, password: string, now: nat)
    requires !(email == DemoEmail && password == DemoPassword)
    ensures AfterLogin(items, Login(email, password, now)) == items
  {
  }

  class LoginPage {
    const store: LocalStorage
    var isSubmitting: bool
    var error: string
    var success: string
    /** The route `router.push` was last sent to. */
    var route: Option<string>
    /** Every value written to `isSubmitting`, `error` and `success`, in order. */
    ghost var submittingLog: seq<bool>
    ghost var errorLog: seq<string>
    ghost var successLog: seq<string>

    constructor (store: LocalStorage)
      ensures this.store == store
      ensures !isSubmitting && error == "" && success == "" && route == None
      ensures submittingLog == [] && errorLog == [] && successLog == []
    {
      this.store := store;
      isSubmitting := false;
      error := "";
      success := "";
      route := None;
      submittingLog := [];
      errorLog := [];
      successLog := [];
    }

    /** The mount effect: a visitor with a non-empty stored token is sent to
      the dashboard. */
    method Mount()
      modifies this
      ensures route == (if HasToken(store.items) then Some("/dashboard") else old(route))
      ensures isSubmitting == old(isSubmitting) && error == old(error) && success == old(success)
      ensures submittingLog == old(submittingLog) && errorLog == old(errorLog) && successLog == old(successLog)
    {
      var token := store.GetItem("accessToken");
      if Present(token) {
        route := Some("/dashboard");
      }
    }

    /** `onSubmit`: clear the messages, log in, write the session on success;
      `isSubmitting` is back to false on both outcomes. */
    method OnSubmit(email: string, password: string, now: nat)
      modifies this, store
      ensures store.items == AfterLogin(old(store.items), Login(email, password, now))
      ensures var ok := Login(email, password, now).Ok?;
        && !isSubmitting
        && error == (if ok then "" else ErrorMessage)
        && success == (if ok then SuccessMessage else "")
        && submittingLog == old(submittingLog) + [true, false]
        && errorLog == old(errorLog) + [""] + (if ok then [] else [ErrorMessage])
        && successLog == old(successLog) + [""] + (if ok then [SuccessMessage] else [])
      ensures route == old(route)
    {
      SetSubmitting(true);
      SetError("");
      SetSuccess("");
      var response := Login(email, password, now);
      if response.Ok? {
        var r := response.value;
        store.SetItem("accessToken", r.accessToken);
        store.SetItem("refreshToken", r.refreshToken);
        store.SetItem("userId", DecimalString(r.user.id));
        store.SetItem("name", r.user.name);
        if r.user.avatar.Some? && r.user.avatar.value != "" {
          store.SetItem("avatar", r.user.avatar.value);
        }
        SetSuccess(SuccessMessage);
      } else {
        SetError(ErrorMessage);
      }
      SetSubmitting(false);
    }

    method SetSubmitting(b: bool)
      modifies this
      ensures isSubmitting == b && submittingLog == old(submittingLog) + [b]
      ensures error == old(error) && success == old(success) && route == old(route)
      ensures errorLog == old(errorLog) && successLog == old(successLog)
    {
      isSubmitting := b;
      submittingLog := submittingLog + [b];
    }

    method SetError(s: string)
      modifies this
      ensures error == s && errorLog == old(errorLog) + [s]
      ensures isSubmitting == old(isSubmitting) && success == old(success) && route == old(route)
      ensures submittingLog == old(submittingLog) && successLog == old(successLog)
    {
      error := s;
      errorLog := errorLog + [s];
    }

    method SetSuccess(s: string)
      modifies this
      ensures success == s && successLog == old(successLog) + [s]
      ensures isSubmitting == old(isSubmitting) && error == old(error) && route == old(route)
      ensures submittingLog == old(submittingLog) && errorLog == old(errorLog)
    {
      success := s;
      successLog := successLog + [s];
    }
  }
}
