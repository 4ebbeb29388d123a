/** The navigation bar: avatar initials, the two link lists, the active-link
    test and signing out. */
module Navbar {
  import opened Wrappers
  import opened Text
  import opened Storage
  import opened Auth

  /** `n[0]` of each piece, where the `undefined` of an empty piece joins as "". */
  function FirstChars(pieces: seq<string>): (r: string)
    ensures |r| <= |pieces|
  {
    if pieces == [] then ""
    else (if pieces[0] == "" then "" else [pieces[0][0]]) + FirstChars(pieces[1..])
  }

  /** `name.split(" ").map((n) => n[0]).join("")`. */
  function Initials(name: string): (r: string)
    ensures ' ' !in r
  {
    FirstCharsNoSep(Split(name, ' '), ' ');
    FirstChars(Split(name, ' '))
  }

  lemma {:induction false} FirstCharsNoSep(pieces: seq<string>, c: char)
    requires forall k :: 0 <= k < |pieces| ==> c !in pieces[k]
    ensures c !in FirstChars(pieces)
  {
    if pieces != [] {
      FirstCharsNoSep(pieces[1..], c);
    }
  }

  lemma {:induction false} FirstCharsConcat(a: seq<string>, b: seq<string>)
    ensures FirstChars(a + b) == FirstChars(a) + FirstChars(b)
  {
    if a == [] {
      assert a + b == b;
    } else {
      assert (a + b)[1..] == a[1..] + b;
      FirstCharsConcat(a[1..], b);
    }
  }

  /** The initials of a name with more words are the initials of its parts:
      repeated, leading or trailing spaces contribute nothing. */
  lemma InitialsAround(a: string, b: string)
    ensures Initials(a + " " + b) == Initials(a) + Initials(b)
  {
    assert a + " " + b == a + [' '] + b;
    SplitAround(a, b, ' ');
    FirstCharsConcat(Split(a, ' '), Split(b, ' '));
  }

  /** A single word, without spaces, contributes its first letter. */
  lemma InitialsWord(w: string)
    requires w != [] && ' ' !in w
    ensures Initials(w) == [w[0]]
  {
    SplitNoSep(w, ' ');
  }

  datatype NavItem = NavItem(name: string, href: string)

  /** The fixed main navigation. */
  const Navigation := [NavItem("Home", "/"), NavItem("Blog", "/blog"), NavItem("About", "/about"),
                       NavItem("Contact", "/contact")]

  /** The account links: the dashboard entries for a signed-in user, the
      login link otherwise. */
  function AuthNavigation(user: Option<User>): (r: seq<NavItem>)
    ensures user.Some? ==> r == [NavItem("Add Post", "/dashboard/add-post"), NavItem("My Posts", "/dashboard/posts"),
                                 NavItem("Messages", "/dashboard/inbox")]
    ensures user.None? ==> r == [NavItem("Login", "/auth/login")]
  {
    if user.Some? then
      [NavItem("Add Post", "/dashboard/add-post"), NavItem("My Posts", "/dashboard/posts"),
       NavItem("Messages", "/dashboard/inbox")]
    else [NavItem("Login", "/auth/login")]
  }

  /** A link is highlighted exactly when the path equals its `href`. */
  predicate IsActive(pathname: string, item: NavItem)
  {
    pathname == item.href
  }

  /** At most one main entry is active, and one is active exactly when the
      path is one of the four routes. */
  lemma OneActive(pathname: string)
    ensures forall i, j :: 0 <= i < j < |Navigation| && IsActive(pathname, Navigation[i]) ==> !IsActive(pathname, Navigation[j])
    ensures (exists i :: 0 <= i < |Navigation| && IsActive(pathname, Navigation[i])) <==>
            pathname in ["/", "/blog", "/about", "/contact"]
  {
    assert Navigation[0].href == "/" && Navigation[1].href == "/blog";
    assert Navigation[2].href == "/about" && Navigation[3].href == "/contact";
  }

  class NavbarState {
    var user: Option<User>
    /** The route `router.push` was last sent to. */
    var route: Option<string>

    constructor ()
      ensures user == None && route == None
    {
      user := None;
      route := None;
    }

    /** The mount effect: read the stored user. */
    method Mount(store: LocalStorage?)
      modifies this
      ensures user == GetStoredUser(store) && route == old(route)
    {
      user := GetStoredUser(store);
    }

    /** `handleLogout`: clear the session keys, forget the user, go home. */
    method HandleLogout(store: LocalStorage?)
      modifies this, store
      ensures store != null ==> store.items == Cleared(old(store.items))
      ensures user == None && route == Some("/")
      ensures AuthNavigation(user) == [NavItem("Login", "/auth/login")]
      ensures GetStoredUser(store) == None && !IsAuthenticated(store)
    {
      ClearAuthData(store);
      if store != null {
        ClearedSignedOut(old(store.items));
      }
      user := None;
      route := Some("/");
    }
  }
}
