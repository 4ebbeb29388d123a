/** The dashboard gate: a three-valued authentication state, set once by the
    mount effect from the stored token, and the view each state selects. */
module ProtectedRoute {
  import opened Wrappers
  import opened Storage
  import opened Auth
  import opened Api

  /** What the gate renders. */
  datatype View = Spinner | Fallback | AccessDenied | Children

  /** The render selection: the spinner while undecided, the children when
      authenticated, otherwise the caller's fallback when it is truthy and the
      "Access Denied" block when it is not. */
  function Select(state: Option<bool>, hasFallback: bool): (v: View)
    ensures v == Spinner <==> state.None?
    ensures v == Children <==> state == Some(true)
    ensures v == Fallback <==> state == Some(false) && hasFallback
    ensures v == AccessDenied <==> state == Some(false) && !hasFallback
  {
    match state
    case None => Spinner
    case Some(true) => Children
    case Some(false) => if hasFallback then Fallback else AccessDenied
  }

  class Gate {
    const hasFallback: bool
    var isAuthenticated: Option<bool>
    /** The route `router.push` was last sent to. */
    var route: Option<string>
    /** Every state the gate has been in, in order. */
    ghost var states: seq<Option<bool>>

    /** The first render: undecided, so the spinner. */
    constructor (hasFallback: bool)
      ensures this.hasFallback == hasFallback
      ensures isAuthenticated == None && route == None && states == [None]
      ensures View() == Spinner
    {
      this.hasFallback := hasFallback;
      isAuthenticated := None;
      route := None;
      states := [None];
    }

    function View(): View
      reads this
    {
      Select(isAuthenticated, hasFallback)
    }

    /** The mount effect: no token or an empty one denies and redirects to the
      login page; otherwise the gate opens with no redirect. */
    method Effect(store: LocalStorage?)
      modifies this
      ensures isAuthenticated == Some(Present(GetAuthToken(store)))
      ensures route == (if Present(GetAuthToken(store)) then old(route) else Some("/auth/login"))
      ensures states == old(states) + [isAuthenticated]
      ensures View() == Children <==> IsAuthenticated(store)
    {
      var token := GetAuthToken(store);
      if !Present(token) {
        isAuthenticated := Some(false);
        states := states + [isAuthenticated];
        route := Some("/auth/login");
        return;
      }
      isAuthenticated := Some(true);
      states := states + [isAuthenticated];
    }
  }

  /** One mount: the state goes from undecided to decided exactly once, and
      the children are shown exactly when a non-empty token is stored. */
  method Mount(store: LocalStorage?, hasFallback: bool) returns (g: Gate)
    ensures fresh(g)
    ensures g.states == [None, Some(IsAuthenticated(store))]
    ensures g.View() == (if IsAuthenticated(store) then Children else if hasFallback then Fallback else AccessDenied)
    ensures g.route == (if IsAuthenticated(store) then None else Some("/auth/login"))
  {
    g := new Gate(hasFallback);
    g.Effect(store);
  }
}
