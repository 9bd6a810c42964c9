/** The route table of `src/App.tsx` and its `ProtectedRoute` guard. The
    session (`isLoading`, `isAuthenticated`, `currentUser`) comes from the
    authentication context, which is not part of this model; here it is a
    parameter. */
module AppRoutes {
  import opened Options

  /** What the authentication context reports. */
  datatype Session = Session(isLoading: bool, isAuthenticated: bool, role: Option<string>)

  /** What the guard shows. */
  datatype Guarded = Spinner | RedirectTo(target: string) | Children

  /** `ProtectedRoute`; `requireAdmin` is `false` when the prop is absent. */
  function ProtectedRoute(session: Session, requireAdmin: bool): (r: Guarded)
    ensures r == Spinner <==> session.isLoading
    ensures r == RedirectTo("/login") <==> !session.isLoading && !session.isAuthenticated
    ensures r == RedirectTo("/dashboard") <==>
      (!session.isLoading && session.isAuthenticated && requireAdmin && session.role != Some("admin"))
    ensures r == Children <==>
      (!session.isLoading && session.isAuthenticated && (!requireAdmin || session.role == Some("admin")))
  {
    if session.isLoading then Spinner
    else if !session.isAuthenticated then RedirectTo("/login")
    else if requireAdmin && session.role != Some("admin") then RedirectTo("/dashboard")
    else Children
  }

  /** The pages the routes lead to. */
  datatype Page = LoginPage | AdminDashboardPage | AdminRenewalsPage | UserDashboardPage

  /** A route's element: a page, behind the guard or not, or a redirect. */
  datatype Element = Open(page: Page) | Protected(page: Page, requireAdmin: bool) | Navigate(to: string)

  const Routes: seq<(string, Element)> := [
    ("/login", Open(LoginPage)),
    ("/admin", Protected(AdminDashboardPage, true)),
    ("/admin/dashboard", Protected(AdminDashboardPage, true)),
    ("/admin/renewals", Protected(AdminRenewalsPage, true)),
    ("/dashboard", Protected(UserDashboardPage, false)),
    ("/", Navigate("/login"))]

  /** The element of the first route whose path is `pathname`. */
  function RouteFor(routes: seq<(string, Element)>, pathname: string): (r: Option<Element>)
    ensures r.None? <==> forall i :: 0 <= i < |routes| ==> routes[i].0 != pathname
    ensures r.Some? ==> exists i :: 0 <= i < |routes| && routes[i] == (pathname, r.value)
  {
    if |routes| == 0 then None
    else if routes[0].0 == pathname then Some(routes[0].1)
    else
      var r := RouteFor(routes[1..], pathname);
      assert forall i :: 0 <= i < |routes| - 1 ==> routes[1..][i] == routes[i + 1];
      r
  }

  /** The first route with the path is the one taken. */
  lemma {:induction false} RouteForFirst(routes: seq<(string, Element)>, pathname: string, i: nat)
    requires i < |routes| && routes[i].0 == pathname
    requires forall j :: 0 <= j < i ==> routes[j].0 != pathname
    ensures RouteFor(routes, pathname) == Some(routes[i].1)
  {
    if i > 0 {
      assert routes[0].0 != pathname;
      assert forall j :: 0 <= j < i - 1 ==> routes[1..][j] == routes[j + 1];
      RouteForFirst(routes[1..], pathname, i - 1);
    }
  }

  /** What a visit to a path shows. */
  datatype Screen = NoRoute | Loading | Redirected(target: string) | Shows(page: Page)

  function Visit(session: Session, pathname: string): (r: Screen)
    ensures RouteFor(Routes, pathname).None? ==> r == NoRoute
  {
    match RouteFor(Routes, pathname)
    case None => NoRoute
    case Some(Open(p)) => Shows(p)
    case Some(Navigate(to)) => Redirected(to)
    case Some(Protected(p, admin)) =>
      match ProtectedRoute(session, admin)
      case Spinner => Loading
      case RedirectTo(t) => Redirected(t)
      case Children => Shows(p)
  }

  /** The admin pages render only for a signed-in admin once loading ends,
      whichever of their paths is visited. */
  lemma AdminPagesNeedAdmin(session: Session, pathname: string)
    requires Visit(session, pathname) == Shows(AdminDashboardPage) || Visit(session, pathname) == Shows(AdminRenewalsPage)
    ensures !session.isLoading && session.isAuthenticated && session.role == Some("admin")
    ensures pathname in {"/admin", "/admin/dashboard", "/admin/renewals"}
  {
    var e := RouteFor(Routes, pathname).value;
    var i :| 0 <= i < |Routes| && Routes[i] == (pathname, e);
    assert e.Protected? && e.requireAdmin;
  }

  /** The user dashboard renders for any signed-in user, admins included. */
  lemma UserDashboardForAnyUser(session: Session)
    requires !session.isLoading && session.isAuthenticated
    ensures Visit(session, "/dashboard") == Shows(UserDashboardPage)
  {
    RouteForFirst(Routes, "/dashboard", 4);
  }

  /** A signed-in user who is not an admin is sent from an admin page to
      the user dashboard, and that page renders for them: no redirect loop. */
  lemma NonAdminRedirectSettles(session: Session)
    requires !session.isLoading && session.isAuthenticated && session.role != Some("admin")
    ensures Visit(session, "/admin/renewals") == Redirected("/dashboard")
    ensures Visit(session, "/dashboard") == Shows(UserDashboardPage)
  {
    UserDashboardForAnyUser(session);
  }

  /** The root goes to the login page, signed in or not. */
  lemma RootGoesToLogin(session: Session)
    ensures Visit(session, "/") == Redirected("/login")
  {
    RouteForFirst(Routes, "/", 5);
  }

  /** A signed-out visitor to any guarded page is sent to the login page,
      which renders. */
  lemma SignedOutGoesToLogin(session: Session, pathname: string)
    requires !session.isLoading && !session.isAuthenticated
    requires RouteFor(Routes, pathname).Some? && !RouteFor(Routes, pathname).value.Open?
    ensures Visit(session, pathname) == Redirected("/login")
    ensures Visit(session, "/login") == Shows(LoginPage)
  {
  }
}
