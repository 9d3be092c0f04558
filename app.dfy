/** The client's route table: `/login` is public, `/dashboard` sits behind
    `PrivateRoute`, and `/` sends the visitor to `/login`. */
module App {

  import opened Options
  import opened AuthService

  /** The locations the table names, and any other one. */
  datatype Location = LoginPath | DashboardPath | RootPath | Unmatched

  datatype Page = LoginPage | DashboardPage

  /** What a location renders. `Throws` is a render that fails because
      reading the session throws; `Blank` is a location no route matches. */
  datatype Element = Render(page: Page) | Redirect(to: Location) | Throws | Blank

  /** `PrivateRoute({children})`: the children when a user is signed in,
      otherwise a redirect to `/login`. */
  function PrivateRoute(child: Page, storage: map<string, string>): (e: Element)
    ensures e == Render(child) <==> IsAuthenticated(storage) == Some(true)
    ensures e == Redirect(LoginPath) <==> IsAuthenticated(storage) == Some(false)
    ensures e == Throws <==> IsAuthenticated(storage).None?
  {
    match IsAuthenticated(storage)
    case Some(signedIn) => if signedIn then Render(child) else Redirect(LoginPath)
    case None => Throws
  }

  /** The element the route table gives a location. `/login` and `/` do
      not look at the session, every redirect goes to `/login`, and the
      dashboard renders only through `PrivateRoute`. */
  function Route(at: Location, storage: map<string, string>): (e: Element)
    ensures at == LoginPath ==> e == Render(LoginPage)
    ensures at == RootPath ==> e == Redirect(LoginPath)
    ensures e.Redirect? ==> e.to == LoginPath
    ensures e == Render(DashboardPage) ==> at == DashboardPath && IsAuthenticated(storage) == Some(true)
    ensures e == Blank <==> at == Unmatched
  {
    match at
    case LoginPath => Render(LoginPage)
    case DashboardPath => PrivateRoute(DashboardPage, storage)
    case RootPath => Redirect(LoginPath)
    case Unmatched => Blank
  }

  /** The dashboard renders exactly when a user is signed in, and an anonymous
      visit is sent to `/login`; `/login` and `/` do not depend on the session. */
  lemma DashboardIsGated(storage: map<string, string>)
    ensures Route(DashboardPath, storage) == Render(DashboardPage) <==> IsAuthenticated(storage) == Some(true)
    ensures Route(DashboardPath, storage) == Redirect(LoginPath) <==> IsAuthenticated(storage) == Some(false)
    ensures Route(LoginPath, storage) == Render(LoginPage) && Route(RootPath, storage) == Redirect(LoginPath)
    ensures forall other :: Route(LoginPath, storage) == Route(LoginPath, other)
    ensures forall other :: Route(RootPath, storage) == Route(RootPath, other)
  {
  }

  /** Every redirect lands on a location that renders a page in the same
      session, so the table never redirects twice in a row. */
  lemma RedirectsSettle(at: Location, storage: map<string, string>)
    ensures Route(at, storage).Redirect? ==>
              Route(at, storage).to == LoginPath && Route(Route(at, storage).to, storage) == Render(LoginPage)
  {
  }

  /** Only the login page can be reached without a session: whatever the
      location, an anonymous visitor never sees the dashboard. */
  lemma AnonymousNeverSeesDashboard(at: Location, storage: map<string, string>)
    requires IsAuthenticated(storage) != Some(true)
    ensures Route(at, storage) != Render(DashboardPage)
    ensures Route(at, storage).Redirect? ==> Route(Route(at, storage).to, storage) == Render(LoginPage)
  {
  }
}
