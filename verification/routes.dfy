/** The route table `AppRoutes`: what a path renders, given whether an
    access token is stored. */
module Routes {
  import opened Session

  const LoginPath := "/login"
  const HomePath := "/home"
  const RootPath := "/"

  /** The pages the table can render. */
  datatype Element = LoginPage | HomePage

  /** A path either renders a page or redirects (with `replace`) to another path. */
  datatype Route = Render(element: Element) | Redirect(to: string)

  /** The public route `/login`, the protected route `/home`, the default
      redirect at `/` and the catch-all redirect, in the order they are
      declared. */
  function Resolve(path: string, store: Store): (r: Route)
    ensures r == Render(LoginPage) <==> path == LoginPath
    ensures r == Render(HomePage) <==> path == HomePath && IsAuthenticated(store)
    ensures r == Redirect(HomePath) <==> path == RootPath && IsAuthenticated(store)
    ensures r.Redirect? ==> r.to == LoginPath || r.to == HomePath
  {
    var isAuthenticated := IsAuthenticated(store);
    if path == LoginPath then Render(LoginPage)
    else if path == HomePath then (if isAuthenticated then Render(HomePage) else Redirect(LoginPath))
    else if path == RootPath then Redirect(if isAuthenticated then HomePath else LoginPath)
    else Redirect(LoginPath)
  }

  /** Without a stored access token, no path reaches a protected page. */
  lemma UnauthenticatedNeverReachesHome(path: string, store: Store)
    requires !IsAuthenticated(store)
    ensures Resolve(path, store) != Render(HomePage)
  {
  }

  /** Every redirect lands on a path that renders a page: one hop settles. */
  lemma RedirectSettlesInOneHop(path: string, store: Store)
    ensures var r := Resolve(path, store);
            r.Redirect? ==> Resolve(r.to, store).Render?
  {
  }

  /** Every path ends on the home page when signed in and on the login
      page otherwise, except `/login` itself, which is never redirected. */
  lemma LandingPage(path: string, store: Store)
    requires path != LoginPath
    ensures var r := Resolve(path, store);
            var landed := if r.Redirect? then Resolve(r.to, store) else r;
            landed == (if IsAuthenticated(store) && (path == HomePath || path == RootPath) then Render(HomePage) else Render(LoginPage))
  {
  }
}
