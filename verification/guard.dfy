/**
 The router's global `beforeEach` navigation guard. For each navigation it
 sees the target record and one snapshot of "is a user session present", and
 decides: send an unauthenticated visitor of a protected route to `Login`,
 send an authenticated visitor of `Login` to `Stocks`, otherwise let the
 navigation through. The originating route is never consulted.

 The `next(...)` callback's argument is the returned `Decision`: `next()` is
 `Allow`, `next({ name })` is `RedirectTo(name)`.
 */
module NavigationGuard {
  import opened RouteTable

  datatype Decision = Allow | RedirectTo(name: string)

  /** The guard's decision for a navigation to `to` with the session state
      `authed`. Whatever it decides, it never lets an unauthenticated user
      onto a protected route and never leaves an authenticated user on
      `Login`, and it only ever redirects to one of its two fixed targets. */
  function Guard(to: Route, authed: bool): (d: Decision)
    ensures d == Allow && !authed ==> !RequiresAuth(to)
    ensures d == Allow && authed ==> to.name != LoginName
    ensures d.RedirectTo? ==> d.name == LoginName || d.name == StocksName
  {
    if RequiresAuth(to) && !authed then RedirectTo(LoginName)
    else if to.name == LoginName && authed then RedirectTo(StocksName)
    else Allow
  }

  /** The three outcomes, each characterised in both directions. */
  lemma GuardOutcomes(to: Route, authed: bool)
    ensures Guard(to, authed) == RedirectTo(LoginName) <==> RequiresAuth(to) && !authed
    ensures Guard(to, authed) == RedirectTo(StocksName) <==> to.name == LoginName && authed
    ensures Guard(to, authed) == Allow <==>
              (!RequiresAuth(to) || authed) && (to.name != LoginName || !authed)
  {
  }

  /** An authenticated user passes every route except `Login`; an
      unauthenticated user passes every unprotected route. */
  lemma GuardAllowsOrdinaryNavigation(to: Route, authed: bool)
    ensures authed && to.name != LoginName ==> Guard(to, authed) == Allow
    ensures !authed && !RequiresAuth(to) ==> Guard(to, authed) == Allow
  {
  }

  /** The decision is a function of the target's `requiresAuth` flag, the
      target's name and the session state alone: path, view, and the route
      the navigation comes from play no part. */
  lemma GuardDependsOnlyOnFlagAndName(a: Route, b: Route, authed: bool)
    requires RequiresAuth(a) == RequiresAuth(b) && a.name == b.name
    ensures Guard(a, authed) == Guard(b, authed)
  {
  }

  /** No redirect loop: in a table whose login record is open and whose
      default record exists, the record a redirect names exists, and the
      guard lets the redirected navigation through with the same session
      state. So at most one redirect happens per navigation. */
  lemma NoRedirectLoop(t: seq<Route>, to: Route, authed: bool)
    requires RedirectTargetsSound(t)
    ensures Guard(to, authed).RedirectTo? ==>
              && FindByName(t, Guard(to, authed).name).Some?
              && Guard(FindByName(t, Guard(to, authed).name).value, authed) == Allow
  {
  }

  /** The same, for the application's own table: the guard never redirects
      twice in a row. */
  lemma TableHasNoRedirectLoop(to: Route, authed: bool)
    ensures Guard(to, authed).RedirectTo? ==>
              && FindByName(Table, Guard(to, authed).name).Some?
              && Guard(FindByName(Table, Guard(to, authed).name).value, authed) == Allow
  {
    TableWellFormed();
    NoRedirectLoop(Table, to, authed);
  }
}
