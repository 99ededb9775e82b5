/**
 A whole navigation attempt: resolve the requested path against the route
 table, run the guard on the record found, and when the guard redirects by
 name, resolve that name and run the guard again on the new target, as the
 router does for a redirect issued from `beforeEach`.

 `fuel` bounds how many redirects are followed; the lemmas below show that
 for a sound table one redirect is always enough, so the bound never bites.
 */
module Navigation {
  import opened RouteTable
  import opened NavigationGuard

  datatype Outcome =
    | Landed(route: Route)        // the navigation completes on `route`
    | NoMatch(path: string)       // no record has this path
    | UnknownTarget(name: string) // a redirect named a record the table lacks
    | RedirectLimit               // more redirects than `fuel` allows

  /** Run the guard on `to`, following redirects by name. Wherever it lands,
      the guard lets that record through: an unauthenticated user never lands
      on a protected record, an authenticated user never lands on `Login`,
      and the landing record is the requested one or a record of the table. */
  function Settle(t: seq<Route>, to: Route, authed: bool, fuel: nat): (o: Outcome)
    ensures o.Landed? ==> Guard(o.route, authed) == Allow
    ensures o.Landed? && !authed ==> !RequiresAuth(o.route)
    ensures o.Landed? && authed ==> o.route.name != LoginName
    ensures o.Landed? ==> o.route == to || o.route in t
    ensures o.UnknownTarget? ==> o.name == LoginName || o.name == StocksName
    ensures !o.NoMatch?
    decreases fuel
  {
    match Guard(to, authed)
    case Allow => Landed(to)
    case RedirectTo(n) =>
      if fuel == 0 then RedirectLimit
      else
        match FindByName(t, n)
        case None => UnknownTarget(n)
        case Some(r) => Settle(t, r, authed, fuel - 1)
  }

  /** A navigation to a URL path. A path with no record gives an empty match,
      which has neither `meta` nor a name, so the guard lets it through
      (`EmptyMatchAllowed`). */
  function Navigate(t: seq<Route>, path: string, authed: bool, fuel: nat): (o: Outcome)
    ensures o.NoMatch? <==> forall i :: 0 <= i < |t| ==> t[i].path != path
    ensures o.NoMatch? ==> o.path == path
    ensures o.Landed? ==> o.route in t
    ensures o.Landed? && !authed ==> !RequiresAuth(o.route)
    ensures o.Landed? && authed ==> o.route.name != LoginName
  {
    match MatchPath(t, path)
    case None => NoMatch(path)
    case Some(r) => Settle(t, r, authed, fuel)
  }

  /** For a table whose redirect targets are sound, one redirect of fuel is
      enough: the navigation lands on the requested record when the guard
      allows it, and otherwise on the record the guard names. */
  lemma SettlesWithinOneRedirect(t: seq<Route>, to: Route, authed: bool, fuel: nat)
    requires RedirectTargetsSound(t) && fuel >= 1
    ensures Settle(t, to, authed, fuel) ==
              match Guard(to, authed)
              case Allow => Landed(to)
              case RedirectTo(n) => Landed(FindByName(t, n).value)
  {
  }

  /** Where a navigation lands does not depend on the redirect bound, as long
      as it allows one redirect. */
  lemma FuelIrrelevant(t: seq<Route>, to: Route, authed: bool, f1: nat, f2: nat)
    requires RedirectTargetsSound(t) && f1 >= 1 && f2 >= 1
    ensures Settle(t, to, authed, f1) == Settle(t, to, authed, f2)
  {
  }

  /** Navigating again to where a navigation landed, with the same session
      state, lands on the same record without any redirect. */
  lemma LandingIsStable(t: seq<Route>, to: Route, authed: bool, fuel: nat, fuel': nat)
    requires Settle(t, to, authed, fuel).Landed?
    ensures Settle(t, Settle(t, to, authed, fuel).route, authed, fuel')
            == Settle(t, to, authed, fuel)
  {
  }

  /** Every record of the application's table, reached by its own path with
      either session state: protected records send an unauthenticated user
      to `Login`, `Login` sends an authenticated user to `Stocks`, and every
      other navigation lands where it was aimed. */
  lemma TableNavigation(i: nat, authed: bool)
    requires i < |Table|
    ensures Navigate(Table, Table[i].path, authed, 1) ==
              if RequiresAuth(Table[i]) && !authed then Landed(Table[1])
              else if Table[i].name == LoginName && authed then Landed(Table[3])
              else Landed(Table[i])
  {
    TableWellFormed();
    MatchPathOwn(Table, i);
    SettlesWithinOneRedirect(Table, Table[i], authed, 1);
  }

  /** The concrete journeys: an unauthenticated visit to `/stocks` ends on
      `/login`; after a successful login the same visit ends on `/stocks`; an
      authenticated visit to `/login` ends on `/stocks`; an unauthenticated
      visit to `/login` stays there. */
  lemma StocksAndLoginJourneys()
    ensures Navigate(Table, "/stocks", false, 1) == Landed(Table[1])
    ensures Table[1].path == "/login"
    ensures Navigate(Table, "/stocks", true, 1) == Landed(Table[3])
    ensures Navigate(Table, "/login", true, 1) == Landed(Table[3])
    ensures Table[3].path == "/stocks"
    ensures Navigate(Table, "/login", false, 1) == Landed(Table[1])
  {
    TableNavigation(3, false);
    TableNavigation(3, true);
    TableNavigation(1, true);
    TableNavigation(1, false);
  }

  /** The location the router builds for a path no record matches has no
      `meta` and no name (modelled as the empty name); whatever its path and
      view, the guard allows it under either session state. */
  lemma EmptyMatchAllowed(path: string, v: View, authed: bool)
    ensures Guard(Route(path, "", v, None), authed) == Allow
  {
  }
}
