# Route table and navigation guard of the quant front-end

This project models the client-side router of a single-page web application
(`src/router/index.js`): the static, ordered route table and the global
`beforeEach` navigation guard that keeps unauthenticated visitors off the
protected views and authenticated users off the login page.

- `RouteTable` (`route_table.dfy`): a `Route` record (path, name, view,
  optional `meta` with `requiresAuth`), the application's six records as the
  constant `Table`, lookup by name and by path, and the well-formedness of
  the table (distinct names and paths, `Login` open, `Stocks` protected,
  exactly `Stocks`, `Backtest` and `Backtest2000` protected).
- `NavigationGuard` (`guard.dfy`): the three-way `Decision`
  (`Allow | RedirectTo(name)`) and `Guard(to, authed)`, with the access-control
  guarantees and the absence of redirect loops.
- `Navigation` (`navigation.dfy`): a whole navigation, from a URL path to the
  record the user lands on, following the guard's redirect by name; for the
  application's table, with the session unchanged between the guard's runs,
  every record is reached in at most one redirect.

The session check `isAuthenticated()` of the external authentication service
is a boolean parameter `authed`: one snapshot per run of the guard. Because
`&&` short-circuits, the guard asks the service on line 47 only for a
protected target and on line 49 only for a target named `Login`; it would ask
twice in one run only for a record that is both, and the table has no such
record (`RouteTable.NoProtectedLogin`). So for the application's routes the
guard reads the session at most once per run.

## Model

| member | source | states |
|---|---|---|
| RouteTable.FindByName | src/router/index.js:48-50 | a named redirect target resolves to a record of the table carrying that name, and resolves to nothing exactly when no record has that name |
| RouteTable.MatchPath | src/router/index.js:5-39 | a path resolves to the first record in table order with exactly that path, and to nothing exactly when no record has it |
| RouteTable.FindByNameOwn | src/router/index.js:5-39 | when names are distinct, every record is found by its own name |
| RouteTable.MatchPathOwn | src/router/index.js:5-39 | when paths are distinct, every record is reached by its own path |
| RouteTable.TableWellFormed | src/router/index.js:5-39 | the table's names are pairwise distinct, its paths are pairwise distinct, `Login` exists and is unprotected, `Stocks` exists and is protected, and looking both up by name finds records 1 and 3 |
| RouteTable.NoProtectedLogin | src/router/index.js:5-39 | no record of the table is both protected and named `Login`, so the guard's two session reads (lines 47 and 49) never both happen in one run on a table record |
| RouteTable.TableProtection | src/router/index.js:5-39 | the protected names are exactly `Stocks`, `Backtest` and `Backtest2000`, and a record without `meta` is unprotected |
| NavigationGuard.Guard | src/router/index.js:46-54 | an allowed unauthenticated navigation targets an unprotected record, an allowed authenticated navigation does not target `Login`, and every redirect goes to `Login` or `Stocks` |
| NavigationGuard.GuardOutcomes | src/router/index.js:47-52 | redirect to `Login` exactly when the target is protected and there is no session; redirect to `Stocks` exactly when the target is `Login` and there is a session; allow exactly in every other case |
| NavigationGuard.GuardAllowsOrdinaryNavigation | src/router/index.js:51-52 | an authenticated user passes every route other than `Login`, and an unauthenticated user passes every unprotected route |
| NavigationGuard.GuardDependsOnlyOnFlagAndName | src/router/index.js:46-53 | two targets with the same `requiresAuth` flag and the same name get the same decision; path, view and the originating route do not matter |
| NavigationGuard.NoRedirectLoop | src/router/index.js:47-50 | in any table with an open `Login` record and a `Stocks` record, a redirect's target exists and the guard allows it under the same session state |
| NavigationGuard.TableHasNoRedirectLoop | src/router/index.js:5-54 | for the application's table, the guard never redirects twice in a row |
| Navigation.Settle | src/router/index.js:46-54 | wherever a guarded navigation lands, the guard allows that record: no unauthenticated landing on a protected record, no authenticated landing on `Login`; the landing is the target or a table record |
| Navigation.Navigate | src/router/index.js:5-54 | a navigation by path finds no record exactly when no record has the path; otherwise any landing is a table record obeying the same access control |
| Navigation.EmptyMatchAllowed | src/router/index.js:46-54 | a location with no `meta` and no name, which is what an unmatched path resolves to, is allowed by the guard under either session state |
| Navigation.SettlesWithinOneRedirect | src/router/index.js:46-54 | with sound redirect targets and room for one redirect, a navigation lands on the target when allowed and on the named redirect target otherwise |
| Navigation.FuelIrrelevant | src/router/index.js:46-54 | with sound redirect targets, the landing does not depend on the redirect bound once it allows one redirect |
| Navigation.LandingIsStable | src/router/index.js:46-54 | navigating again to a landing record under the same session state lands on it directly |
| Navigation.TableNavigation | src/router/index.js:5-54 | for each record of the table and each session state: protected and no session lands on `Login`, `Login` with a session lands on `Stocks`, anything else lands on the record itself |
| Navigation.StocksAndLoginJourneys | src/router/index.js:11-54 | `/stocks` without a session ends on `/login`, with a session on `/stocks`; `/login` with a session ends on `/stocks`, without one on `/login` |

## Left out

- The authentication store `src/stores/auth.js` (the Pinia store with `login` and `logout`): the guard never reads it, it calls the service's `isAuthenticated()` directly, and the store's only logic is assignment around calls into the authentication service, which is not part of this model.
- The authentication service `../services/auth` is not part of this model: its `isAuthenticated()` is the boolean parameter `authed`. A run of the guard that read it on both line 47 and line 49 would be taken to see one value; no record of the table makes a run read it twice (`RouteTable.NoProtectedLogin`).
- `createRouter` and `createWebHistory` (lines 41-44): the router library's path parser, ranking and history handling are not modelled. Only the exact spelling of each table path is matched; the library's matcher also accepts case variants and a trailing slash (`/Stocks`, `/stocks/`), which `Navigation.Navigate` reports as `NoMatch`. The guard's access-control results do not depend on how a path was matched.
- Views: the components and their lazy `import()` loading are kept only as the module path and whether the import is eager or lazy.
- The `next(...)` callback and asynchronous navigation: the callback's argument is the returned `Decision`; the original target path is dropped on redirect, as in the code.
- Navigation.Settle: redirect following is bounded by `fuel`, whereas the router follows redirects without such a bound; for tables with sound redirect targets one redirect always suffices, so the bound changes nothing there.
- Navigation.Settle: the guard's run on a redirect target uses the same session state `authed` as the first run, whereas the router treats a redirect as a new navigation and asks the session service again. If the session changes in between (say from logged out to logged in), `/stocks` goes to `Login` and then on to `Stocks`, two redirects; `SettlesWithinOneRedirect` and `NoRedirectLoop` cover only an unchanged session.
- RouteTable.FindByName: returns the first record with the name; the router library keeps a single record per name by its own rule, a difference that does not arise because the table's names are distinct.
