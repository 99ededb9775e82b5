/**
 The application's route table: an ordered list of route records, each with a
 URL path, a unique name, a view and an optional `meta` object whose
 `requiresAuth` flag marks the route as protected. A record without `meta`
 counts as unprotected.

 The router looks a record up by path (first match in table order) when a
 navigation starts, and by name when a guard redirects with `{ name: ... }`.
 Paths in this table are static strings, so an exact-match lookup stands in
 for the router library's path matcher.
 */
module RouteTable {

  datatype Option<T> = None | Some(value: T)

  /** The component a record renders, kept only as the module it comes from:
      either imported eagerly at start-up or through a lazy `import()`. */
  datatype View = Eager(source: string) | Lazy(source: string)

  /** The `meta` object of a record; the only key the application reads. */
  datatype Meta = Meta(requiresAuth: bool)

  datatype Route = Route(path: string, name: string, view: View, meta: Option<Meta>)

  /** `to.meta.requiresAuth` read as a boolean: a missing `meta` reads as false. */
  predicate RequiresAuth(r: Route) {
    r.meta.Some? && r.meta.value.requiresAuth
  }

  /** The two route names the navigation guard redirects to. */
  const LoginName: string := "Login"
  const StocksName: string := "Stocks"

  /** The application's route table, in declaration order. */
  const Table: seq<Route> := [
    Route("/", "Home", Lazy("../views/Home.vue"), None),
    Route("/login", LoginName, Eager("../components/Login.vue"), None),
    Route("/register", "Register", Lazy("../components/Register.vue"), None),
    Route("/stocks", StocksName, Lazy("../views/Stocks.vue"), Some(Meta(true))),
    Route("/backtest", "Backtest", Lazy("../views/Backtest.vue"), Some(Meta(true))),
    Route("/backtest2000", "Backtest2000", Lazy("../views/Backtest2000.vue"), Some(Meta(true)))
  ]

  /** The names of `t`, position by position. */
  function Names(t: seq<Route>): (ns: seq<string>)
    ensures |ns| == |t|
    ensures forall i :: 0 <= i < |t| ==> ns[i] == t[i].name
  {
    seq(|t|, i requires 0 <= i < |t| => t[i].name)
  }

  /** The paths of `t`, position by position. */
  function Paths(t: seq<Route>): (ps: seq<string>)
    ensures |ps| == |t|
    ensures forall i :: 0 <= i < |t| ==> ps[i] == t[i].path
  {
    seq(|t|, i requires 0 <= i < |t| => t[i].path)
  }

  /** No two positions of `s` hold the same element. */
  ghost predicate Distinct<T>(s: seq<T>) {
    forall i, j :: 0 <= i < j < |s| ==> s[i] != s[j]
  }

  /** The position of the first occurrence of `x` in `s`, if any. */
  function IndexOf<T(==)>(s: seq<T>, x: T): (r: Option<nat>)
    ensures r.Some? ==> r.value < |s| && s[r.value] == x && x !in s[..r.value]
    ensures r.None? <==> x !in s
  {
    if |s| == 0 then None
    else if s[0] == x then Some(0)
    else
      match IndexOf(s[1..], x)
      case None => None
      case Some(i) =>
        assert s[..i + 1] == [s[0]] + s[1..][..i];
        Some(i + 1)
  }

  /** In a sequence without duplicates, the first occurrence of an element is
      the only one, so looking it up finds exactly its own position. */
  lemma IndexOfDistinct<T>(s: seq<T>, i: nat)
    requires Distinct(s) && i < |s|
    ensures IndexOf(s, s[i]) == Some(i)
  {
    assert s[i] in s;
  }

  /** The record the router resolves a named location `{ name }` to. */
  function FindByName(t: seq<Route>, name: string): (r: Option<Route>)
    ensures r.Some? ==> r.value in t && r.value.name == name
    ensures r.None? <==> forall i :: 0 <= i < |t| ==> t[i].name != name
  {
    match IndexOf(Names(t), name)
    case None => None
    case Some(i) => Some(t[i])
  }

  /** The record a URL path resolves to: the first one, in table order, whose
      path is exactly `path`. */
  function MatchPath(t: seq<Route>, path: string): (r: Option<Route>)
    ensures r.Some? ==> r.value in t && r.value.path == path
    ensures r.Some? ==> exists i :: 0 <= i < |t| && t[i] == r.value
                                    && forall j :: 0 <= j < i ==> t[j].path != path
    ensures r.None? <==> forall i :: 0 <= i < |t| ==> t[i].path != path
  {
    match IndexOf(Paths(t), path)
    case None => None
    case Some(i) =>
      assert forall j :: 0 <= j < i ==> Paths(t)[..i][j] == t[j].path;
      Some(t[i])
  }

  /** With distinct names, looking a record up by its own name finds it. */
  lemma FindByNameOwn(t: seq<Route>, i: nat)
    requires Distinct(Names(t)) && i < |t|
    ensures FindByName(t, t[i].name) == Some(t[i])
  {
  }

  /** With distinct paths, every record is reachable by its own path. */
  lemma MatchPathOwn(t: seq<Route>, i: nat)
    requires Distinct(Paths(t)) && i < |t|
    ensures MatchPath(t, t[i].path) == Some(t[i])
  {
  }

  /** The names of the protected records of `t`. */
  function ProtectedNames(t: seq<Route>): set<string> {
    set i | 0 <= i < |t| && RequiresAuth(t[i]) :: t[i].name
  }

  /** What the guard relies on in a table: the login record exists and is
      open to everyone, and the default authenticated record exists. */
  predicate RedirectTargetsSound(t: seq<Route>) {
    && FindByName(t, LoginName).Some?
    && !RequiresAuth(FindByName(t, LoginName).value)
    && FindByName(t, StocksName).Some?
  }

  /** A table the router can use without ambiguity, whose redirect targets
      behave as the guard expects. */
  ghost predicate WellFormed(t: seq<Route>) {
    && Distinct(Names(t))
    && Distinct(Paths(t))
    && RedirectTargetsSound(t)
    && RequiresAuth(FindByName(t, StocksName).value)
  }

  lemma NamesOfTable()
    ensures Names(Table) == ["Home", "Login", "Register", "Stocks", "Backtest", "Backtest2000"]
  {
  }

  lemma PathsOfTable()
    ensures Paths(Table) == ["/", "/login", "/register", "/stocks", "/backtest", "/backtest2000"]
  {
  }

  /** The application's table: names and paths are pairwise distinct, `Login`
      is unprotected, `Stocks` is protected, and both are found by name. */
  lemma TableWellFormed()
    ensures WellFormed(Table)
    ensures FindByName(Table, LoginName) == Some(Table[1])
    ensures FindByName(Table, StocksName) == Some(Table[3])
  {
    NamesOfTable();
    PathsOfTable();
    FindByNameOwn(Table, 1);
    FindByNameOwn(Table, 3);
  }

  /** Exactly the records `Stocks`, `Backtest` and `Backtest2000` are
      protected. The second clause, that a record without `meta` is
      unprotected, holds of every record by the definition of `RequiresAuth`;
      it is stated here for the records of this table. */
  lemma TableProtection()
    ensures ProtectedNames(Table) == {"Stocks", "Backtest", "Backtest2000"}
    ensures forall i :: 0 <= i < |Table| && Table[i].meta.None? ==> !RequiresAuth(Table[i])
  {
    var ns := ProtectedNames(Table);
    assert "Stocks" in ns by { assert RequiresAuth(Table[3]); }
    assert "Backtest" in ns by { assert RequiresAuth(Table[4]); }
    assert "Backtest2000" in ns by { assert RequiresAuth(Table[5]); }
    forall n | n in ns
      ensures n in {"Stocks", "Backtest", "Backtest2000"}
    {
      var i :| 0 <= i < |Table| && RequiresAuth(Table[i]) && Table[i].name == n;
      assert 3 <= i;
    }
  }

  /** No record of the table is both protected and named `Login`. The guard
      asks the session service once on its first test, only for a protected
      target, and once on its second, only for a target named `Login`; so for
      every record of this table it asks at most once per run, and modelling
      the session as one boolean per run loses nothing. */
  lemma NoProtectedLogin()
    ensures forall i :: 0 <= i < |Table| ==> !(RequiresAuth(Table[i]) && Table[i].name == LoginName)
  {
  }
}
