/** The route table of `src/App.jsx` and its two guards: a private page renders only for a
    signed-in user, a public one only for a signed-out user, and every other case is a
    redirect. A path the table does not list renders nothing. */
module Routes {
  import opened Js
  import Layout

  datatype Page = LoginPage | RegisterPage | DashboardPage | ReservasPage | MisReservasPage
                | ReservasRecurrentesPage | AdminCanchasPage | AdminUsuariosPage | AdminReservasPage

  /** The element a route renders. */
  datatype Element = PublicRoute(page: Page) | PrivateRoute(page: Page) | Navigate(to: string)

  datatype Route = Route(path: string, element: Element)

  /** What the router shows at a location. */
  datatype Screen = Render(page: Page) | Redirect(to: string) | Blank

  const AppRoutes: seq<Route> := [
    Route("/login", PublicRoute(LoginPage)),
    Route("/register", PublicRoute(RegisterPage)),
    Route("/dashboard", PrivateRoute(DashboardPage)),
    Route("/reservas", PrivateRoute(ReservasPage)),
    Route("/mis-reservas", PrivateRoute(MisReservasPage)),
    Route("/", Navigate("/dashboard"))
  ]

  /** `s` without its trailing slashes. */
  function TrimSlashes(s: string): string
    decreases |s|
  {
    if s != [] && s[|s| - 1] == '/' then TrimSlashes(s[..|s| - 1]) else s
  }

  /** A path as `<Routes>` compares it: trailing slashes do not count, and since no route of
      the table sets `caseSensitive`, neither does the case of ASCII letters. */
  function Canonical(path: string): string {
    ToLower(TrimSlashes(path))
  }

  /** Trimming leaves a prefix that does not end in a slash, and only slashes are cut. */
  lemma {:induction false} TrimSlashesFacts(s: string)
    ensures var r := TrimSlashes(s);
      |r| <= |s| && r == s[..|r|] && (r == [] || r[|r| - 1] != '/')
      && forall i :: |r| <= i < |s| ==> s[i] == '/'
    decreases |s|
  {
    if s != [] && s[|s| - 1] == '/' {
      TrimSlashesFacts(s[..|s| - 1]);
    }
  }

  /** A canonical path has no upper-case ASCII letter and no trailing slash. */
  lemma CanonicalShape(path: string)
    ensures var c := Canonical(path);
      |c| <= |path| && (c == [] || c[|c| - 1] != '/') && forall i :: 0 <= i < |c| ==> !('A' <= c[i] <= 'Z')
  {
    TrimSlashesFacts(path);
  }

  /** Comparing canonical paths again changes nothing. */
  lemma CanonicalIdempotent(path: string)
    ensures Canonical(Canonical(path)) == Canonical(path)
  {
    CanonicalShape(path);
    CanonicalFixed(Canonical(path));
  }

  /** A path with no upper-case ASCII letter and no trailing slash is its own canonical form. */
  lemma CanonicalFixed(s: string)
    requires s == [] || s[|s| - 1] != '/'
    requires forall i :: 0 <= i < |s| ==> !('A' <= s[i] <= 'Z')
    ensures Canonical(s) == s
  {
    assert TrimSlashes(s) == s;
    assert ToLower(s) == s;
  }

  /** Whether a route's path matches a location. */
  predicate SamePath(routePath: string, path: string) {
    Canonical(routePath) == Canonical(path)
  }

  /** Some route of the table matches `path`. */
  predicate Listed(table: seq<Route>, path: string) {
    exists i :: 0 <= i < |table| && SamePath(table[i].path, path)
  }

  /** `<PrivateRoute>`: the child for a signed-in user, otherwise a redirect to `/login`. */
  function Private(signedIn: bool, page: Page): (s: Screen)
    ensures s == Render(page) <==> signedIn
    ensures s != Render(page) ==> s == Redirect("/login")
  {
    if signedIn then Render(page) else Redirect("/login")
  }

  /** `<PublicRoute>`: the child for a signed-out user, otherwise a redirect to `/dashboard`. */
  function Public(signedIn: bool, page: Page): (s: Screen)
    ensures s == Render(page) <==> !signedIn
    ensures s != Render(page) ==> s == Redirect("/dashboard")
  {
    if !signedIn then Render(page) else Redirect("/dashboard")
  }

  /** The first route from position `i` on that matches `path`. */
  function LookupFrom(table: seq<Route>, path: string, i: nat): Option<Element>
    requires i <= |table|
    decreases |table| - i
  {
    if i == |table| then None
    else if SamePath(table[i].path, path) then Some(table[i].element)
    else LookupFrom(table, path, i + 1)
  }

  function Lookup(table: seq<Route>, path: string): Option<Element> {
    LookupFrom(table, path, 0)
  }

  /** The match finds a route exactly when one matches, and then it is the first such one. */
  lemma {:induction false} LookupFromFacts(table: seq<Route>, path: string, i: nat)
    requires i <= |table|
    ensures LookupFrom(table, path, i).None? <==> forall j :: i <= j < |table| ==> !SamePath(table[j].path, path)
    ensures LookupFrom(table, path, i).Some? ==>
      exists j :: i <= j < |table| && SamePath(table[j].path, path) && table[j].element == LookupFrom(table, path, i).value
               && forall l :: i <= l < j ==> !SamePath(table[l].path, path)
    decreases |table| - i
  {
    if i < |table| && !SamePath(table[i].path, path) {
      LookupFromFacts(table, path, i + 1);
    }
  }

  /** A location and its canonical form reach the same route. */
  lemma {:induction false} LookupCanonical(table: seq<Route>, path: string, i: nat)
    requires i <= |table|
    ensures LookupFrom(table, Canonical(path), i) == LookupFrom(table, path, i)
    decreases |table| - i
  {
    CanonicalIdempotent(path);
    if i < |table| {
      LookupCanonical(table, path, i + 1);
    }
  }

  /** The screen at `path` for a signed-in or signed-out user. */
  function Resolve(table: seq<Route>, path: string, signedIn: bool): Screen {
    match Lookup(table, path)
    case None => Blank
    case Some(PublicRoute(p)) => Public(signedIn, p)
    case Some(PrivateRoute(p)) => Private(signedIn, p)
    case Some(Navigate(to)) => Redirect(to)
  }

  /** The screen after following at most `steps` redirects. */
  function Follow(table: seq<Route>, path: string, signedIn: bool, steps: nat): Screen
    decreases steps
  {
    match Resolve(table, path, signedIn)
    case Redirect(to) => if steps == 0 then Redirect(to) else Follow(table, to, signedIn, steps - 1)
    case s => s
  }

  /** A location and its canonical form show the same screen. */
  lemma ResolveCanonical(table: seq<Route>, path: string, signedIn: bool)
    ensures Resolve(table, Canonical(path), signedIn) == Resolve(table, path, signedIn)
  {
    LookupCanonical(table, path, 0);
  }

  /** A location no route matches shows nothing. */
  lemma UnlistedBlank(table: seq<Route>, path: string, signedIn: bool)
    requires !Listed(table, path)
    ensures Resolve(table, path, signedIn) == Blank
  {
    LookupFromFacts(table, path, 0);
  }

  /** In a table where `/login` and `/dashboard` are guarded as in the application, a location
      that renders or redirects to one of them reaches a page within two redirects. */
  lemma SettlesWithin(table: seq<Route>, path: string, signedIn: bool)
    requires Resolve(table, "/login", signedIn) == Public(signedIn, LoginPage)
    requires Resolve(table, "/dashboard", signedIn) == Private(signedIn, DashboardPage)
    requires var r := Resolve(table, path, signedIn); r.Render? || r == Redirect("/login") || r == Redirect("/dashboard")
    ensures Follow(table, path, signedIn, 2).Render?
  {
  }

  /** The canonical forms of the table's paths, in table order. */
  const AppCanonical: seq<string> := ["/login", "/register", "/dashboard", "/reservas", "/mis-reservas", ""]

  lemma AppCanonicalForms()
    ensures |AppRoutes| == |AppCanonical|
    ensures forall i :: 0 <= i < |AppRoutes| ==> Canonical(AppRoutes[i].path) == AppCanonical[i]
  {
    CanonicalFixed("/login");
    CanonicalFixed("/register");
    CanonicalFixed("/dashboard");
    CanonicalFixed("/reservas");
    CanonicalFixed("/mis-reservas");
    assert TrimSlashes("/") == [];
  }

  /** The table lists six routes that no location matches twice, and a location matches one
      of them exactly when its canonical form is one of `/login`, `/register`, `/dashboard`,
      `/reservas`, `/mis-reservas` and the empty path of `/`. */
  lemma AppPaths(path: string)
    ensures |AppRoutes| == 6
    ensures forall i, j :: 0 <= i < j < |AppRoutes| ==> !SamePath(AppRoutes[i].path, AppRoutes[j].path)
    ensures Listed(AppRoutes, path) <==> Canonical(path) in AppCanonical
  {
    AppCanonicalForms();
    if Canonical(path) in AppCanonical {
      var i :| 0 <= i < |AppCanonical| && AppCanonical[i] == Canonical(path);
      assert SamePath(AppRoutes[i].path, path);
    }
  }

  /** `/login` and `/register` are public, `/dashboard`, `/reservas` and `/mis-reservas`
      private, and `/` always sends to `/dashboard`, however the location spells them. */
  lemma AppGuards(path: string, signedIn: bool)
    ensures Canonical(path) == "/login" ==> Resolve(AppRoutes, path, signedIn) == Public(signedIn, LoginPage)
    ensures Canonical(path) == "/register" ==> Resolve(AppRoutes, path, signedIn) == Public(signedIn, RegisterPage)
    ensures Canonical(path) == "/dashboard" ==> Resolve(AppRoutes, path, signedIn) == Private(signedIn, DashboardPage)
    ensures Canonical(path) == "/reservas" ==> Resolve(AppRoutes, path, signedIn) == Private(signedIn, ReservasPage)
    ensures Canonical(path) == "/mis-reservas" ==> Resolve(AppRoutes, path, signedIn) == Private(signedIn, MisReservasPage)
    ensures Canonical(path) == "" ==> Resolve(AppRoutes, path, signedIn) == Redirect("/dashboard")
  {
    AppCanonicalForms();
  }

  /** Upper-case letters and a trailing slash do not change the route: `/Login` is the sign-in
      page and `/dashboard/` the dashboard. */
  lemma CaseAndSlashIgnored(signedIn: bool)
    ensures Resolve(AppRoutes, "/Login", signedIn) == Public(signedIn, LoginPage)
    ensures Resolve(AppRoutes, "/dashboard/", signedIn) == Private(signedIn, DashboardPage)
  {
    assert TrimSlashes("/Login") == "/Login";
    assert Canonical("/Login") == "/login";
    assert TrimSlashes("/dashboard/") == "/dashboard";
    CanonicalFixed("/dashboard");
    AppGuards("/Login", signedIn);
    AppGuards("/dashboard/", signedIn);
  }

  /** The two redirect targets, `/login` and `/dashboard`, are routes of the table. */
  lemma AppTargets(signedIn: bool)
    ensures Resolve(AppRoutes, "/login", signedIn) == Public(signedIn, LoginPage)
    ensures Resolve(AppRoutes, "/dashboard", signedIn) == Private(signedIn, DashboardPage)
    ensures Listed(AppRoutes, "/login") && Listed(AppRoutes, "/dashboard")
  {
    CanonicalFixed("/login");
    CanonicalFixed("/dashboard");
    AppGuards("/login", signedIn);
    AppGuards("/dashboard", signedIn);
    AppPaths("/login");
    AppPaths("/dashboard");
  }

  /** From any listed path, for either user state, at most two redirects reach a page. */
  lemma AppSettles(path: string, signedIn: bool)
    requires Listed(AppRoutes, path)
    ensures Follow(AppRoutes, path, signedIn, 2).Render?
  {
    AppFirstStep(path, signedIn);
    AppTargets(signedIn);
    SettlesWithin(AppRoutes, path, signedIn);
  }

  // ---------------------------------------------------------------- the unrouted menu paths

  /** The paths the menu and the full table use beyond the six of the table. */
  lemma ExtraCanonicalForms()
    ensures Canonical("/reservas-recurrentes") == "/reservas-recurrentes"
    ensures Canonical("/admin/canchas") == "/admin/canchas"
    ensures Canonical("/admin/usuarios") == "/admin/usuarios"
    ensures Canonical("/admin/reservas") == "/admin/reservas"
  {
    CanonicalFixed("/reservas-recurrentes");
    CanonicalFixed("/admin/canchas");
    CanonicalFixed("/admin/usuarios");
    CanonicalFixed("/admin/reservas");
  }

  /** Every menu path is written in its canonical form. */
  lemma MenuCanonical(user: Option<Obj>, k: nat)
    requires k < |Layout.MenuItems(user)|
    ensures Canonical(Layout.MenuItems(user)[k].path) == Layout.MenuItems(user)[k].path
  {
    var paths := ["/dashboard", "/reservas", "/reservas-recurrentes", "/mis-reservas",
                  "/admin/canchas", "/admin/usuarios", "/admin/reservas"];
    assert Layout.MenuItems(user)[k].path == paths[k];
    AppCanonicalForms();
    ExtraCanonicalForms();
    assert Canonical(AppRoutes[2].path) == "/dashboard";
    assert Canonical(AppRoutes[3].path) == "/reservas";
    assert Canonical(AppRoutes[4].path) == "/mis-reservas";
  }

  /** The menu links to `/reservas-recurrentes` for every user and to the three
      administration pages for an administrator, but the table has no route for them: a
      signed-in user who follows such an item gets an empty screen. */
  lemma MenuPathsUnrouted(user: Option<Obj>, k: nat)
    requires 2 <= k < |Layout.MenuItems(user)| && k != 3
    ensures !Listed(AppRoutes, Layout.MenuItems(user)[k].path)
    ensures Resolve(AppRoutes, Layout.MenuItems(user)[k].path, true) == Blank
  {
    var paths := ["/dashboard", "/reservas", "/reservas-recurrentes", "/mis-reservas",
                  "/admin/canchas", "/admin/usuarios", "/admin/reservas"];
    var p := Layout.MenuItems(user)[k].path;
    assert p == paths[k];
    MenuCanonical(user, k);
    AppPaths(p);
    assert Canonical(p) !in AppCanonical;
    UnlistedBlank(AppRoutes, p, true);
  }

  /** The table with a private route for every page the menu offers. */
  const FullRoutes: seq<Route> := AppRoutes + [
    Route("/reservas-recurrentes", PrivateRoute(ReservasRecurrentesPage)),
    Route("/admin/canchas", PrivateRoute(AdminCanchasPage)),
    Route("/admin/usuarios", PrivateRoute(AdminUsuariosPage)),
    Route("/admin/reservas", PrivateRoute(AdminReservasPage))
  ]

  const FullCanonical: seq<string> :=
    AppCanonical + ["/reservas-recurrentes", "/admin/canchas", "/admin/usuarios", "/admin/reservas"]

  /** No two routes of the full table have the same canonical path. */
  lemma FullCanonicalDistinct()
    ensures forall i, j :: 0 <= i < j < |FullCanonical| ==> FullCanonical[i] != FullCanonical[j]
  {
    forall i, j | 0 <= i < j < |FullCanonical| ensures FullCanonical[i] != FullCanonical[j] {
      assert |FullCanonical[i]| != |FullCanonical[j]| || FullCanonical[i][2] != FullCanonical[j][2]
             || FullCanonical[i][3] != FullCanonical[j][3] || FullCanonical[i][8] != FullCanonical[j][8];
    }
  }

  lemma FullCanonicalForms()
    ensures |FullRoutes| == |FullCanonical| == 10
    ensures forall i :: 0 <= i < |FullRoutes| ==> Canonical(FullRoutes[i].path) == FullCanonical[i]
    ensures forall i, j :: 0 <= i < j < |FullCanonical| ==> FullCanonical[i] != FullCanonical[j]
  {
    FullCanonicalDistinct();
    AppCanonicalForms();
    ExtraCanonicalForms();
    assert FullRoutes[..6] == AppRoutes;
    assert FullCanonical[..6] == AppCanonical;
    forall i | 0 <= i < |FullRoutes| ensures Canonical(FullRoutes[i].path) == FullCanonical[i] {
      if i < 6 { assert FullRoutes[i] == FullRoutes[..6][i]; assert FullCanonical[i] == FullCanonical[..6][i]; }
    }
  }

  /** With the full table every menu item renders its page for a signed-in user. */
  lemma MenuPathsRouted(user: Option<Obj>, k: nat)
    requires k < |Layout.MenuItems(user)|
    ensures Listed(FullRoutes, Layout.MenuItems(user)[k].path)
    ensures Resolve(FullRoutes, Layout.MenuItems(user)[k].path, true).Render?
  {
    var path := Layout.MenuItems(user)[k].path;
    var at := [2, 3, 6, 4, 7, 8, 9][k];
    assert FullRoutes[at].path == path && FullRoutes[at].element.PrivateRoute?;
    MenuCanonical(user, k);
    FullCanonicalForms();
    FirstListed(FullRoutes, path, at);
  }

  /** Routes added after a table do not change what the table already matches. */
  lemma {:induction false} LookupPrefix(table: seq<Route>, more: seq<Route>, path: string, i: nat)
    requires i <= |table|
    requires exists j :: i <= j < |table| && SamePath(table[j].path, path)
    ensures LookupFrom(table + more, path, i) == LookupFrom(table, path, i)
    decreases |table| - i
  {
    assert (table + more)[i] == table[i];
    if !SamePath(table[i].path, path) {
      LookupPrefix(table, more, path, i + 1);
    }
  }

  /** The full table keeps the six original routes as they were. */
  lemma FullKeepsApp(path: string, signedIn: bool)
    requires Listed(AppRoutes, path)
    ensures Resolve(FullRoutes, path, signedIn) == Resolve(AppRoutes, path, signedIn)
  {
    LookupPrefix(AppRoutes, FullRoutes[6..], path, 0);
    assert AppRoutes + FullRoutes[6..] == FullRoutes;
  }

  /** A route that matches where no earlier route does is the one the match finds. */
  lemma FirstListed(table: seq<Route>, path: string, at: nat)
    requires at < |table| && SamePath(table[at].path, path)
    requires forall l :: 0 <= l < at ==> !SamePath(table[l].path, path)
    ensures Lookup(table, path) == Some(table[at].element)
  {
    LookupFromFacts(table, path, 0);
  }

  /** The redirect targets keep their guards in the full table. */
  lemma FullTargets(signedIn: bool)
    ensures Resolve(FullRoutes, "/login", signedIn) == Public(signedIn, LoginPage)
    ensures Resolve(FullRoutes, "/dashboard", signedIn) == Private(signedIn, DashboardPage)
  {
    AppTargets(signedIn);
    FullKeepsApp("/dashboard", signedIn);
    FullKeepsApp("/login", signedIn);
  }

  /** Any listed location of the full table renders or redirects to `/login` or `/dashboard`. */
  lemma FullFirstStep(path: string, signedIn: bool)
    requires Listed(FullRoutes, path)
    ensures var r := Resolve(FullRoutes, path, signedIn); r.Render? || r == Redirect("/login") || r == Redirect("/dashboard")
  {
    if Listed(AppRoutes, path) {
      AppFirstStep(path, signedIn);
      FullKeepsApp(path, signedIn);
    } else {
      var j :| 0 <= j < |FullRoutes| && SamePath(FullRoutes[j].path, path);
      FullAdded(path, j);
      FirstListed(FullRoutes, path, j);
    }
  }

  /** Any listed location of the table renders or redirects to `/login` or `/dashboard`. */
  lemma AppFirstStep(path: string, signedIn: bool)
    requires Listed(AppRoutes, path)
    ensures var r := Resolve(AppRoutes, path, signedIn); r.Render? || r == Redirect("/login") || r == Redirect("/dashboard")
  {
    AppPaths(path);
    AppGuards(path, signedIn);
  }

  /** With the full table, too, at most two redirects reach a page from any listed path. */
  lemma FullSettles(path: string, signedIn: bool)
    requires Listed(FullRoutes, path)
    ensures Follow(FullRoutes, path, signedIn, 2).Render?
  {
    FullTargets(signedIn);
    FullFirstStep(path, signedIn);
    SettlesWithin(FullRoutes, path, signedIn);
  }

  /** A location that no route of the table matches but the full table does matches one of
      the added private routes first. */
  lemma FullAdded(path: string, j: nat)
    requires !Listed(AppRoutes, path)
    requires j < |FullRoutes| && SamePath(FullRoutes[j].path, path)
    ensures 6 <= j && FullRoutes[j].element.PrivateRoute?
    ensures forall l :: 0 <= l < j ==> !SamePath(FullRoutes[l].path, path)
  {
    FullCanonicalForms();
    if j < 6 {
      assert false;
    }
    forall l | 0 <= l < j ensures !SamePath(FullRoutes[l].path, path) {
      if l < 6 { assert FullRoutes[l] == AppRoutes[l]; }
    }
  }
}
