/**
 * The route table and the private-route guard. The guard looks at the
 * signed-in user and the route's role tag and either renders the page or
 * redirects.
 */
module App {
  import opened Wrappers
  import opened Records

  /** What the guard does: show the child page, or navigate elsewhere. */
  datatype Decision = Render | Redirect(path: string)

  const Roles: seq<string> := ["donor", "receiver", "admin"]

  /** The dashboard path of each known role. */
  function RoleHome(role: string): (r: Option<string>)
    ensures r.Some? <==> role in Roles
    ensures r.Some? ==> r.value == "/" + role
  {
    if role == "donor" then Some("/donor")
    else if role == "receiver" then Some("/receiver")
    else if role == "admin" then Some("/admin")
    else None
  }

  /** JavaScript truthiness of the optional `allowedRole` prop: absent and "" are false. */
  predicate Truthy(s: Option<string>)
  {
    s.Some? && s.value != ""
  }

  /** `PrivateRoute`, with the stored user passed in. */
  function PrivateRoute(user: Option<Identity>, allowedRole: Option<string>): Decision
  {
    match user
    case None => Redirect("/login")
    case Some(u) =>
      if Truthy(allowedRole) && u.role != allowedRole.value then
        match RoleHome(u.role)
        case Some(home) => Redirect(home)
        case None => Render
      else Render
  }

  /**
   * Nobody signed in: always sent to the log-in page. Signed in with the
   * required role, or on a route with no role required: rendered. Signed in
   * with another known role: sent to that role's own dashboard. Signed in
   * with a role that is none of the three: rendered anyway.
   */
  lemma PrivateRouteCases(user: Option<Identity>, allowedRole: Option<string>)
    ensures user.None? ==> PrivateRoute(user, allowedRole) == Redirect("/login")
    ensures user.Some? && (!Truthy(allowedRole) || user.value.role == allowedRole.value) ==>
      PrivateRoute(user, allowedRole) == Render
    ensures user.Some? && Truthy(allowedRole) && user.value.role != allowedRole.value && user.value.role in Roles ==>
      PrivateRoute(user, allowedRole) == Redirect("/" + user.value.role)
    ensures user.Some? && user.value.role !in Roles ==> PrivateRoute(user, allowedRole) == Render
  {
  }

  datatype Route = Route(path: string, allowedRole: Option<string>, page: string)

  const PublicRoutes: seq<Route> := [
    Route("/", None, "Home"),
    Route("/login", None, "Login"),
    Route("/register", None, "Register")
  ]

  const DonorRoutes: seq<Route> := [
    Route("/donor", Some("donor"), "DonorDashboard"),
    Route("/donor/camps", Some("donor"), "DonationCamps"),
    Route("/donor/appointments", Some("donor"), "DonorAppointments"),
    Route("/donor/history", Some("donor"), "DonationHistory"),
    Route("/donor/profile", Some("donor"), "DonorProfile")
  ]

  const ReceiverRoutes: seq<Route> := [
    Route("/receiver", Some("receiver"), "ReceiverDashboard"),
    Route("/receiver/search", Some("receiver"), "BloodSearch"),
    Route("/receiver/history", Some("receiver"), "RequestHistory"),
    Route("/receiver/profile", Some("receiver"), "ReceiverProfile")
  ]

  const AdminRoutes: seq<Route> := [
    Route("/admin", Some("admin"), "AdminDashboard"),
    Route("/admin/donors", Some("admin"), "ManageDonors"),
    Route("/admin/receivers", Some("admin"), "ManageReceivers"),
    Route("/admin/inventory", Some("admin"), "ManageInventory"),
    Route("/admin/requests", Some("admin"), "ManageRequests"),
    Route("/admin/camps", Some("admin"), "ManageCamps")
  ]

  const CatchAll: Route := Route("*", None, "NotFound")

  /** The `<Routes>` of the application, in order. */
  const AppRoutes: seq<Route> := PublicRoutes + DonorRoutes + ReceiverRoutes + AdminRoutes + [CatchAll]

  /** A route reached directly: public routes are not wrapped in the guard, the others are. */
  predicate Admits(user: Option<Identity>, r: Route)
  {
    r.allowedRole.None? || PrivateRoute(user, r.allowedRole) == Render
  }

  /** The route is tagged with a role exactly when its path starts with "/" and that role. */
  predicate TaggedByPrefix(r: Route)
  {
    (r.allowedRole == Some("donor") <==> "/donor" <= r.path) &&
    (r.allowedRole == Some("receiver") <==> "/receiver" <= r.path) &&
    (r.allowedRole == Some("admin") <==> "/admin" <= r.path) &&
    (r.allowedRole.Some? ==> r.allowedRole.value in Roles)
  }

  lemma PublicRoutesTagged()
    ensures forall i :: 0 <= i < |PublicRoutes| ==> TaggedByPrefix(PublicRoutes[i])
    ensures TaggedByPrefix(CatchAll)
  {
    assert PublicRoutes[1].path[1] == 'l';
    assert PublicRoutes[2].path[1] == 'r' && PublicRoutes[2].path[3] == 'g';
  }

  lemma DonorRoutesTagged()
    ensures forall i :: 0 <= i < |DonorRoutes| ==> TaggedByPrefix(DonorRoutes[i])
  {
    forall i | 0 <= i < |DonorRoutes| ensures TaggedByPrefix(DonorRoutes[i]) {
      assert DonorRoutes[i].path[..6] == "/donor";
      assert DonorRoutes[i].path[1] == 'd';
    }
  }

  lemma ReceiverRoutesTagged()
    ensures forall i :: 0 <= i < |ReceiverRoutes| ==> TaggedByPrefix(ReceiverRoutes[i])
  {
    forall i | 0 <= i < |ReceiverRoutes| ensures TaggedByPrefix(ReceiverRoutes[i]) {
      assert ReceiverRoutes[i].path[..9] == "/receiver";
      assert ReceiverRoutes[i].path[1] == 'r';
    }
  }

  lemma AdminRoutesTagged()
    ensures forall i :: 0 <= i < |AdminRoutes| ==> TaggedByPrefix(AdminRoutes[i])
  {
    forall i | 0 <= i < |AdminRoutes| ensures TaggedByPrefix(AdminRoutes[i]) {
      assert AdminRoutes[i].path[..6] == "/admin";
      assert AdminRoutes[i].path[1] == 'a';
    }
  }

  /**
   * Every route under "/donor", "/receiver" or "/admin" is guarded by that
   * role, and every guarded route lies under its role's prefix.
   */
  lemma RoutesGuardedByPrefix()
    ensures forall r :: r in AppRoutes ==> TaggedByPrefix(r)
  {
    PublicRoutesTagged();
    DonorRoutesTagged();
    ReceiverRoutesTagged();
    AdminRoutesTagged();
  }

  /** The route with the given path, if the table has one. */
  function RouteAt(path: string): (r: Option<Route>)
    ensures r.Some? ==> r.value in AppRoutes && r.value.path == path
    ensures r.None? ==> forall i :: 0 <= i < |AppRoutes| ==> AppRoutes[i].path != path
  {
    FirstWithPath(AppRoutes, path)
  }

  /** The first route of `routes` whose path is `path`, as the router matches it. */
  function FirstWithPath(routes: seq<Route>, path: string): (r: Option<Route>)
    ensures r.Some? ==> r.value in routes && r.value.path == path
    ensures r.None? ==> forall i :: 0 <= i < |routes| ==> routes[i].path != path
  {
    if routes == [] then None
    else if routes[0].path == path then Some(routes[0])
    else
      var rest := FirstWithPath(routes[1..], path);
      assert forall i :: 1 <= i < |routes| ==> routes[i] == routes[1..][i - 1];
      rest
  }

  /** A path under a role's prefix that the table has is admitted for a user of that role. */
  lemma PrefixAdmits(u: Identity, r: Route)
    requires r in AppRoutes && u.role in Roles && "/" + u.role <= r.path
    ensures Admits(Some(u), r)
  {
    RoutesGuardedByPrefix();
  }

  /**
   * Every redirect of a signed-in user lands on a route the guard admits for
   * that same user, so the guard never redirects twice in a row.
   */
  lemma NoRedirectLoop(u: Identity, allowedRole: Option<string>)
    requires PrivateRoute(Some(u), allowedRole).Redirect?
    ensures var target := PrivateRoute(Some(u), allowedRole).path;
      RouteAt(target).Some? && Admits(Some(u), RouteAt(target).value)
  {
    var target := PrivateRoute(Some(u), allowedRole).path;
    var k := if u.role == "donor" then 3 else if u.role == "receiver" then 8 else 12;
    assert AppRoutes[k].path == target;
    PrefixAdmits(u, RouteAt(target).value);
  }

  /** The log-in page, where a signed-out user is sent, is public. */
  lemma LoginRoutePublic()
    ensures RouteAt("/login").Some? && RouteAt("/login").value.allowedRole.None?
    ensures forall a :: PrivateRoute(None, a) == Redirect("/login")
  {
    assert AppRoutes[1].path == "/login";
    RoutesGuardedByPrefix();
    var r := RouteAt("/login").value;
    assert r.path[1] == 'l';
  }
}
