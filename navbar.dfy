/** The navigation bar: which links each kind of user sees, and logging out. */
module Navbar {
  import opened Wrappers
  import opened Records
  import opened AuthContext
  import opened App

  datatype MenuItem = MenuItem(name: string, path: string)

  /** `menuItems`, as chosen by the signed-in user's role. */
  function MenuItems(user: Option<Identity>): seq<MenuItem>
  {
    match user
    case None => SignedOutMenu
    case Some(u) =>
      if u.role == "donor" then DonorMenu
      else if u.role == "receiver" then ReceiverMenu
      else if u.role == "admin" then AdminMenu
      else []
  }

  const SignedOutMenu: seq<MenuItem> :=
    [MenuItem("Home", "/"), MenuItem("Login", "/login"), MenuItem("Register", "/register")]

  const DonorMenu: seq<MenuItem> :=
    [MenuItem("Dashboard", "/donor"), MenuItem("Donation Camps", "/donor/camps"),
     MenuItem("Appointments", "/donor/appointments"), MenuItem("Donation History", "/donor/history"),
     MenuItem("Profile", "/donor/profile")]

  const ReceiverMenu: seq<MenuItem> :=
    [MenuItem("Dashboard", "/receiver"), MenuItem("Blood Search", "/receiver/search"),
     MenuItem("Request History", "/receiver/history"), MenuItem("Profile", "/receiver/profile")]

  const AdminMenu: seq<MenuItem> :=
    [MenuItem("Dashboard", "/admin"), MenuItem("Donors", "/admin/donors"),
     MenuItem("Receivers", "/admin/receivers"), MenuItem("Inventory", "/admin/inventory"),
     MenuItem("Requests", "/admin/requests"), MenuItem("Donation Camps", "/admin/camps")]

  lemma DonorMenuUnderPrefix()
    ensures forall i :: 0 <= i < |DonorMenu| ==> "/donor" <= DonorMenu[i].path
  {
  }

  lemma ReceiverMenuUnderPrefix()
    ensures forall i :: 0 <= i < |ReceiverMenu| ==> "/receiver" <= ReceiverMenu[i].path
  {
  }

  lemma AdminMenuUnderPrefix()
    ensures forall i :: 0 <= i < |AdminMenu| ==> "/admin" <= AdminMenu[i].path
  {
  }

  /**
   * Signed-out users see Home, Login and Register. A donor sees 5 links, a
   * receiver 4, an administrator 6, each starting with "Dashboard" at the
   * role's home and all under "/" plus the role; any other role sees none.
   */
  lemma MenuShape(user: Option<Identity>)
    ensures user.None? ==>
      MenuItems(user) == [MenuItem("Home", "/"), MenuItem("Login", "/login"), MenuItem("Register", "/register")]
    ensures user.Some? && user.value.role == "donor" ==> |MenuItems(user)| == 5
    ensures user.Some? && user.value.role == "receiver" ==> |MenuItems(user)| == 4
    ensures user.Some? && user.value.role == "admin" ==> |MenuItems(user)| == 6
    ensures user.Some? && user.value.role in Roles ==>
      MenuItems(user)[0] == MenuItem("Dashboard", RoleHome(user.value.role).value)
    ensures user.Some? ==> forall i :: 0 <= i < |MenuItems(user)| ==> "/" + user.value.role <= MenuItems(user)[i].path
    ensures user.Some? && user.value.role !in Roles ==> MenuItems(user) == []
  {
    if user.Some? {
      MenuUnderPrefix(user.value);
    }
  }

  lemma MenuUnderPrefix(u: Identity)
    ensures forall i :: 0 <= i < |MenuItems(Some(u))| ==> "/" + u.role <= MenuItems(Some(u))[i].path
  {
    if u.role == "donor" {
      assert "/" + u.role == "/donor";
      DonorMenuUnderPrefix();
    } else if u.role == "receiver" {
      assert "/" + u.role == "/receiver";
      ReceiverMenuUnderPrefix();
    } else if u.role == "admin" {
      assert "/" + u.role == "/admin";
      AdminMenuUnderPrefix();
    }
  }

  /** The links of `menu` are, in order, the paths of the routes of `section`. */
  predicate SamePaths(menu: seq<MenuItem>, section: seq<Route>)
  {
    |menu| == |section| && forall i :: 0 <= i < |menu| ==> menu[i].path == section[i].path
  }

  lemma MenusMatchSections()
    ensures SamePaths(SignedOutMenu, PublicRoutes)
    ensures SamePaths(DonorMenu, DonorRoutes)
    ensures SamePaths(ReceiverMenu, ReceiverRoutes)
    ensures SamePaths(AdminMenu, AdminRoutes)
  {
  }

  lemma AppRoutesSections()
    ensures AppRoutes[..3] == PublicRoutes
    ensures AppRoutes[3..8] == DonorRoutes
    ensures AppRoutes[8..12] == ReceiverRoutes
    ensures AppRoutes[12..18] == AdminRoutes
  {
    var a := PublicRoutes + DonorRoutes;
    var b := a + ReceiverRoutes;
    var c := b + AdminRoutes;
    assert AppRoutes == c + [CatchAll];
    assert AppRoutes[..18] == c;
    assert c[..12] == b && b[..8] == a;
    assert AppRoutes[12..18] == c[12..18];
    assert AppRoutes[8..12] == b[8..12];
    assert AppRoutes[3..8] == a[3..8];
    assert AppRoutes[..3] == a[..3];
  }

  /** A menu matching the section of the table that starts at `offset` follows those routes' paths. */
  lemma FollowsFrom(menu: seq<MenuItem>, lo: nat, hi: nat)
    requires lo <= hi <= |AppRoutes| && SamePaths(menu, AppRoutes[lo..hi])
    ensures forall i :: 0 <= i < |menu| ==> menu[i].path == AppRoutes[lo + i].path
  {
    forall i | 0 <= i < |menu| ensures menu[i].path == AppRoutes[lo + i].path {
      assert AppRoutes[lo..hi][i] == AppRoutes[lo + i];
    }
  }

  /** The links a user sees are, in order, the paths of one section of the route table. */
  lemma MenuFollowsRoutes(user: Option<Identity>)
    ensures user.None? ==> forall i :: 0 <= i < |MenuItems(user)| ==> MenuItems(user)[i].path == AppRoutes[i].path
    ensures user.Some? && user.value.role == "donor" ==>
      forall i :: 0 <= i < |MenuItems(user)| ==> MenuItems(user)[i].path == AppRoutes[3 + i].path
    ensures user.Some? && user.value.role == "receiver" ==>
      forall i :: 0 <= i < |MenuItems(user)| ==> MenuItems(user)[i].path == AppRoutes[8 + i].path
    ensures user.Some? && user.value.role == "admin" ==>
      forall i :: 0 <= i < |MenuItems(user)| ==> MenuItems(user)[i].path == AppRoutes[12 + i].path
  {
    MenusMatchSections();
    AppRoutesSections();
    if user.None? {
      FollowsFrom(SignedOutMenu, 0, 3);
    } else if user.value.role == "donor" {
      FollowsFrom(DonorMenu, 3, 8);
    } else if user.value.role == "receiver" {
      FollowsFrom(ReceiverMenu, 8, 12);
    } else if user.value.role == "admin" {
      FollowsFrom(AdminMenu, 12, 18);
    }
  }

  /** Every link leads to a route of the table that is admitted for the user who sees it. */
  lemma MenuLinksAdmitted(user: Option<Identity>)
    ensures forall i :: 0 <= i < |MenuItems(user)| ==>
      RouteAt(MenuItems(user)[i].path).Some? && Admits(user, RouteAt(MenuItems(user)[i].path).value)
  {
    forall i | 0 <= i < |MenuItems(user)|
      ensures RouteAt(MenuItems(user)[i].path).Some? && Admits(user, RouteAt(MenuItems(user)[i].path).value)
    {
      if user.None? {
        SignedOutLinkPublic(i);
      } else {
        SignedInLinkAdmitted(user.value, i);
      }
    }
  }

  lemma SignedOutLinkPublic(i: nat)
    requires i < |MenuItems(None)|
    ensures RouteAt(MenuItems(None)[i].path).Some? && RouteAt(MenuItems(None)[i].path).value.allowedRole.None?
  {
    var path := MenuItems(None)[i].path;
    assert AppRoutes[i].path == path;
    if i == 0 {
      assert |"/donor"| > |path| && |"/receiver"| > |path| && |"/admin"| > |path|;
    } else if i == 1 {
      assert path[1] == 'l';
      assert "/donor"[1] != 'l' && "/receiver"[1] != 'l' && "/admin"[1] != 'l';
    } else {
      assert path[1] == 'r' && path[3] == 'g';
      assert "/donor"[1] != 'r' && "/receiver"[3] != 'g' && "/admin"[1] != 'r';
    }
    UntaggedPathPublic(path);
  }

  /** A path outside the three role prefixes that the table has leads to an unguarded route. */
  lemma UntaggedPathPublic(path: string)
    requires exists i :: 0 <= i < |AppRoutes| && AppRoutes[i].path == path
    requires !("/donor" <= path) && !("/receiver" <= path) && !("/admin" <= path)
    ensures RouteAt(path).Some? && RouteAt(path).value.allowedRole.None?
  {
    RoutesGuardedByPrefix();
    assert TaggedByPrefix(RouteAt(path).value);
  }

  lemma SignedInLinkAdmitted(u: Identity, i: nat)
    requires i < |MenuItems(Some(u))|
    ensures RouteAt(MenuItems(Some(u))[i].path).Some? && Admits(Some(u), RouteAt(MenuItems(Some(u))[i].path).value)
  {
    MenuFollowsRoutes(Some(u));
    MenuShape(Some(u));
    var offset := if u.role == "donor" then 3 else if u.role == "receiver" then 8 else 12;
    assert AppRoutes[offset + i].path == MenuItems(Some(u))[i].path;
    PrefixAdmits(u, RouteAt(MenuItems(Some(u))[i].path).value);
  }

  /** `handleLogout`: sign out, then go to "/login". */
  method HandleLogout(auth: AuthStore) returns (navigateTo: string)
    modifies auth
    ensures auth.currentUser == None && auth.users == old(auth.users)
    ensures navigateTo == "/login"
  {
    auth.Logout();
    navigateTo := "/login";
  }
}
