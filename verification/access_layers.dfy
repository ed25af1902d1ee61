/** How the three authorization layers relate: the route guard that runs
    before the request, the dashboard layout that runs on the server, and
    the client permission helper `can`. */
module AccessLayers {
  import opened Wrappers
  import opened Text
  import RouteGuard
  import UseAuth
  import DashboardRootLayout

  /** The role-based entry at `i` lists only dashboard roles. */
  lemma EntryRolesAreDashboardRoles(i: nat, role: string)
    requires i < |RouteGuard.RoleBasedRoutes|
    requires role in RouteGuard.RoleBasedRoutes[i].1
    ensures role in DashboardRootLayout.DashboardRoles
  {
  }

  /** Whenever the guard lets a token through on a role-restricted path,
      the layout renders for the same role. */
  lemma {:induction false} GuardPassImpliesLayoutRenders(path: string, requestUrl: string, role: string)
    requires RouteGuard.IsRoleProtectedRoute(path)
    requires RouteGuard.Middleware(path, requestUrl, Some(role)) == RouteGuard.Next
    ensures DashboardRootLayout.Layout(Some(role)) == DashboardRootLayout.RenderDashboard
  {
    if role != RouteGuard.Admin {
      var i :| 0 <= i < |RouteGuard.RoleBasedRoutes| &&
               RouteGuard.RouteMatches(RouteGuard.RoleBasedRoutes[i].0, path);
      var first := RouteGuard.FirstIndex(path, i);
      assert RouteGuard.GetRolesForRoute(path) == RouteGuard.RoleBasedRoutes[first].1;
      EntryRolesAreDashboardRoles(first, role);
    }
  }

  /** The guard checks only a session on `/dashboard` itself, so a
      `consumer` token passes it, and the layout then refuses that role. */
  lemma ConsumerPassesGuardButNotLayout(requestUrl: string)
    ensures RouteGuard.Middleware("/dashboard", requestUrl, Some("consumer")) == RouteGuard.Next
    ensures DashboardRootLayout.Layout(Some("consumer")) == DashboardRootLayout.Redirect("/unauthorized")
  {
    RouteGuard.DashboardAndMenusNeedNoRole();
  }

  /** The converse of `GuardPassImpliesLayoutRenders` fails: the layout
      admits `establishment_staff`, which the guard refuses on
      `/dashboard/establishments/new`. */
  lemma LayoutAdmitsWhatGuardRefuses(requestUrl: string)
    ensures DashboardRootLayout.Layout(Some("establishment_staff")) == DashboardRootLayout.RenderDashboard
    ensures RouteGuard.Middleware(RouteGuard.EstablishmentsNew, requestUrl, Some("establishment_staff"))
              == RouteGuard.RedirectToUnauthorized
  {
    RouteGuard.FirstMatchWins(requestUrl);
  }

  /** Without a session the guard keeps the requested URL as callback,
      while the layout always uses `/dashboard`. */
  lemma CallbacksDiffer(path: string, requestUrl: string)
    requires StartsWith(path, "/dashboard")
    ensures RouteGuard.Middleware(path, requestUrl, None) == RouteGuard.RedirectToLogin(requestUrl)
    ensures DashboardRootLayout.Layout(None) == DashboardRootLayout.Redirect("/login?callbackUrl=/dashboard")
  {
    RouteGuard.ProtectedIffDashboardPrefix(path);
  }

  /** A path under the menus section does not begin with the
      establishments section. */
  lemma MenusPathIsNotEstablishments(path: string)
    requires StartsWith(path, RouteGuard.MenusDir)
    ensures !StartsWith(path, RouteGuard.EstablishmentsNew)
    ensures !StartsWith(path, RouteGuard.EstablishmentsDir)
  {
    assert path[11] == RouteGuard.MenusDir[11];
    assert RouteGuard.MenusDir[11] != RouteGuard.EstablishmentsDir[11];
    assert RouteGuard.MenusDir[11] != RouteGuard.EstablishmentsNew[11];
  }

  /** `can('manage:establishments')` agrees with the guard on every page
      under `/dashboard/establishments/new`, for every role. */
  lemma {:induction false} ManageEstablishmentsAgreesWithGuard(path: string, requestUrl: string, role: string)
    requires StartsWith(path, RouteGuard.EstablishmentsNew)
    ensures UseAuth.Can(UseAuth.SignedIn(role), "manage:establishments") == Value(true)
            <==> RouteGuard.Middleware(path, requestUrl, Some(role)) == RouteGuard.Next
  {
    RouteGuard.RoleRoutesMatch(path);
    RouteGuard.NewPrefixGetsRolesOfNew(path);
  }

  /** `can('view:establishments')` agrees with the guard on every
      establishment page `/dashboard/establishments/<id>` other than `new`. */
  lemma {:induction false} ViewEstablishmentAgreesWithGuard(path: string, requestUrl: string, role: string)
    requires RouteGuard.SegmentAfter(path, RouteGuard.EstablishmentsDir)
    requires !StartsWith(path, RouteGuard.EstablishmentsNew)
    ensures UseAuth.Can(UseAuth.SignedIn(role), "view:establishments") == Value(true)
            <==> RouteGuard.Middleware(path, requestUrl, Some(role)) == RouteGuard.Next
  {
    RouteGuard.RoleRoutesMatch(path);
    assert RouteGuard.GetRolesForRoute(path) == RouteGuard.RoleBasedRoutes[1].1;
  }

  /** `can('manage:menus')` agrees with the guard on every page under
      `/dashboard/menus/new`. */
  lemma {:induction false} ManageMenusAgreesWithGuard(path: string, requestUrl: string, role: string)
    requires StartsWith(path, RouteGuard.MenusNew)
    ensures UseAuth.Can(UseAuth.SignedIn(role), "manage:menus") == Value(true)
            <==> RouteGuard.Middleware(path, requestUrl, Some(role)) == RouteGuard.Next
  {
    StartsWithTrans(path, RouteGuard.MenusNew, RouteGuard.MenusDir);
    MenusPathIsNotEstablishments(path);
    RouteGuard.RoleRoutesMatch(path);
    assert RouteGuard.GetRolesForRoute(path) == RouteGuard.RoleBasedRoutes[2].1;
  }

  /** `view:menus` is wider than the guard: a `consumer` may view menus
      according to `can`, but the guard refuses it on every menu page. */
  lemma {:induction false} ViewMenusWiderThanGuard(path: string, requestUrl: string)
    requires RouteGuard.SegmentAfter(path, RouteGuard.MenusDir)
    ensures UseAuth.Can(UseAuth.SignedIn("consumer"), "view:menus") == Value(true)
    ensures RouteGuard.Middleware(path, requestUrl, Some("consumer")) == RouteGuard.RedirectToUnauthorized
  {
    MenusPathIsNotEstablishments(path);
    RouteGuard.RoleRoutesMatch(path);
    var roles := RouteGuard.GetRolesForRoute(path);
    assert roles == RouteGuard.RoleBasedRoutes[3].1;
  }
}
