/** The server-rendered layout of every dashboard page: it checks the
    session, then the role, before it renders. */
module DashboardRootLayout {
  import opened Wrappers

  type Role = string

  /** The roles allowed into the dashboard. */
  const DashboardRoles: seq<Role> := ["admin", "establishment_owner", "establishment_staff"]

  const LoginRedirect := "/login?callbackUrl=/dashboard"
  const UnauthorizedRedirect := "/unauthorized"

  datatype LayoutResult = Redirect(location: string) | RenderDashboard

  /** The layout's decision from the role of the server session (None when
      there is no session). `redirect()` throws, so nothing after it runs. */
  function Layout(session: Option<Role>): LayoutResult {
    if session.None? then Redirect(LoginRedirect)
    else if session.value !in DashboardRoles then Redirect(UnauthorizedRedirect)
    else RenderDashboard
  }

  /** Without a session the callback is always `/dashboard`, whichever
      dashboard page was asked for, and no role is looked at. */
  lemma NoSessionGoesToLogin()
    ensures Layout(None) == Redirect("/login?callbackUrl=/dashboard")
  {
  }

  /** With a session, the layout renders exactly for the three staff roles;
      `consumer` and the fallback role `user` are sent to `/unauthorized`. */
  lemma SessionRoleDecides(role: Role)
    ensures Layout(Some(role)) == RenderDashboard <==>
            role == "admin" || role == "establishment_owner" || role == "establishment_staff"
    ensures Layout(Some(role)) != RenderDashboard ==> Layout(Some(role)) == Redirect("/unauthorized")
    ensures Layout(Some("consumer")) == Redirect("/unauthorized")
    ensures Layout(Some("user")) == Redirect("/unauthorized")
  {
  }
}
