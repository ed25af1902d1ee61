/** The client-side page guard: the redirect its effect issues and what it
    renders, from the hook's session state and the page's props. */
module ProtectedClientPage {
  import opened Wrappers
  import opened UseAuth

  /** The props, after the defaults (`allowedRoles = []`,
      `redirectTo = '/login'`) are applied. */
  datatype Props = Props(allowedRoles: seq<Role>, redirectTo: string)

  /** JavaScript default parameters: a default replaces an absent prop. */
  function WithDefaults(allowedRoles: Option<seq<Role>>, redirectTo: Option<string>): (p: Props)
    ensures allowedRoles.None? ==> p.allowedRoles == []
    ensures redirectTo.None? ==> p.redirectTo == "/login"
    ensures allowedRoles.Some? ==> p.allowedRoles == allowedRoles.value
    ensures redirectTo.Some? ==> p.redirectTo == redirectTo.value
  {
    Props(allowedRoles.GetOr([]), redirectTo.GetOr("/login"))
  }

  /** The login redirect: `redirectTo` with the current page as callback.
      `encodedHref` is `window.location.href` already URI-component encoded. */
  function LoginTarget(props: Props, encodedHref: string): string {
    props.redirectTo + "?callbackUrl=" + encodedHref
  }

  /** The `router.push` calls made by one run of the effect, in order. Each
      push is followed by a `return`, so a run pushes at most once. */
  function EffectPushes(s: SessionState, props: Props, encodedHref: string): (r: Outcome<seq<string>>)
    ensures r.Value? ==> |r.value| <= 1
  {
    if IsLoading(s) then Value([])
    else if !IsAuthenticated(s) then Value([LoginTarget(props, encodedHref)])
    else if |props.allowedRoles| > 0 then
      if s.user.None? then TypeError
      else if s.user.value.role !in props.allowedRoles then Value(["/unauthorized"])
      else Value([])
    else Value([])
  }

  /** What the component renders. */
  datatype View = Spinner | Children | Empty

  function Render(s: SessionState, props: Props): Outcome<View> {
    if IsLoading(s) then Value(Spinner)
    else if !IsAuthenticated(s) then Value(Empty)
    else if |props.allowedRoles| == 0 then Value(Children)
    else if s.user.None? then TypeError
    else if s.user.value.role in props.allowedRoles then Value(Children)
    else Value(Empty)
  }

  // ---------------------------------------------------------------------
  // Properties
  // ---------------------------------------------------------------------

  /** While loading: no redirect, and the spinner. */
  lemma LoadingWaits(s: SessionState, props: Props, encodedHref: string)
    requires IsLoading(s)
    ensures EffectPushes(s, props, encodedHref) == Value([])
    ensures Render(s, props) == Value(Spinner)
  {
  }

  /** Loaded and signed out: one redirect to `redirectTo` with the callback,
      `/login` when the prop is not given, and nothing is shown. */
  lemma SignedOutGoesToLogin(s: SessionState, allowedRoles: Option<seq<Role>>, redirectTo: Option<string>, encodedHref: string)
    requires s.status == Unauthenticated
    ensures redirectTo.None? ==>
              EffectPushes(s, WithDefaults(allowedRoles, redirectTo), encodedHref)
                == Value(["/login?callbackUrl=" + encodedHref])
    ensures redirectTo.Some? ==>
              EffectPushes(s, WithDefaults(allowedRoles, redirectTo), encodedHref)
                == Value([redirectTo.value + "?callbackUrl=" + encodedHref])
    ensures Render(s, WithDefaults(allowedRoles, redirectTo)) == Value(Empty)
  {
    assert "/login" + "?callbackUrl=" == "/login?callbackUrl=";
  }

  /** Signed in with no role requirement: the children, and no redirect,
      whether or not the session carries a user. */
  lemma NoRoleRequirement(s: SessionState, redirectTo: string, encodedHref: string)
    requires IsAuthenticated(s)
    ensures EffectPushes(s, Props([], redirectTo), encodedHref) == Value([])
    ensures Render(s, Props([], redirectTo)) == Value(Children)
  {
  }

  /** Signed in with a role outside a non-empty `allowedRoles`: one
      redirect to `/unauthorized` and no children. There is no admin
      bypass: an admin who is not listed is refused too. */
  lemma RoleOutsideAllowed(role: Role, props: Props, encodedHref: string)
    requires |props.allowedRoles| > 0 && role !in props.allowedRoles
    ensures EffectPushes(SignedIn(role), props, encodedHref) == Value(["/unauthorized"])
    ensures Render(SignedIn(role), props) == Value(Empty)
  {
  }

  /** Signed in with a role listed in `allowedRoles`: no redirect, and the
      children. */
  lemma ListedRoleAdmitted(role: Role, props: Props, encodedHref: string)
    requires role in props.allowedRoles
    ensures EffectPushes(SignedIn(role), props, encodedHref) == Value([])
    ensures Render(SignedIn(role), props) == Value(Children)
  {
  }

  /** Authenticated without a user object while roles are required: reading
      `user.role` throws, in the effect and in the render alike. */
  lemma MissingUserThrows(props: Props, encodedHref: string)
    requires |props.allowedRoles| > 0
    ensures EffectPushes(SessionState(Authenticated, None), props, encodedHref) == TypeError
    ensures Render(SessionState(Authenticated, None), props) == TypeError
  {
  }

  /** The children are rendered exactly when the state is loaded and the
      effect issues no redirect. */
  lemma {:induction false} ChildrenIffNoRedirect(s: SessionState, props: Props, encodedHref: string)
    ensures Render(s, props) == Value(Children) <==>
            !IsLoading(s) && EffectPushes(s, props, encodedHref) == Value([])
  {
    if !IsLoading(s) && !IsAuthenticated(s) {
      assert EffectPushes(s, props, encodedHref) != Value([]);
    }
  }

  /** The admin has no bypass on this guard. */
  lemma AdminNotListedIsRefused(encodedHref: string)
    ensures EffectPushes(SignedIn(Admin), Props(["establishment_owner"], "/login"), encodedHref)
              == Value(["/unauthorized"])
  {
  }
}
