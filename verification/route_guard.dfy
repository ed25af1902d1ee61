/** The role-based route guard that runs before every `/dashboard` and
    `/api` request: which paths need a session, which need a role, and
    whether the request passes, goes to the login page or goes to the
    unauthorized page. */
module RouteGuard {
  import opened Wrappers
  import opened Text

  type Role = string

  const Dashboard := "/dashboard"
  const EstablishmentsNew := Dashboard + "/establishments/new"
  const EstablishmentsDir := Dashboard + "/establishments/"
  const MenusNew := Dashboard + "/menus/new"
  const MenusDir := Dashboard + "/menus/"

  /** Paths that need an authenticated session, matched with `startsWith`. */
  const ProtectedRoutes: seq<string> := [
    Dashboard,
    Dashboard + "/establishments",
    Dashboard + "/menus",
    Dashboard + "/qrcodes",
    Dashboard + "/settings"
  ]

  /** Role-restricted route patterns with their allowed roles, in the
      insertion order of the route object (the order its entries are
      tried in). */
  const RoleBasedRoutes: seq<(string, seq<Role>)> := [
    (EstablishmentsNew, ["admin", "establishment_owner"]),
    (EstablishmentsDir + "[id]", ["admin", "establishment_owner", "establishment_staff"]),
    (MenusNew, ["admin", "establishment_owner", "establishment_staff"]),
    (MenusDir + "[menuId]", ["admin", "establishment_owner", "establishment_staff"])
  ]

  const Admin: Role := "admin"

  // ---------------------------------------------------------------------
  // Route patterns
  // ---------------------------------------------------------------------

  /** One element of a compiled route pattern: a literal character, or a
      bracketed parameter, which becomes the regular expression `[^/]+`. */
  datatype Atom = Lit(c: char) | Segment

  /** The characters the regular-expression `.` does not match. */
  predicate IsLineTerminator(c: char) {
    c == '\n' || c == '\r' || c == '\U{2028}' || c == '\U{2029}'
  }

  /** No line terminator anywhere in `s`. */
  predicate OnOneLine(s: string) {
    forall i :: 0 <= i < |s| ==> !IsLineTerminator(s[i])
  }

  /** The rest of `s` after its first `]`, if that `]` comes before any
      line terminator: the lazy `.*?` stops at the first `]` and cannot
      cross a line break. */
  function AfterClose(s: string): (r: Option<string>)
    ensures r.Some? ==> |r.value| < |s| && ']' in s
    ensures ']' !in s ==> r.None?
  {
    if s == [] then None
    else if s[0] == ']' then Some(s[1..])
    else if IsLineTerminator(s[0]) then None
    else AfterClose(s[1..])
  }

  /** The pattern compilation `route.replace(/\[.*?\]/g, '[^/]+')`: every
      `[` up to the nearest following `]` on the same line becomes one
      Segment, every other character stays literal. */
  function Compile(route: string): seq<Atom>
    decreases |route|
  {
    if route == [] then []
    else if route[0] == '[' && AfterClose(route[1..]).Some? then
      [Segment] + Compile(AfterClose(route[1..]).value)
    else
      [Lit(route[0])] + Compile(route[1..])
  }

  /** The test `new RegExp('^' + pattern).test(s)`: some prefix of `s`
      matches the whole pattern. The match is anchored at the start only. */
  predicate MatchesPrefix(p: seq<Atom>, s: string)
    decreases |s|, |p|
  {
    if p == [] then true
    else match p[0]
      case Lit(c) => |s| > 0 && s[0] == c && MatchesPrefix(p[1..], s[1..])
      case Segment =>
        exists k :: 1 <= k <= |s| && '/' !in s[..k] && MatchesPrefix(p[1..], s[k..])
  }

  /** `routePattern.test(pathname)` for the route key `route`. */
  predicate RouteMatches(route: string, path: string) {
    MatchesPrefix(Compile(route), path)
  }

  // Reference meaning of a pattern: fill every Segment with a non-empty,
  // slash-free string; the path must begin with the filled-in pattern.

  function SegmentCount(p: seq<Atom>): nat {
    if p == [] then 0 else (if p[0].Segment? then 1 else 0) + SegmentCount(p[1..])
  }

  function Instantiate(p: seq<Atom>, fills: seq<string>): string
    requires |fills| == SegmentCount(p)
  {
    if p == [] then ""
    else match p[0]
      case Lit(c) => [c] + Instantiate(p[1..], fills)
      case Segment => fills[0] + Instantiate(p[1..], fills[1..])
  }

  ghost predicate ValidFills(p: seq<Atom>, fills: seq<string>) {
    |fills| == SegmentCount(p) &&
    forall i :: 0 <= i < |fills| ==> |fills[i]| > 0 && '/' !in fills[i]
  }

  ghost predicate HasPrefixInstance(p: seq<Atom>, s: string) {
    exists fills :: ValidFills(p, fills) && StartsWith(s, Instantiate(p, fills))
  }

  lemma StartsWithConcat(s: string, a: string, b: string)
    ensures StartsWith(s, a + b) <==> StartsWith(s, a) && StartsWith(s[|a|..], b)
  {
    if StartsWith(s, a) && StartsWith(s[|a|..], b) {
      assert s[..|a + b|] == s[..|a|] + s[|a|..][..|b|];
    }
    if StartsWith(s, a + b) {
      assert s[..|a|] == (a + b)[..|a|];
      assert s[|a|..][..|b|] == (a + b)[|a|..];
    }
  }

  lemma {:induction false} InstanceMatches(p: seq<Atom>, s: string, fills: seq<string>)
    requires ValidFills(p, fills) && StartsWith(s, Instantiate(p, fills))
    ensures MatchesPrefix(p, s)
    decreases |p|
  {
    if p != [] {
      match p[0]
      case Lit(c) =>
        StartsWithConcat(s, [c], Instantiate(p[1..], fills));
        InstanceMatches(p[1..], s[1..], fills);
      case Segment =>
        var k := |fills[0]|;
        assert ValidFills(p[1..], fills[1..]) by {
          forall i | 0 <= i < |fills[1..]| ensures |fills[1..][i]| > 0 && '/' !in fills[1..][i] {
            assert fills[1..][i] == fills[i + 1];
          }
        }
        StartsWithConcat(s, fills[0], Instantiate(p[1..], fills[1..]));
        InstanceMatches(p[1..], s[k..], fills[1..]);
        assert s[..k] == fills[0];
    }
  }

  lemma {:induction false} MatchHasInstance(p: seq<Atom>, s: string)
    requires MatchesPrefix(p, s)
    ensures HasPrefixInstance(p, s)
    decreases |s|, |p|
  {
    if p == [] {
      assert ValidFills(p, []) && StartsWith(s, Instantiate(p, []));
    } else {
      match p[0]
      case Lit(c) =>
        MatchHasInstance(p[1..], s[1..]);
        var fills :| ValidFills(p[1..], fills) && StartsWith(s[1..], Instantiate(p[1..], fills));
        StartsWithConcat(s, [c], Instantiate(p[1..], fills));
        assert ValidFills(p, fills) && StartsWith(s, Instantiate(p, fills));
      case Segment =>
        var k :| 1 <= k <= |s| && '/' !in s[..k] && MatchesPrefix(p[1..], s[k..]);
        MatchHasInstance(p[1..], s[k..]);
        var fills :| ValidFills(p[1..], fills) && StartsWith(s[k..], Instantiate(p[1..], fills));
        var all := [s[..k]] + fills;
        assert all[1..] == fills;
        assert ValidFills(p, all) by {
          forall i | 0 <= i < |all| ensures |all[i]| > 0 && '/' !in all[i] {
            if i > 0 { assert all[i] == fills[i - 1]; }
          }
        }
        StartsWithConcat(s, s[..k], Instantiate(p[1..], fills));
        assert StartsWith(s, Instantiate(p, all));
    }
  }

  /** A compiled pattern matches a path exactly when the path begins with
      the pattern in which every bracketed parameter is replaced by one or
      more characters other than `/`; whatever follows is not constrained. */
  lemma MatchesPrefixMeaning(p: seq<Atom>, s: string)
    ensures MatchesPrefix(p, s) <==> HasPrefixInstance(p, s)
  {
    if MatchesPrefix(p, s) {
      MatchHasInstance(p, s);
    }
    if HasPrefixInstance(p, s) {
      var fills :| ValidFills(p, fills) && StartsWith(s, Instantiate(p, fills));
      InstanceMatches(p, s, fills);
    }
  }

  // ---------------------------------------------------------------------
  // The decisions
  // ---------------------------------------------------------------------

  /** `isRoleProtectedRoute`: some role-based route pattern matches. */
  predicate IsRoleProtectedRoute(path: string) {
    exists i :: 0 <= i < |RoleBasedRoutes| && RouteMatches(RoleBasedRoutes[i].0, path)
  }

  /** `isProtectedRoute`: a protected route is a `startsWith` prefix, or a
      role-based route pattern matches. */
  predicate IsProtectedRoute(path: string) {
    (exists i :: 0 <= i < |ProtectedRoutes| && StartsWith(path, ProtectedRoutes[i])) ||
    IsRoleProtectedRoute(path)
  }

  /** The roles of the first entry of `table` whose pattern matches `path`,
      or `[]` when none does. */
  function FirstMatchRoles(table: seq<(string, seq<Role>)>, path: string): (roles: seq<Role>)
    ensures (forall i :: 0 <= i < |table| ==> !RouteMatches(table[i].0, path)) ==> roles == []
    ensures forall i :: 0 <= i < |table| && RouteMatches(table[i].0, path) &&
                        (forall j :: 0 <= j < i ==> !RouteMatches(table[j].0, path)) ==>
                        roles == table[i].1
  {
    if table == [] then []
    else if RouteMatches(table[0].0, path) then table[0].1
    else
      var rest := FirstMatchRoles(table[1..], path);
      assert forall i :: 1 <= i < |table| ==> table[1..][i - 1] == table[i];
      rest
  }

  /** `getRolesForRoute`. */
  function GetRolesForRoute(path: string): seq<Role> {
    FirstMatchRoles(RoleBasedRoutes, path)
  }

  /** What the guard does with a request. */
  datatype Response =
    | Next                              // NextResponse.next(): let the request through
    | RedirectToLogin(callbackUrl: string) // redirect to /login?callbackUrl=...
    | RedirectToUnauthorized            // redirect to /unauthorized

  /** `middleware`: the decision for a request to `path` whose full URL is
      `requestUrl`, given the role carried by the verified session token
      (None when there is no valid token). The `/api/` branch of the source
      forwards the request unchanged, which is the same `Next`. */
  function Middleware(path: string, requestUrl: string, token: Option<Role>): Response {
    if IsProtectedRoute(path) then
      match token
      case None => RedirectToLogin(requestUrl)
      case Some(role) =>
        if IsRoleProtectedRoute(path) && role !in GetRolesForRoute(path) && role != Admin
        then RedirectToUnauthorized
        else Next
    else Next
  }

  // ---------------------------------------------------------------------
  // What the route tables compile to
  // ---------------------------------------------------------------------

  /** The atoms of a bracket-free route text: one literal per character. */
  function Lits(w: string): seq<Atom> {
    seq(|w|, i requires 0 <= i < |w| => Lit(w[i]))
  }

  lemma {:induction false} CompileLiteral(w: string, rest: string)
    requires '[' !in w
    ensures Compile(w + rest) == Lits(w) + Compile(rest)
  {
    if w != [] {
      assert (w + rest)[0] == w[0] && w[0] in w;
      assert (w + rest)[1..] == w[1..] + rest;
      assert '[' !in w[1..] by {
        forall c | c in w[1..] ensures c != '[' { assert c in w; }
      }
      CompileLiteral(w[1..], rest);
      var t := w + rest;
      assert Compile(t) == [Lit(t[0])] + Compile(t[1..]);
      assert Lits(w) == [Lit(w[0])] + Lits(w[1..]);
    } else {
      assert w + rest == rest && Lits(w) == [];
    }
  }

  lemma CompileParameter(name: string)
    requires ']' !in name && OnOneLine(name)
    ensures Compile("[" + name + "]") == [Segment]
  {
    var s := "[" + name + "]";
    AfterCloseSkips(name, "");
    assert s[1..] == name + "]" + "";
  }

  lemma {:induction false} AfterCloseSkips(name: string, rest: string)
    requires ']' !in name && OnOneLine(name)
    ensures AfterClose(name + "]" + rest) == Some(rest)
  {
    if name != [] {
      assert (name + "]" + rest)[0] == name[0];
      assert (name + "]" + rest)[1..] == name[1..] + "]" + rest;
      AfterCloseSkips(name[1..], rest);
    } else {
      assert (name + "]" + rest)[1..] == rest;
    }
  }

  /** A line terminator before the first `]` stops the search. */
  lemma {:induction false} AfterCloseStopsAtLineBreak(name: string, rest: string)
    requires ']' !in name && !OnOneLine(name)
    ensures AfterClose(name + "]" + rest) == None
  {
    var t := name + "]" + rest;
    assert t[0] == name[0];
    if !IsLineTerminator(name[0]) {
      assert !OnOneLine(name[1..]) by {
        var i :| 0 <= i < |name| && IsLineTerminator(name[i]);
        assert i != 0 && name[1..][i - 1] == name[i];
      }
      assert t[1..] == name[1..] + "]" + rest;
      AfterCloseStopsAtLineBreak(name[1..], rest);
    }
  }

  /** A `[name]` whose name holds a line break is not a parameter: the `[`
      stays a literal and compilation carries on with the next character. */
  lemma BracketAcrossLinesStaysLiteral(name: string)
    requires ']' !in name && !OnOneLine(name)
    ensures Compile("[" + name + "]") == [Lit('[')] + Compile(name + "]")
  {
    var s := "[" + name + "]";
    AfterCloseStopsAtLineBreak(name, "");
    assert s[0] == '[' && s[1..] == name + "]" + "" == name + "]";
    assert Compile(s) == [Lit(s[0])] + Compile(s[1..]);
  }

  lemma {:induction false} MatchesLits(w: string, rest: seq<Atom>, s: string)
    ensures MatchesPrefix(Lits(w) + rest, s) <==> StartsWith(s, w) && MatchesPrefix(rest, s[|w|..])
  {
    if w != [] {
      var p := Lits(w) + rest;
      assert p[0] == Lit(w[0]);
      assert p[1..] == Lits(w[1..]) + rest;
      if s == [] {
        assert !MatchesPrefix(p, s);
      } else {
        assert MatchesPrefix(p, s) <==> s[0] == w[0] && MatchesPrefix(p[1..], s[1..]);
        MatchesLits(w[1..], rest, s[1..]);
        StartsWithConcat(s, [w[0]], w[1..]);
        assert [w[0]] + w[1..] == w;
        assert s[..1] == [s[0]];
        if |s| >= |w| {
          assert s[1..][|w| - 1..] == s[|w|..];
        }
      }
    } else {
      assert Lits(w) + rest == rest && s[|w|..] == s;
    }
  }

  lemma MatchesOneSegment(s: string)
    ensures MatchesPrefix([Segment], s) <==> |s| > 0 && s[0] != '/'
  {
    if |s| > 0 && s[0] != '/' {
      assert '/' !in s[..1] && MatchesPrefix([Segment][1..], s[1..]);
    }
  }

  /** The four role-based entries, compiled: two literal paths and two
      directories followed by one path segment. */
  lemma CompiledEntry0()
    ensures Compile(RoleBasedRoutes[0].0) == Lits(EstablishmentsNew)
  {
    CompileLiteral(EstablishmentsNew, "");
    assert EstablishmentsNew + "" == RoleBasedRoutes[0].0;
  }

  lemma CompiledEntry1()
    ensures Compile(RoleBasedRoutes[1].0) == Lits(EstablishmentsDir) + [Segment]
  {
    CompiledDirEntry(EstablishmentsDir, "id", RoleBasedRoutes[1].0);
  }

  lemma CompiledEntry2()
    ensures Compile(RoleBasedRoutes[2].0) == Lits(MenusNew)
  {
    CompileLiteral(MenusNew, "");
    assert MenusNew + "" == RoleBasedRoutes[2].0;
  }

  lemma CompiledEntry3()
    ensures Compile(RoleBasedRoutes[3].0) == Lits(MenusDir) + [Segment]
  {
    CompiledDirEntry(MenusDir, "menuId", RoleBasedRoutes[3].0);
  }

  /** A directory followed by one bracketed parameter compiles to the
      directory's characters and one Segment. */
  lemma CompiledDirEntry(dir: string, name: string, route: string)
    requires route == dir + "[" + name + "]"
    requires '[' !in dir && ']' !in name && OnOneLine(name)
    ensures Compile(route) == Lits(dir) + [Segment]
  {
    CompileLiteral(dir, "[" + name + "]");
    CompileParameter(name);
    assert route == dir + ("[" + name + "]");
  }

  /** A path has one non-empty, slash-free segment right after `dir`. */
  predicate SegmentAfter(path: string, dir: string) {
    StartsWith(path, dir) && |path| > |dir| && path[|dir|] != '/'
  }

  /** Exactly which paths each role-based entry matches. */
  lemma RoleRoutesMatch(path: string)
    ensures RouteMatches(RoleBasedRoutes[0].0, path) <==> StartsWith(path, EstablishmentsNew)
    ensures RouteMatches(RoleBasedRoutes[1].0, path) <==> SegmentAfter(path, EstablishmentsDir)
    ensures RouteMatches(RoleBasedRoutes[2].0, path) <==> StartsWith(path, MenusNew)
    ensures RouteMatches(RoleBasedRoutes[3].0, path) <==> SegmentAfter(path, MenusDir)
  {
    CompiledEntry0();
    MatchesLits(EstablishmentsNew, [], path);
    assert Lits(EstablishmentsNew) + [] == Lits(EstablishmentsNew);
    CompiledEntry1();
    EntryWithParameterMatches(EstablishmentsDir, path);
    CompiledEntry2();
    MatchesLits(MenusNew, [], path);
    assert Lits(MenusNew) + [] == Lits(MenusNew);
    MenuEntryMatches(path);
  }

  lemma MenuEntryMatches(path: string)
    ensures RouteMatches(RoleBasedRoutes[3].0, path) <==> SegmentAfter(path, MenusDir)
  {
    CompiledEntry3();
    EntryWithParameterMatches(MenusDir, path);
  }

  lemma EntryWithParameterMatches(dir: string, path: string)
    ensures MatchesPrefix(Lits(dir) + [Segment], path) <==> SegmentAfter(path, dir)
  {
    MatchesLits(dir, [Segment], path);
    if |path| >= |dir| {
      MatchesOneSegment(path[|dir|..]);
    }
  }

  // ---------------------------------------------------------------------
  // Properties of the guard
  // ---------------------------------------------------------------------

  /** Every protected entry and every role pattern begins with
      `/dashboard`, and `/dashboard` itself is a protected entry, so a path
      is protected exactly when it starts with `/dashboard` as a plain
      string: `/dashboardX` is protected too. */
  lemma ProtectedIffDashboardPrefix(path: string)
    ensures IsProtectedRoute(path) <==> StartsWith(path, "/dashboard")
  {
    RoleRoutesMatch(path);
    if exists i :: 0 <= i < |ProtectedRoutes| && StartsWith(path, ProtectedRoutes[i]) {
      var i :| 0 <= i < |ProtectedRoutes| && StartsWith(path, ProtectedRoutes[i]);
      StartsWithTrans(path, ProtectedRoutes[i], "/dashboard");
    }
    if IsRoleProtectedRoute(path) {
      var i :| 0 <= i < |RoleBasedRoutes| && RouteMatches(RoleBasedRoutes[i].0, path);
      var dir := [EstablishmentsNew, EstablishmentsDir, MenusNew, MenusDir][i];
      assert StartsWith(path, dir);
      StartsWithTrans(path, dir, "/dashboard");
    }
    if StartsWith(path, "/dashboard") {
      assert StartsWith(path, ProtectedRoutes[0]);
    }
  }

  /** Every role-based entry lists at least one role and the fallback is
      `[]`, so a path is role-restricted exactly when it has roles. */
  lemma RoleProtectedIffHasRoles(path: string)
    ensures IsRoleProtectedRoute(path) <==> |GetRolesForRoute(path)| > 0
  {
    if IsRoleProtectedRoute(path) {
      var i :| 0 <= i < |RoleBasedRoutes| && RouteMatches(RoleBasedRoutes[i].0, path);
      var first := FirstIndex(path, i);
      assert GetRolesForRoute(path) == RoleBasedRoutes[first].1;
    }
  }

  /** The least index of a matching role-based entry, given one match at `i`. */
  lemma FirstIndex(path: string, i: nat) returns (first: nat)
    requires i < |RoleBasedRoutes| && RouteMatches(RoleBasedRoutes[i].0, path)
    ensures first <= i && RouteMatches(RoleBasedRoutes[first].0, path)
    ensures forall j :: 0 <= j < first ==> !RouteMatches(RoleBasedRoutes[j].0, path)
  {
    first := 0;
    while !RouteMatches(RoleBasedRoutes[first].0, path)
      invariant first <= i
      invariant forall j :: 0 <= j < first ==> !RouteMatches(RoleBasedRoutes[j].0, path)
      decreases i - first
    {
      first := first + 1;
    }
  }

  /** An unprotected path passes whatever the token. */
  lemma UnprotectedPassesThrough(path: string, requestUrl: string, token: Option<Role>)
    requires !IsProtectedRoute(path)
    ensures Middleware(path, requestUrl, token) == Next
  {
  }

  /** A protected path without a token goes to the login page with the
      original URL as callback, before any role check. */
  lemma NoTokenGoesToLogin(path: string, requestUrl: string)
    requires IsProtectedRoute(path)
    ensures Middleware(path, requestUrl, None) == RedirectToLogin(requestUrl)
  {
  }

  /** Only two dispositions need a token, and a request with a token is
      never sent to the login page. */
  lemma TokenNeverGoesToLogin(path: string, requestUrl: string, role: Role)
    ensures !Middleware(path, requestUrl, Some(role)).RedirectToLogin?
  {
  }

  /** The admin role is never sent to `/unauthorized`. */
  lemma AdminNeverUnauthorized(path: string, requestUrl: string)
    ensures Middleware(path, requestUrl, Some(Admin)) != RedirectToUnauthorized
  {
  }

  /** On a role-restricted path, a non-admin is refused exactly when its
      role is outside the roles of the first matching entry. */
  lemma RoleRestrictedDecision(path: string, requestUrl: string, role: Role)
    requires IsRoleProtectedRoute(path) && role != Admin
    ensures Middleware(path, requestUrl, Some(role)) == RedirectToUnauthorized
            <==> role !in GetRolesForRoute(path)
    ensures Middleware(path, requestUrl, Some(role)) == Next <==> role in GetRolesForRoute(path)
  {
  }

  /** A token-holding request on a protected path that no role pattern
      matches passes, whatever its role (`consumer` included). */
  lemma AuthenticationOnlyPaths(path: string, requestUrl: string, role: Role)
    requires IsProtectedRoute(path) && !IsRoleProtectedRoute(path)
    ensures Middleware(path, requestUrl, Some(role)) == Next
  {
  }

  /** `/dashboard` and `/dashboard/menus` need a session but no role. */
  lemma DashboardAndMenusNeedNoRole()
    ensures IsProtectedRoute("/dashboard") && !IsRoleProtectedRoute("/dashboard")
    ensures IsProtectedRoute("/dashboard/menus") && !IsRoleProtectedRoute("/dashboard/menus")
  {
    RoleRoutesMatch("/dashboard");
    RoleRoutesMatch("/dashboard/menus");
    ProtectedIffDashboardPrefix("/dashboard");
    ProtectedIffDashboardPrefix("/dashboard/menus");
  }

  /** `/dashboardX` is protected: protection is a plain string prefix. */
  lemma DashboardXIsProtected()
    ensures IsProtectedRoute("/dashboardX")
  {
    ProtectedIffDashboardPrefix("/dashboardX");
  }

  /** Every path that merely begins with `/dashboard/establishments/new`
      (such as `/dashboard/establishments/new-thing`) gets the roles of
      `new`: the pattern is not anchored at the end, and `new` is tried first. */
  lemma NewPrefixGetsRolesOfNew(p: string)
    requires StartsWith(p, EstablishmentsNew)
    ensures GetRolesForRoute(p) == RoleBasedRoutes[0].1
  {
    RoleRoutesMatch(p);
  }

  /** A path with a segment after `/dashboard/menus/` other than `new`
      gets the roles of the menu entry. */
  lemma MenuItemRoles(p: string)
    requires SegmentAfter(p, MenusDir) && !StartsWith(p, MenusNew)
    ensures IsProtectedRoute(p) && GetRolesForRoute(p) == RoleBasedRoutes[3].1
  {
    RoleRoutesMatch(p);
    assert p[..|MenusDir|] == MenusDir;
    assert p[11] == MenusDir[11] && MenusDir[11] != EstablishmentsDir[11];
    assert EstablishmentsNew[11] == EstablishmentsDir[11];
    assert !StartsWith(p, EstablishmentsDir) && !StartsWith(p, EstablishmentsNew);
    assert RouteMatches(RoleBasedRoutes[3].0, p);
  }

  /** A parameter stands for exactly one non-empty segment, and what
      follows it is not constrained. */
  lemma MenuParameterMatchesOneSegment(item: string, nested: string, near: string)
    requires item == MenusDir + "42" && nested == item + "/settings"
    requires near == Dashboard + "/menuXYZ"
    ensures RouteMatches(RoleBasedRoutes[3].0, item)
    ensures RouteMatches(RoleBasedRoutes[3].0, nested)
    ensures !RouteMatches(RoleBasedRoutes[3].0, near)
  {
    MenuEntryMatches(item);
    MenuEntryMatches(nested);
    MenuEntryMatches(near);
    assert item[..|MenusDir|] == MenusDir && item[|MenusDir|] == '4';
    assert nested[..|item|] == item;
    assert near[15] != MenusDir[15];
  }

  /** First match wins: `establishment_staff` is refused on
      `/dashboard/establishments/new` although the later `[id]` entry also
      matches that path and would allow it. */
  lemma FirstMatchWins(requestUrl: string)
    ensures RouteMatches(RoleBasedRoutes[1].0, EstablishmentsNew)
    ensures "establishment_staff" in RoleBasedRoutes[1].1
    ensures Middleware(EstablishmentsNew, requestUrl, Some("establishment_staff")) == RedirectToUnauthorized
  {
    RoleRoutesMatch(EstablishmentsNew);
    ProtectedIffDashboardPrefix(EstablishmentsNew);
  }

  /** End-to-end scenarios of the guard. */
  lemma ScenarioNoSession()
    ensures Middleware("/dashboard", "/dashboard", None) == RedirectToLogin("/dashboard")
  {
    ProtectedIffDashboardPrefix("/dashboard");
  }

  lemma ScenarioStaffOnNew()
    ensures Middleware(EstablishmentsNew, EstablishmentsNew, Some("establishment_staff")) == RedirectToUnauthorized
  {
    FirstMatchWins(EstablishmentsNew);
  }

  lemma ScenarioAdminOnNew()
    ensures Middleware(EstablishmentsNew, EstablishmentsNew, Some(Admin)) == Next
  {
    ProtectedIffDashboardPrefix(EstablishmentsNew);
  }

  lemma ScenarioLogin()
    ensures Middleware("/login", "/login", None) == Next
  {
    ProtectedIffDashboardPrefix("/login");
  }

  lemma ScenarioStaffOnMenu(p: string)
    requires p == MenusDir + "7"
    ensures Middleware(p, p, Some("establishment_staff")) == Next
  {
    assert p[|MenusDir|] == '7' && MenusNew[|MenusDir|] == 'n';
    assert !StartsWith(p, MenusNew);
    MenuItemRoles(p);
  }
}
