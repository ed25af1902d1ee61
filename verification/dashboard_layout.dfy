/** The dashboard shell: the `classNames` joiner and which navigation
    items are highlighted for the current pathname. */
module DashboardLayout {
  import opened Text
  import RouteGuard

  /** An argument of `classNames`: a class string, or a non-string falsy
      value such as `false` or `undefined`. */
  datatype ClassArg = Class(s: string) | Falsy

  /** `Boolean(arg)`: the empty string is falsy too. */
  predicate Truthy(a: ClassArg) {
    a.Class? && a.s != ""
  }

  /** `classes.filter(Boolean)`, as strings. */
  function TruthyClasses(args: seq<ClassArg>): (r: seq<string>)
    ensures |r| <= |args|
    ensures forall c :: c in r <==> Class(c) in args && c != ""
  {
    if args == [] then []
    else
      var rest := TruthyClasses(args[1..]);
      assert forall a :: a in args <==> a == args[0] || a in args[1..];
      if Truthy(args[0]) then [args[0].s] + rest else rest
  }

  /** `parts.join(' ')`. */
  function Join(parts: seq<string>): string {
    if parts == [] then ""
    else if |parts| == 1 then parts[0]
    else parts[0] + " " + Join(parts[1..])
  }

  /** `classNames(...classes)`. */
  function ClassNames(args: seq<ClassArg>): string {
    Join(TruthyClasses(args))
  }

  /** `filter(Boolean)` distributes over concatenation: the kept strings of
      `a + b` are those of `a` followed by those of `b`, in order and with
      their repetitions. */
  lemma {:induction false} TruthyClassesAppend(a: seq<ClassArg>, b: seq<ClassArg>)
    ensures TruthyClasses(a + b) == TruthyClasses(a) + TruthyClasses(b)
  {
    if a == [] {
      assert a + b == b;
    } else {
      assert (a + b)[0] == a[0];
      assert (a + b)[1..] == a[1..] + b;
      TruthyClassesAppend(a[1..], b);
    }
  }

  /** A single argument is kept exactly when it is a non-empty string. */
  lemma TruthyClassesOfOne(a: ClassArg)
    ensures TruthyClasses([a]) == if Truthy(a) then [a.s] else []
  {
    assert [a][1..] == [];
  }

  /** Joining two non-empty lists puts one space between their joins. */
  lemma {:induction false} JoinAppend(a: seq<string>, b: seq<string>)
    requires a != [] && b != []
    ensures Join(a + b) == Join(a) + " " + Join(b)
  {
    assert (a + b)[0] == a[0];
    assert (a + b)[1..] == a[1..] + b;
    if |a| == 1 {
      assert a[1..] + b == b;
    } else {
      JoinAppend(a[1..], b);
    }
  }

  /** `classNames` of a concatenation: the classes of each side, separated
      by one space when both sides contribute. With `ClassNamesOfOne` this
      fixes the result for every argument list, spaces inside the class
      strings included. */
  lemma ClassNamesAppend(a: seq<ClassArg>, b: seq<ClassArg>)
    ensures TruthyClasses(a) == [] ==> ClassNames(a + b) == ClassNames(b)
    ensures TruthyClasses(b) == [] ==> ClassNames(a + b) == ClassNames(a)
    ensures TruthyClasses(a) != [] && TruthyClasses(b) != [] ==>
              ClassNames(a + b) == ClassNames(a) + " " + ClassNames(b)
  {
    TruthyClassesAppend(a, b);
    if TruthyClasses(a) == [] {
      assert TruthyClasses(a) + TruthyClasses(b) == TruthyClasses(b);
    } else if TruthyClasses(b) == [] {
      assert TruthyClasses(a) + TruthyClasses(b) == TruthyClasses(a);
    } else {
      JoinAppend(TruthyClasses(a), TruthyClasses(b));
    }
  }

  /** One argument gives its string when truthy and `''` otherwise. */
  lemma ClassNamesOfOne(a: ClassArg)
    ensures ClassNames([a]) == if Truthy(a) then a.s else ""
  {
    TruthyClassesOfOne(a);
  }

  /** The two-argument calls of the navigation links: both classes kept,
      in order, with one space between them, whatever spaces they hold. */
  lemma ClassNamesOfTwo(x: string, y: string)
    requires x != "" && y != ""
    ensures ClassNames([Class(x), Class(y)]) == x + " " + y
  {
    assert [Class(x), Class(y)] == [Class(x)] + [Class(y)];
    ClassNamesOfOne(Class(x));
    ClassNamesOfOne(Class(y));
    TruthyClassesOfOne(Class(x));
    TruthyClassesOfOne(Class(y));
    ClassNamesAppend([Class(x)], [Class(y)]);
  }

  /** With no truthy argument the result is the empty string. */
  lemma {:induction false} AllFalsyGivesEmpty(args: seq<ClassArg>)
    requires forall k :: 0 <= k < |args| ==> !Truthy(args[k])
    ensures TruthyClasses(args) == [] && ClassNames(args) == ""
  {
    if args != [] {
      AllFalsyGivesEmpty(args[1..]);
    }
  }

  /** An entry of the navigation list. */
  datatype NavItem = NavItem(name: string, href: string)

  const Navigation: seq<NavItem> := [
    NavItem("Dashboard", RouteGuard.Dashboard),
    NavItem("Establishments", RouteGuard.Dashboard + "/establishments"),
    NavItem("Menus", RouteGuard.Dashboard + "/menus"),
    NavItem("QR Codes", RouteGuard.Dashboard + "/qrcodes"),
    NavItem("Settings", RouteGuard.Dashboard + "/settings")
  ]

  /** `isActive`, the rule both the mobile and the desktop lists apply. */
  predicate IsActive(pathname: string, href: string) {
    pathname == href || StartsWith(pathname, href + "/")
  }

  /** An item is active exactly when the pathname starts with its href at
      a segment boundary: nothing follows, or a `/` does. */
  lemma IsActiveMeaning(pathname: string, href: string)
    ensures IsActive(pathname, href) <==>
            StartsWith(pathname, href) && (|pathname| == |href| || pathname[|href|] == '/')
  {
    if StartsWith(pathname, href) && |pathname| > |href| && pathname[|href|] == '/' {
      assert pathname[..|href| + 1] == pathname[..|href|] + [pathname[|href|]];
    }
    if StartsWith(pathname, href + "/") {
      assert pathname[..|href|] == (href + "/")[..|href|];
    }
  }

  /** Which items of the navigation list are highlighted. */
  function ActiveFlags(pathname: string): seq<bool> {
    seq(|Navigation|, k requires 0 <= k < |Navigation| => IsActive(pathname, Navigation[k].href))
  }

  /** The k-th item is highlighted exactly when the pathname starts with
      its href at a segment boundary; the mobile and the desktop lists
      agree, as both use this rule. */
  lemma ActiveFlagsMeaning(pathname: string, k: nat)
    requires k < |Navigation|
    ensures |ActiveFlags(pathname)| == |Navigation|
    ensures var href := Navigation[k].href;
            ActiveFlags(pathname)[k] <==>
            StartsWith(pathname, href) && (|pathname| == |href| || pathname[|href|] == '/')
  {
    IsActiveMeaning(pathname, Navigation[k].href);
  }

  /** The Menus item respects segment boundaries where the route guard
      does not: `/dashboard/menusX` does not activate Menus, yet the guard
      protects it. */
  lemma MenusXNotActiveButProtected(p: string)
    requires p == RouteGuard.Dashboard + "/menusX"
    ensures !ActiveFlags(p)[2]
    ensures RouteGuard.IsProtectedRoute(p)
  {
    IsActiveMeaning(p, Navigation[2].href);
    assert p[|Navigation[2].href|] == 'X';
    assert p[..|RouteGuard.Dashboard|] == RouteGuard.Dashboard;
    RouteGuard.ProtectedIffDashboardPrefix(p);
  }

  /** Several items can be active at once: a page under the menus section
      highlights both Dashboard and Menus. */
  lemma DashboardAndSectionBothActive(p: string)
    requires StartsWith(p, RouteGuard.Dashboard + "/menus/")
    ensures ActiveFlags(p)[0] && ActiveFlags(p)[2]
  {
    var menusSlash := RouteGuard.Dashboard + "/menus/";
    assert p[..|menusSlash|] == menusSlash;
    assert p[..|RouteGuard.Dashboard| + 1] == menusSlash[..|RouteGuard.Dashboard| + 1];
    assert menusSlash[..|RouteGuard.Dashboard| + 1] == RouteGuard.Dashboard + "/";
  }

  /** Every page below `/dashboard/` highlights the Dashboard item. */
  lemma DashboardActiveBelowDashboard(p: string)
    requires StartsWith(p, RouteGuard.Dashboard + "/")
    ensures ActiveFlags(p)[0]
  {
  }
}
