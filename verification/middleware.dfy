/** The route gate of `src/middleware.ts`: a decision from the request
    pathname and the outcome of the session lookup. Because `"/"` is one of
    the public prefixes, every pathname that begins with `/` is public and the
    two redirect branches cannot be reached by any real request path;
    `CorrectedGate` is the gate with `"/"` matched exactly. */
module Middleware {
  import opened Common

  const PublicPaths: seq<string> := ["/_next", "/api", "/favicon.ico", "/", "/login", "/signup", "/auth/"]

  /** What the gate does with the request. */
  datatype Response =
    | Next
    | Redirect(path: string, param: string, value: string)

  /** `paths.some(path => pathname === path || pathname.startsWith(path))`. */
  /** The `pathname === path` test adds nothing: a listed path matches itself
      as a prefix, and every match is a prefix match. */
  function MatchesAny(paths: seq<string>, pathname: string): (r: bool)
    ensures pathname in paths ==> r
    ensures r ==> exists k :: 0 <= k < |paths| && StartsWith(pathname, paths[k])
  {
    if paths == [] then false
    else if pathname == paths[0] || StartsWith(pathname, paths[0]) then
      assert StartsWith(pathname, paths[0]) by { assert pathname == paths[0] ==> pathname[..|pathname|] == pathname; }
      true
    else
      var r := MatchesAny(paths[1..], pathname);
      assert pathname in paths ==> pathname in paths[1..] by { assert paths == [paths[0]] + paths[1..]; }
      assert r ==> exists k :: 0 <= k < |paths| && StartsWith(pathname, paths[k]) by {
        if r {
          var k :| 0 <= k < |paths[1..]| && StartsWith(pathname, paths[1..][k]);
          assert paths[k + 1] == paths[1..][k];
        }
      }
      r
  }

  /** Only pathnames that begin with `/` are public: every listed path does. */
  predicate IsPublicPath(pathname: string)
    ensures IsPublicPath(pathname) ==> pathname != [] && pathname[0] == '/'
  {
    var r := MatchesAny(PublicPaths, pathname);
    assert r ==> pathname != [] && pathname[0] == '/' by {
      if r {
        var k :| 0 <= k < |PublicPaths| && StartsWith(pathname, PublicPaths[k]);
        assert PublicPaths[k][0] == '/';
      }
    }
    r
  }

  /** `middleware(request)` as written: public paths pass without a session
      lookup; otherwise no session redirects to `/login?from=<pathname>`, a
      session passes, and an exception redirects to `/login?error=auth_error`. */
  function Gate(pathname: string, lookup: SessionLookup): (r: Response)
    ensures r == Next <==> IsPublicPath(pathname) || lookup.Session?
    ensures r.Redirect? ==> r.path == "/login"
    ensures r.Redirect? ==> (r.param == "from" <==> lookup == NoSession)
    ensures r.Redirect? && r.param == "from" ==> r.value == pathname
  {
    if IsPublicPath(pathname) then Next
    else match lookup
      case NoSession => Redirect("/login", "from", pathname)
      case Session(_) => Next
      case LookupThrows => Redirect("/login", "error", "auth_error")
  }

  lemma {:induction false} MatchesAnyIff(paths: seq<string>, pathname: string)
    ensures MatchesAny(paths, pathname) <==>
            exists k :: 0 <= k < |paths| && (pathname == paths[k] || StartsWith(pathname, paths[k]))
  {
    if paths != [] {
      MatchesAnyIff(paths[1..], pathname);
      if MatchesAny(paths[1..], pathname) {
        var k :| 0 <= k < |paths[1..]| && (pathname == paths[1..][k] || StartsWith(pathname, paths[1..][k]));
        assert paths[k + 1] == paths[1..][k];
      }
      if exists k :: 0 <= k < |paths| && (pathname == paths[k] || StartsWith(pathname, paths[k])) {
        var k :| 0 <= k < |paths| && (pathname == paths[k] || StartsWith(pathname, paths[k]));
        if k > 0 {
          assert paths[1..][k - 1] == paths[k];
        }
      }
    }
  }

  /** A pathname is public iff it equals, or starts with, one of the seven
      listed paths; the test is on characters, not on path segments. */
  lemma PublicPathIff(pathname: string)
    ensures IsPublicPath(pathname) <==>
            exists p :: p in PublicPaths && (pathname == p || StartsWith(pathname, p))
  {
    MatchesAnyIff(PublicPaths, pathname);
    if IsPublicPath(pathname) {
      var k :| 0 <= k < |PublicPaths| && (pathname == PublicPaths[k] || StartsWith(pathname, PublicPaths[k]));
      assert PublicPaths[k] in PublicPaths;
    }
    if exists p :: p in PublicPaths && (pathname == p || StartsWith(pathname, p)) {
      var p :| p in PublicPaths && (pathname == p || StartsWith(pathname, p));
      var k :| 0 <= k < |PublicPaths| && PublicPaths[k] == p;
    }
  }

  /** Prefix matching is not segment-aware: `/apix` and `/loginx` are public. */
  lemma PrefixMatchIgnoresSegments()
    ensures IsPublicPath("/apix") && IsPublicPath("/loginx") && IsPublicPath("/signup-old")
  {
    assert StartsWith("/apix", "/api");
    assert StartsWith("/loginx", "/login");
    assert StartsWith("/signup-old", "/signup");
  }

  /** The finding: every pathname that begins with `/` is public. */
  lemma EveryRootedPathIsPublic(pathname: string)
    requires |pathname| > 0 && pathname[0] == '/'
    ensures IsPublicPath(pathname)
  {
    PublicPathIff(pathname);
    assert StartsWith(pathname, "/");
  }

  /** Every listed path begins with `/`, so exactly the pathnames that are
      empty or begin with another character are protected. */
  lemma ProtectedIffNotRooted(pathname: string)
    ensures !IsPublicPath(pathname) <==> (pathname == [] || pathname[0] != '/')
  {
    PublicPathIff(pathname);
    if pathname != [] && pathname[0] == '/' {
      EveryRootedPathIsPublic(pathname);
    }
    if IsPublicPath(pathname) {
      var p :| p in PublicPaths && (pathname == p || StartsWith(pathname, p));
      assert p[0] == '/';
      assert pathname[0] == p[0];
    }
  }

  /** Hence the gate lets every rooted pathname through, whatever the session. */
  lemma RootedPathsAlwaysPass(pathname: string, lookup: SessionLookup)
    requires |pathname| > 0 && pathname[0] == '/'
    ensures Gate(pathname, lookup) == Next
  {
    EveryRootedPathIsPublic(pathname);
  }

  /** A protected page such as `/dashboard` is served without a session. */
  lemma DashboardServedWithoutSession()
    ensures Gate("/dashboard", NoSession) == Next
    ensures Gate("/documents/new", LookupThrows) == Next
  {
    RootedPathsAlwaysPass("/dashboard", NoSession);
    RootedPathsAlwaysPass("/documents/new", LookupThrows);
  }

  /** Public paths pass without consulting the session: the lookup's outcome does not matter. */
  lemma PublicPathsIgnoreSession(pathname: string, l1: SessionLookup, l2: SessionLookup)
    requires IsPublicPath(pathname)
    ensures Gate(pathname, l1) == Gate(pathname, l2) == Next
  {
  }

  /** The decision for a protected pathname, one case per lookup outcome. */
  lemma ProtectedPathDecision(pathname: string, lookup: SessionLookup)
    requires pathname == [] || pathname[0] != '/'
    ensures lookup.NoSession? ==> Gate(pathname, lookup) == Redirect("/login", "from", pathname)
    ensures lookup.Session? ==> Gate(pathname, lookup) == Next
    ensures lookup.LookupThrows? ==> Gate(pathname, lookup) == Redirect("/login", "error", "auth_error")
  {
    ProtectedIffNotRooted(pathname);
  }

  /** The only redirect target is `/login`; no branch sends anyone to `/dashboard`. */
  lemma RedirectsOnlyToLogin(pathname: string, lookup: SessionLookup)
    ensures Gate(pathname, lookup).Redirect? ==> Gate(pathname, lookup).path == "/login"
    ensures Gate(pathname, lookup) != Redirect("/dashboard", "", "")
  {
  }

  // The gate as evidently intended: the root page is public, but only itself.

  const ExactPublicPaths: seq<string> := ["/"]
  const PrefixPublicPaths: seq<string> := ["/_next", "/api", "/favicon.ico", "/login", "/signup", "/auth/"]

  predicate IsPublicPathCorrected(pathname: string)
  {
    pathname in ExactPublicPaths || MatchesAny(PrefixPublicPaths, pathname)
  }

  function CorrectedGate(pathname: string, lookup: SessionLookup): (r: Response)
    ensures r == Next <==> IsPublicPathCorrected(pathname) || lookup.Session?
    ensures r.Redirect? ==> r.path == "/login"
    ensures r.Redirect? ==> (r.param == "from" <==> lookup == NoSession)
    ensures r.Redirect? && r.param == "from" ==> r.value == pathname
  {
    if IsPublicPathCorrected(pathname) then Next
    else match lookup
      case NoSession => Redirect("/login", "from", pathname)
      case Session(_) => Next
      case LookupThrows => Redirect("/login", "error", "auth_error")
  }

  /** The corrected gate is narrower: whatever it treats as public, the gate as written does too. */
  lemma CorrectedIsNarrower(pathname: string)
    ensures IsPublicPathCorrected(pathname) ==> IsPublicPath(pathname)
  {
    MatchesAnyIff(PrefixPublicPaths, pathname);
    MatchesAnyIff(PublicPaths, pathname);
    if MatchesAny(PrefixPublicPaths, pathname) {
      var k :| 0 <= k < |PrefixPublicPaths| && (pathname == PrefixPublicPaths[k] || StartsWith(pathname, PrefixPublicPaths[k]));
      var j := if k < 3 then k else k + 1;
      assert PublicPaths[j] == PrefixPublicPaths[k];
    }
  }

  /** Under the corrected gate a protected page demands a session: none
      redirects to `/login?from=<pathname>`, an error to `/login?error=auth_error`,
      and a session lets the request through. */
  lemma CorrectedGateProtectsDashboard()
    ensures CorrectedGate("/dashboard", NoSession) == Redirect("/login", "from", "/dashboard")
    ensures CorrectedGate("/dashboard", LookupThrows) == Redirect("/login", "error", "auth_error")
    ensures CorrectedGate("/dashboard", Session("u1")) == Next
    ensures CorrectedGate("/", NoSession) == Next && CorrectedGate("/login", NoSession) == Next
  {
    var d := "/dashboard";
    assert d[1] == 'd';
    forall p | p in PrefixPublicPaths ensures !StartsWith(d, p) {
      assert |p| >= 2 && p[1] != 'd';
    }
    MatchesAnyIff(PrefixPublicPaths, d);
  }

  /** The two gates agree on every pathname the corrected one treats as public,
      and differ only by redirecting where the gate as written lets through. */
  lemma CorrectedGateOnlyAddsRedirects(pathname: string, lookup: SessionLookup)
    ensures CorrectedGate(pathname, lookup) != Gate(pathname, lookup) ==>
            Gate(pathname, lookup) == Next && CorrectedGate(pathname, lookup).Redirect?
  {
    CorrectedIsNarrower(pathname);
  }
}
