/**
 * The page middleware: an allow-list of page paths (anything else is sent to
 * `/not-found`), wrapped by an authorization callback that guards `/admin`
 * and `/profile`, and a matcher that decides which requests it sees at all.
 */
module Middleware {
  import opened Wrappers
  import opened Text

  datatype Decision = Next | RedirectNotFound | RedirectSignIn

  const NotFoundPath: string := "/not-found"
  const SignInPath: string := "/login"

  /** Prefixes of framework and asset paths that are never checked. */
  const SkippedPrefixes: seq<string> := ["/_next", "/api", "/static", "/social", "/icons"]

  /** Prefixes of the dynamic page routes, always let through. */
  const DynamicPrefixes: seq<string> := ["/brand/", "/product/", "/category/", "/dashboard/"]

  /** Exact page paths; the `:path*` entries are compared as literal text. */
  const ValidPaths: seq<string> := [
    "/", "/about", "/new", "/review", "/faq", "/contact", "/login", "/register",
    "/forgot-password", "/reset-password", "/email-verified", "/register-success",
    "/cart", "/user", "/order", "/search", "/brand/:path*", "/product/:path*",
    "/category/:path*", "/favorite", "/order-confirm", "/checkout", "/not-found",
    "/unauthorized", "/register-admin", "/dashboard", "/dashboard/:path*"]

  const ValidPrefixes: seq<string> := [
    "/iphone-", "/ipad-", "/watch-", "/mac-", "/airpods-", "/chinh-sach-",
    "/huong-dan-", "/user/", "/dashboard/"]

  /** `prefixes.some(p => path.startsWith(p))`, scanning left to right. */
  function SomeStartsWith(path: string, prefixes: seq<string>): bool
  {
    if prefixes == [] then false
    else StartsWith(path, prefixes[0]) || SomeStartsWith(path, prefixes[1..])
  }

  lemma {:induction false} SomeStartsWithExists(path: string, prefixes: seq<string>)
    ensures SomeStartsWith(path, prefixes) <==> exists i :: 0 <= i < |prefixes| && StartsWith(path, prefixes[i])
  {
    if prefixes != [] {
      SomeStartsWithExists(path, prefixes[1..]);
      if SomeStartsWith(path, prefixes[1..]) {
        var i :| 0 <= i < |prefixes[1..]| && StartsWith(path, prefixes[1..][i]);
        assert StartsWith(path, prefixes[i + 1]);
      }
      if exists i :: 0 <= i < |prefixes| && StartsWith(path, prefixes[i]) {
        var i :| 0 <= i < |prefixes| && StartsWith(path, prefixes[i]);
        if i > 0 {
          assert StartsWith(path, prefixes[1..][i - 1]);
        }
      }
    }
  }

  /** The path check the middleware function applies. */
  function CheckPath(path: string): (d: Decision)
    ensures d != RedirectSignIn
    ensures path in ValidPaths ==> d == Next
  {
    if SomeStartsWith(path, SkippedPrefixes) then Next
    else if SomeStartsWith(path, DynamicPrefixes) then Next
    else if path !in ValidPaths && !SomeStartsWith(path, ValidPrefixes) then RedirectNotFound
    else Next
  }

  /** A path passes exactly when it has a skipped, dynamic or valid prefix, or is a valid path. */
  lemma CheckPathAllows(path: string)
    ensures CheckPath(path) != RedirectSignIn
    ensures CheckPath(path) == Next <==>
      || (exists i :: 0 <= i < |SkippedPrefixes| && StartsWith(path, SkippedPrefixes[i]))
      || (exists i :: 0 <= i < |DynamicPrefixes| && StartsWith(path, DynamicPrefixes[i]))
      || path in ValidPaths
      || (exists i :: 0 <= i < |ValidPrefixes| && StartsWith(path, ValidPrefixes[i]))
  {
    SomeStartsWithExists(path, SkippedPrefixes);
    SomeStartsWithExists(path, DynamicPrefixes);
    SomeStartsWithExists(path, ValidPrefixes);
  }

  /** The redirect target is allowed, so a redirect never leads to another. */
  lemma NotFoundAllowed()
    ensures CheckPath(NotFoundPath) == Next
  {
    assert NotFoundPath == ValidPaths[22];
  }

  /** No prefix in `prefixes` starts `path`. */
  lemma {:induction false} NoneStartsWith(path: string, prefixes: seq<string>)
    requires forall i :: 0 <= i < |prefixes| ==> !StartsWith(path, prefixes[i])
    ensures !SomeStartsWith(path, prefixes)
  {
    SomeStartsWithExists(path, prefixes);
  }

  /** The two characters after the leading `/`, which tell most listed prefixes apart. */
  function Lead(path: string): (char, char)
    requires |path| >= 3
  {
    (path[1], path[2])
  }

  lemma NoSkippedPrefix(path: string)
    requires |path| >= 3 && Lead(path) !in {('_', 'n'), ('a', 'p'), ('s', 't'), ('s', 'o'), ('i', 'c')}
    ensures !SomeStartsWith(path, SkippedPrefixes)
  {
    forall i | 0 <= i < |SkippedPrefixes| ensures !StartsWith(path, SkippedPrefixes[i]) {
      assert i == 0 || i == 1 || i == 2 || i == 3 || i == 4;
    }
    NoneStartsWith(path, SkippedPrefixes);
  }

  lemma NoDynamicPrefix(path: string)
    requires |path| >= 3 && Lead(path) !in {('b', 'r'), ('p', 'r'), ('c', 'a'), ('d', 'a')}
    ensures !SomeStartsWith(path, DynamicPrefixes)
  {
    forall i | 0 <= i < |DynamicPrefixes| ensures !StartsWith(path, DynamicPrefixes[i]) {
      assert i == 0 || i == 1 || i == 2 || i == 3;
    }
    NoneStartsWith(path, DynamicPrefixes);
  }

  lemma NoValidPrefix(path: string)
    requires |path| >= 3
    requires Lead(path) !in {('i', 'p'), ('w', 'a'), ('m', 'a'), ('a', 'i'), ('c', 'h'), ('h', 'u'), ('u', 's'), ('d', 'a')}
    ensures !SomeStartsWith(path, ValidPrefixes)
  {
    forall i | 0 <= i < |ValidPrefixes| ensures !StartsWith(path, ValidPrefixes[i]) {
      assert i == 0 || i == 1 || i == 2 || i == 3 || i == 4 || i == 5 || i == 6 || i == 7 || i == 8;
    }
    NoneStartsWith(path, ValidPrefixes);
  }

  /** A bare dynamic-route root, without its trailing `/`, is not on the allow-list. */
  lemma BareRootRedirected(r: string)
    requires r == "/brand" || r == "/product" || r == "/category"
    ensures CheckPath(r) == RedirectNotFound
  {
    assert Lead(r) in {('b', 'r'), ('p', 'r'), ('c', 'a')};
    NoSkippedPrefix(r);
    NoValidPrefix(r);
    RootNotDynamic(r);
    RootNotValidPath(r);
  }

  lemma RootNotValidPath(r: string)
    requires r == "/brand" || r == "/product" || r == "/category"
    ensures r !in ValidPaths
  {
    forall i | 0 <= i < |ValidPaths| ensures r != ValidPaths[i] {
      assert
        || i == 0 || i == 1 || i == 2 || i == 3 || i == 4 || i == 5 || i == 6 || i == 7 || i == 8
        || i == 9 || i == 10 || i == 11 || i == 12 || i == 13 || i == 14 || i == 15 || i == 16 || i == 17
        || i == 18 || i == 19 || i == 20 || i == 21 || i == 22 || i == 23 || i == 24 || i == 25 || i == 26;
    }
  }

  lemma RootNotDynamic(r: string)
    requires r == "/brand" || r == "/product" || r == "/category"
    ensures !SomeStartsWith(r, DynamicPrefixes)
  {
    assert r[1] in {'b', 'p', 'c'};
    forall i | 0 <= i < |DynamicPrefixes| ensures !StartsWith(r, DynamicPrefixes[i]) {
      assert i == 0 || i == 1 || i == 2 || i == 3;
      assert |r| < |DynamicPrefixes[i]| || r[1] != DynamicPrefixes[i][1];
    }
    NoneStartsWith(r, DynamicPrefixes);
  }

  /**
   * The `/brand/:path*`-style entries are matched as literal text: the bare
   * roots `/brand`, `/product` and `/category` are redirected, while
   * `/dashboard`, listed on its own, is allowed.
   */
  lemma PatternEntriesAreLiteral()
    ensures CheckPath("/brand") == RedirectNotFound
    ensures CheckPath("/product") == RedirectNotFound
    ensures CheckPath("/category") == RedirectNotFound
    ensures CheckPath("/dashboard") == Next
  {
    BareRootRedirected("/brand");
    BareRootRedirected("/product");
    BareRootRedirected("/category");
    assert "/dashboard" == ValidPaths[25];
  }

  // ---------------------------------------------------------------- authorization

  /** The session token; `role` is whatever the token carries. */
  datatype Token = Token(role: Option<string>)

  /** The `authorized` callback. */
  function Authorized(path: string, token: Option<Token>): (b: bool)
    ensures !StartsWith(path, "/admin") && !StartsWith(path, "/profile") ==> b
    ensures token.Some? && token.value.role == Some("ADMIN") ==> b
  {
    if StartsWith(path, "/admin") then token.Some? && token.value.role == Some("ADMIN")
    else if StartsWith(path, "/profile") then token.Some?
    else true
  }

  /** Words the catch-all matcher excludes right after the leading `/`. */
  const MatcherExcluded: seq<string> := [
    "_next", "api", "static", "images", "icons", "login", "register",
    "forgot-password", "reset-password", "unauthorized", "not-found"]

  /**
   * `config.matcher`: `/admin/:path*`, `/profile/:path*`, and every path whose
   * text after the leading `/` does not start with an excluded word.
   */
  function Matched(path: string): (b: bool)
    ensures StartsWith(path, "/admin/") || StartsWith(path, "/profile/") ==> b
  {
    || path == "/admin" || StartsWith(path, "/admin/")
    || path == "/profile" || StartsWith(path, "/profile/")
    || (|path| > 0 && path[0] == '/' && !SomeStartsWith(path[1..], MatcherExcluded))
  }

  /** The error page named in `withAuth`'s pages option. */
  const AuthErrorPath: string := "/unauthorized"

  /** The path of `NEXTAUTH_URL`, next-auth's own routes; `/api/auth` when no other is configured. */
  const AuthRoutesPath: string := "/api/auth"

  /**
   * Requests `withAuth` hands on before it consults `authorized` or runs the
   * wrapped function: exactly its sign-in and error pages, and paths under
   * its own routes, `/_next` or `/favicon.ico`.
   */
  predicate AuthBypassed(path: string) {
    || path == SignInPath || path == AuthErrorPath
    || StartsWith(path, AuthRoutesPath) || StartsWith(path, "/_next") || StartsWith(path, "/favicon.ico")
  }

  /**
   * What a page request meets: the matcher, then `withAuth`'s own bypass,
   * then `authorized`, then the path check.
   */
  function Gate(path: string, token: Option<Token>): (d: Decision)
    ensures d == RedirectSignIn ==> StartsWith(path, "/admin") || StartsWith(path, "/profile")
    ensures token.Some? && token.value.role == Some("ADMIN") ==> d != RedirectSignIn
  {
    if !Matched(path) then Next
    else if AuthBypassed(path) then Next
    else if !Authorized(path, token) then RedirectSignIn
    else CheckPath(path)
  }

  /** `/admin…` and `/profile…` paths are never bypassed by `withAuth`. */
  lemma ProtectedNotBypassed(path: string)
    requires StartsWith(path, "/admin") || StartsWith(path, "/profile")
    ensures !AuthBypassed(path)
  {
    assert path[1] in {'a', 'p'};
    assert path[1] == 'a' ==> path[2] == 'd';
    assert path != AuthErrorPath by {
      assert AuthErrorPath[1] == 'u';
    }
  }

  /**
   * Of `withAuth`'s pass-through, only `/favicon.ico` is ever reached: the
   * matcher already keeps every other bypassed path away from the middleware.
   */
  lemma {:induction false} MatchedBypassIsFavicon(path: string)
    requires Matched(path) && AuthBypassed(path)
    ensures StartsWith(path, "/favicon.ico")
  {
    if StartsWith(path, "/admin") || StartsWith(path, "/profile") {
      ProtectedNotBypassed(path);
      assert false;
    }
    assert path[0] == '/' && !SomeStartsWith(path[1..], MatcherExcluded);
    var rest := path[1..];
    var i: nat :=
      if path == SignInPath then 5
      else if path == AuthErrorPath then 9
      else if StartsWith(path, AuthRoutesPath) then 1
      else if StartsWith(path, "/_next") then 0
      else 11;
    if i < 11 {
      assert StartsWith(rest, MatcherExcluded[i]);
      SomeStartsWithExists(rest, MatcherExcluded);
      assert false;
    }
  }

  /**
   * `/favicon.ico` reaches `withAuth`, which passes it on, although the path
   * check alone would send it to `/not-found`.
   */
  lemma FaviconPasses(token: Option<Token>)
    ensures Matched("/favicon.ico")
    ensures Gate("/favicon.ico", token) == Next
    ensures CheckPath("/favicon.ico") == RedirectNotFound
  {
    var path := "/favicon.ico";
    var rest := path[1..];
    assert rest[0] == 'f' && rest[1] == 'a';
    forall i | 0 <= i < |MatcherExcluded| ensures !StartsWith(rest, MatcherExcluded[i]) {
      assert i == 0 || i == 1 || i == 2 || i == 3 || i == 4 || i == 5 || i == 6 || i == 7 || i == 8 || i == 9 || i == 10;
    }
    NoneStartsWith(rest, MatcherExcluded);
    assert AuthBypassed(path);
    assert Lead(path) == ('f', 'a');
    NoSkippedPrefix(path);
    NoDynamicPrefix(path);
    NoValidPrefix(path);
    FaviconNotValidPath();
  }

  lemma FaviconNotValidPath()
    ensures "/favicon.ico" !in ValidPaths
  {
    var path := "/favicon.ico";
    assert path[1] == 'f' && path[2] == 'a';
    forall i | 0 <= i < |ValidPaths| ensures path != ValidPaths[i] {
      assert
        || i == 0 || i == 1 || i == 2 || i == 3 || i == 4 || i == 5 || i == 6 || i == 7 || i == 8
        || i == 9 || i == 10 || i == 11 || i == 12 || i == 13 || i == 14 || i == 15 || i == 16 || i == 17
        || i == 18 || i == 19 || i == 20 || i == 21 || i == 22 || i == 23 || i == 24 || i == 25 || i == 26;
    }
  }

  /** `/admin…` and `/profile…` paths always reach the middleware. */
  lemma ProtectedMatched(path: string)
    requires StartsWith(path, "/admin") || StartsWith(path, "/profile")
    ensures Matched(path)
  {
    var rest := path[1..];
    assert path[0] == '/' && rest[0] in {'a', 'p'} && rest[1] in {'d', 'r'};
    forall i | 0 <= i < |MatcherExcluded| ensures !StartsWith(rest, MatcherExcluded[i]) {
      assert i == 0 || i == 1 || i == 2 || i == 3 || i == 4 || i == 5 || i == 6 || i == 7 || i == 8 || i == 9 || i == 10;
    }
    NoneStartsWith(rest, MatcherExcluded);
  }

  /** Without an ADMIN token every `/admin…` request is sent to sign in. */
  lemma AdminNeedsAdminRole(path: string, token: Option<Token>)
    requires StartsWith(path, "/admin")
    ensures Gate(path, token) == RedirectSignIn <==> !(token.Some? && token.value.role == Some("ADMIN"))
  {
    ProtectedMatched(path);
    ProtectedNotBypassed(path);
    assert CheckPath(path) != RedirectSignIn;
  }

  /** Without a token every `/profile…` request is sent to sign in; any token will do. */
  lemma ProfileNeedsToken(path: string, token: Option<Token>)
    requires StartsWith(path, "/profile")
    ensures Gate(path, token) == RedirectSignIn <==> token.None?
  {
    ProtectedMatched(path);
    ProtectedNotBypassed(path);
    assert !StartsWith(path, "/admin") by {
      assert path[1] == 'p';
    }
    assert CheckPath(path) != RedirectSignIn;
  }

  /**
   * Even with the right token, `/admin…` and `/profile…` pages are not on the
   * allow-list, so the path check sends them to `/not-found`.
   */
  lemma ProtectedAreasNotListed(path: string, token: Option<Token>)
    requires StartsWith(path, "/admin") || StartsWith(path, "/profile")
    ensures Gate(path, token) != Next
  {
    ProtectedMatched(path);
    ProtectedNotBypassed(path);
    assert Lead(path) in {('a', 'd'), ('p', 'r')};
    assert path[1] == 'p' ==> path[3] == 'o' && path[4] == 'f';
    NoSkippedPrefix(path);
    NoValidPrefix(path);
    if path[1] == 'a' {
      NoDynamicPrefix(path);
    } else {
      ProfileNotDynamic(path);
    }
    ProtectedNotValidPath(path);
  }

  lemma ProfileNotDynamic(path: string)
    requires StartsWith(path, "/profile")
    ensures !SomeStartsWith(path, DynamicPrefixes)
  {
    assert path[1] == 'p' && path[4] == 'f';
    forall i | 0 <= i < |DynamicPrefixes| ensures !StartsWith(path, DynamicPrefixes[i]) {
      assert i == 0 || i == 1 || i == 2 || i == 3;
    }
    NoneStartsWith(path, DynamicPrefixes);
  }

  lemma ProtectedNotValidPath(path: string)
    requires StartsWith(path, "/admin") || StartsWith(path, "/profile")
    ensures path !in ValidPaths
  {
    assert path[1] in {'a', 'p'};
    assert path[1] == 'a' ==> path[2] == 'd';
    assert path[1] == 'p' ==> path[2] == 'r' && path[3] == 'o' && path[4] == 'f';
    forall i | 0 <= i < |ValidPaths| ensures path != ValidPaths[i] {
      assert
        || i == 0 || i == 1 || i == 2 || i == 3 || i == 4 || i == 5 || i == 6 || i == 7 || i == 8
        || i == 9 || i == 10 || i == 11 || i == 12 || i == 13 || i == 14 || i == 15 || i == 16 || i == 17
        || i == 18 || i == 19 || i == 20 || i == 21 || i == 22 || i == 23 || i == 24 || i == 25 || i == 26;
    }
  }

  /** A path whose text after `/` starts with an excluded word never reaches the middleware. */
  lemma ExcludedNotMatched(path: string, i: nat)
    requires |path| > 0 && path[0] == '/' && i < |MatcherExcluded| && StartsWith(path[1..], MatcherExcluded[i])
    requires !StartsWith(path, "/admin") && !StartsWith(path, "/profile")
    ensures Gate(path, None) == Next
  {
    SomeStartsWithExists(path[1..], MatcherExcluded);
  }

  /** Neither redirect target is ever redirected, whatever the token. */
  lemma RedirectTargetsPass(token: Option<Token>)
    ensures Gate(NotFoundPath, token) == Next
    ensures Gate(SignInPath, token) == Next
  {
    NotFoundPasses(token);
    SignInPasses(token);
  }

  lemma NotFoundPasses(token: Option<Token>)
    ensures Gate(NotFoundPath, token) == Next
  {
    var rest := NotFoundPath[1..];
    assert StartsWith(rest, MatcherExcluded[10]);
    SomeStartsWithExists(rest, MatcherExcluded);
    assert NotFoundPath[1] == 'n';
    assert !Matched(NotFoundPath);
  }


  lemma SignInPasses(token: Option<Token>)
    ensures Gate(SignInPath, token) == Next
  {
    var rest := SignInPath[1..];
    assert StartsWith(rest, MatcherExcluded[5]);
    SomeStartsWithExists(rest, MatcherExcluded);
    assert SignInPath[1] == 'l';
    assert !Matched(SignInPath);
  }


  /**
   * Paths the matcher excludes skip the middleware altogether: every
   * `/images/…` path is served although the path check alone would redirect it.
   */
  lemma ImagesSkipPathCheck(path: string, token: Option<Token>)
    requires StartsWith(path, "/images/")
    ensures Gate(path, token) == Next
    ensures CheckPath(path) == RedirectNotFound
  {
    assert path[1] == 'i';
    SomeStartsWithExists(path[1..], MatcherExcluded);
    assert StartsWith(path[1..], MatcherExcluded[3]);
    ImagePathRedirected(path);
  }

  lemma ImagePathRedirected(path: string)
    requires StartsWith(path, "/images/")
    ensures CheckPath(path) == RedirectNotFound
  {
    assert Lead(path) == ('i', 'm');
    NoSkippedPrefix(path);
    NoDynamicPrefix(path);
    NoValidPrefix(path);
    ImageNotValidPath(path);
  }

  lemma ImageNotValidPath(path: string)
    requires StartsWith(path, "/images/")
    ensures path !in ValidPaths
  {
    assert path[1] == 'i';
    forall i | 0 <= i < |ValidPaths| ensures path != ValidPaths[i] {
      assert
        || i == 0 || i == 1 || i == 2 || i == 3 || i == 4 || i == 5 || i == 6 || i == 7 || i == 8
        || i == 9 || i == 10 || i == 11 || i == 12 || i == 13 || i == 14 || i == 15 || i == 16 || i == 17
        || i == 18 || i == 19 || i == 20 || i == 21 || i == 22 || i == 23 || i == 24 || i == 25 || i == 26;
      assert |ValidPaths[i]| < 2 || ValidPaths[i][1] != 'i';
    }
  }
}
