/**
 * The request guard of frontend/proxy.ts: requests for the reader, review
 * and annotation pages from a visitor without a session are redirected to
 * the sign-in page, which is told where to return; every other request
 * passes through.
 */
module Proxy {
  import opened Common
  import Auth

  const ProtectedRoutes: seq<string> := ["/reader", "/review", "/annotate"]

  const SignInPath := "/auth/signin"

  /** `routes.some(route => pathname.startsWith(route))`. */
  function SomePrefix(routes: seq<string>, pathname: string): (r: bool)
    ensures r <==> exists i :: 0 <= i < |routes| && StartsWith(pathname, routes[i])
  {
    if routes == [] then false
    else
      var rest := SomePrefix(routes[1..], pathname);
      assert forall i :: 1 <= i < |routes| ==> routes[i] == routes[1..][i - 1];
      StartsWith(pathname, routes[0]) || rest
  }

  predicate IsProtectedRoute(pathname: string) {
    SomePrefix(ProtectedRoutes, pathname)
  }

  /** The sign-in URL on the request's origin, with `callbackUrl` set. */
  datatype SignInUrl = SignInUrl(origin: string, pathname: string, callbackUrl: string)

  datatype Decision = Redirect(to: SignInUrl) | Next

  /** The proxy; `loggedIn` is `!!req.auth`. */
  function Guard(origin: string, pathname: string, loggedIn: bool): (d: Decision)
    ensures d.Redirect? <==> IsProtectedRoute(pathname) && !loggedIn
    ensures d.Redirect? ==> d.to == SignInUrl(origin, SignInPath, pathname)
  {
    if IsProtectedRoute(pathname) && !loggedIn then Redirect(SignInUrl(origin, SignInPath, pathname))
    else Next
  }

  /** A path is protected iff it starts with one of the three prefixes. */
  lemma ProtectedIff(pathname: string)
    ensures IsProtectedRoute(pathname) <==>
      StartsWith(pathname, "/reader") || StartsWith(pathname, "/review") || StartsWith(pathname, "/annotate")
  {
    assert ProtectedRoutes[0] == "/reader" && ProtectedRoutes[1] == "/review" && ProtectedRoutes[2] == "/annotate";
  }

  /** Matching is by prefix: sub-pages and longer names are protected, the home page is not. */
  lemma PrefixExamples()
    ensures IsProtectedRoute("/review/x")
    ensures IsProtectedRoute("/reviewer")
    ensures !IsProtectedRoute("/")
  {
    ProtectedIff("/review/x");
    ProtectedIff("/reviewer");
    ProtectedIff("/");
    assert "/review/x"[..7] == "/review";
    assert "/reviewer"[..7] == "/review";
  }

  /** The proxy and the `authorized` callback guard the same paths. */
  lemma SameProtectedRoutes(pathname: string)
    ensures IsProtectedRoute(pathname) <==> Auth.OnProtectedRoute(pathname)
  {
    ProtectedIff(pathname);
  }

  /**
   * With the same notion of being logged in, the proxy redirects exactly the
   * requests the `authorized` callback refuses.
   */
  lemma GuardAgreesWithAuthorized(origin: string, pathname: string, auth: Option<Auth.AuthState>)
    ensures Guard(origin, pathname, auth.Some? && auth.value.user.Some?).Redirect? <==>
      !Auth.Authorized(auth, pathname)
  {
    SameProtectedRoutes(pathname);
  }
}
