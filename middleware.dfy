/**
 * The route guard run after authentication: API and tRPC requests always pass, a
 * signed-out visitor of a protected page is sent to the sign-in page, and a redirect
 * whose target starts with the request URL is replaced by letting the request through.
 */
module Middleware {
  import opened Wrappers
  import opened JsString

  /** The request: its full URL and the origin the sign-in URL is resolved against. */
  datatype Request = Request(url: string, origin: string)

  /** What the guard reads of the authentication state. */
  datatype Auth = Auth(userId: Option<string>, isPublicRoute: bool)

  /** `NextResponse.next()` or `NextResponse.redirect(location)`. */
  datatype Response = Next | Redirect(location: string)

  /** `redirect`: no redirect when the target URL starts with the request URL. */
  function RedirectTo(req: Request, url: string): (r: Response)
    ensures r == Next <==> StartsWith(url, req.url)
    ensures r.Redirect? ==> r.location == url
  {
    if StartsWith(url, req.url) then Next else Redirect(url)
  }

  /** `!!auth.userId`: an id that is present and not empty. */
  predicate IsUserSignedIn(auth: Auth) {
    auth.userId.Some? && Truthy(auth.userId.value)
  }

  predicate ShouldUserSignIn(auth: Auth) {
    !IsUserSignedIn(auth) && !auth.isPublicRoute
  }

  /** `new URL("/sign-in", req.url)`, taken as the origin followed by the path. */
  function SignInUrl(req: Request): (r: string)
    ensures StartsWith(r, req.origin) && r[|req.origin|..] == "/sign-in"
  {
    req.origin + "/sign-in"
  }

  function RedirectUnauthorizedUser(req: Request): (r: Response)
    ensures r == Next <==> StartsWith(SignInUrl(req), req.url)
    ensures r.Redirect? ==> r.location == req.origin + "/sign-in"
  {
    RedirectTo(req, SignInUrl(req))
  }

  /** Requests whose URL mentions `trpc` or `api` anywhere. */
  predicate IsApiRequest(req: Request) {
    Includes(req.url, "trpc") || Includes(req.url, "api")
  }

  /** The `afterAuth` decision. */
  function AfterAuth(auth: Auth, req: Request): (r: Response)
    ensures r == Next || r == Redirect(req.origin + "/sign-in")
    ensures IsApiRequest(req) || !ShouldUserSignIn(auth) ==> r == Next
  {
    if IsApiRequest(req) then Next
    else if ShouldUserSignIn(auth) then RedirectUnauthorizedUser(req)
    else Next
  }

  /** `trpcMiddleware` lets everything through. */
  function TrpcMiddleware(auth: Auth, req: Request): (r: Response)
    ensures r == Next
  {
    Next
  }

  /**
   * The guard redirects exactly the non-API requests of signed-out visitors of protected
   * routes whose URL is not a prefix of the sign-in URL, and always to the sign-in URL.
   */
  lemma RedirectsExactly(auth: Auth, req: Request)
    ensures AfterAuth(auth, req).Redirect? <==>
      !IsApiRequest(req) && ShouldUserSignIn(auth) && !StartsWith(SignInUrl(req), req.url)
    ensures AfterAuth(auth, req).Redirect? ==> AfterAuth(auth, req).location == req.origin + "/sign-in"
  {
  }

  /** Whatever the authentication state, an API or tRPC request passes. */
  lemma ApiRequestsPass(auth: Auth, req: Request)
    requires IsApiRequest(req)
    ensures AfterAuth(auth, req) == Next
  {
  }

  /** A signed-in user, or any visitor of a public route, is never redirected. */
  lemma SignedInOrPublicPasses(auth: Auth, req: Request)
    requires IsUserSignedIn(auth) || auth.isPublicRoute
    ensures AfterAuth(auth, req) == Next
  {
  }

  /** An empty user id does not count as signed in. */
  lemma EmptyUserIdIsSignedOut(req: Request)
    requires !IsApiRequest(req) && !StartsWith(SignInUrl(req), req.url)
    ensures AfterAuth(Auth(Some(""), false), req) == Redirect(req.origin + "/sign-in")
  {
  }

  /** The sign-in page itself is not redirected, so a signed-out visitor does not loop. */
  lemma SignInPageNotRedirected(auth: Auth, origin: string)
    ensures AfterAuth(auth, Request(origin + "/sign-in", origin)) == Next
  {
  }

  /**
   * The prefix check lets through every URL the sign-in URL starts with, among them the
   * site's root: a signed-out visitor of a protected root page is not redirected.
   */
  lemma RootNeverRedirected(auth: Auth, origin: string)
    ensures AfterAuth(auth, Request(origin + "/", origin)) == Next
  {
    var req := Request(origin + "/", origin);
    assert SignInUrl(req) == (origin + "/") + "sign-in";
    assert StartsWith(SignInUrl(req), req.url);
  }

  /** `includes` finds `api` inside a word: a protected page named `/therapist` is never guarded. */
  lemma ApiInsideWordPasses(auth: Auth)
    ensures AfterAuth(auth, Request("https://example.com/therapist", "https://example.com")) == Next
  {
    var url := "https://example.com/therapist";
    assert OccursAt(url, "api", 24) by {
      assert url[24..27] == "api";
    }
  }
}
