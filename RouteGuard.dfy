/**
 * The frontend's request middleware (frontend/src/middleware.ts): decides, from the
 * path and the session cookies, whether a page request goes through or is redirected.
 */
module RouteGuard {
  import opened Wrappers

  const PublicRoutes: seq<string> := ["/", "/sign-in", "/sign-up", "/forgot-password"]
  const ProtectedRoutes: seq<string> := ["/feed", "/upload"]
  const BlogPrefix: string := "/blog/"

  const HomeAfterSignIn: string := "/feed"
  const SignInPage: string := "/sign-in"

  /** `protectedRoutes.some(route => pathname.startsWith(route))`: a prefix test, so "/feedback" counts. */
  predicate IsProtectedRoute(pathname: string) {
    exists i :: 0 <= i < |ProtectedRoutes| && ProtectedRoutes[i] <= pathname
  }

  /** `/^\/blog\/[^\/]+$/`: "/blog/" and then at least one character, none of them a slash. */
  predicate IsBlogSlug(pathname: string) {
    |pathname| > |BlogPrefix| && BlogPrefix <= pathname
    && forall i :: |BlogPrefix| <= i < |pathname| ==> pathname[i] != '/'
  }

  /** An exact match on the public list, or a blog post. */
  predicate IsPublicRoute(pathname: string) {
    pathname in PublicRoutes || IsBlogSlug(pathname)
  }

  /** The blog pattern, as the decomposition the regular expression describes. */
  lemma BlogSlugCharacterization(pathname: string)
    ensures IsBlogSlug(pathname) <==>
      exists slug :: pathname == BlogPrefix + slug && slug != [] && '/' !in slug
  {
    if IsBlogSlug(pathname) {
      var slug := pathname[|BlogPrefix|..];
      assert pathname == BlogPrefix + slug;
      assert '/' !in slug by {
        forall k | 0 <= k < |slug| ensures slug[k] != '/' {
          assert slug[k] == pathname[|BlogPrefix| + k];
        }
      }
    }
    if exists slug :: pathname == BlogPrefix + slug && slug != [] && '/' !in slug {
      var slug :| pathname == BlogPrefix + slug && slug != [] && '/' !in slug;
      forall i | |BlogPrefix| <= i < |pathname| ensures pathname[i] != '/' {
        assert pathname[i] == slug[i - |BlogPrefix|];
      }
    }
  }

  lemma BlogPostIsPublic()
    ensures IsBlogSlug("/blog/hello") && IsPublicRoute("/blog/hello")
  {
  }

  lemma BlogIndexIsNotASlug()
    ensures !IsBlogSlug("/blog") && !IsBlogSlug("/blog/")
  {
  }

  lemma NestedBlogPathIsNotASlug()
    ensures !IsBlogSlug("/blog/a/b")
  {
    assert "/blog/a/b"[7] == '/';
  }

  /** The pattern does not single out "new": "/blog/new" is a post like any other. */
  lemma BlogNewIsASlug()
    ensures IsBlogSlug("/blog/new")
  {
  }

  lemma FeedSubpathsAreProtected(rest: string)
    ensures IsProtectedRoute("/feed" + rest) && IsProtectedRoute("/upload" + rest)
  {
    assert ProtectedRoutes[0] <= "/feed" + rest;
    assert ProtectedRoutes[1] <= "/upload" + rest;
  }

  /** The prefix test also covers paths that merely start with a protected name. */
  lemma FeedbackIsProtected()
    ensures IsProtectedRoute("/feedback")
  {
    FeedSubpathsAreProtected("back");
  }

  /** No path is both on the public list and protected, and no blog post is either. */
  lemma PublicAndProtectedDisjoint(pathname: string)
    ensures IsPublicRoute(pathname) ==> !IsProtectedRoute(pathname)
    ensures IsBlogSlug(pathname) ==> pathname !in PublicRoutes
  {
    if IsBlogSlug(pathname) {
      forall i | 0 <= i < |ProtectedRoutes| ensures !(ProtectedRoutes[i] <= pathname) {
        assert pathname[1] == BlogPrefix[1];
        assert ProtectedRoutes[i][1] != BlogPrefix[1];
      }
      forall j | 0 <= j < |PublicRoutes| ensures PublicRoutes[j] != pathname {
        if |PublicRoutes[j]| == |pathname| {
          assert PublicRoutes[j][1] != BlogPrefix[1];
        }
      }
    } else if pathname in PublicRoutes {
      forall i | 0 <= i < |ProtectedRoutes| ensures !(ProtectedRoutes[i] <= pathname) {
        var r := ProtectedRoutes[i];
        if |r| <= |pathname| {
          // The names differ at their second or third character.
          assert r[1] != pathname[1] || r[2] != pathname[2];
        }
      }
    }
  }

  /** The two cookies the middleware reads, `None` when absent. */
  datatype Cookies = Cookies(sessionToken: Option<string>, secureSessionToken: Option<string>)

  predicate Truthy(v: Option<string>) {
    v.Some? && v.value != ""
  }

  /** `get("authjs.session-token")?.value || get("__Secure-authjs.session-token")?.value`, truthy. */
  predicate HasSession(c: Cookies) {
    Truthy(c.sessionToken) || Truthy(c.secureSessionToken)
  }

  /** `NextResponse.next()` or a redirect to a path on the request's origin. */
  datatype Decision = Next | Redirect(path: string, callbackUrl: Option<string>)

  /** The middleware's decision for a request to `url`, whose path is `pathname`. */
  function Middleware(pathname: string, url: string, cookies: Cookies): (d: Decision)
    ensures d.Redirect? && HasSession(cookies) ==> d == Redirect(HomeAfterSignIn, None)
    ensures d.Redirect? && !HasSession(cookies) ==> d.path == SignInPage
    ensures d.Redirect? && d.callbackUrl.Some? ==> d.callbackUrl == Some(url)
  {
    if HasSession(cookies) then
      if pathname in PublicRoutes then Redirect(HomeAfterSignIn, None)
      else if IsBlogSlug(pathname) then Next
      else if IsProtectedRoute(pathname) then Next
      else Redirect(HomeAfterSignIn, None)
    else
      if IsProtectedRoute(pathname) then Redirect(SignInPage, Some(url))
      else if IsPublicRoute(pathname) then Next
      else Redirect(SignInPage, None)
  }

  /** Signed in: blog posts and protected pages go through; everything else goes to the feed. */
  lemma SignedInDecision(pathname: string, url: string, cookies: Cookies)
    requires HasSession(cookies)
    ensures Middleware(pathname, url, cookies) == Next <==> IsBlogSlug(pathname) || IsProtectedRoute(pathname)
  {
    PublicAndProtectedDisjoint(pathname);
  }

  /** Signed out: public pages and blog posts go through; protected pages keep the way back. */
  lemma SignedOutDecision(pathname: string, url: string, cookies: Cookies)
    requires !HasSession(cookies)
    ensures Middleware(pathname, url, cookies) == Next <==> IsPublicRoute(pathname)
    ensures Middleware(pathname, url, cookies).Redirect? ==>
      (Middleware(pathname, url, cookies).callbackUrl == Some(url) <==> IsProtectedRoute(pathname))
  {
    PublicAndProtectedDisjoint(pathname);
  }

  /** Without a session no protected page is served. */
  lemma ProtectedNeedsSession(pathname: string, url: string, cookies: Cookies)
    requires IsProtectedRoute(pathname)
    ensures Middleware(pathname, url, cookies) == Next ==> HasSession(cookies)
  {
  }

  /** With a session the sign-in and sign-up pages are never served. */
  lemma SignedInSkipsAuthPages(url: string, cookies: Cookies)
    requires HasSession(cookies)
    ensures Middleware("/sign-in", url, cookies) == Redirect("/feed", None)
    ensures Middleware("/sign-up", url, cookies) == Redirect("/feed", None)
  {
  }

  /** Following a redirect with the same cookies ends at a page that is served. */
  lemma NoRedirectLoop(pathname: string, url: string, next: string, cookies: Cookies)
    requires Middleware(pathname, url, cookies).Redirect?
    ensures Middleware(Middleware(pathname, url, cookies).path, next, cookies) == Next
  {
    if HasSession(cookies) {
      assert ProtectedRoutes[0] <= HomeAfterSignIn;
      assert HomeAfterSignIn !in PublicRoutes;
      assert !IsBlogSlug(HomeAfterSignIn) by { assert HomeAfterSignIn[1] != BlogPrefix[1]; }
    } else {
      PublicAndProtectedDisjoint(SignInPage);
      assert SignInPage in PublicRoutes;
    }
  }

  /** Either cookie alone is a session; an empty value is not. */
  lemma EitherCookieIsASession(token: string)
    ensures HasSession(Cookies(Some(token), None)) <==> token != ""
    ensures HasSession(Cookies(None, Some(token))) <==> token != ""
    ensures !HasSession(Cookies(Some(""), Some("")))
  {
  }
}
