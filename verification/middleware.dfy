/** The route guard of `middleware.ts`: given the request pathname and whether
    the request carries a session, let it through or send it to the login page. */
module Middleware {
  import opened Strings

  datatype Decision = Next | Redirect(location: string)

  const LoginPath: string := "/admin/login"

  /** The `auth((req) => …)` callback. Login and the auth API always pass; any
      other pathname starting with "/admin" needs a session. */
  function Guard(pathname: string, authenticated: bool): (d: Decision)
    ensures d.Redirect? ==> d.location == LoginPath
    ensures d.Redirect? <==> !authenticated && StartsWith(pathname, "/admin") && pathname != LoginPath
  {
    if pathname == LoginPath || StartsWith(pathname, "/api/auth") then
      // the two allowed prefixes part at the third character
      assert StartsWith(pathname, "/api/auth") ==> pathname[2] == "/api/auth"[2] != "/admin"[2];
      Next
    else if StartsWith(pathname, "/admin") && !authenticated then Redirect(LoginPath)
    else Next
  }

  /** The login page passes whatever the session, so the redirect target never
      redirects again. */
  lemma LoginAlwaysPasses(authenticated: bool)
    ensures Guard(LoginPath, authenticated) == Next
  {
  }

  /** Every pathname under "/api/auth" passes. */
  lemma AuthApiPasses(pathname: string, authenticated: bool)
    requires StartsWith(pathname, "/api/auth")
    ensures Guard(pathname, authenticated) == Next
  {
    assert pathname[2] == "/api/auth"[2];
  }

  /** A request with a session is never redirected, and pathnames outside
      "/admin" are never guarded. */
  lemma OnlyAnonymousAdminRedirects(pathname: string, authenticated: bool)
    ensures authenticated ==> Guard(pathname, authenticated) == Next
    ensures !StartsWith(pathname, "/admin") ==> Guard(pathname, authenticated) == Next
  {
  }

  /** Instances of `Guard` showing that its prefix tests are raw: an anonymous
      "/administrator" and "/admin/login/x" are both redirected. */
  lemma RawPrefixExamples()
    ensures Guard("/administrator", false) == Redirect(LoginPath)
    ensures Guard("/admin/login/x", false) == Redirect(LoginPath)
  {
    assert "/administrator"[..6] == "/admin";
    assert "/admin/login/x"[..6] == "/admin";
  }
}
