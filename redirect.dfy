/** The global route middleware (middleware/redirect.global.ts). */
module Redirect {
  import opened Wrappers
  import opened JsString

  const Home: string := "/"

  /** The redirect the middleware asks for, or `None` to let the navigation
      through. */
  function Redirect(path: string, loggedIn: bool): (r: Option<string>)
    ensures r.Some? ==> r.value == Home
    ensures r.Some? <==> path == "/categories" || path == "/categories/" || (StartsWith(path, "/profile") && !loggedIn)
  {
    if path in ["/categories", "/categories/"] then Some(Home)
    else if StartsWith(path, "/profile") && !loggedIn then Some(Home)
    else None
  }

  /** Logging in opens every page: only the two category index paths are
      redirected for a signed-in user. */
  lemma SignedInReachesProfile(path: string)
    ensures Redirect(path, true).Some? <==> path == "/categories" || path == "/categories/"
  {
  }

  /** The profile check is a prefix test, so it also guards every path that
      merely begins with `/profile`. */
  lemma ProfilePrefix(suffix: string)
    ensures Redirect("/profile" + suffix, false) == Some(Home)
  {
    assert ("/profile" + suffix)[..8] == "/profile";
  }

  /** Only the exact category index paths are redirected: a category page
      below them is not, whatever the login state. */
  lemma CategoryPagesPass(loggedIn: bool)
    ensures Redirect("/categories/x", loggedIn) == None
  {
    assert "/categories/x"[1] != "/profile"[1];
  }
}
