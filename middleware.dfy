/** The request guard run before every page: visitors who are not signed in
    are sent to the login page from the protected sections, and signed-in
    users are sent from the landing and login pages to the dashboard. Whether
    the request carries a signed-in user is a parameter. */
module Middleware {
  import opened Common

  const ProtectedPaths: seq<string> := ["/dashboard", "/profile", "/game"]

  /** `pathname === p || pathname.startsWith(p + "/")` */
  predicate UnderSection(path: string, section: string)
  {
    path == section || StartsWith(path, section + "/")
  }

  /** `sections.some(...)` */
  function AnyUnder(path: string, sections: seq<string>): (r: bool)
    ensures r <==> exists i :: 0 <= i < |sections| && UnderSection(path, sections[i])
  {
    if sections == [] then false
    else UnderSection(path, sections[0]) || AnyUnder(path, sections[1..])
  }

  /** `isProtectedPath`: one of the three sections, or a path inside one of them. */
  function IsProtectedPath(path: string): (r: bool)
    ensures r <==> path == "/dashboard" || path == "/profile" || path == "/game"
                   || StartsWith(path, "/dashboard/") || StartsWith(path, "/profile/") || StartsWith(path, "/game/")
  {
    assert ProtectedPaths[0] == "/dashboard" && ProtectedPaths[1] == "/profile" && ProtectedPaths[2] == "/game";
    AnyUnder(path, ProtectedPaths)
  }

  /** A path that merely begins with a section's name is not inside it. */
  lemma SectionNeedsSlash()
    ensures !IsProtectedPath("/gamex") && !IsProtectedPath("/profiles")
    ensures IsProtectedPath("/game/abc") && IsProtectedPath("/dashboard")
  {
    assert "/game/" <= "/game/abc";
    assert !("/game/" <= "/gamex") by { assert "/gamex"[5] != "/game/"[5]; }
    assert !("/profile/" <= "/profiles") by { assert "/profiles"[8] != "/profile/"[8]; }
    assert !("/game/" <= "/profiles") by { assert "/profiles"[1] != "/game/"[1]; }
  }

  datatype Decision = RedirectToLogin(next: string) | RedirectToDashboard | PassThrough

  /** The decision `middleware` takes for a path. */
  function Decide(path: string, signedIn: bool): (d: Decision)
    ensures IsProtectedPath(path) && !signedIn ==> d == RedirectToLogin(path)
    ensures (path == "/" || path == "/login") && signedIn ==> d == RedirectToDashboard
    ensures d.PassThrough? <==> (signedIn || !IsProtectedPath(path)) && (!signedIn || (path != "/" && path != "/login"))
  {
    if IsProtectedPath(path) && !signedIn then RedirectToLogin(path)
    else if (path == "/" || path == "/login") && signedIn then RedirectToDashboard
    else PassThrough
  }

  /** The landing and login pages are not protected, so the two redirects never compete:
      whatever the user's state, those pages are never sent to the login page. */
  lemma RedirectsDisjoint(path: string, signedIn: bool)
    requires path == "/" || path == "/login"
    ensures !IsProtectedPath(path)
    ensures !Decide(path, signedIn).RedirectToLogin?
  {
    if path == "/login" {
      assert path[1] == 'l';
      assert !("/game/" <= path) by { assert "/game/"[1] != path[1]; }
    }
  }

  /** A signed-in user is never sent to the login page. */
  lemma SignedInNeverToLogin(path: string)
    ensures !Decide(path, true).RedirectToLogin?
  {
  }
}
