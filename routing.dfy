/**
 * Navigation. The framework router is reduced to the list of navigations it was
 * asked to perform, and the route table of src/app/app.routes.ts to a lookup.
 */
module Routing {
  import opened Common

  /** One `router.navigate([path], {queryParams: {returnUrl}})` request. */
  datatype Navigation = Navigation(path: string, returnUrl: Option<string>)

  /** The router every service injects: it only records where it was sent. */
  class Router {
    var history: seq<Navigation>

    constructor ()
      ensures history == []
    {
      history := [];
    }

    method Navigate(n: Navigation)
      modifies this
      ensures history == old(history) + [n]
    {
      history := history + [n];
    }
  }

  /** The guard attached to a route through `canActivate`. */
  datatype Guard = GuestOnly | AuthOnly

  /** A route: a page behind a guard, or a redirect to another path. */
  datatype Route = Page(page: string, guard: Guard) | RedirectTo(target: string)

  /** The route table: the landing page is guest-only, profile and settings require a session, anything else goes to the landing path. */
  function Lookup(path: string): (r: Route)
    ensures path == "" ==> r == Page("landing", GuestOnly)
    ensures (path == "profile" || path == "settings") ==> r.Page? && r.guard == AuthOnly
    ensures path !in {"", "profile", "settings"} ==> r == RedirectTo("")
  {
    if path == "" then Page("landing", GuestOnly)
    else if path == "profile" then Page("profile", AuthOnly)
    else if path == "settings" then Page("settings", AuthOnly)
    else RedirectTo("")
  }

  /** Follows at most one redirect (the table has no chains) and returns the guarded page reached. */
  function Resolve(path: string): (r: Route)
    ensures r.Page?
    ensures r.guard == GuestOnly <==> path !in {"profile", "settings"}
  {
    match Lookup(path)
    case Page(p, g) => Page(p, g)
    case RedirectTo(t) => Lookup(t)
  }
}
