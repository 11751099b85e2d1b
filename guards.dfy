/**
 * The route guards of src/app/guards/auth.guard.ts. A guard decides whether navigation may
 * enter a view; on refusal it asks the router to go elsewhere. `authGuard` consults
 * `validateSession`, which may clear an expired session on the way.
 */
module Guards {
  import opened Common
  import opened Routing
  import opened SessionSpec
  import Sessions

  /** Allow the navigation, or redirect to `target` (with the `returnUrl` query parameter, if any). */
  datatype Decision = Allow | Redirect(target: string, returnUrl: Option<string>)

  /** A guard's decision together with the session state it leaves behind. */
  datatype GuardRun = GuardRun(decision: Decision, after: State)

  /** Records the redirect a refusal asks the router for. */
  function Refuse(s: State, target: string, returnUrl: Option<string>): (r: GuardRun)
    ensures r.decision == Redirect(target, returnUrl)
    ensures r.after == s.(navigations := s.navigations + [Navigation(target, returnUrl)])
  {
    GuardRun(Redirect(target, returnUrl), s.(navigations := s.navigations + [Navigation(target, returnUrl)]))
  }

  /** `authGuard` for a navigation to `url`. */
  function AuthGuard(s: State, url: string, now: int): (r: GuardRun)
  {
    if Authenticated(s) then
      var v := ValidateSession(s, now);
      if v.valid then GuardRun(Allow, v.after) else Refuse(v.after, "/", Some(url))
    else Refuse(s, "/", Some(url))
  }

  /** `guestGuard`: signed-in users are sent to their profile. */
  function GuestGuard(s: State): (r: GuardRun)
  {
    if Authenticated(s) then Refuse(s, "/profile", None) else GuardRun(Allow, s)
  }

  /** The guard the route table attaches to a (resolved) path, run on the state. */
  function Enter(path: string, url: string, s: State, now: int): (r: GuardRun)
  {
    match Resolve(path).guard
    case GuestOnly => GuestGuard(s)
    case AuthOnly => AuthGuard(s, url, now)
  }

  /** `authGuard` lets the navigation through exactly when a session exists and validates; it then changes nothing. */
  lemma AuthGuardAllowsIff(s: State, url: string, now: int)
    ensures AuthGuard(s, url, now).decision == Allow <==> Authenticated(s) && ValidateSession(s, now).valid
    ensures AuthGuard(s, url, now).decision == Allow ==> AuthGuard(s, url, now).after == s
  {
  }

  /** A refusal redirects to `/` carrying the requested url, and records that navigation. */
  lemma AuthGuardRefusal(s: State, url: string, now: int)
    requires AuthGuard(s, url, now).decision != Allow
    ensures AuthGuard(s, url, now).decision == Redirect("/", Some(url))
    ensures AuthGuard(s, url, now).after.navigations == s.navigations + [Navigation("/", Some(url))]
    ensures !Authenticated(AuthGuard(s, url, now).after)
  {
  }

  /** On an expired session `authGuard` clears it (through `validateSession`) before redirecting. */
  lemma AuthGuardClearsExpired(s: State, url: string, now: int)
    requires Authenticated(s) && s.expiresAt.Some? && s.expiresAt.value < now
    ensures AuthGuard(s, url, now) == Refuse(ClearSession(s), "/", Some(url))
    ensures AuthGuard(s, url, now).after.storedSession == NoRecord
  {
  }

  /** `guestGuard` allows exactly the signed-out; it does not look at the expiry. */
  lemma GuestGuardIff(s: State)
    ensures GuestGuard(s).decision == Allow <==> !Authenticated(s)
    ensures Authenticated(s) ==> GuestGuard(s) == Refuse(s, "/profile", None)
  {
  }

  /** An expired session that nothing has cleared yet still sends the user away from the landing page. */
  lemma GuestGuardIgnoresExpiry(s: State, now: int)
    requires Authenticated(s) && s.expiresAt.Some? && s.expiresAt.value < now
    ensures GuestGuard(s).decision == Redirect("/profile", None)
    ensures !ValidateSession(s, now).valid
  {
  }

  /** With a live session exactly one of the two guards allows; with nobody signed in, only `guestGuard` does. */
  lemma GuardsExclusive(s: State, url: string, now: int)
    ensures ValidateSession(s, now).valid ==>
              AuthGuard(s, url, now).decision == Allow && GuestGuard(s).decision != Allow
    ensures !Authenticated(s) ==>
              AuthGuard(s, url, now).decision != Allow && GuestGuard(s).decision == Allow
  {
  }

  /** Through the route table: the landing page (and any unknown path) is guest-only; profile and settings need a live session. */
  lemma EnterRoutes(path: string, url: string, s: State, now: int)
    ensures path in {"profile", "settings"} ==>
              (Enter(path, url, s, now).decision == Allow <==> ValidateSession(s, now).valid)
    ensures path !in {"profile", "settings"} ==>
              (Enter(path, url, s, now).decision == Allow <==> !Authenticated(s))
  {
  }

  /** Both guards keep the session invariant: they only validate (and perhaps clear) and navigate. */
  lemma GuardsKeepMirrored(s: State, url: string, now: int, path: string)
    requires Mirrored(s)
    ensures Mirrored(AuthGuard(s, url, now).after)
    ensures Mirrored(GuestGuard(s).after)
    ensures Mirrored(Enter(path, url, s, now).after)
  {
  }

  /** Runs `authGuard` against the live service. */
  method RunAuthGuard(session: Sessions.SessionService, url: string, now: int) returns (allowed: bool)
    requires session.Valid()
    modifies session, session.router
    ensures session.Valid()
    ensures allowed == (AuthGuard(old(session.State()), url, now).decision == Allow)
    ensures session.State() == AuthGuard(old(session.State()), url, now).after
  {
    if session.currentUser.Some? {
      var valid := session.ValidateSession(now);
      if valid {
        return true;
      }
    }
    session.router.Navigate(Navigation("/", Some(url)));
    return false;
  }

  /** Runs `guestGuard` against the live service. */
  method RunGuestGuard(session: Sessions.SessionService) returns (allowed: bool)
    requires session.Valid()
    modifies session.router
    ensures session.Valid()
    ensures allowed == (GuestGuard(old(session.State())).decision == Allow)
    ensures session.State() == GuestGuard(old(session.State())).after
  {
    if session.currentUser.Some? {
      session.router.Navigate(Navigation("/profile", None));
      return false;
    }
    return true;
  }
}
