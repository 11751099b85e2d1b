/**
 * `SessionService` (src/app/features/session/services/session.service.ts) as an object
 * with mutable fields. Each method updates the fields step by step as the source does and
 * is proved to end in the state the pure transition of `SessionSpec` prescribes.
 */
module Sessions {
  import opened Common
  import opened AuthTypes
  import opened Routing
  import SessionSpec

  class SessionService {
    // the signals
    var currentUser: Option<User>
    var token: Option<string>
    var expiresAt: Option<int>
    var demoMode: bool
    // the two storage keys the service owns
    var storedSession: SessionSpec.StoredSession
    var storedDemoMode: Option<string>
    // deadlines of the expiry timers armed and not yet fired
    var timers: multiset<int>
    // the injected router
    const router: Router

    /** The abstract value of the service together with the router's navigations. */
    function State(): SessionSpec.State
      reads this, router
    {
      SessionSpec.State(currentUser, token, expiresAt, demoMode, storedSession, storedDemoMode, timers, router.history)
    }

    /** The class invariant: the signals and the stored record agree (`SessionSpec.Mirrored`). */
    predicate Valid()
      reads this, router
    {
      SessionSpec.Mirrored(State())
    }

    /** The service is created at start-up over whatever storage holds, and runs `loadSession` at clock `now`. */
    constructor (router: Router, stored: SessionSpec.StoredSession, storedDemo: Option<string>, now: int)
      ensures this.router == router
      ensures State() == SessionSpec.LoadSession(SessionSpec.Fresh(stored, storedDemo, router.history), now)
      ensures Valid()
    {
      this.router := router;
      currentUser, token, expiresAt, demoMode := None, None, None, false;
      storedSession, storedDemoMode := stored, storedDemo;
      timers := multiset{};
      new;
      LoadSession(now);
    }

    /** `isAuthenticated`: whether a user is present, whatever the expiry says. */
    predicate IsAuthenticated()
      reads this, router
      ensures IsAuthenticated() <==> SessionSpec.Authenticated(State())
    {
      currentUser.Some?
    }

    method SetSession(u: User, t: string, expiresIn: int, now: int)
      modifies this
      ensures State() == SessionSpec.SetSession(old(State()), u, t, expiresIn, now)
      ensures Valid()
    {
      var at := now + expiresIn * 1000;
      currentUser := Some(u);
      token := Some(t);
      expiresAt := Some(at);
      storedSession := SessionSpec.Record(SessionData(u, t, at));
      SetupSessionExpiryCheck(at, now);
    }

    method ClearSession()
      modifies this
      ensures State() == SessionSpec.ClearSession(old(State()))
      ensures Valid()
    {
      currentUser := None;
      token := None;
      expiresAt := None;
      storedSession := SessionSpec.NoRecord;
    }

    /** Run once, at construction, when no session is in memory yet. */
    method LoadSession(now: int)
      requires Valid() || (currentUser == None && token == None && expiresAt == None)
      modifies this
      ensures Valid()
      ensures State() == SessionSpec.LoadSession(old(State()), now)
    {
      SessionSpec.LoadEstablishesMirrored(State(), now);
      if storedSession.Unparsable? {
        // JSON.parse throws: the catch clears the session, the demo flag is not read
        ClearSession();
        return;
      }
      if storedSession.Record? {
        var d := storedSession.data;
        if d.expiresAt > now {
          currentUser := Some(d.user);
          token := Some(d.token);
          expiresAt := Some(d.expiresAt);
          SetupSessionExpiryCheck(d.expiresAt, now);
        } else {
          ClearSession();
        }
      }
      demoMode := storedDemoMode == Some("true");
    }

    /** Arms one more timer; timers armed earlier are left pending. */
    method SetupSessionExpiryCheck(at: int, now: int)
      modifies this`timers
      ensures timers == SessionSpec.ArmExpiry(old(timers), at, now)
    {
      var timeUntilExpiry := at - now;
      if timeUntilExpiry > 0 {
        timers := timers + multiset{at};
      }
    }

    method ValidateSession(now: int) returns (valid: bool)
      requires Valid()
      modifies this
      ensures Valid()
      ensures SessionSpec.Validation(valid, State()) == SessionSpec.ValidateSession(old(State()), now)
    {
      if currentUser == None {
        return false;
      }
      if expiresAt == None || expiresAt == Some(0) || expiresAt.value < now {
        ClearSession();
        return false;
      }
      return true;
    }

    method ToggleDemoMode()
      requires Valid()
      modifies this, router
      ensures Valid()
      ensures State() == SessionSpec.ToggleDemoMode(old(State()))
    {
      var newValue := !demoMode;
      demoMode := newValue;
      storedDemoMode := Some(SessionSpec.BoolText(newValue));
      if currentUser.Some? {
        ClearSession();
        router.Navigate(Navigation("/", None));
      }
    }

    method SetDemoMode(enabled: bool)
      requires Valid()
      modifies this
      ensures Valid()
      ensures State() == SessionSpec.SetDemoMode(old(State()), enabled)
    {
      demoMode := enabled;
      storedDemoMode := Some(SessionSpec.BoolText(enabled));
    }

    /** `getDemoUser`: a copy of the configured demo user. */
    function GetDemoUser(): (u: User)
      ensures u.id == "demo-user-123" && |u.permissions| == 3
      ensures forall i :: 0 <= i < |u.permissions| ==> u.permissions[i].granted
    {
      DemoUser
    }

    method RefreshSession(expiresIn: int, now: int)
      requires Valid()
      modifies this
      ensures Valid()
      ensures State() == SessionSpec.RefreshSession(old(State()), expiresIn, now)
    {
      var user := currentUser;
      var tok := token;
      if user.Some? && tok.Some? && tok.value != "" {
        SetSession(user.value, tok.value, expiresIn, now);
      }
    }

    /** The callback of an expiry timer, run by the event loop once its deadline is reached. */
    method FireTimer(deadline: int, now: int)
      requires Valid()
      modifies this, router
      ensures Valid()
      ensures State() == SessionSpec.FireTimer(old(State()), deadline, now)
    {
      if deadline in timers && deadline <= now {
        timers := timers - multiset{deadline};
        ClearSession();
        router.Navigate(Navigation("/", None));
      }
    }
  }
}
