/**
 * The session manager of src/app/features/session/services/session.service.ts as a
 * pure state machine. A `State` holds the in-memory signals, the two storage entries
 * the service owns, the expiry timers still pending, and the navigations requested so
 * far. Every operation is a function of the state before it and of the clock reading
 * `now` (milliseconds since the epoch) that `Date.now()` would have returned.
 */
module SessionSpec {
  import opened Common
  import opened AuthTypes
  import opened Routing

  /** What the session storage key holds: nothing, text that does not parse, or a record. */
  datatype StoredSession = NoRecord | Unparsable | Record(data: SessionData)

  datatype State = State(
    user: Option<User>,
    token: Option<string>,
    expiresAt: Option<int>,
    demoMode: bool,
    storedSession: StoredSession,
    storedDemoMode: Option<string>,
    timers: multiset<int>,
    navigations: seq<Navigation>)

  /** `isAuthenticated`: a user is present. The expiry plays no part. */
  predicate Authenticated(s: State)
  {
    s.user.Some?
  }

  /** The state of a freshly started process over the given storage, before `loadSession` runs. */
  function Fresh(stored: StoredSession, storedDemoMode: Option<string>, navigations: seq<Navigation>): (s: State)
    ensures !Authenticated(s) && s.token == None && s.expiresAt == None && !s.demoMode
    ensures s.storedSession == stored && s.storedDemoMode == storedDemoMode
    ensures s.timers == multiset{} && s.navigations == navigations
  {
    State(None, None, None, false, stored, storedDemoMode, multiset{}, navigations)
  }

  /** The storage text `String(b)` writes for a boolean. */
  function BoolText(b: bool): string
  {
    if b then "true" else "false"
  }

  /** `setupSessionExpiryCheck`: a timer is armed for `expiresAt` only if that is still in the future. */
  function ArmExpiry(timers: multiset<int>, expiresAt: int, now: int): (r: multiset<int>)
    ensures timers <= r
    ensures expiresAt - now > 0 ==> r == timers + multiset{expiresAt}
    ensures expiresAt - now <= 0 ==> r == timers
  {
    if expiresAt - now > 0 then timers + multiset{expiresAt} else timers
  }

  /** `setSession(user, token, expiresIn)`. */
  function SetSession(s: State, u: User, t: string, expiresIn: int, now: int): (r: State)
    ensures r.user == Some(u) && r.token == Some(t) && r.expiresAt == Some(now + expiresIn * 1000)
    ensures r.storedSession == Record(SessionData(u, t, now + expiresIn * 1000))
    ensures s.timers <= r.timers
    ensures r.timers == ArmExpiry(s.timers, now + expiresIn * 1000, now)
    ensures r.demoMode == s.demoMode && r.storedDemoMode == s.storedDemoMode
    ensures r.navigations == s.navigations
  {
    var expiresAt := now + expiresIn * 1000;
    s.(user := Some(u), token := Some(t), expiresAt := Some(expiresAt),
       storedSession := Record(SessionData(u, t, expiresAt)),
       timers := ArmExpiry(s.timers, expiresAt, now))
  }

  /** `clearSession()`: the session fields are emptied and the stored record removed; nothing else changes. */
  function ClearSession(s: State): (r: State)
    ensures !Authenticated(r) && r.token == None && r.expiresAt == None
    ensures r.storedSession == NoRecord
    ensures r.demoMode == s.demoMode && r.storedDemoMode == s.storedDemoMode
    ensures r.timers == s.timers && r.navigations == s.navigations
  {
    s.(user := None, token := None, expiresAt := None, storedSession := NoRecord)
  }

  /**
   * `loadSession()`: a stored record whose expiry lies strictly after `now` is restored and its
   * timer armed; an expired record is cleared. Unparsable text lands in the `catch`, which clears
   * the session and skips reading the demo flag; otherwise the flag is restored from its own key.
   */
  function LoadSession(s: State, now: int): (r: State)
  {
    match s.storedSession
    case Unparsable => ClearSession(s)
    case NoRecord => s.(demoMode := s.storedDemoMode == Some("true"))
    case Record(d) =>
      var restored :=
        if d.expiresAt > now then
          s.(user := Some(d.user), token := Some(d.token), expiresAt := Some(d.expiresAt),
             timers := ArmExpiry(s.timers, d.expiresAt, now))
        else ClearSession(s);
      restored.(demoMode := s.storedDemoMode == Some("true"))
  }

  /** The falsy test `!expiresAt` on a nullable number: `null` and `0` are both falsy. */
  predicate NoExpiry(e: Option<int>)
  {
    e == None || e == Some(0)
  }

  /** The answer and the state after `validateSession()` at time `now`. */
  datatype Validation = Validation(valid: bool, after: State)

  /** `validateSession()`: lazily clears an expired session (strict `<` on the expiry). */
  function ValidateSession(s: State, now: int): (r: Validation)
  {
    if !Authenticated(s) then Validation(false, s)
    else if NoExpiry(s.expiresAt) || s.expiresAt.value < now then Validation(false, ClearSession(s))
    else Validation(true, s)
  }

  /** `toggleDemoMode()`: flips and persists the flag; a live session is cleared and the user sent to `/`. */
  function ToggleDemoMode(s: State): (r: State)
  {
    var flipped := s.(demoMode := !s.demoMode, storedDemoMode := Some(BoolText(!s.demoMode)));
    if Authenticated(flipped) then
      ClearSession(flipped).(navigations := s.navigations + [Navigation("/", None)])
    else flipped
  }

  /** `setDemoMode(enabled)`: sets and persists the flag only. */
  function SetDemoMode(s: State, enabled: bool): (r: State)
  {
    s.(demoMode := enabled, storedDemoMode := Some(BoolText(enabled)))
  }

  /** `refreshSession(expiresIn)`: re-runs `setSession` with the same user and a truthy token. */
  function RefreshSession(s: State, expiresIn: int, now: int): (r: State)
  {
    if s.user.Some? && TruthyString(s.token) then SetSession(s, s.user.value, s.token.value, expiresIn, now)
    else s
  }

  /**
   * The event loop running one expiry timer: a pending timer whose deadline has been reached
   * is consumed, clears the session and navigates to `/`. Any other step changes nothing.
   */
  function FireTimer(s: State, deadline: int, now: int): (r: State)
  {
    if deadline in s.timers && deadline <= now then
      ClearSession(s).(timers := s.timers - multiset{deadline},
                       navigations := s.navigations + [Navigation("/", None)])
    else s
  }

  // ---------------------------------------------------------------------------
  // The session invariant: the signals and the stored record agree
  // ---------------------------------------------------------------------------

  /**
   * A session exists exactly when a user is signed in: user, token and expiry are all set or all
   * empty, and the storage key holds a record of exactly those three values, or nothing.
   */
  predicate Mirrored(s: State)
  {
    if s.user.Some? then
      s.token.Some? && s.expiresAt.Some? &&
      s.storedSession == Record(SessionData(s.user.value, s.token.value, s.expiresAt.value))
    else s.token == None && s.expiresAt == None && s.storedSession == NoRecord
  }

  /** Under the invariant, being signed in, holding a token and holding a stored record are the same. */
  lemma MirroredSessionIff(s: State)
    requires Mirrored(s)
    ensures Authenticated(s) <==> s.token.Some?
    ensures Authenticated(s) <==> s.expiresAt.Some?
    ensures Authenticated(s) <==> s.storedSession.Record?
    ensures s.storedSession != Unparsable
  {
  }

  /** `setSession` and `clearSession` each establish the invariant, from any state. */
  lemma WritesEstablishMirrored(s: State, u: User, t: string, expiresIn: int, now: int)
    ensures Mirrored(SetSession(s, u, t, expiresIn, now))
    ensures Mirrored(ClearSession(s))
  {
  }

  /**
   * Start-up establishes the invariant whatever storage holds; `loadSession` also keeps it on a state
   * that already satisfies it.
   */
  lemma LoadEstablishesMirrored(s: State, now: int)
    requires Mirrored(s) || (s.user == None && s.token == None && s.expiresAt == None)
    ensures Mirrored(LoadSession(s, now))
    ensures forall stored, demo, nav :: Mirrored(LoadSession(Fresh(stored, demo, nav), now))
  {
  }

  /** Every other transition of the session manager keeps the invariant. */
  lemma TransitionsKeepMirrored(s: State, now: int, expiresIn: int, enabled: bool, deadline: int)
    requires Mirrored(s)
    ensures Mirrored(ValidateSession(s, now).after)
    ensures Mirrored(ToggleDemoMode(s))
    ensures Mirrored(SetDemoMode(s, enabled))
    ensures Mirrored(RefreshSession(s, expiresIn, now))
    ensures Mirrored(FireTimer(s, deadline, now))
  {
  }

  // ---------------------------------------------------------------------------
  // Properties of the session manager
  // ---------------------------------------------------------------------------

  /** Clearing twice is the same as clearing once. */
  lemma ClearIdempotent(s: State)
    ensures ClearSession(ClearSession(s)) == ClearSession(s)
  {
  }

  /** `validateSession` has exactly three outcomes. */
  lemma ValidateCases(s: State, now: int)
    ensures !Authenticated(s) ==> ValidateSession(s, now) == Validation(false, s)
    ensures Authenticated(s) && (NoExpiry(s.expiresAt) || s.expiresAt.value < now) ==>
              ValidateSession(s, now) == Validation(false, ClearSession(s))
    ensures Authenticated(s) && !NoExpiry(s.expiresAt) && s.expiresAt.value >= now ==>
              ValidateSession(s, now) == Validation(true, s)
  {
  }

  /** A valid answer means an authenticated session whose expiry has not passed; the state is then untouched. */
  lemma ValidIff(s: State, now: int)
    ensures ValidateSession(s, now).valid <==>
              Authenticated(s) && s.expiresAt.Some? && s.expiresAt.value != 0 && s.expiresAt.value >= now
    ensures ValidateSession(s, now).valid ==> ValidateSession(s, now).after == s
    ensures !ValidateSession(s, now).valid ==> !Authenticated(ValidateSession(s, now).after)
  {
  }

  /** An expiry of 0 is falsy, so such a session is never valid, even at a clock reading before 0. */
  lemma ZeroExpiryIsExpired(s: State, now: int)
    requires Authenticated(s) && s.expiresAt == Some(0)
    ensures !ValidateSession(s, now).valid
    ensures ValidateSession(s, now).after == ClearSession(s)
  {
  }

  /**
   * The two expiry checks disagree on the boundary: at `now == expiresAt` the session still
   * validates (strict `<`), but a reload at that instant discards the stored record (strict `>`).
   */
  lemma ExpiryBoundary(u: User, t: string, e: int, demo: Option<string>, nav: seq<Navigation>)
    requires e != 0
    ensures ValidateSession(State(Some(u), Some(t), Some(e), false, Record(SessionData(u, t, e)), demo, multiset{}, nav), e).valid
    ensures !Authenticated(LoadSession(Fresh(Record(SessionData(u, t, e)), demo, nav), e))
    ensures LoadSession(Fresh(Record(SessionData(u, t, e)), demo, nav), e).storedSession == NoRecord
  {
  }

  /**
   * Right after `setSession` with a positive lifetime the session validates and a timer is pending
   * for its expiry. The clock must not be negative: an expiry that lands on exactly 0 is falsy.
   */
  lemma SetThenValidate(s: State, u: User, t: string, expiresIn: int, now: int)
    requires expiresIn > 0 && now >= 0
    ensures ValidateSession(SetSession(s, u, t, expiresIn, now), now) == Validation(true, SetSession(s, u, t, expiresIn, now))
    ensures now + expiresIn * 1000 in SetSession(s, u, t, expiresIn, now).timers
  {
  }

  /** Once the lifetime has elapsed the session no longer validates, and validation clears it. */
  lemma SetThenExpire(s: State, u: User, t: string, expiresIn: int, now: int, later: int)
    requires later > now + expiresIn * 1000
    ensures ValidateSession(SetSession(s, u, t, expiresIn, now), later) == Validation(false, ClearSession(SetSession(s, u, t, expiresIn, now)))
  {
  }

  /**
   * Reload round trip: a session written by `setSession` is restored by a new process whose clock
   * has not reached the expiry; token, user and expiry come back and the demo flag comes from storage.
   */
  lemma SetThenReload(s: State, u: User, t: string, expiresIn: int, now: int, later: int)
    requires later < now + expiresIn * 1000
    ensures
      var w := SetSession(s, u, t, expiresIn, now);
      var r := LoadSession(Fresh(w.storedSession, w.storedDemoMode, []), later);
      r.user == Some(u) && r.token == Some(t) && r.expiresAt == Some(now + expiresIn * 1000) &&
      r.demoMode == (s.storedDemoMode == Some("true")) &&
      r.timers == multiset{now + expiresIn * 1000} &&
      r.storedSession == w.storedSession
  {
  }

  /** `loadSession` restores a record if and only if its expiry is strictly after `now`. */
  lemma LoadRestoresIff(s: State, now: int)
    requires s.storedSession.Record?
    ensures Authenticated(LoadSession(s, now)) <==> s.storedSession.data.expiresAt > now
    ensures Authenticated(LoadSession(s, now)) ==>
              LoadSession(s, now).user == Some(s.storedSession.data.user) &&
              LoadSession(s, now).token == Some(s.storedSession.data.token) &&
              LoadSession(s, now).expiresAt == Some(s.storedSession.data.expiresAt)
    ensures !Authenticated(LoadSession(s, now)) ==> LoadSession(s, now).storedSession == NoRecord
    ensures LoadSession(s, now).demoMode == (s.storedDemoMode == Some("true"))
  {
  }

  /** Unparsable storage fails closed: the session is cleared and the demo flag is left as it was. */
  lemma LoadUnparsable(s: State, now: int)
    requires s.storedSession == Unparsable
    ensures LoadSession(s, now) == ClearSession(s)
    ensures LoadSession(s, now).demoMode == s.demoMode
  {
  }

  /** On any path that reads the flag, demo mode is on exactly when the stored text is `"true"`. */
  lemma LoadDemoFlag(s: State, now: int)
    requires s.storedSession != Unparsable
    ensures LoadSession(s, now).demoMode <==> s.storedDemoMode == Some("true")
    ensures LoadSession(s, now).storedDemoMode == s.storedDemoMode
  {
  }

  /** Toggling negates and persists the flag and always leaves nobody signed in; only a live session causes a navigation. */
  lemma ToggleDemoEffect(s: State)
    ensures ToggleDemoMode(s).demoMode == !s.demoMode
    ensures ToggleDemoMode(s).storedDemoMode == Some(if s.demoMode then "false" else "true")
    ensures !Authenticated(ToggleDemoMode(s))
    ensures Authenticated(s) ==> ToggleDemoMode(s).navigations == s.navigations + [Navigation("/", None)]
    ensures !Authenticated(s) ==> ToggleDemoMode(s) == s.(demoMode := !s.demoMode, storedDemoMode := ToggleDemoMode(s).storedDemoMode)
  {
  }

  /** Toggling twice restores the flag. */
  lemma ToggleTwice(s: State)
    ensures ToggleDemoMode(ToggleDemoMode(s)).demoMode == s.demoMode
    ensures ToggleDemoMode(ToggleDemoMode(s)).storedDemoMode == Some(BoolText(s.demoMode))
  {
  }

  /** `setDemoMode` never touches the session, the timers or the navigations. */
  lemma SetDemoKeepsSession(s: State, enabled: bool)
    ensures var r := SetDemoMode(s, enabled);
      r.user == s.user && r.token == s.token && r.expiresAt == s.expiresAt &&
      r.storedSession == s.storedSession && r.timers == s.timers && r.navigations == s.navigations &&
      r.demoMode == enabled && r.storedDemoMode == Some(BoolText(enabled))
  {
  }

  /** Without a user and a truthy token, refreshing is a no-op. */
  lemma RefreshNoop(s: State, expiresIn: int, now: int)
    requires s.user == None || !TruthyString(s.token)
    ensures RefreshSession(s, expiresIn, now) == s
  {
  }

  /** With a user and a truthy token, refreshing keeps both and moves only the expiry (arming one more timer). */
  lemma RefreshMovesExpiry(s: State, expiresIn: int, now: int)
    requires s.user.Some? && TruthyString(s.token)
    ensures var r := RefreshSession(s, expiresIn, now);
      r.user == s.user && r.token == s.token && r.expiresAt == Some(now + expiresIn * 1000) &&
      r.demoMode == s.demoMode && s.timers <= r.timers &&
      r.storedSession == Record(SessionData(s.user.value, s.token.value, now + expiresIn * 1000))
  {
  }

  /**
   * Earlier timers are never cancelled: after a session set at `t0` is refreshed at `t1`, the timer
   * armed at `t0` is still pending, and when it fires at the first expiry it clears the refreshed
   * session although the refreshed expiry has not been reached.
   */
  lemma StaleTimerClearsRefreshedSession(s: State, u: User, t: string, t0: int, t1: int)
    requires t != ""
    requires t0 < t1 < t0 + 3600000
    ensures
      var first := t0 + 3600000;
      var refreshed := RefreshSession(SetSession(s, u, t, 3600, t0), 3600, t1);
      var fired := FireTimer(refreshed, first, first);
      first in refreshed.timers &&
      refreshed.expiresAt == Some(t1 + 3600000) && first < t1 + 3600000 &&
      !Authenticated(fired) && fired.storedSession == NoRecord &&
      refreshed.timers[first] == s.timers[first] + 1
  {
    var first := t0 + 3600000;
    var set0 := SetSession(s, u, t, 3600, t0);
    assert set0.timers == s.timers + multiset{first};
    var refreshed := RefreshSession(set0, 3600, t1);
    assert refreshed == SetSession(set0, u, t, 3600, t1);
    assert refreshed.timers == set0.timers + multiset{t1 + 3600000};
    assert first != t1 + 3600000;
    assert refreshed.timers[first] == set0.timers[first];
  }

  /** Firing a pending, due timer always logs the user out and redirects to `/`, whatever session is current. */
  lemma FireClears(s: State, deadline: int, now: int)
    requires deadline in s.timers && deadline <= now
    ensures !Authenticated(FireTimer(s, deadline, now))
    ensures FireTimer(s, deadline, now).storedSession == NoRecord
    ensures FireTimer(s, deadline, now).navigations == s.navigations + [Navigation("/", None)]
    ensures |FireTimer(s, deadline, now).timers| == |s.timers| - 1
  {
  }

  /** A timer that is not pending, or not yet due, does nothing. */
  lemma FireNotDue(s: State, deadline: int, now: int)
    requires deadline !in s.timers || now < deadline
    ensures FireTimer(s, deadline, now) == s
  {
  }
}
