/**
 * The auth orchestrator of src/app/features/auth/services/auth.service.ts: its pure helpers
 * (error table, permission naming and descriptions, scope parsing) and the session effects
 * of its login and logout operations. The identity provider's SDK is not modelled; what
 * its callbacks deliver is an input (`ProviderLogin`), and whether the SDK finished loading
 * is the flag `sdkReady`.
 */
module Auth {
  import opened Common
  import opened AuthTypes
  import opened Routing
  import SessionSpec
  import Sessions
  import Guards

  // ---------------------------------------------------------------------------
  // handleError
  // ---------------------------------------------------------------------------

  const CancelledMessage: string := "OAuth cancelled by user"
  const SdkMissingMessage: string := "Facebook SDK not initialized. Please refresh the page."
  const DemoModeMessage: string := "Cannot use OAuth in demo mode. Disable demo mode first."
  const FetchFailedMessage: string := "Failed to fetch user data"

  /** The keys of the error table, matched exactly. */
  predicate IsKnownErrorMessage(m: string)
  {
    m == "OAuth cancelled by user" || m == "Facebook SDK not initialized" || m == "Session expired"
  }

  /** `handleError(error)` on an error whose `message` is `message` (`None` for a missing one). */
  function HandleError(message: Option<string>): (r: AuthErrorDetails)
  {
    if message == Some("OAuth cancelled by user") then
      AuthErrorDetails(OAuthCancelled, "Login was cancelled", "Try logging in again")
    else if message == Some("Facebook SDK not initialized") then
      AuthErrorDetails(OAuthFailed, "Facebook SDK failed to load", "Refresh the page and try again")
    else if message == Some("Session expired") then
      AuthErrorDetails(SessionExpired, "Your session has expired", "Please log in again")
    else
      AuthErrorDetails(UnknownError, if TruthyString(message) then message.value else "An error occurred", "Please try again")
  }

  /** Only the three exact keys get a specific code; each of them gets a different one. */
  lemma HandleErrorTable(message: Option<string>)
    ensures HandleError(message).code != UnknownError <==> message.Some? && IsKnownErrorMessage(message.value)
    ensures HandleError(message).code == OAuthCancelled <==> message == Some("OAuth cancelled by user")
    ensures HandleError(message).code == OAuthFailed <==> message == Some("Facebook SDK not initialized")
    ensures HandleError(message).code == SessionExpired <==> message == Some("Session expired")
  {
  }

  /** Anything else is an unknown error carrying its own message, or a stock one when the message is missing or empty. */
  lemma HandleErrorFallback(message: Option<string>)
    requires !(message.Some? && IsKnownErrorMessage(message.value))
    ensures HandleError(message).code == UnknownError
    ensures HandleError(message).suggestion == "Please try again"
    ensures TruthyString(message) ==> HandleError(message).message == message.value
    ensures !TruthyString(message) ==> HandleError(message).message == "An error occurred"
  {
  }

  /**
   * Of the failure texts the service itself produces, only the cancellation is a key of the table:
   * the SDK and demo-mode texts are longer than any key and fall through to the unknown error.
   */
  lemma OwnMessagesAgainstTable()
    ensures HandleError(Some(CancelledMessage)).code == OAuthCancelled
    ensures HandleError(Some(SdkMissingMessage)) == AuthErrorDetails(UnknownError, SdkMissingMessage, "Please try again")
    ensures HandleError(Some(DemoModeMessage)) == AuthErrorDetails(UnknownError, DemoModeMessage, "Please try again")
  {
    assert SdkMissingMessage != "Facebook SDK not initialized" by {
      assert |SdkMissingMessage| != |"Facebook SDK not initialized"|;
    }
  }

  // ---------------------------------------------------------------------------
  // formatPermissionName
  // ---------------------------------------------------------------------------

  /** `toUpperCase` on one character, for the ASCII letters. */
  function Upper(c: char): (u: char)
    ensures 'a' <= c <= 'z' ==> u as int == c as int - 32
    ensures !('a' <= c <= 'z') ==> u == c
  {
    if 'a' <= c <= 'z' then (c as int - 32) as char else c
  }

  /** `s.split(sep)`: the pieces between separators, empty pieces included; `""` splits to `[""]`. */
  function Split(s: string, sep: char): (ws: seq<string>)
    ensures |ws| >= 1
    ensures forall i, j :: 0 <= i < |ws| && 0 <= j < |ws[i]| ==> ws[i][j] != sep
    decreases |s|
  {
    if s == [] then [""]
    else
      var rest := Split(s[1..], sep);
      if s[0] == sep then [""] + rest
      else [[s[0]] + rest[0]] + rest[1..]
  }

  /** `word.charAt(0).toUpperCase() + word.slice(1)`. */
  function Capitalize(w: string): (r: string)
  {
    if w == [] then [] else [Upper(w[0])] + w[1..]
  }

  /** `.map(Capitalize)`. */
  function CapitalizeAll(ws: seq<string>): (r: seq<string>)
    decreases |ws|
  {
    if ws == [] then [] else [Capitalize(ws[0])] + CapitalizeAll(ws[1..])
  }

  /** `ws.join(sep)`. */
  function Join(ws: seq<string>, sep: char): string
    decreases |ws|
  {
    if |ws| == 0 then "" else if |ws| == 1 then ws[0] else ws[0] + [sep] + Join(ws[1..], sep)
  }

  /** `formatPermissionName(scope)`. */
  function FormatPermissionName(scope: string): string
  {
    Join(CapitalizeAll(Split(scope, '_')), ' ')
  }

  /** Number of occurrences of `c` in `s`. */
  function Count(s: string, c: char): nat
    decreases |s|
  {
    if s == [] then 0 else (if s[0] == c then 1 else 0) + Count(s[1..], c)
  }

  /** Splitting on `_` yields one more piece than there are underscores. */
  lemma {:induction false} SplitCount(s: string, sep: char)
    ensures |Split(s, sep)| == Count(s, sep) + 1
    decreases |s|
  {
    if s != [] {
      SplitCount(s[1..], sep);
    }
  }

  /**
   * The reference reading of the name, one character at a time: an underscore becomes a space,
   * a character that starts a word (at the start when `cap` holds, or after an underscore) is upper-cased.
   */
  function Spaced(s: string, cap: bool): (r: string)
    ensures |r| == |s|
    decreases |s|
  {
    if s == [] then []
    else [if s[0] == '_' then ' ' else if cap then Upper(s[0]) else s[0]] + Spaced(s[1..], s[0] == '_')
  }

  lemma {:induction false} SpacedAt(s: string, cap: bool, i: int)
    requires 0 <= i < |s|
    ensures Spaced(s, cap)[i] ==
              if s[i] == '_' then ' '
              else if (i == 0 && cap) || (i > 0 && s[i - 1] == '_') then Upper(s[i])
              else s[i]
    decreases |s|
  {
    if i > 0 {
      SpacedAt(s[1..], s[0] == '_', i - 1);
    }
  }

  lemma JoinConsFirst(c: char, w: string, ws: seq<string>, sep: char)
    ensures Join([[c] + w] + ws, sep) == [c] + Join([w] + ws, sep)
  {
    var l := [[c] + w] + ws;
    var l' := [w] + ws;
    assert l[1..] == ws && l'[1..] == ws;
  }

  /** Splitting and joining with the same separator gives back the original text. */
  lemma {:induction false} SplitJoin(s: string, sep: char)
    ensures Join(Split(s, sep), sep) == s
    decreases |s|
  {
    if s != [] {
      var rest := Split(s[1..], sep);
      SplitJoin(s[1..], sep);
      if s[0] == sep {
        assert ([""] + rest)[1..] == rest;
      } else {
        assert rest == [rest[0]] + rest[1..];
        JoinConsFirst(s[0], rest[0], rest[1..], sep);
      }
    }
  }

  /** The split/map/join pipeline agrees with the character-wise reading (generalised over the first word). */
  lemma {:induction false} PipelineIsSpaced(s: string, cap: bool)
    ensures var ws := Split(s, '_');
      Join(if cap then CapitalizeAll(ws) else [ws[0]] + CapitalizeAll(ws[1..]), ' ') == Spaced(s, cap)
    decreases |s|
  {
    var ws := Split(s, '_');
    if s == [] {
      assert ws == [""];
    } else {
      var rest := Split(s[1..], '_');
      if s[0] == '_' {
        assert ws == [""] + rest;
        assert ws[1..] == rest;
        PipelineIsSpaced(s[1..], true);
        var caps := CapitalizeAll(rest);
        assert |caps| >= 1 by { assert caps == [Capitalize(rest[0])] + CapitalizeAll(rest[1..]); }
        var l := if cap then CapitalizeAll(ws) else [ws[0]] + CapitalizeAll(ws[1..]);
        assert l == [""] + caps;
        assert l[1..] == caps;
      } else {
        var first := [s[0]] + rest[0];
        assert ws == [first] + rest[1..];
        assert ws[1..] == rest[1..];
        PipelineIsSpaced(s[1..], false);
        var x := if cap then Upper(s[0]) else s[0];
        var l := if cap then CapitalizeAll(ws) else [ws[0]] + CapitalizeAll(ws[1..]);
        assert l == [[x] + rest[0]] + CapitalizeAll(rest[1..]);
        JoinConsFirst(x, rest[0], CapitalizeAll(rest[1..]), ' ');
      }
    }
  }

  /**
   * `formatPermissionName` turns every `_` into a space and upper-cases the first letter of every
   * segment; nothing else changes, so the length is kept and there is one word per underscore plus one.
   */
  lemma FormatPermissionNameSpec(scope: string)
    ensures |FormatPermissionName(scope)| == |scope|
    ensures forall i :: 0 <= i < |scope| ==>
              FormatPermissionName(scope)[i] ==
                if scope[i] == '_' then ' '
                else if i == 0 || scope[i - 1] == '_' then Upper(scope[i])
                else scope[i]
    ensures |Split(scope, '_')| == Count(scope, '_') + 1
  {
    PipelineIsSpaced(scope, true);
    forall i | 0 <= i < |scope|
      ensures FormatPermissionName(scope)[i] ==
                if scope[i] == '_' then ' '
                else if i == 0 || scope[i - 1] == '_' then Upper(scope[i])
                else scope[i]
    {
      SpacedAt(scope, true, i);
    }
    SplitCount(scope, '_');
  }

  /** The pipeline's result can be read off the character-wise reading. */
  lemma FormatIsSpaced(scope: string, name: string)
    requires Spaced(scope, true) == name
    ensures FormatPermissionName(scope) == name
  {
    PipelineIsSpaced(scope, true);
  }

  lemma {:induction false} SpacedAppend(a: string, b: string, cap: bool)
    requires a != []
    ensures Spaced(a + b, cap) == Spaced(a, cap) + Spaced(b, a[|a| - 1] == '_')
    decreases |a|
  {
    assert (a + b)[1..] == a[1..] + b;
    if |a| > 1 {
      SpacedAppend(a[1..], b, a[0] == '_');
    } else {
      assert a[1..] + b == b;
    }
  }

  /** The configured scopes get their display names (each scope is a parameter so that its literal is not unfolded). */
  lemma EmailName(scope: string)
    requires scope == "email"
    ensures FormatPermissionName(scope) == "Email"
  {
    assert Spaced("email", true) == "Email";
    FormatIsSpaced(scope, "Email");
  }

  lemma PublicProfileName(scope: string)
    requires scope == "public_" + "profile"
    ensures FormatPermissionName(scope) == "Public Profile"
  {
    PublicProfileSpaced(scope);
    FormatIsSpaced(scope, "Public " + "Profile");
  }

  lemma PublicProfileSpaced(scope: string)
    requires scope == "public_" + "profile"
    ensures Spaced(scope, true) == "Public " + "Profile"
  {
    assert Spaced("public_", true) == "Public ";
    assert Spaced("profile", true) == "Profile";
    SpacedAppend("public_", "profile", true);
  }

  lemma UserLikesName(scope: string)
    requires scope == "user_likes"
    ensures FormatPermissionName(scope) == "User Likes"
  {
    assert Spaced("user_likes", true) == "User Likes";
    FormatIsSpaced(scope, "User Likes");
  }

  // ---------------------------------------------------------------------------
  // getPermissionDescription, parsePermissions
  // ---------------------------------------------------------------------------

  /** `getPermissionDescription(scope)`: three known scopes, a stock text for any other. */
  function PermissionDescription(scope: string): (d: string)
    ensures scope !in {"email", "public_profile", "user_likes"} ==> d == "Access additional information"
    ensures d != ""
  {
    if scope == "email" then "Access your email address"
    else if scope == "public_profile" then "Access your public profile information"
    else if scope == "user_likes" then "Access your likes and interests"
    else "Access additional information"
  }

  /** The profile fields the provider's data-fetch primitive returns. */
  datatype ProviderProfile = ProviderProfile(
    id: string, email: Option<string>, name: string, firstName: string, lastName: string, pictureUrl: Option<string>)

  /** `parsePermissions(response)`: one granted entry per configured scope; the response itself is not consulted. */
  function ParsePermissions(response: ProviderProfile): (ps: seq<Permission>)
    ensures |ps| == |Scopes|
    ensures forall i :: 0 <= i < |ps| ==>
              ps[i].id == Scopes[i] && ps[i].granted &&
              ps[i].name == FormatPermissionName(Scopes[i]) &&
              ps[i].description == PermissionDescription(Scopes[i])
  {
    seq(|Scopes|, i requires 0 <= i < |Scopes| =>
      Permission(Scopes[i], FormatPermissionName(Scopes[i]), true, PermissionDescription(Scopes[i])))
  }

  /** Two different provider responses give the same permission list. */
  lemma ParsePermissionsIgnoresResponse(a: ProviderProfile, b: ProviderProfile)
    ensures ParsePermissions(a) == ParsePermissions(b)
  {
  }

  /**
   * The demo user does not carry what `parsePermissions` would produce: its third permission is named
   * "Likes" with a shorter description, where a provider login gets "User Likes".
   */
  lemma DemoPermissionsDifferFromParsed(response: ProviderProfile)
    ensures DemoUser.permissions[2].name == "Likes"
    ensures ParsePermissions(response)[2].name == "User Likes"
    ensures DemoUser.permissions[2].description != ParsePermissions(response)[2].description
  {
    UserLikesName(Scopes[2]);
  }

  /** The user built from a fetched profile: a missing email becomes `''`. */
  function UserFromProfile(p: ProviderProfile): (u: User)
    ensures u.id == p.id && u.picture == p.pictureUrl
    ensures u.email == if TruthyString(p.email) then p.email.value else ""
    ensures u.name == p.name && u.firstName == p.firstName && u.lastName == p.lastName
    ensures u.permissions == ParsePermissions(p)
  {
    User(p.id, if TruthyString(p.email) then p.email.value else "", p.name, p.firstName, p.lastName,
         p.pictureUrl, ParsePermissions(p))
  }

  // ---------------------------------------------------------------------------
  // loginWithFacebook, loginWithDemo, logout
  // ---------------------------------------------------------------------------

  /** What the profile fetch reports: an error message, or the profile. */
  datatype ProfileFetch = ProfileFailed(message: string) | ProfileFetched(profile: ProviderProfile)

  /** What the provider's login callback reports: no grant, or an access token and then the profile fetch. */
  datatype ProviderLogin = LoginCancelled | LoginAuthorized(accessToken: string, fetch: ProfileFetch)

  function Failure(message: string): (r: AuthResponse)
    ensures !r.success && r.error == Some(message)
  {
    AuthResponse(false, None, None, Some(message))
  }

  /** A login's result, the session it leaves, and whether the provider's login primitive was invoked. */
  datatype Login = Login(response: AuthResponse, after: SessionSpec.State, providerCalled: bool)

  /** `loginWithFacebook()`. */
  function LoginWithFacebook(s: SessionSpec.State, sdkReady: bool, provider: ProviderLogin, now: int): (r: Login)
  {
    if s.demoMode then Login(Failure(DemoModeMessage), s, false)
    else if !sdkReady then Login(Failure(SdkMissingMessage), s, false)
    else match provider
      case LoginCancelled => Login(Failure(CancelledMessage), s, true)
      case LoginAuthorized(tok, ProfileFailed(m)) =>
        Login(Failure(if m != "" then m else FetchFailedMessage), s, true)
      case LoginAuthorized(tok, ProfileFetched(p)) =>
        var u := UserFromProfile(p);
        Login(AuthResponse(true, Some(u), Some(tok), None), SessionSpec.SetSession(s, u, tok, DefaultExpiresIn, now), true)
  }

  /** In demo mode the provider login fails at once, never reaches the provider and leaves the session as it was. */
  lemma FacebookLoginInDemoMode(s: SessionSpec.State, sdkReady: bool, provider: ProviderLogin, now: int)
    requires s.demoMode
    ensures LoginWithFacebook(s, sdkReady, provider, now) == Login(Failure(DemoModeMessage), s, false)
  {
  }

  /** Only a fetched profile signs anybody in; every failure leaves the session untouched. */
  lemma FacebookLoginOutcome(s: SessionSpec.State, sdkReady: bool, provider: ProviderLogin, now: int)
    ensures var r := LoginWithFacebook(s, sdkReady, provider, now);
      r.response.success <==> !s.demoMode && sdkReady && provider.LoginAuthorized? && provider.fetch.ProfileFetched?
    ensures var r := LoginWithFacebook(s, sdkReady, provider, now);
      !r.response.success ==> r.after == s
    ensures var r := LoginWithFacebook(s, sdkReady, provider, now);
      r.response.success ==>
        r.after.user == Some(UserFromProfile(provider.fetch.profile)) &&
        r.after.token == Some(provider.accessToken) && r.after.expiresAt == Some(now + 3600000)
  {
  }

  /** The token a demo login is issued: `demo_token_` followed by the clock reading. */
  function DemoToken(now: int): (t: string)
    ensures StartsWith(t, "demo_token_")
    ensures |t| > |"demo_token_"|
  {
    "demo_token_" + IntToString(now)
  }

  /** Demo tokens issued at different instants differ. */
  lemma DemoTokensDistinct(m: nat, n: nat)
    requires m != n
    ensures DemoToken(m) != DemoToken(n)
  {
    if DemoToken(m) == DemoToken(n) {
      var k := |"demo_token_"|;
      assert DemoToken(m)[k..] == NatToString(m);
      assert DemoToken(n)[k..] == NatToString(n);
      NatToStringInjective(m, n);
    }
  }

  /** `loginWithDemo()`: a session for the demo user, then demo mode switched on (which keeps that session). */
  function LoginWithDemo(s: SessionSpec.State, now: int): (r: Login)
  {
    var token := DemoToken(now);
    Login(AuthResponse(true, Some(DemoUser), Some(token), None),
          SessionSpec.SetDemoMode(SessionSpec.SetSession(s, DemoUser, token, DefaultExpiresIn, now), true), false)
  }

  lemma DemoLoginEffect(s: SessionSpec.State, now: int)
    ensures var r := LoginWithDemo(s, now);
      r.response.success && r.after.user == Some(DemoUser) && r.after.demoMode &&
      r.after.storedDemoMode == Some("true") &&
      r.after.token.Some? && StartsWith(r.after.token.value, "demo_token_") &&
      r.after.expiresAt == Some(now + 3600000) && r.after.navigations == s.navigations
  {
  }

  /**
   * `logout()`: the session is cleared in both branches and the user sent to `/`; `providerCalled` tells
   * which branch ran. `logout()` emits no value: the response field is only a placeholder.
   */
  function Logout(s: SessionSpec.State, sdkPresent: bool): (r: Login)
  {
    Login(AuthResponse(true, None, None, None),
          SessionSpec.ClearSession(s).(navigations := s.navigations + [Navigation("/", None)]),
          !s.demoMode && sdkPresent)
  }

  lemma LogoutAlwaysClears(s: SessionSpec.State, sdkPresent: bool)
    ensures var r := Logout(s, sdkPresent);
      !SessionSpec.Authenticated(r.after) && r.after.storedSession == SessionSpec.NoRecord &&
      r.after.demoMode == s.demoMode && r.after.navigations == s.navigations + [Navigation("/", None)]
    ensures Logout(s, true).after == Logout(s, false).after
  {
  }

  /**
   * The demo walk-through: from a signed-out start, a demo login opens the
   * profile page; after logging out, the profile guard redirects to `/` again.
   */
  lemma DemoScenario(s: SessionSpec.State, now: int, later: int)
    requires !SessionSpec.Authenticated(s) && now >= 0 && now <= later < now + 3600000
    ensures
      var signedIn := LoginWithDemo(s, now).after;
      var entered := Guards.Enter("profile", "/profile", signedIn, later);
      var signedOut := Logout(entered.after, true).after;
      Guards.GuestGuard(s).decision == Guards.Allow &&
      entered.decision == Guards.Allow &&
      Guards.Enter("profile", "/profile", signedOut, later).decision == Guards.Redirect("/", Some("/profile"))
  {
  }

  /** Logins and logout keep the session invariant; a demo login and a logout establish it from any state. */
  lemma LoginsKeepMirrored(s: SessionSpec.State, sdkReady: bool, provider: ProviderLogin, now: int, sdkPresent: bool)
    ensures SessionSpec.Mirrored(s) ==> SessionSpec.Mirrored(LoginWithFacebook(s, sdkReady, provider, now).after)
    ensures SessionSpec.Mirrored(LoginWithDemo(s, now).after)
    ensures SessionSpec.Mirrored(Logout(s, sdkPresent).after)
  {
  }

  method RunLoginWithFacebook(session: Sessions.SessionService, sdkReady: bool, provider: ProviderLogin, now: int)
    returns (r: AuthResponse, providerCalled: bool)
    requires session.Valid()
    modifies session
    ensures session.Valid()
    ensures Login(r, session.State(), providerCalled) == LoginWithFacebook(old(session.State()), sdkReady, provider, now)
  {
    if session.demoMode {
      return Failure(DemoModeMessage), false;
    }
    if !sdkReady {
      return Failure(SdkMissingMessage), false;
    }
    providerCalled := true;
    match provider
    case LoginCancelled =>
      r := Failure(CancelledMessage);
    case LoginAuthorized(tok, fetch) =>
      match fetch
      case ProfileFailed(m) =>
        r := Failure(if m != "" then m else FetchFailedMessage);
      case ProfileFetched(p) =>
        var user := UserFromProfile(p);
        session.SetSession(user, tok, DefaultExpiresIn, now);
        r := AuthResponse(true, Some(user), Some(tok), None);
  }

  method RunLoginWithDemo(session: Sessions.SessionService, now: int) returns (r: AuthResponse)
    modifies session
    ensures session.Valid()
    ensures Login(r, session.State(), false) == LoginWithDemo(old(session.State()), now)
  {
    var demoUser := session.GetDemoUser();
    var demoToken := DemoToken(now);
    session.SetSession(demoUser, demoToken, DefaultExpiresIn, now);
    session.SetDemoMode(true);
    r := AuthResponse(true, Some(demoUser), Some(demoToken), None);
  }

  method RunLogout(session: Sessions.SessionService, sdkPresent: bool) returns (providerCalled: bool)
    modifies session, session.router
    ensures session.Valid()
    ensures Login(AuthResponse(true, None, None, None), session.State(), providerCalled) == Logout(old(session.State()), sdkPresent)
  {
    // both branches do the same once the provider's logout callback has run
    providerCalled := !session.demoMode && sdkPresent;
    session.ClearSession();
    session.router.Navigate(Navigation("/", None));
  }
}
