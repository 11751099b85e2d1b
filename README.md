# Facebook-login client: session and authentication core in Dafny

This project models the client-side session and authentication logic of an Angular single-page
application that signs users in with Facebook OAuth or with a built-in demo account:

- the session manager (`SessionService`), with its in-memory signals, its two storage keys and its
  expiry timers;
- the user service (`UserService`): permission grant and revoke, profile merge, account deletion;
- the usage statistics tracker (`StatsService`) and its `formatTime` rendering;
- the two route guards (`authGuard`, `guestGuard`) and the route table they are attached to;
- the pure parts of the auth orchestrator (`AuthService`): the error table, permission names and
  descriptions, scope parsing, and the session effects of `loginWithFacebook`, `loginWithDemo` and `logout`;
- the input validators and `validateSchema`.

## How the model is built

- The clock is explicit. Every operation that reads `Date.now()` takes a parameter `now`, in
  milliseconds since the epoch. `new Date().toISOString()` is an opaque string `stamp`.
- Storage is explicit state. The session key is a `StoredSession`: no entry, text that does not
  parse, or a record. The demo-mode key is an optional string. The statistics key is a `StoredStats`.
- The router is a `Router` object that records every navigation it is asked for.
- A pending expiry timer is its deadline. `SessionSpec.State.timers` is the multiset of deadlines
  armed and not yet fired. `FireTimer(deadline, now)` is the event loop running one of them.
- Each stateful service is a `class` whose methods update the fields step by step, as the source
  does. Each method is proved to end in the state given by a pure transition function. For the
  session that function is over `SessionSpec.State`; for the statistics it is over `StatsSpec.Stats`.
  The properties are then lemmas about those functions.
- The session invariant `SessionSpec.Mirrored` says that a session exists exactly when a user is
  signed in: user, token and expiry are all set or all empty, and the storage key holds exactly
  those three values or nothing. Start-up establishes it, every transition keeps it, and
  `SessionService.Valid()` is it, as a class invariant: the constructor, `SetSession` and `ClearSession`
  establish it, `LoadSession` establishes it from an empty session, and every other session-changing
  method requires and ensures it.
- JavaScript semantics are written out where they matter:
  - truthiness (`!expiresAt` is true for `0`; an empty token is falsy);
  - `%`, whose remainder takes the sign of the dividend;
  - `Math.floor`;
  - `split`, which keeps empty pieces;
  - the `\s` class of regular expressions;
  - the decimal rendering of numbers in template literals.

Timers are never cancelled. Each call of `setSession` whose expiry is still in the future
(`expiresAt - now > 0`) arms a new timer and leaves the earlier ones pending. So after a refresh, the timer of the first session still fires at the first deadline and
logs the user out (`SessionSpec.StaleTimerClearsRefreshedSession`). The model keeps this behaviour.

The modules follow the source files:

- `Common`: `Option`, `Result` and decimal rendering.
- `AuthTypes`: the entities and configuration constants.
- `Routing`: the router and the route table.
- `SessionSpec` and `Sessions`: the session manager.
- `Users`: the user service.
- `StatsSpec` and `StatsTracker`: the statistics tracker.
- `Guards`: the route guards.
- `Auth`: the auth orchestrator.
- `Validation`: the validators.

## Model

| member | source | states |
|---|---|---|
| Common.IntToString | src/app/features/auth/services/auth.service.ts:198 | the rendering of an integer is non-empty: the digits for a non-negative number, `-` and the digits otherwise |
| Common.ParseNatToString | src/app/features/auth/services/auth.service.ts:198 | decimal rendering is invertible: parsing the digits gives the number back |
| Common.NatToStringInjective | src/app/features/auth/services/auth.service.ts:198 | different numbers render to different strings |
| Routing.Router.Navigate | src/app/guards/auth.guard.ts:29-31 | a navigation request is appended to the router's history and nothing else changes |
| Routing.Lookup | src/app/app.routes.ts:4-33 | `''` is the guest-only landing page; `profile` and `settings` are behind the auth guard; any other path redirects to `''` |
| Routing.Resolve | src/app/app.routes.ts:4-33 | every path reaches a guarded page; the page is guest-only exactly when the path is neither `profile` nor `settings` |
| SessionSpec.Fresh | src/app/features/session/services/session.service.ts:17-20 | a new process starts signed out, with demo mode off and no timers, over the given storage |
| SessionSpec.ArmExpiry | src/app/features/session/services/session.service.ts:110-119 | one timer for `expiresAt` is added exactly when `expiresAt - now > 0`; existing timers are kept |
| SessionSpec.SetSession | src/app/features/session/services/session.service.ts:36-58 | user, token and `expiresAt = now + expiresIn*1000` are set; the stored record equals `{user, token, expiresAt}`; one timer is armed if the expiry is in the future; demo mode and navigations are unchanged |
| SessionSpec.ClearSession | src/app/features/session/services/session.service.ts:63-73 | user, token and expiry become null and the stored record is removed; demo mode, timers and navigations are unchanged |
| SessionSpec.LoadSession | src/app/features/session/services/session.service.ts:78-105 | no contract of its own; `LoadRestoresIff`, `LoadUnparsable`, `LoadDemoFlag`, `SetThenReload` and `ExpiryBoundary` state it: a record is restored iff its expiry is after `now`, otherwise it is removed; bad text clears the session without reading the demo flag |
| SessionSpec.ValidateSession | src/app/features/session/services/session.service.ts:124-136 | no contract of its own; `ValidateCases` and `ValidIff` state its three outcomes and the iff for validity |
| SessionSpec.ToggleDemoMode | src/app/features/session/services/session.service.ts:141-156 | no contract of its own; `ToggleDemoEffect` and `ToggleTwice` state it |
| SessionSpec.SetDemoMode | src/app/features/session/services/session.service.ts:161-169 | no contract of its own; `SetDemoKeepsSession` states it |
| SessionSpec.RefreshSession | src/app/features/session/services/session.service.ts:181-188 | no contract of its own; `RefreshNoop` and `RefreshMovesExpiry` state both branches |
| SessionSpec.FireTimer | src/app/features/session/services/session.service.ts:114-117 | no contract of its own; `FireClears` and `FireNotDue` state both cases |
| SessionSpec.MirroredSessionIff | src/app/features/session/services/session.service.ts:17-20 | under the session invariant, being signed in, holding a token, holding an expiry and holding a stored record coincide, and the stored text is never unparsable |
| SessionSpec.WritesEstablishMirrored | src/app/features/session/services/session.service.ts:36-73 | after `setSession` or `clearSession`, from any state, the signals and the stored record agree |
| SessionSpec.LoadEstablishesMirrored | src/app/features/session/services/session.service.ts:78-105 | start-up over any storage ends with signals and stored record in agreement; a load also keeps that agreement |
| SessionSpec.TransitionsKeepMirrored | src/app/features/session/services/session.service.ts:114-188 | validation, both demo-mode setters, refresh and the timer callback keep the signals and the stored record in agreement |
| SessionSpec.ClearIdempotent | src/app/features/session/services/session.service.ts:63-73 | clearing twice is the same as clearing once |
| SessionSpec.ValidateCases | src/app/features/session/services/session.service.ts:124-136 | the three outcomes: signed out gives false with no change; null, 0 or past expiry gives false with the session cleared; otherwise true with no change |
| SessionSpec.ValidIff | src/app/features/session/services/session.service.ts:124-136 | valid iff a user is present and the expiry is non-null, non-zero and not before `now`; valid leaves the state alone; invalid leaves nobody signed in |
| SessionSpec.ZeroExpiryIsExpired | src/app/features/session/services/session.service.ts:130 | an expiry of 0 is falsy: such a session never validates, even for a negative clock, and validation clears it |
| SessionSpec.ExpiryBoundary | src/app/features/session/services/session.service.ts:85-130 | at `now == expiresAt` the running session still validates (strict `<`), but a reload at that instant discards the record (strict `>`) |
| SessionSpec.SetThenValidate | src/app/features/session/services/session.service.ts:36-136 | right after `setSession` with a positive lifetime (and a non-negative clock) the session validates unchanged, and a timer is pending for its expiry |
| SessionSpec.SetThenExpire | src/app/features/session/services/session.service.ts:124-136 | once the lifetime has elapsed, validation answers false and clears the session |
| SessionSpec.SetThenReload | src/app/features/session/services/session.service.ts:78-96 | round trip: a new process started before the expiry restores the user, token and expiry that `setSession` stored, re-arms one timer, and reads the demo flag from storage |
| SessionSpec.LoadRestoresIff | src/app/features/session/services/session.service.ts:78-100 | a stored record is restored iff its expiry is strictly after `now`; otherwise the record is removed; demo mode becomes `stored flag == "true"` |
| SessionSpec.LoadUnparsable | src/app/features/session/services/session.service.ts:101-104 | unparsable stored text clears the session and leaves the demo flag unread |
| SessionSpec.LoadDemoFlag | src/app/features/session/services/session.service.ts:98-100 | on every path that reads it, demo mode is on iff the stored text is exactly `"true"` |
| SessionSpec.ToggleDemoEffect | src/app/features/session/services/session.service.ts:141-156 | the flag is negated and persisted as `"true"`/`"false"`; the result is always signed out; a live session causes one navigation to `/`; without one nothing else changes |
| SessionSpec.ToggleTwice | src/app/features/session/services/session.service.ts:141-156 | toggling twice restores the flag and stores its text |
| SessionSpec.SetDemoKeepsSession | src/app/features/session/services/session.service.ts:161-169 | `setDemoMode` sets and persists the flag and touches neither the session, the timers nor the navigations |
| SessionSpec.RefreshNoop | src/app/features/session/services/session.service.ts:181-188 | without a user and a truthy token, refreshing changes nothing |
| SessionSpec.RefreshMovesExpiry | src/app/features/session/services/session.service.ts:181-188 | with both, user and token are kept, only the expiry moves, and earlier timers stay pending |
| SessionSpec.StaleTimerClearsRefreshedSession | src/app/features/session/services/session.service.ts:110-119 | after a refresh, the first session's timer is still pending; firing it at the first deadline logs the user out although the refreshed expiry is later |
| SessionSpec.FireClears | src/app/features/session/services/session.service.ts:114-117 | a pending, due timer clears whatever session is current, removes the stored record, navigates to `/` and is consumed |
| SessionSpec.FireNotDue | src/app/features/session/services/session.service.ts:113-117 | a timer that is not pending or not yet due does nothing |
| Sessions.SessionService.constructor | src/app/features/session/services/session.service.ts:29-31 | the service starts over the given storage and runs `loadSession` at `now`, which establishes the class invariant `Valid()` (signals and stored record agree) |
| Sessions.SessionService.IsAuthenticated | src/app/features/session/services/session.service.ts:23 | true iff a user is present, whatever the expiry |
| Sessions.SessionService.SetSession | src/app/features/session/services/session.service.ts:36-58 | the fields end as `SessionSpec.SetSession` prescribes |
| Sessions.SessionService.ClearSession | src/app/features/session/services/session.service.ts:63-73 | the fields end as `SessionSpec.ClearSession` prescribes |
| Sessions.SessionService.LoadSession | src/app/features/session/services/session.service.ts:78-105 | called from the constructor, before any session is in memory: the fields end as `SessionSpec.LoadSession` prescribes and `Valid()` holds |
| Sessions.SessionService.SetupSessionExpiryCheck | src/app/features/session/services/session.service.ts:110-119 | only the timers change, by `SessionSpec.ArmExpiry` |
| Sessions.SessionService.ValidateSession | src/app/features/session/services/session.service.ts:124-136 | the answer and the new fields are those of `SessionSpec.ValidateSession` |
| Sessions.SessionService.ToggleDemoMode | src/app/features/session/services/session.service.ts:141-156 | the fields and the router history end as `SessionSpec.ToggleDemoMode` prescribes |
| Sessions.SessionService.SetDemoMode | src/app/features/session/services/session.service.ts:161-169 | the fields end as `SessionSpec.SetDemoMode` prescribes |
| Sessions.SessionService.GetDemoUser | src/app/features/session/services/session.service.ts:174-176 | the demo user is `demo-user-123` with three permissions, all granted |
| Sessions.SessionService.RefreshSession | src/app/features/session/services/session.service.ts:181-188 | the fields end as `SessionSpec.RefreshSession` prescribes |
| Sessions.SessionService.FireTimer | src/app/features/session/services/session.service.ts:114-117 | the timer callback leaves fields and router history as `SessionSpec.FireTimer` prescribes |
| Users.WithGranted | src/app/features/session/services/user.service.ts:76-78 | same length as the input; an entry with the id gets the new flag; every other entry is unchanged |
| Users.WithGrantedKeepsShape | src/app/features/session/services/user.service.ts:76-78 | position by position, id, name and description are kept, and only matching entries change their flag |
| Users.WithGrantedOverrides | src/app/features/session/services/user.service.ts:76-78 | a second edit of the same id overrides the first, so revoke and grant are idempotent |
| Users.RevokeGrantLaws | src/app/features/session/services/user.service.ts:107-109 | revoke twice equals revoke; grant twice equals grant; revoke then grant equals grant and leaves every matching entry granted |
| Users.WithGrantedAbsent | src/app/features/session/services/user.service.ts:76-78 | editing an id that no entry carries returns the list unchanged |
| Users.Merge | src/app/features/session/services/user.service.ts:40-43 | each field present in the update overrides the user's; each absent field is kept |
| Users.MergeLaws | src/app/features/session/services/user.service.ts:40-43 | an empty update is the identity; applying an update twice equals applying it once |
| Users.WriteBack | src/app/features/session/services/user.service.ts:85-88 | with a truthy token the user is re-stored by `setSession` with 3600 s; otherwise the session is untouched |
| Users.EditWithoutUser | src/app/features/session/services/user.service.ts:92-94 | with nobody signed in, revoke and grant fail with "No user logged in" and change nothing |
| Users.EditWithUser | src/app/features/session/services/user.service.ts:74-90 | the emitted list is the edited list; with a token it becomes the stored user's list, with expiry `now + 3600000` and the same token; without one nothing changes |
| Users.EditPermission | src/app/features/session/services/user.service.ts:71-128 | no contract of its own; `EditWithoutUser` and `EditWithUser` state both branches |
| Users.EditsKeepMirrored | src/app/features/session/services/user.service.ts:35-128 | permission edits and profile updates keep the session invariant |
| Users.UpdateProfileOutcome | src/app/features/session/services/user.service.ts:35-58 | without a user, an error and no change; with one, the merged user is emitted; given a truthy token, `setSession` re-stores the merged user with the same token, an expiry of `now + 3600000`, the matching stored record and one more timer, keeping demo mode and navigations; without a token the session is untouched |
| Users.UserPermissions | src/app/features/session/services/user.service.ts:63-66 | the user's permissions, or the empty list when nobody is signed in |
| Users.UpdateProfile | src/app/features/session/services/user.service.ts:35-58 | result and new session state are those of `UpdateProfileOutcome` |
| Users.GetUserPermissions | src/app/features/session/services/user.service.ts:63-66 | returns `UserPermissions` of the current state and changes nothing |
| Users.SetPermissionGranted | src/app/features/session/services/user.service.ts:71-128 | result and new session state are those of `EditPermission` |
| Users.RevokePermission | src/app/features/session/services/user.service.ts:71-97 | `EditPermission` with the flag `false` |
| Users.GrantPermission | src/app/features/session/services/user.service.ts:102-128 | `EditPermission` with the flag `true` |
| Users.DeleteAccount | src/app/features/session/services/user.service.ts:150-157 | the session is cleared and nobody is signed in |
| StatsSpec.RecordLogin | src/app/core/services/stats.service.ts:70-74 | logins go up by one and the last login date is set; attempts and time are unchanged |
| StatsSpec.RecordAttempt | src/app/core/services/stats.service.ts:76-79 | only the attempts change, by one |
| StatsSpec.AddTimeSpent | src/app/core/services/stats.service.ts:81-84 | only the time changes, by `seconds` |
| StatsSpec.ResetStats | src/app/core/services/stats.service.ts:86-92 | all three counters are zero and the date is null: the defaults |
| StatsSpec.SnapshotOf | src/app/core/services/stats.service.ts:54-68 | the saved snapshot has every counter present |
| StatsSpec.LoadStats | src/app/core/services/stats.service.ts:39-52 | a snapshot replaces every counter, with missing fields read as 0 or null; no entry or bad text keeps the counters |
| StatsSpec.SnapshotRoundTrip | src/app/core/services/stats.service.ts:39-68 | loading what was saved gives back exactly the saved counters, whatever was in memory before |
| StatsSpec.EmptySnapshotLoadsDefaults | src/app/core/services/stats.service.ts:44-47 | a snapshot with every field missing loads as the defaults |
| StatsSpec.MutatorsMonotone | src/app/core/services/stats.service.ts:70-84 | for a non-negative time, no mutator except reset lowers any counter |
| StatsSpec.NegativeTimeLowersCounter | src/app/core/services/stats.service.ts:81-84 | a negative `seconds` is accepted and lowers the time counter |
| StatsSpec.JsRem | src/app/core/services/stats.service.ts:97 | the remainder of division truncated toward zero: `a == b*trunc(a/b) + r`, with `r` in `[0, b)` for a non-negative dividend and in `(-b, 0]` for a negative one |
| StatsSpec.Hours | src/app/core/services/stats.service.ts:95 | no contract of its own; `DurationParts` and `FormatDurationOf` state that it is the number of whole hours |
| StatsSpec.Minutes | src/app/core/services/stats.service.ts:96 | no contract of its own; `DurationParts` and `FormatDurationOf` state that it is the number of whole minutes left over |
| StatsSpec.FormatDuration | src/app/core/services/stats.service.ts:94-100 | no contract of its own; `DurationParts`, `FormatDurationOf`, `NegativeDuration` and `MinusSixtyOneSeconds` state it |
| StatsSpec.DurationParts | src/app/core/services/stats.service.ts:94-100 | for a non-negative time, `m < 60` and `h*3600 + m*60 <= s < h*3600 + m*60 + 60`; the text is `"<h>h <m>m"` when `h > 0`, else `"<m>m"` |
| StatsSpec.FormatDurationOf | src/app/core/services/stats.service.ts:94-100 | conversely, `h` hours, `m < 60` minutes and `r < 60` seconds are shown as exactly `h` and `m` |
| StatsSpec.NegativeDuration | src/app/core/services/stats.service.ts:94-100 | a negative time never shows hours; its minutes are `-((-s) mod 3600) / 60` (zero or negative), and the text is just those minutes |
| StatsSpec.MinusSixtyOneSeconds | src/app/core/services/stats.service.ts:96-99 | -61 seconds is shown as `"-2m"` |
| StatsTracker.StatsService.constructor | src/app/core/services/stats.service.ts:33-37 | the counters start at the defaults and are loaded from storage only in a browser |
| StatsTracker.StatsService.LoadFromStorage | src/app/core/services/stats.service.ts:39-52 | the counters become `LoadStats` of the old counters and the storage; storage is unchanged |
| StatsTracker.StatsService.SaveToStorage | src/app/core/services/stats.service.ts:54-68 | afterwards, storage holds the snapshot of the counters in memory |
| StatsTracker.StatsService.RecordLogin | src/app/core/services/stats.service.ts:70-74 | the counters change by `StatsSpec.RecordLogin` and are persisted |
| StatsTracker.StatsService.RecordAttempt | src/app/core/services/stats.service.ts:76-79 | the counters change by `StatsSpec.RecordAttempt` and are persisted |
| StatsTracker.StatsService.AddTimeSpent | src/app/core/services/stats.service.ts:81-84 | the counters change by `StatsSpec.AddTimeSpent` and are persisted |
| StatsTracker.StatsService.ResetStats | src/app/core/services/stats.service.ts:86-92 | the counters become the defaults and are persisted |
| StatsTracker.StatsService.FormatTime | src/app/core/services/stats.service.ts:94-100 | returns `FormatDuration` of the time counter; under an hour only the minutes are shown |
| Guards.Refuse | src/app/guards/auth.guard.ts:29-32 | a refusal is a redirect decision, and the state only gains that navigation |
| Guards.AuthGuard | src/app/guards/auth.guard.ts:14-33 | no contract of its own; `AuthGuardAllowsIff`, `AuthGuardRefusal` and `AuthGuardClearsExpired` state it |
| Guards.GuestGuard | src/app/guards/auth.guard.ts:39-53 | no contract of its own; `GuestGuardIff` and `GuestGuardIgnoresExpiry` state it |
| Guards.Enter | src/app/app.routes.ts:4-33 | no contract of its own; `EnterRoutes` states which guard each path meets |
| Guards.GuardsKeepMirrored | src/app/guards/auth.guard.ts:14-53 | both guards, and entering any route, keep the session invariant |
| Guards.AuthGuardAllowsIff | src/app/guards/auth.guard.ts:21-26 | `authGuard` allows iff a user is present and `validateSession` holds; allowing changes nothing |
| Guards.AuthGuardRefusal | src/app/guards/auth.guard.ts:29-32 | a refusal redirects to `/` with `returnUrl` set to the requested url, records that navigation, and leaves nobody signed in |
| Guards.AuthGuardClearsExpired | src/app/guards/auth.guard.ts:23 | on an expired session, `authGuard` clears it through `validateSession` before redirecting |
| Guards.GuestGuardIff | src/app/guards/auth.guard.ts:46-52 | `guestGuard` allows iff nobody is signed in; otherwise it redirects to `/profile` |
| Guards.GuestGuardIgnoresExpiry | src/app/guards/auth.guard.ts:46-52 | an expired session that nothing has cleared is still redirected to `/profile` |
| Guards.GuardsExclusive | src/app/guards/auth.guard.ts:14-53 | with a valid session only `authGuard` allows; with nobody signed in only `guestGuard` allows |
| Guards.EnterRoutes | src/app/app.routes.ts:4-33 | through the route table, profile and settings open iff the session validates; every other path opens iff nobody is signed in |
| Guards.RunAuthGuard | src/app/guards/auth.guard.ts:14-33 | the decision and the new session and router state are those of `AuthGuard` |
| Guards.RunGuestGuard | src/app/guards/auth.guard.ts:39-53 | the decision and the new router state are those of `GuestGuard` |
| Auth.HandleErrorTable | src/app/features/auth/services/auth.service.ts:252-278 | exactly the three key messages get a specific code, and each gets its own |
| Auth.HandleErrorFallback | src/app/features/auth/services/auth.service.ts:271-277 | any other message gives `UNKNOWN_ERROR` with that message, or "An error occurred" when it is missing or empty |
| Auth.HandleError | src/app/features/auth/services/auth.service.ts:252-278 | no contract of its own; `HandleErrorTable`, `HandleErrorFallback` and `OwnMessagesAgainstTable` state it |
| Auth.OwnMessagesAgainstTable | src/app/features/auth/services/auth.service.ts:67-84 | the cancellation text hits the table; the SDK-missing and demo-mode texts the service emits fall through to `UNKNOWN_ERROR` |
| Auth.Upper | src/app/features/auth/services/auth.service.ts:174 | lower-case ASCII letters are shifted to upper case; any other character is kept |
| Auth.Split | src/app/features/auth/services/auth.service.ts:173 | at least one piece, and no piece contains the separator; `SplitJoin` and `SplitCount` complete it |
| Auth.SplitJoin | src/app/features/auth/services/auth.service.ts:173-175 | joining the pieces with the separator gives back the original text |
| Auth.Capitalize | src/app/features/auth/services/auth.service.ts:174 | no contract of its own; `FormatPermissionNameSpec` states its effect inside the pipeline |
| Auth.CapitalizeAll | src/app/features/auth/services/auth.service.ts:174 | no contract of its own; `PipelineIsSpaced` states its effect inside the pipeline |
| Auth.Join | src/app/features/auth/services/auth.service.ts:175 | no contract of its own; `SplitJoin` and `PipelineIsSpaced` state it |
| Auth.FormatPermissionName | src/app/features/auth/services/auth.service.ts:171-176 | no contract of its own; `FormatPermissionNameSpec` states it character by character |
| Auth.SplitCount | src/app/features/auth/services/auth.service.ts:173 | the number of pieces is one more than the number of separators |
| Auth.PipelineIsSpaced | src/app/features/auth/services/auth.service.ts:171-176 | the split, capitalise and join pipeline equals the character-by-character reference reading |
| Auth.FormatPermissionNameSpec | src/app/features/auth/services/auth.service.ts:171-176 | each `_` becomes a space, the first character of each segment is upper-cased, everything else is kept; length is preserved; words are underscores plus one |
| Auth.FormatIsSpaced | src/app/features/auth/services/auth.service.ts:171-176 | the display name can be read off the reference reading |
| Auth.EmailName | src/app/features/auth/services/auth.service.ts:171-176 | `email` is displayed as "Email" |
| Auth.PublicProfileName | src/app/features/auth/services/auth.service.ts:171-176 | `public_profile` is displayed as "Public Profile" |
| Auth.UserLikesName | src/app/features/auth/services/auth.service.ts:171-176 | `user_likes` is displayed as "User Likes" |
| Auth.PermissionDescription | src/app/features/auth/services/auth.service.ts:181-188 | a scope outside the three-entry table gets "Access additional information"; no description is empty |
| Auth.ParsePermissions | src/app/features/auth/services/auth.service.ts:159-166 | one entry per configured scope, in scope order, with id the scope, granted, the formatted name and the scope's description |
| Auth.ParsePermissionsIgnoresResponse | src/app/features/auth/services/auth.service.ts:159-166 | the provider's response has no influence on the list |
| Auth.DemoPermissionsDifferFromParsed | src/app/config/environment.ts:40-45 | the demo user's third permission ("Likes") differs in name and description from what a provider login yields ("User Likes") |
| Auth.UserFromProfile | src/app/features/auth/services/auth.service.ts:139-147 | id, name, first and last name and picture are copied, a missing or empty email becomes `''`, and the permissions are the parsed ones |
| Auth.Failure | src/app/features/auth/services/auth.service.ts:100-113 | a failed response carries its error message |
| Auth.FacebookLoginInDemoMode | src/app/features/auth/services/auth.service.ts:67-74 | in demo mode the login fails with the demo-mode text, never calls the provider and leaves the session alone |
| Auth.FacebookLoginOutcome | src/app/features/auth/services/auth.service.ts:65-119 | success iff not in demo mode, the SDK is ready, the provider grants a token and the profile arrives; a failure changes nothing; a success stores the user and token for 3600 s |
| Auth.LoginWithFacebook | src/app/features/auth/services/auth.service.ts:65-119 | no contract of its own; `FacebookLoginInDemoMode` and `FacebookLoginOutcome` state it |
| Auth.DemoToken | src/app/features/auth/services/auth.service.ts:198 | the demo token starts with `demo_token_` and has more after that prefix |
| Auth.DemoTokensDistinct | src/app/features/auth/services/auth.service.ts:198 | demo tokens issued at different clock readings differ |
| Auth.DemoLoginEffect | src/app/features/auth/services/auth.service.ts:197-201 | the demo user is signed in with a `demo_token_` token for 3600 s, and demo mode is on and stored as `"true"`, with no navigation |
| Auth.LoginWithDemo | src/app/features/auth/services/auth.service.ts:193-211 | no contract of its own; `DemoLoginEffect` states it |
| Auth.LogoutAlwaysClears | src/app/features/auth/services/auth.service.ts:216-233 | both branches clear the session, remove the stored record, keep demo mode and navigate to `/`; the end state does not depend on the branch |
| Auth.Logout | src/app/features/auth/services/auth.service.ts:216-233 | no contract of its own; `LogoutAlwaysClears` states it |
| Auth.LoginsKeepMirrored | src/app/features/auth/services/auth.service.ts:65-233 | a Facebook login keeps the session invariant; a demo login and a logout establish it from any state |
| Auth.DemoScenario | src/app/features/auth/services/auth.service.ts:193-233 | from signed out: the landing page opens, a demo login opens the profile page, and after logout the profile page redirects to `/` again |
| Auth.RunLoginWithFacebook | src/app/features/auth/services/auth.service.ts:65-119 | the response, the provider-called flag and the new session state are those of `LoginWithFacebook` |
| Auth.RunLoginWithDemo | src/app/features/auth/services/auth.service.ts:193-211 | the response and the new session state are those of `LoginWithDemo` |
| Auth.RunLogout | src/app/features/auth/services/auth.service.ts:216-233 | the new session and router state and the branch taken are those of `Logout` |
| Validation.RequiredIsTruthy | src/utils/validation.js:19-21 | `isRequired` is false exactly for null, undefined and `''`, that is for the falsy values |
| Validation.FalsyLengthChecks | src/utils/validation.js:23-29 | a falsy value passes `maxLength` and fails `minLength` for any bound |
| Validation.IsRequired | src/utils/validation.js:19-21 | no contract of its own; `RequiredIsTruthy` states it |
| Validation.MinLength | src/utils/validation.js:23-25 | no contract of its own; `FalsyLengthChecks` states the falsy case |
| Validation.MaxLength | src/utils/validation.js:27-29 | no contract of its own; `FalsyLengthChecks` states the falsy case |
| Validation.IsEmail | src/utils/validation.js:7 | no contract of its own; `IsEmailMatchesPattern` states that it accepts exactly what the regular expression matches |
| Validation.IsEmailSound | src/utils/validation.js:7 | every string the direct predicate accepts matches the pattern `local@host.tail` |
| Validation.IsEmailComplete | src/utils/validation.js:7 | every string matching the pattern is accepted by the direct predicate |
| Validation.IsEmailMatchesPattern | src/utils/validation.js:7 | `isEmail` holds iff the string is `local@host.tail` with non-empty parts that contain neither `@` nor whitespace |
| Validation.EmailExamples | src/utils/validation.js:7 | `a@b.c` is accepted; a missing dot, an empty local part, a space and a second `@` are refused |
| Validation.Messages | src/utils/validation.js:38-56 | one message per error, in order |
| Validation.FieldErrorsOrdered | src/utils/validation.js:38-56 | a field's errors all name that field and come in rule order (required, email, url, minLength, maxLength), each at most once |
| Validation.FieldErrors | src/utils/validation.js:38-56 | no contract of its own; `FieldErrorsOrdered`, `FalsySkipsFormatChecks` and `MissingValueBreaksMinLength` state it |
| Validation.PerField | src/utils/validation.js:35-36 | one error list per schema field, in schema order, each read from `data[field]` (undefined when missing) |
| Validation.SchemaErrors | src/utils/validation.js:35-57 | no contract of its own; `SchemaErrorsAppend`, `SchemaErrorsAround` and `NoErrorsIffFieldsPass` state it |
| Validation.SchemaErrorsAppend | src/utils/validation.js:35-57 | the errors of concatenated schemas are the errors of the parts, in order |
| Validation.SchemaErrorsAround | src/utils/validation.js:35-57 | the errors of field `k` come after those of all earlier fields and before those of all later ones |
| Validation.NoErrorsIffFieldsPass | src/utils/validation.js:59-62 | there are no errors iff every field passes all its rules |
| Validation.FalsySkipsFormatChecks | src/utils/validation.js:42-48 | a falsy value never yields an email or a URL error |
| Validation.MissingValueBreaksMinLength | src/utils/validation.js:50-52 | a missing value under a `minLength` rule always reports the minimum length, required or not, right after any required error |
| Validation.Report | src/utils/validation.js:40-55 | one rule step: the message of the rule is pushed exactly when the rule is broken |
| Validation.CheckField | src/utils/validation.js:38-56 | the messages pushed for one field are the rendered errors of that field |
| Validation.ValidateSchema | src/utils/validation.js:32-63 | the error list is the rendered error list of the schema; `isValid` iff that list is empty iff every field passes |

## Left out

- The Facebook SDK is not modelled: loading its script, `FB.init`, and the `FB.login`, `FB.api` and `FB.logout` calls. Whether the SDK is ready is a flag. What the callbacks deliver is an input (`ProviderLogin`, `ProfileFetch`). `logout` is assumed to get its `FB.logout` callback.
- Asynchrony is not modelled: the Observables, `delay` and the `setTimeout` latencies. Each operation completes in one step.
- Auth.RunLoginWithDemo and Auth.LoginWithDemo read the clock once. The source reads `Date.now()` twice, once for the token and once inside `setSession`; the model uses the same `now` for both.
- SessionSpec.SetSession, SessionSpec.ArmExpiry and Sessions.SessionService.SetupSessionExpiryCheck work on unbounded integers. A fractional or `NaN` `expiresIn` (src/app/features/session/services/session.service.ts:36-37) is not modelled. Nor is the browser's signed 32-bit `setTimeout` delay (:114-117): a delay above 2^31-1 ms fires at once in a browser, while `FireTimer` waits until `deadline <= now`. Every caller passes the default 3600 s, far inside both limits.
- Timers are recorded deadlines. Firing one is an explicit step, not driven by a real clock.
- Storage exceptions (quota, disabled storage) are not modelled; the source only logs them. JSON encoding is not modelled either: storage holds typed records, with one case for text that does not parse.
- A stored session record that parses but lacks fields is not modelled. Neither is an empty stored string; it behaves like no entry, and the model has only the no-entry case.
- `validators.isUrl` relies on the platform's URL parser. It is a parameter `isUrl` of the schema validator.
- Field values in the validator are `undefined`, `null` or strings. Numbers and other JavaScript values, and their coercion to strings, are not modelled.
- The schema is given as a sequence of entries in `Object.entries` order. Object keys are unique in the source, and integer-like keys come first; the model takes whatever order it is given. Inherited keys of `data` are not modelled.
- String lengths count Unicode scalar values, whereas JavaScript counts UTF-16 code units. They differ only for characters outside the Basic Multilingual Plane.
- Auth.Upper upper-cases only ASCII letters, whereas `toUpperCase` handles all of Unicode.
- `Partial<User>` updates are modelled as present or absent keys. A key present with the value `undefined` is not modelled.
- Inherited keys of the lookup tables in `handleError` and `getPermissionDescription` (for example `"constructor"`) are not modelled.
- The statistics counters are unbounded integers. `NaN`, fractional seconds and floating-point rounding are not modelled.
- `updatePreferences` does nothing but complete, so it has no model.
- `getCurrentUser`, `getUserProfile` and `AuthService.isAuthenticated` only pass the current user or flag through. They are covered by `Sessions.SessionService.IsAuthenticated` and the `State()` function.
- The UI components, the global error handler, the logger, the Express error middleware and the application configuration are not part of this model.
- SessionSpec.SetThenValidate requires a non-negative clock. At a clock reading where `now + expiresIn*1000` is exactly 0, the source's falsy check makes the fresh session invalid.
