/**
 * `UserService` (src/app/features/session/services/user.service.ts): permission edits and
 * profile updates computed as pure values, then written back into the session. The
 * artificial latencies are dropped; each operation completes in one step at clock `now`.
 */
module Users {
  import opened Common
  import opened AuthTypes
  import SessionSpec
  import Sessions

  const NoUserMessage: string := "No user logged in"

  // ---------------------------------------------------------------------------
  // Permission lists
  // ---------------------------------------------------------------------------

  /** `permissions.map(p => p.id === id ? {...p, granted: g} : p)`. */
  function WithGranted(perms: seq<Permission>, id: string, g: bool): (r: seq<Permission>)
    ensures |r| == |perms|
    ensures forall i :: 0 <= i < |r| && perms[i].id == id ==> r[i] == perms[i].(granted := g)
    ensures forall i :: 0 <= i < |r| && perms[i].id != id ==> r[i] == perms[i]
    decreases |perms|
  {
    if perms == [] then []
    else [if perms[0].id == id then perms[0].(granted := g) else perms[0]] + WithGranted(perms[1..], id, g)
  }

  /** Only the grant flag of matching entries can differ; ids, names, descriptions and order are kept. */
  lemma WithGrantedKeepsShape(perms: seq<Permission>, id: string, g: bool, i: int)
    requires 0 <= i < |perms|
    ensures var r := WithGranted(perms, id, g);
      r[i].id == perms[i].id && r[i].name == perms[i].name && r[i].description == perms[i].description &&
      r[i].granted == (if perms[i].id == id then g else perms[i].granted)
  {
  }

  /** A second edit of the same id overrides the first (so each edit is idempotent). */
  lemma {:induction false} WithGrantedOverrides(perms: seq<Permission>, id: string, a: bool, b: bool)
    ensures WithGranted(WithGranted(perms, id, a), id, b) == WithGranted(perms, id, b)
    decreases |perms|
  {
    if perms != [] {
      WithGrantedOverrides(perms[1..], id, a, b);
      assert WithGranted(perms, id, a)[1..] == WithGranted(perms[1..], id, a);
    }
  }

  /** Revoking twice is revoking once; revoke then grant is the same as grant, leaving every matching entry granted. */
  lemma RevokeGrantLaws(perms: seq<Permission>, id: string)
    ensures WithGranted(WithGranted(perms, id, false), id, false) == WithGranted(perms, id, false)
    ensures WithGranted(WithGranted(perms, id, true), id, true) == WithGranted(perms, id, true)
    ensures WithGranted(WithGranted(perms, id, false), id, true) == WithGranted(perms, id, true)
    ensures forall i :: 0 <= i < |perms| && perms[i].id == id ==> WithGranted(WithGranted(perms, id, false), id, true)[i].granted
  {
    WithGrantedOverrides(perms, id, false, false);
    WithGrantedOverrides(perms, id, true, true);
    WithGrantedOverrides(perms, id, false, true);
  }

  /** An edit of an id no entry carries changes nothing. */
  lemma {:induction false} WithGrantedAbsent(perms: seq<Permission>, id: string, g: bool)
    requires forall i :: 0 <= i < |perms| ==> perms[i].id != id
    ensures WithGranted(perms, id, g) == perms
    decreases |perms|
  {
    if perms != [] {
      WithGrantedAbsent(perms[1..], id, g);
    }
  }

  // ---------------------------------------------------------------------------
  // Profile merge
  // ---------------------------------------------------------------------------

  /** A `Partial<User>`: `None` stands for a key absent from the update object. */
  datatype ProfileUpdates = ProfileUpdates(
    id: Option<string>,
    email: Option<string>,
    name: Option<string>,
    firstName: Option<string>,
    lastName: Option<string>,
    picture: Option<string>,
    permissions: Option<seq<Permission>>)

  function Pick<T>(update: Option<T>, current: T): T
  {
    if update.Some? then update.value else current
  }

  /** `{...current, ...updates}`. */
  function Merge(u: User, up: ProfileUpdates): (r: User)
    ensures up.id.Some? ==> r.id == up.id.value
    ensures up.id.None? ==> r.id == u.id
    ensures up.email.Some? ==> r.email == up.email.value
    ensures up.email.None? ==> r.email == u.email
    ensures up.name.Some? ==> r.name == up.name.value
    ensures up.name.None? ==> r.name == u.name
    ensures up.firstName.Some? ==> r.firstName == up.firstName.value
    ensures up.firstName.None? ==> r.firstName == u.firstName
    ensures up.lastName.Some? ==> r.lastName == up.lastName.value
    ensures up.lastName.None? ==> r.lastName == u.lastName
    ensures up.picture.Some? ==> r.picture == up.picture
    ensures up.picture.None? ==> r.picture == u.picture
    ensures up.permissions.Some? ==> r.permissions == up.permissions.value
    ensures up.permissions.None? ==> r.permissions == u.permissions
  {
    User(Pick(up.id, u.id), Pick(up.email, u.email), Pick(up.name, u.name),
         Pick(up.firstName, u.firstName), Pick(up.lastName, u.lastName),
         if up.picture.Some? then up.picture else u.picture,
         Pick(up.permissions, u.permissions))
  }

  /** An empty update leaves the user as it is, and applying the same update twice equals applying it once. */
  lemma MergeLaws(u: User, up: ProfileUpdates)
    ensures Merge(u, ProfileUpdates(None, None, None, None, None, None, None)) == u
    ensures Merge(Merge(u, up), up) == Merge(u, up)
  {
  }

  // ---------------------------------------------------------------------------
  // The operations on the session
  // ---------------------------------------------------------------------------

  /** The value an operation emits (or its error) and the session state it leaves. */
  datatype Outcome<T> = Outcome(result: Result<T, string>, after: SessionSpec.State)

  /** The write-back all edits share: `setSession(updated, token)` with the default lifetime, only when a token is truthy. */
  function WriteBack(s: SessionSpec.State, updated: User, now: int): (r: SessionSpec.State)
    ensures TruthyString(s.token) ==> r == SessionSpec.SetSession(s, updated, s.token.value, DefaultExpiresIn, now)
    ensures !TruthyString(s.token) ==> r == s
  {
    if TruthyString(s.token) then SessionSpec.SetSession(s, updated, s.token.value, DefaultExpiresIn, now) else s
  }

  /** `revokePermission(id)` (with `g == false`) and `grantPermission(id)` (with `g == true`). */
  function EditPermission(s: SessionSpec.State, id: string, g: bool, now: int): (r: Outcome<seq<Permission>>)
  {
    if s.user.None? then Outcome(Err(NoUserMessage), s)
    else
      var updated := WithGranted(s.user.value.permissions, id, g);
      Outcome(Ok(updated), WriteBack(s, s.user.value.(permissions := updated), now))
  }

  /** With nobody signed in, both edits fail with the same message and leave the session alone. */
  lemma EditWithoutUser(s: SessionSpec.State, id: string, g: bool, now: int)
    requires s.user.None?
    ensures EditPermission(s, id, g, now) == Outcome(Err("No user logged in"), s)
  {
  }

  /**
   * With a user, the emitted list is the edited permission list; with a token it becomes the user's
   * list in a fresh session of 3600 s from `now`, and without one the session is not touched.
   */
  lemma EditWithUser(s: SessionSpec.State, id: string, g: bool, now: int)
    requires s.user.Some?
    ensures var r := EditPermission(s, id, g, now);
      r.result == Ok(WithGranted(s.user.value.permissions, id, g)) &&
      (TruthyString(s.token) ==>
         r.after.user == Some(s.user.value.(permissions := r.result.value)) &&
         r.after.expiresAt == Some(now + 3600000) && r.after.token == s.token &&
         r.after.user.value.permissions == r.result.value) &&
      (!TruthyString(s.token) ==> r.after == s)
  {
  }

  /** `updateProfile(updates)`. */
  function UpdateProfileOutcome(s: SessionSpec.State, up: ProfileUpdates, now: int): (r: Outcome<User>)
    ensures s.user.None? ==> r == Outcome(Err(NoUserMessage), s)
    ensures s.user.Some? ==> r.result == Ok(Merge(s.user.value, up))
    ensures s.user.Some? && TruthyString(s.token) ==> r.after.user == Some(Merge(s.user.value, up))
    ensures s.user.Some? && TruthyString(s.token) ==>
              r.after.token == s.token && r.after.expiresAt == Some(now + 3600000) &&
              r.after.storedSession == SessionSpec.Record(SessionData(Merge(s.user.value, up), s.token.value, now + 3600000)) &&
              r.after.timers == SessionSpec.ArmExpiry(s.timers, now + 3600000, now) &&
              r.after.demoMode == s.demoMode && r.after.storedDemoMode == s.storedDemoMode &&
              r.after.navigations == s.navigations
    ensures !TruthyString(s.token) ==> r.after == s
  {
    if s.user.None? then Outcome(Err(NoUserMessage), s)
    else
      var updated := Merge(s.user.value, up);
      Outcome(Ok(updated), WriteBack(s, updated, now))
  }

  /** `getUserPermissions()`: the signed-in user's list, or the empty list. */
  function UserPermissions(s: SessionSpec.State): (r: seq<Permission>)
    ensures s.user.Some? ==> r == s.user.value.permissions
    ensures s.user.None? ==> r == []
  {
    if s.user.Some? then s.user.value.permissions else []
  }

  /** Both kinds of edit keep the session invariant: they write back through `setSession` or change nothing. */
  lemma EditsKeepMirrored(s: SessionSpec.State, id: string, g: bool, up: ProfileUpdates, now: int)
    requires SessionSpec.Mirrored(s)
    ensures SessionSpec.Mirrored(EditPermission(s, id, g, now).after)
    ensures SessionSpec.Mirrored(UpdateProfileOutcome(s, up, now).after)
  {
  }

  method UpdateProfile(session: Sessions.SessionService, up: ProfileUpdates, now: int) returns (r: Result<User, string>)
    requires session.Valid()
    modifies session
    ensures session.Valid()
    ensures Outcome(r, session.State()) == UpdateProfileOutcome(old(session.State()), up, now)
  {
    var current := session.currentUser;
    if current.Some? {
      var updated := Merge(current.value, up);
      var tok := session.token;
      if tok.Some? && tok.value != "" {
        session.SetSession(updated, tok.value, DefaultExpiresIn, now);
      }
      r := Ok(updated);
    } else {
      r := Err(NoUserMessage);
    }
  }

  method GetUserPermissions(session: Sessions.SessionService) returns (perms: seq<Permission>)
    ensures perms == UserPermissions(session.State())
  {
    var user := session.currentUser;
    perms := if user.Some? then user.value.permissions else [];
  }

  /** The body shared by `revokePermission` and `grantPermission`. */
  method SetPermissionGranted(session: Sessions.SessionService, id: string, g: bool, now: int)
    returns (r: Result<seq<Permission>, string>)
    requires session.Valid()
    modifies session
    ensures session.Valid()
    ensures Outcome(r, session.State()) == EditPermission(old(session.State()), id, g, now)
  {
    var user := session.currentUser;
    if user.Some? {
      var updated := WithGranted(user.value.permissions, id, g);
      var tok := session.token;
      if tok.Some? && tok.value != "" {
        session.SetSession(user.value.(permissions := updated), tok.value, DefaultExpiresIn, now);
      }
      r := Ok(updated);
    } else {
      r := Err(NoUserMessage);
    }
  }

  method RevokePermission(session: Sessions.SessionService, id: string, now: int) returns (r: Result<seq<Permission>, string>)
    requires session.Valid()
    modifies session
    ensures session.Valid()
    ensures Outcome(r, session.State()) == EditPermission(old(session.State()), id, false, now)
  {
    r := SetPermissionGranted(session, id, false, now);
  }

  method GrantPermission(session: Sessions.SessionService, id: string, now: int) returns (r: Result<seq<Permission>, string>)
    requires session.Valid()
    modifies session
    ensures session.Valid()
    ensures Outcome(r, session.State()) == EditPermission(old(session.State()), id, true, now)
  {
    r := SetPermissionGranted(session, id, true, now);
  }

  /** `deleteAccount()`: nothing but a cleared session. */
  method DeleteAccount(session: Sessions.SessionService)
    modifies session
    ensures session.State() == SessionSpec.ClearSession(old(session.State()))
    ensures !session.IsAuthenticated() && session.Valid()
  {
    session.ClearSession();
  }
}
