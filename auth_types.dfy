/**
 * The entities of the authentication layer (src/app/types/auth.types.ts) and the
 * configuration constants it relies on (src/app/config/environment.ts).
 */
module AuthTypes {
  import opened Common

  /** A capability grant shown and toggled on the settings page. */
  datatype Permission = Permission(id: string, name: string, granted: bool, description: string)

  /** The authenticated identity; `picture` is optional in the source. */
  datatype User = User(
    id: string,
    email: string,
    name: string,
    firstName: string,
    lastName: string,
    picture: Option<string>,
    permissions: seq<Permission>)

  /** The record persisted under the session storage key. */
  datatype SessionData = SessionData(user: User, token: string, expiresAt: int)

  /** The `AuthError` union of error codes. */
  datatype AuthErrorCode =
    | InvalidCredentials
    | OAuthCancelled
    | OAuthFailed
    | OAuthRequired
    | DemoModeEnabled
    | DemoLoginFailed
    | SessionExpired
    | NetworkError
    | UnknownError

  /** A structured, user-facing error. */
  datatype AuthErrorDetails = AuthErrorDetails(code: AuthErrorCode, message: string, suggestion: string)

  /** The uniform `{success, user?, token?, error?}` shape every login operation yields. */
  datatype AuthResponse = AuthResponse(success: bool, user: Option<User>, token: Option<string>, error: Option<string>)

  /** The OAuth scopes requested from the identity provider, in their configured order. */
  const Scopes: seq<string> := ["email", "public_profile", "user_likes"]

  /** The fixed user every demo login signs in as. */
  const DemoUser: User := User(
    "demo-user-123",
    "demo@example.com",
    "Demo User",
    "Demo",
    "User",
    Some("https://i.pravatar.cc/150?img=68"),
    [ Permission("email", "Email", true, "Access your email address"),
      Permission("public_profile", "Public Profile", true, "Access your public profile information"),
      Permission("user_likes", "Likes", true, "Access your likes") ])

  /** Default session lifetime, in seconds, of `setSession` and `refreshSession`. */
  const DefaultExpiresIn: int := 3600
}
