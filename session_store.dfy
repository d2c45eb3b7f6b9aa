/**
 * The session store (`store/auth.ts`): who is signed in and with which
 * tokens.  The calls to the authentication endpoints are parameters: each
 * action receives how its request settled.
 */
module SessionStore {
  import opened Wrappers

  datatype User = User(id: int, username: string, email: string, firstName: string, lastName: string, dateJoined: string)

  datatype Tokens = Tokens(access: string, refresh: string)

  /** The body of a successful login or registration. */
  datatype AuthResponse = AuthResponse(user: User, tokens: Tokens)

  /** The part of the store `partialize` hands to storage under `auth-storage`. */
  datatype StoredSession = StoredSession(user: Option<User>, accessToken: Option<string>,
                                         refreshToken: Option<string>, isAuthenticated: bool)

  const LoginFailed := "Login failed"
  const RegistrationFailed := "Registration failed"
  const NoRefreshToken := "No refresh token available"

  class AuthStore {
    var user: Option<User>
    var accessToken: Option<string>
    var refreshToken: Option<string>
    var isAuthenticated: bool
    var isLoading: bool
    var error: Option<string>

    /**
     * A session is either anonymous (no user, no tokens) or authenticated
     * with a user and both tokens.
     */
    predicate Valid()
      reads this
    {
      && (isAuthenticated <==> user.Some?)
      && (isAuthenticated <==> accessToken.Some?)
      && (isAuthenticated <==> refreshToken.Some?)
    }

    /** The fields that identify the session, which failures must not touch. */
    function Identity(): (Option<User>, Option<string>, Option<string>, bool)
      reads this
    {
      (user, accessToken, refreshToken, isAuthenticated)
    }

    constructor()
      ensures Valid() && !isAuthenticated
      ensures user == None && accessToken == None && refreshToken == None
      ensures !isLoading && error == None
    {
      user, accessToken, refreshToken := None, None, None;
      isAuthenticated, isLoading, error := false, false, None;
    }

    /** `partialize`: the identity fields, without the loading and error flags. */
    function Persisted(): (p: StoredSession)
      reads this
      ensures (p.user, p.accessToken, p.refreshToken, p.isAuthenticated) == Identity()
      ensures Valid() ==> (p.isAuthenticated <==> p.user.Some? && p.accessToken.Some? && p.refreshToken.Some?)
      ensures Valid() && !p.isAuthenticated ==> p.user == None && p.accessToken == None && p.refreshToken == None
    {
      StoredSession(user, accessToken, refreshToken, isAuthenticated)
    }

    /** The shared body of `login` and `register`; `fallback` is the message for a non-`Error` throw. */
    method Authenticate(response: Outcome<AuthResponse>, fallback: string) returns (raised: Option<Thrown>)
      requires Valid()
      modifies this
      ensures Valid() && !isLoading
      ensures response.Ok? ==>
        && user == Some(response.value.user)
        && accessToken == Some(response.value.tokens.access)
        && refreshToken == Some(response.value.tokens.refresh)
        && isAuthenticated && error == None && raised == None
      ensures response.Err? ==>
        && Identity() == old(Identity())
        && error == Some(MessageOr(response.thrown, fallback))
        && raised == Some(response.thrown)
    {
      isLoading, error := true, None;
      match response {
        case Ok(r) =>
          user, accessToken, refreshToken := Some(r.user), Some(r.tokens.access), Some(r.tokens.refresh);
          isAuthenticated, isLoading := true, false;
          raised := None;
        case Err(thrown) =>
          error, isLoading := Some(MessageOr(thrown, fallback)), false;
          raised := Some(thrown);
      }
    }

    /** `login(credentials)`: `raised` is the error re-thrown to the caller. */
    method Login(response: Outcome<AuthResponse>) returns (raised: Option<Thrown>)
      requires Valid()
      modifies this
      ensures Valid() && !isLoading
      ensures response.Ok? ==>
        && user == Some(response.value.user)
        && accessToken == Some(response.value.tokens.access)
        && refreshToken == Some(response.value.tokens.refresh)
        && isAuthenticated && error == None && raised == None
      ensures response.Err? ==>
        && Identity() == old(Identity())
        && error == Some(MessageOr(response.thrown, LoginFailed))
        && raised == Some(response.thrown)
    {
      raised := Authenticate(response, LoginFailed);
    }

    /** `register(userData)`: as `login`, with its own fallback message. */
    method Register(response: Outcome<AuthResponse>) returns (raised: Option<Thrown>)
      requires Valid()
      modifies this
      ensures Valid() && !isLoading
      ensures response.Ok? ==>
        && user == Some(response.value.user)
        && accessToken == Some(response.value.tokens.access)
        && refreshToken == Some(response.value.tokens.refresh)
        && isAuthenticated && error == None && raised == None
      ensures response.Err? ==>
        && Identity() == old(Identity())
        && error == Some(MessageOr(response.thrown, RegistrationFailed))
        && raised == Some(response.thrown)
    {
      raised := Authenticate(response, RegistrationFailed);
    }

    /**
     * `logout()`: forgets the user and both tokens and clears the error.
     * The new state does not depend on the old one, so logging out twice
     * is logging out once.  The loading flag is left alone.
     */
    method Logout()
      modifies this
      ensures Valid() && !isAuthenticated
      ensures user == None && accessToken == None && refreshToken == None && error == None
      ensures isLoading == old(isLoading)
    {
      user, accessToken, refreshToken := None, None, None;
      isAuthenticated, error := false, None;
    }

    /**
     * `refreshAccessToken()`: `response` is how the refresh request settles
     * and `requested` the refresh token sent with it, if any was.  Without a
     * usable refresh token nothing is sent and nothing changes; success
     * replaces only the access token; failure logs out.  Either failure is
     * re-thrown.
     */
    method RefreshAccessToken(response: Outcome<string>) returns (requested: Option<string>, raised: Option<Thrown>)
      requires Valid()
      modifies this
      ensures Valid()
      ensures !Truthy(old(refreshToken)) ==>
        && requested == None
        && raised == Some(ErrorInstance(NoRefreshToken))
        && Identity() == old(Identity()) && error == old(error) && isLoading == old(isLoading)
      ensures Truthy(old(refreshToken)) && response.Ok? ==>
        && requested == old(refreshToken) && raised == None
        && accessToken == Some(response.value)
        && user == old(user) && refreshToken == old(refreshToken) && isAuthenticated == old(isAuthenticated)
        && error == old(error) && isLoading == old(isLoading)
      ensures Truthy(old(refreshToken)) && response.Err? ==>
        && requested == old(refreshToken) && raised == Some(response.thrown)
        && user == None && accessToken == None && refreshToken == None && !isAuthenticated
        && error == None && isLoading == old(isLoading)
    {
      if !Truthy(refreshToken) {
        return None, Some(ErrorInstance(NoRefreshToken));
      }
      requested := refreshToken;
      match response {
        case Ok(access) =>
          accessToken := Some(access);
          raised := None;
        case Err(thrown) =>
          Logout();
          raised := Some(thrown);
      }
    }

    /** `clearError()` */
    method ClearError()
      requires Valid()
      modifies this`error
      ensures Valid() && error == None
    {
      error := None;
    }

    /** `setLoading(loading)` */
    method SetLoading(loading: bool)
      requires Valid()
      modifies this`isLoading
      ensures Valid() && isLoading == loading
    {
      isLoading := loading;
    }
  }
}
