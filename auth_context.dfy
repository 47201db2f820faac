/**
 * The authentication provider of src/context/AuthContext.jsx: the `user` and
 * `loading` state it exposes, and `fetchUserProfile`, `initAuth`, `login` and
 * `logout`, which read and write the session held by `Api.AuthClient`.
 *
 * Network answers are parameters: `me` is the body of a successful `GET /me`
 * (`None` where the call failed) and `response` the outcome of `POST /login`.
 * `JSON.stringify` and `JSON.parse` of a user are the provider's `stringify`
 * and `parse`.
 */
module Auth {
  import opened Wrappers
  import opened Text
  import opened Expiry
  import opened Session
  import Api

  /** A user as the pages read it; `roles` only arrives with the /me profile. */
  datatype UserData = UserData(id: int, username: string, email: string, emailVerified: bool,
                               roles: Option<seq<string>>)

  /** The fields read from the body of a successful `POST /login`. */
  datatype LoginResponse = LoginResponse(accessToken: string, refreshToken: string, userId: int,
                                         username: string, email: string, emailVerified: bool)

  /** A rejected `POST /login`: the HTTP status, if any, and the message. */
  datatype LoginError = LoginError(status: Option<int>, message: string)

  /** The user known from the login answer alone: no roles yet. */
  function BasicUser(resp: LoginResponse): (u: UserData)
    ensures u.roles.None?
    ensures u.id == resp.userId && u.username == resp.username
    ensures u.email == resp.email && u.emailVerified == resp.emailVerified
  {
    UserData(resp.userId, resp.username, resp.email, resp.emailVerified, None)
  }

  /** The session after `fetchUserProfile` answered: a profile overwrites the stored
    * `user` key and touches nothing else; a failure changes nothing. */
  function WithProfile(s: ClientState, me: Option<UserData>, stringify: UserData -> string): (r: ClientState)
    ensures me.None? ==> r == s
    ensures me.Some? ==> r.store == s.store.(user := Some(stringify(me.value)))
    ensures r.(store := s.store) == s
    ensures Inv(s) ==> Inv(r)
  {
    match me
    case None => s
    case Some(profile) => s.(store := s.store.(user := Some(stringify(profile))))
  }

  /** The session after the three `setItem` calls of `login` and its `startTokenRefreshTimer()`. */
  function LoggedIn(s: ClientState, resp: LoginResponse, stringify: UserData -> string, claim: ExpClaim, now: int): (r: ClientState)
    ensures Inv(s) ==> Inv(r)
    ensures r.isRefreshing == s.isRefreshing && r.failedQueue == s.failedQueue
  {
    var written := Store(Some(resp.accessToken), Some(resp.refreshToken), Some(stringify(BasicUser(resp))));
    StartTimer(s.(store := written), claim, now)
  }

  /** The session after `logout`: timer cancelled, the three keys removed, sent to /login. */
  function LoggedOut(s: ClientState): (r: ClientState)
    ensures r.store == Cleared && r.timer.None? && r.redirected
    ensures r.isRefreshing == s.isRefreshing && r.failedQueue == s.failedQueue
    ensures r.interceptorCall == s.interceptorCall && r.timerCalls == s.timerCalls
    ensures Inv(s) ==> Inv(r)
  {
    ForcedLogout(StopTimer(s))
  }

  /** Logging out twice leaves the same session as logging out once. */
  lemma LogoutIdempotent(s: ClientState)
    ensures LoggedOut(LoggedOut(s)) == LoggedOut(s)
  {
  }

  /** A successful login leaves exactly the new tokens stored, with the user key holding
    * the full profile if /me answered and the basic user otherwise.  This holds whenever
    * the timer start does not log out: with a non-empty refresh token, or with a token
    * that does not need renewing at once. */
  lemma LoginStoresSession(s: ClientState, resp: LoginResponse, me: Option<UserData>,
                           stringify: UserData -> string, claim: ExpClaim, now: int)
    requires resp.refreshToken != "" || !Plan(Some(resp.accessToken), claim, now).RefreshNow?
    ensures WithProfile(LoggedIn(s, resp, stringify, claim, now), me, stringify).store
         == Store(Some(resp.accessToken), Some(resp.refreshToken), Some(stringify(me.GetOr(BasicUser(resp)))))
    ensures !WithProfile(LoggedIn(s, resp, stringify, claim, now), me, stringify).redirected <==> !s.redirected
  {
  }

  /** A login whose access token has a usable expiry more than a minute away arms the
    * timer for exactly the time left before the margin. */
  lemma LoginArmsTimer(s: ClientState, resp: LoginResponse, stringify: UserData -> string,
                       claim: ExpClaim, now: int, expiry: int)
    requires resp.accessToken != ""
    requires TokenExpiry(resp.accessToken, claim) == Some(expiry) && expiry != 0
    requires now + RefreshMargin < expiry
    ensures LoggedIn(s, resp, stringify, claim, now).timer == Some(TimeoutDelay(expiry - now - RefreshMargin))
    ensures expiry - now - RefreshMargin < MaxTimeout ==>
      LoggedIn(s, resp, stringify, claim, now).timer == Some(expiry - now - RefreshMargin)
    ensures LoggedIn(s, resp, stringify, claim, now).timerCalls == s.timerCalls
  {
  }

  /** A login whose access token is already inside the margin starts a renewal at once
    * (with a refresh token) or, with an empty refresh token, ends in a forced logout. */
  lemma LoginInsideMargin(s: ClientState, resp: LoginResponse, stringify: UserData -> string,
                          claim: ExpClaim, now: int, expiry: int)
    requires resp.accessToken != ""
    requires TokenExpiry(resp.accessToken, claim) == Some(expiry) && expiry != 0
    requires expiry - RefreshMargin <= now
    ensures LoggedIn(s, resp, stringify, claim, now).timer.None?
    ensures resp.refreshToken != "" ==> LoggedIn(s, resp, stringify, claim, now).timerCalls == s.timerCalls + 1
    ensures resp.refreshToken == "" ==>
      LoggedIn(s, resp, stringify, claim, now).store == Cleared && LoggedIn(s, resp, stringify, claim, now).redirected
  {
  }

  /** A renewal answered after `logout` still writes its tokens, since lines 53-63 of
    * src/services/api.js do not look for a logout: the access token is stored again, and
    * a timer is armed for it as for any renewal. */
  lemma LateRenewalRevivesSession(s: ClientState, token: string, rotated: Option<string>, claim: ExpClaim, now: int)
    requires s.timerCalls > 0
    requires !Plan(Some(token), claim, now).RefreshNow?
    ensures OnTimerRefresh(LoggedOut(s), Renewed(token, rotated), claim, now).store
         == Store(Some(token), if IsTruthy(rotated) then rotated else None, None)
    ensures OnTimerRefresh(LoggedOut(s), Renewed(token, rotated), claim, now).timer.Some?
        <==> Plan(Some(token), claim, now).ArmTimer?
    ensures s.interceptorCall.Some? ==>
      OnInterceptorRefresh(LoggedOut(s), Renewed(token, rotated), claim, now).0.store
        == Store(Some(token), if IsTruthy(rotated) then rotated else None, None)
  {
  }

  class AuthProvider {
    /** The session module the provider calls into. */
    const client: Api.AuthClient
    /** `JSON.stringify` of a user. */
    const stringify: UserData -> string
    /** `JSON.parse` of a stored user; `None` where it throws. */
    const parse: string -> Option<UserData>
    /** The `user` React state. */
    var user: Option<UserData>
    /** The `loading` React state. */
    var loading: bool

    constructor (client: Api.AuthClient, stringify: UserData -> string, parse: string -> Option<UserData>)
      ensures this.client == client && this.stringify == stringify && this.parse == parse
      ensures user == None && loading
    {
      this.client := client;
      this.stringify := stringify;
      this.parse := parse;
      user := None;
      loading := true;
    }

    /** `fetchUserProfile` (lines 14-30): a profile is stored and becomes the user; a
      * failure is swallowed and answered with null. */
    method FetchUserProfile(me: Option<UserData>) returns (profile: Option<UserData>)
      modifies this, client
      ensures profile == me
      ensures client.State() == WithProfile(old(client.State()), me, stringify)
      ensures user == (if me.Some? then me else old(user))
      ensures loading == old(loading)
    {
      if me.Some? {
        client.user := Some(stringify(me.value));
        user := me;
      }
      profile := me;
    }

    /** `initAuth` (lines 33-50): with a stored access token, restore the stored user
      * if it parses, start the timer and fetch the profile; `loading` ends false. */
    method InitAuth(now: int, me: Option<UserData>)
      modifies this, client
      ensures !loading
      ensures !IsTruthy(old(client.accessToken)) ==> client.State() == old(client.State()) && user == old(user)
      ensures IsTruthy(old(client.accessToken)) ==>
        client.State() == WithProfile(StartTimer(old(client.State()), client.claim, now), me, stringify)
      ensures IsTruthy(old(client.accessToken)) && me.Some? ==> user == me
      ensures IsTruthy(old(client.accessToken)) && me.None? ==>
        user == (if IsTruthy(old(client.user)) && parse(old(client.user).value).Some?
                 then parse(old(client.user).value) else old(user))
    {
      var token := client.accessToken;
      var storedUser := client.user;
      if IsTruthy(token) {
        if IsTruthy(storedUser) {
          var parsed := parse(storedUser.value);
          if parsed.Some? {
            user := parsed;
          }
        }
        client.StartTokenRefreshTimer(now);
        var _ := FetchUserProfile(me);
      }
      loading := false;
    }

    /** `login` (lines 54-77): on success the tokens and the basic user are stored, the
      * timer started and the profile fetched; the answer is the profile, or the basic
      * user when /me failed.  A rejected login changes nothing and is passed on. */
    method Login(response: Result<LoginResponse, LoginError>, me: Option<UserData>, now: int)
      returns (r: Result<UserData, LoginError>)
      modifies this, client
      ensures response.Err? ==>
        r == Err(response.error) && client.State() == old(client.State()) && user == old(user)
      ensures response.Ok? ==> r == Ok(me.GetOr(BasicUser(response.value)))
      ensures response.Ok? ==> user == Some(me.GetOr(BasicUser(response.value)))
      ensures response.Ok? ==>
        client.State() == WithProfile(LoggedIn(old(client.State()), response.value, stringify, client.claim, now),
                                      me, stringify)
      ensures loading == old(loading)
    {
      if response.Err? {
        return Err(response.error);
      }
      var resp := response.value;
      client.accessToken := Some(resp.accessToken);
      client.refreshToken := Some(resp.refreshToken);
      var basic := BasicUser(resp);
      client.user := Some(stringify(basic));
      user := Some(basic);
      client.StartTokenRefreshTimer(now);
      var fullProfile := FetchUserProfile(me);
      r := Ok(fullProfile.GetOr(basic));
    }

    /** `logout` (lines 84-91). */
    method Logout()
      modifies this, client
      ensures client.State() == LoggedOut(old(client.State()))
      ensures user == None && loading == old(loading)
    {
      client.StopTokenRefreshTimer();
      client.accessToken := None;
      client.refreshToken := None;
      client.user := None;
      user := None;
      client.redirected := true;
    }
  }
}
