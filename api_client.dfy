/**
 * The module state of src/services/api.js and the code that updates it in
 * place: the request and response interceptors, `processQueue`,
 * `refreshAccessToken` and the proactive timer.  The three persisted keys
 * stand for `localStorage`.
 *
 * Asynchronous steps are split at their `await`: an event method does what
 * runs before the network answers, and a second event method (called when the
 * answer arrives) does the rest.  Every method ends in the state the matching
 * function of `Session` gives.
 */
module Api {
  import opened Wrappers
  import opened Text
  import opened Expiry
  import opened Session

  class AuthClient {
    // localStorage
    var accessToken: Option<string>
    var refreshToken: Option<string>
    var user: Option<string>
    // module-level state of api.js
    var isRefreshing: bool
    var failedQueue: seq<Request>
    var timer: Option<int>
    // renewal calls awaiting their answer
    var interceptorCall: Option<Request>
    var timerCalls: nat
    // `window.location.href = '/login'` happened
    var redirected: bool
    /** How `exp` is read from a decoded payload (`JSON.parse(...).exp`). */
    const claim: ExpClaim

    function State(): ClientState
      reads this
    {
      ClientState(Store(accessToken, refreshToken, user), isRefreshing, failedQueue, timer,
                  interceptorCall, timerCalls, redirected)
    }

    predicate Valid()
      reads this
    {
      Inv(State())
    }

    /** The module loaded with whatever the browser had stored. */
    constructor (store: Store, claim: ExpClaim)
      ensures State() == Initial(store) && this.claim == claim
      ensures Valid()
    {
      accessToken, refreshToken, user := store.accessToken, store.refreshToken, store.user;
      isRefreshing, failedQueue, timer := false, [], None;
      interceptorCall, timerCalls, redirected := None, 0, false;
      this.claim := claim;
    }

    /** The request interceptor (lines 21-30): the bearer header is set exactly when an
      * access token is stored; otherwise the request goes out as it was. */
    method AttachToken(config: Request) returns (r: Request)
      ensures IsTruthy(accessToken) ==> r == WithBearer(config, accessToken.value)
      ensures !IsTruthy(accessToken) ==> r == config
      ensures r.id == config.id && r.retry == config.retry
    {
      r := config;
      if IsTruthy(accessToken) {
        r := WithBearer(config, accessToken.value);
      }
    }

    /** `processQueue` (lines 36-45): each waiter settled in queue order with the one
      * outcome, then the queue emptied. */
    method ProcessQueue(outcome: QueueOutcome) returns (released: seq<Release>)
      modifies this
      ensures released == Drain(old(failedQueue), outcome)
      ensures State() == old(State()).(failedQueue := [])
    {
      released := [];
      var i := 0;
      while i < |failedQueue|
        invariant 0 <= i <= |failedQueue|
        invariant |released| == i
        invariant forall k :: 0 <= k < i ==> released[k] == ReleaseOne(failedQueue[k], outcome)
      {
        released := released + [ReleaseOne(failedQueue[i], outcome)];
        i := i + 1;
      }
      failedQueue := [];
    }

    /** The catch handlers' clean-up: the three keys removed and the page sent to /login. */
    method ForceLogout()
      modifies this
      ensures State() == ForcedLogout(old(State()))
    {
      accessToken := None;
      refreshToken := None;
      user := None;
      redirected := true;
    }

    /** `refreshAccessToken()` started by the timer, up to its network call (lines 49-52). */
    method RefreshFromTimer()
      modifies this
      ensures State() == TimerRefresh(old(State()))
    {
      if IsTruthy(refreshToken) {
        timerCalls := timerCalls + 1;
      } else {
        ForceLogout();
      }
    }

    /** `startTokenRefreshTimer` (lines 79-119). */
    method StartTokenRefreshTimer(now: int)
      modifies this
      ensures State() == StartTimer(old(State()), claim, now)
    {
      if timer.Some? {
        timer := None;
      }
      if !IsTruthy(accessToken) {
        return;
      }
      var expiry := TokenExpiry(accessToken.value, claim);
      if expiry.None? || expiry.value == 0 {
        return;
      }
      var delay := expiry.value - now - RefreshMargin;
      if delay <= 0 {
        RefreshFromTimer();
        return;
      }
      timer := Some(TimeoutDelay(delay));
    }

    /** `stopTokenRefreshTimer` (lines 121-126). */
    method StopTokenRefreshTimer()
      modifies this
      ensures State() == StopTimer(old(State()))
    {
      if timer.Some? {
        timer := None;
      }
    }

    /** The rest of `refreshAccessToken` once `/refresh` answered (lines 53-63). */
    method StoreRenewedTokens(token: string, rotated: Option<string>, now: int)
      modifies this
      ensures State() == StoreRenewal(old(State()), token, rotated, claim, now)
    {
      accessToken := Some(token);
      if IsTruthy(rotated) {
        refreshToken := rotated;
      }
      StartTokenRefreshTimer(now);
    }

    /** The response interceptor receiving a failed call (lines 131-156, up to the
      * awaited renewal). */
    method OnResponseError(e: HttpError) returns (d: Disposition)
      requires Valid()
      modifies this
      ensures (State(), d) == Session.OnResponseError(old(State()), e)
      ensures Valid()
    {
      if !EntersRefreshPath(e) {
        return PassedThrough(e);
      }
      if isRefreshing {
        failedQueue := failedQueue + [e.config];
        return Queued;
      }
      var marked := e.config.(retry := true);
      isRefreshing := true;
      if IsTruthy(refreshToken) {
        interceptorCall := Some(marked);
        return RefreshIssued;
      }
      // refreshAccessToken rejected with 'No refresh token': catch, then finally
      var released := ProcessQueue(Failure(NoRefreshToken));
      ForceLogout();
      isRefreshing := false;
      d := RefreshRejected(NoRefreshToken, released);
    }

    /** The interceptor's renewal answered (lines 156-173). */
    method OnInterceptorRefresh(result: RefreshResult, now: int) returns (settled: Settlement)
      requires Valid() && interceptorCall.Some?
      modifies this
      ensures (State(), settled) == Session.OnInterceptorRefresh(old(State()), result, claim, now)
      ensures Valid()
    {
      var req := interceptorCall.value;
      match result {
        case Renewed(token, rotated) =>
          StoreRenewedTokens(token, rotated, now);
          var released := ProcessQueue(Token(token));
          settled := Settlement(released, Resend(WithBearer(req, token)));
        case RenewalRejected(reason) =>
          var released := ProcessQueue(Failure(RenewalFailed(reason)));
          ForceLogout();
          settled := Settlement(released, Reject(req, RenewalFailed(reason)));
      }
      isRefreshing := false;
      interceptorCall := None;
    }

    /** A renewal started by the timer answered (lines 97-102, 108-117). */
    method OnTimerRefresh(result: RefreshResult, now: int)
      requires Valid() && timerCalls > 0
      modifies this
      ensures State() == Session.OnTimerRefresh(old(State()), result, claim, now)
      ensures Valid()
    {
      timerCalls := timerCalls - 1;
      match result {
        case Renewed(token, rotated) =>
          StoreRenewedTokens(token, rotated, now);
        case RenewalRejected(_) =>
          ForceLogout();
      }
    }

    /** The armed timer fires (lines 107-109). */
    method FireTimer()
      requires Valid() && timer.Some?
      modifies this
      ensures State() == Session.FireTimer(old(State()))
      ensures Valid()
    {
      timer := None;
      RefreshFromTimer();
    }
  }
}
