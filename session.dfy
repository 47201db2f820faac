/**
 * The session-token lifecycle of src/services/api.js as a sequential,
 * event-driven state machine over one value: the three stored keys, the
 * `isRefreshing` flag, the `failedQueue` of waiting requests, the one timer
 * slot, and the renewal calls still awaiting an answer.
 *
 * Each function here is the specification of one event; the class
 * `Api.AuthClient` performs the same events in place and is proved to end in
 * the state these functions give.
 */
module Session {
  import opened Wrappers
  import opened Text
  import opened Expiry

  /** A request's configuration as the interceptors see it: its headers and the `_retry` marker. */
  datatype Request = Request(id: nat, headers: map<string, string>, retry: bool)

  /** `config.headers.Authorization = \`Bearer ${token}\`` */
  function WithBearer(req: Request, token: string): (r: Request)
    ensures r.id == req.id && r.retry == req.retry
    ensures r.headers.Keys == req.headers.Keys + {"Authorization"}
    ensures r.headers["Authorization"] == "Bearer " + token
    ensures forall h :: h in req.headers && h != "Authorization" ==> r.headers[h] == req.headers[h]
  {
    req.(headers := req.headers["Authorization" := "Bearer " + token])
  }

  /** A failed call as the response interceptor receives it: the response status if a
    * response arrived, the error message, and the request's configuration. */
  datatype HttpError = HttpError(response: Option<int>, message: string, config: Request)

  /** The three persisted keys `accessToken`, `refreshToken` and `user`. */
  datatype Store = Store(accessToken: Option<string>, refreshToken: Option<string>, user: Option<string>)

  const Cleared := Store(None, None, None)

  /** Why a renewal failed: nothing to renew with, or the backend refused. */
  datatype RefreshError = NoRefreshToken | RenewalFailed(reason: string)

  /** The answer of the `/refresh` call: a new access token and possibly a rotated refresh token. */
  datatype RefreshResult = Renewed(accessToken: string, refreshToken: Option<string>) | RenewalRejected(reason: string)

  /** What becomes of a request held back by the interceptor. */
  datatype Release = Resend(request: Request) | Reject(request: Request, error: RefreshError)

  /** The outcome `processQueue` hands to every waiter. */
  datatype QueueOutcome = Token(token: string) | Failure(error: RefreshError)

  datatype ClientState = ClientState(
    store: Store,
    isRefreshing: bool,
    failedQueue: seq<Request>,  // the original requests of the waiters, in arrival order
    timer: Option<int>,         // the delay of the armed, not yet fired, proactive timer
    interceptorCall: Option<Request>, // the request whose failure started the pending renewal
    timerCalls: nat,            // renewals started by the timer and not yet answered
    redirected: bool)           // the page was sent to /login

  /** The module state at page load: nothing queued, no timer, no renewal pending. */
  function Initial(store: Store): (s: ClientState)
    ensures s.store == store && s.timer.None? && !s.redirected
    ensures !s.isRefreshing && s.failedQueue == []
    ensures Inv(s) && InFlight(s) == 0
  {
    ClientState(store, false, [], None, None, 0, false)
  }

  /** Renewal calls awaiting an answer. */
  function InFlight(s: ClientState): nat {
    (if s.interceptorCall.Some? then 1 else 0) + s.timerCalls
  }

  /** What the interceptor's bookkeeping maintains between events. */
  predicate Inv(s: ClientState) {
    && (s.isRefreshing <==> s.interceptorCall.Some?)
    && (s.failedQueue != [] ==> s.isRefreshing)
    && (s.interceptorCall.Some? ==> s.interceptorCall.value.retry)
    && (forall k :: 0 <= k < |s.failedQueue| ==> !s.failedQueue[k].retry)
  }

  // ---------------------------------------------------------------- classification

  /** `error.response?.status === 401 || error.response?.status === 403` */
  predicate IsAuthError(e: HttpError): (b: bool)
    ensures b ==> e.response.Some? && e.response.value in {401, 403}
  {
    e.response == Some(401) || e.response == Some(403)
  }

  /** `!error.response && error.message === 'Network Error'`: a call blocked before any
    * response arrived, never one that has a status. */
  predicate IsNetworkError(e: HttpError): (b: bool)
    ensures b ==> e.response.None? && !IsAuthError(e)
  {
    e.response.None? && e.message == "Network Error"
  }

  /** The failure goes to the refresh path (src/services/api.js lines 135-140): a 401 or 403
    * response, or a "Network Error" without one, on a request not yet retried. */
  predicate EntersRefreshPath(e: HttpError): (b: bool)
    ensures b ==> !e.config.retry
    ensures b && e.response.Some? ==> e.response.value == 401 || e.response.value == 403
    ensures b && e.response.None? ==> e.message == "Network Error"
  {
    (IsAuthError(e) || IsNetworkError(e)) && !e.config.retry
  }

  /** Conversely, every first failure with a 401, a 403 or a bare "Network Error" is sent
    * to the refresh path. */
  lemma FreshAuthFailuresRefresh(e: HttpError)
    requires !e.config.retry
    requires e.response == Some(401) || e.response == Some(403) || (e.response.None? && e.message == "Network Error")
    ensures EntersRefreshPath(e)
  {
  }

  /** A response with any status other than 401 or 403, or any failure of a request
    * already retried, is never handled by refreshing. */
  lemma OnlyAuthFailuresRefresh(e: HttpError)
    ensures e.response.Some? && e.response.value != 401 && e.response.value != 403 ==> !EntersRefreshPath(e)
    ensures e.config.retry ==> !EntersRefreshPath(e)
    ensures e.response.None? && e.message != "Network Error" ==> !EntersRefreshPath(e)
  {
  }

  // ---------------------------------------------------------------- the waiter queue

  /** How one waiter is settled: resent with the new token, or rejected with the error. */
  function ReleaseOne(req: Request, outcome: QueueOutcome): Release {
    match outcome
    case Token(t) => Resend(WithBearer(req, t))
    case Failure(err) => Reject(req, err)
  }

  /** `processQueue`: every waiter settled, in the order it was queued, with the one outcome. */
  function Drain(queue: seq<Request>, outcome: QueueOutcome): (released: seq<Release>)
    ensures |released| == |queue|
    ensures forall k :: 0 <= k < |queue| ==> released[k] == ReleaseOne(queue[k], outcome)
  {
    seq(|queue|, k requires 0 <= k < |queue| => ReleaseOne(queue[k], outcome))
  }

  /** The waiters share one outcome: all are resent with the same token or all are
    * rejected with the same error, never a mixture. */
  lemma DrainSharesOutcome(queue: seq<Request>, outcome: QueueOutcome)
    ensures outcome.Token? ==> forall k :: 0 <= k < |queue| ==>
      Drain(queue, outcome)[k].Resend? &&
      Drain(queue, outcome)[k].request.headers["Authorization"] == "Bearer " + outcome.token
    ensures outcome.Failure? ==> forall k :: 0 <= k < |queue| ==>
      Drain(queue, outcome)[k] == Reject(queue[k], outcome.error)
  {
  }

  // ---------------------------------------------------------------- renewal and the timer

  /** The catch handlers of lines 97-102, 111-116 and 163-170: all three keys removed,
    * the page sent to /login. */
  function ForcedLogout(s: ClientState): (r: ClientState)
    ensures r.store == Cleared && r.redirected
    ensures r.(store := s.store, redirected := s.redirected) == s
  {
    s.(store := Cleared, redirected := true)
  }

  /** `refreshAccessToken()` called by the timer (lines 97 and 109): with no refresh token it
    * rejects before any network call and the timer's catch logs out; otherwise one renewal
    * call is in flight. */
  function TimerRefresh(s: ClientState): (r: ClientState)
    ensures IsTruthy(s.store.refreshToken) ==> r == s.(timerCalls := s.timerCalls + 1)
    ensures !IsTruthy(s.store.refreshToken) ==> r == ForcedLogout(s)
  {
    if IsTruthy(s.store.refreshToken) then s.(timerCalls := s.timerCalls + 1) else ForcedLogout(s)
  }

  /** `startTokenRefreshTimer()`: the old timer is always cleared; a timer is armed only for a
    * positive delay.  It waits what `setTimeout` makes of that delay: below 2^31 ms it fires
    * exactly one margin before the stored token expires. */
  function StartTimer(s: ClientState, claim: ExpClaim, now: int): (r: ClientState)
    ensures r.timer.Some? <==> Plan(s.store.accessToken, claim, now).ArmTimer?
    ensures r.timer.Some? ==> r.timer.value == TimeoutDelay(Plan(s.store.accessToken, claim, now).delay)
    ensures r.timer.Some? && Plan(s.store.accessToken, claim, now).delay < MaxTimeout ==>
      r.timer.value > 0 && now + r.timer.value + RefreshMargin == TokenExpiry(s.store.accessToken.value, claim).value
    ensures Plan(s.store.accessToken, claim, now).RefreshNow? ==> r == TimerRefresh(s.(timer := None))
    ensures !Plan(s.store.accessToken, claim, now).RefreshNow? ==> r.(timer := s.timer) == s
    ensures Inv(s) ==> Inv(r)
  {
    var cleared := s.(timer := None);
    match Plan(s.store.accessToken, claim, now)
    case NoTimer => cleared
    case RefreshNow => TimerRefresh(cleared)
    case ArmTimer(delay) => cleared.(timer := Some(TimeoutDelay(delay)))
  }

  /** A token expiring so far ahead that the delay reaches 2^31 ms (but not 2^32) arms a
    * timer that fires at once: the delay wraps negative in `setTimeout` and counts as 0. */
  lemma LongDelayFiresAtOnce(s: ClientState, claim: ExpClaim, now: int)
    requires Plan(s.store.accessToken, claim, now).ArmTimer?
    requires MaxTimeout <= Plan(s.store.accessToken, claim, now).delay < 2 * MaxTimeout
    ensures StartTimer(s, claim, now).timer == Some(0)
  {
  }

  /** `stopTokenRefreshTimer()`: no timer afterwards, nothing else touched. */
  function StopTimer(s: ClientState): (r: ClientState)
    ensures r.timer.None? && r.(timer := s.timer) == s
  {
    s.(timer := None)
  }

  /** The refresh token kept after a renewal: the rotated one when the answer carried a
    * non-empty one, the stored one otherwise (lines 56-58). */
  function KeptRefreshToken(s: ClientState, rotated: Option<string>): Option<string> {
    if IsTruthy(rotated) then rotated else s.store.refreshToken
  }

  /** Lines 55-61: the new access token is stored, the refresh token is replaced only when
    * the answer carried a non-empty one, and the timer is restarted for the new token.  The
    * store ends cleared only when the new token is already inside the margin and no refresh
    * token is left to renew it with. */
  function StoreRenewal(s: ClientState, accessToken: string, rotated: Option<string>, claim: ExpClaim, now: int): (r: ClientState)
    ensures var refresh := KeptRefreshToken(s, rotated);
      if Plan(Some(accessToken), claim, now).RefreshNow? && !IsTruthy(refresh)
      then r.store == Cleared && r.redirected
      else r.store == Store(Some(accessToken), refresh, s.store.user) && r.redirected == s.redirected
    ensures r.timer.Some? <==> Plan(Some(accessToken), claim, now).ArmTimer?
    ensures r.timer.Some? ==> r.timer.value == TimeoutDelay(Plan(Some(accessToken), claim, now).delay)
    ensures r.timer.Some? && Plan(Some(accessToken), claim, now).delay < MaxTimeout ==>
      now + r.timer.value + RefreshMargin == TokenExpiry(accessToken, claim).value
    ensures r.timerCalls == s.timerCalls +
      (if Plan(Some(accessToken), claim, now).RefreshNow? && IsTruthy(KeptRefreshToken(s, rotated)) then 1 else 0)
    ensures r.isRefreshing == s.isRefreshing && r.failedQueue == s.failedQueue && r.interceptorCall == s.interceptorCall
    ensures Inv(s) ==> Inv(r)
  {
    var refresh := KeptRefreshToken(s, rotated);
    StartTimer(s.(store := s.store.(accessToken := Some(accessToken), refreshToken := refresh)), claim, now)
  }

  /** A renewal whose token has a usable expiry more than a minute away keeps the session:
    * the new access token, the rotated refresh token if one came, and a timer one margin
    * before the new expiry. */
  lemma RenewalRotatesRefreshToken(s: ClientState, accessToken: string, rotated: Option<string>, claim: ExpClaim, now: int)
    requires Plan(Some(accessToken), claim, now).ArmTimer?
    ensures IsTruthy(rotated) ==> StoreRenewal(s, accessToken, rotated, claim, now).store.refreshToken == rotated
    ensures !IsTruthy(rotated) ==>
      StoreRenewal(s, accessToken, rotated, claim, now).store.refreshToken == s.store.refreshToken
    ensures StoreRenewal(s, accessToken, rotated, claim, now).store.accessToken == Some(accessToken)
    ensures !StoreRenewal(s, accessToken, rotated, claim, now).redirected <==> !s.redirected
  {
  }

  // ---------------------------------------------------------------- events

  /** What the response interceptor did with a failure. */
  datatype Disposition =
    | PassedThrough(failure: HttpError) // rejected unchanged, no refresh
    | Queued                            // one waiter appended, no renewal call
    | RefreshIssued                     // request marked `_retry`, one renewal call issued
    | RefreshRejected(error: RefreshError, released: seq<Release>) // no refresh token: failed at once

  /** The response interceptor receiving a failure (lines 131-160 up to the first await). */
  function OnResponseError(s: ClientState, e: HttpError): (r: (ClientState, Disposition))
    ensures r.1.PassedThrough? <==> !EntersRefreshPath(e)
    ensures r.1.PassedThrough? ==> r.0 == s && r.1.failure == e
    ensures EntersRefreshPath(e) && s.isRefreshing ==>
      r.1 == Queued && r.0 == s.(failedQueue := s.failedQueue + [e.config])
    ensures r.1 == RefreshIssued ==>
      r.0 == s.(isRefreshing := true, interceptorCall := Some(e.config.(retry := true)))
    ensures EntersRefreshPath(e) && !s.isRefreshing ==>
      (r.1 == RefreshIssued <==> IsTruthy(s.store.refreshToken))
    ensures r.1.RefreshRejected? ==>
      r.1.error == NoRefreshToken && r.0.store == Cleared && !r.0.isRefreshing && r.0.failedQueue == []
    ensures EntersRefreshPath(e) && !s.isRefreshing && !IsTruthy(s.store.refreshToken) ==>
      r.1 == RefreshRejected(NoRefreshToken, Drain(s.failedQueue, Failure(NoRefreshToken))) &&
      r.0 == ForcedLogout(s).(failedQueue := [], isRefreshing := false)
    ensures r.0.timer == s.timer && r.0.timerCalls == s.timerCalls
    ensures Inv(s) ==> Inv(r.0)
  {
    if !EntersRefreshPath(e) then (s, PassedThrough(e))
    else if s.isRefreshing then (s.(failedQueue := s.failedQueue + [e.config]), Queued)
    else
      var marked := e.config.(retry := true);
      if IsTruthy(s.store.refreshToken) then
        (s.(isRefreshing := true, interceptorCall := Some(marked)), RefreshIssued)
      else
        var released := Drain(s.failedQueue, Failure(NoRefreshToken));
        (ForcedLogout(s).(failedQueue := [], isRefreshing := false), RefreshRejected(NoRefreshToken, released))
  }

  /** How the interceptor's renewal settled: the waiters and the request that started it. */
  datatype Settlement = Settlement(released: seq<Release>, original: Release)

  /** The interceptor's renewal answered (lines 156-173). */
  function OnInterceptorRefresh(s: ClientState, result: RefreshResult, claim: ExpClaim, now: int): (r: (ClientState, Settlement))
    requires s.interceptorCall.Some?
    ensures !r.0.isRefreshing && r.0.failedQueue == [] && r.0.interceptorCall.None?
    ensures |r.1.released| == |s.failedQueue|
    ensures result.Renewed? ==>
      r.1.released == Drain(s.failedQueue, Token(result.accessToken)) &&
      r.1.original == Resend(WithBearer(s.interceptorCall.value, result.accessToken))
    ensures result.RenewalRejected? ==>
      r.1.released == Drain(s.failedQueue, Failure(RenewalFailed(result.reason))) &&
      r.1.original == Reject(s.interceptorCall.value, RenewalFailed(result.reason)) &&
      r.0.store == Cleared && r.0.redirected
    ensures result.Renewed? ==>
      r.0 == StoreRenewal(s, result.accessToken, result.refreshToken, claim, now)
               .(failedQueue := [], isRefreshing := false, interceptorCall := None)
    ensures result.RenewalRejected? ==>
      r.0 == ForcedLogout(s).(failedQueue := [], isRefreshing := false, interceptorCall := None)
    ensures Inv(s) ==> Inv(r.0)
  {
    var req := s.interceptorCall.value;
    match result
    case Renewed(token, rotated) =>
      var renewed := StoreRenewal(s, token, rotated, claim, now);
      (renewed.(failedQueue := [], isRefreshing := false, interceptorCall := None),
       Settlement(Drain(s.failedQueue, Token(token)), Resend(WithBearer(req, token))))
    case RenewalRejected(reason) =>
      var err := RenewalFailed(reason);
      (ForcedLogout(s).(failedQueue := [], isRefreshing := false, interceptorCall := None),
       Settlement(Drain(s.failedQueue, Failure(err)), Reject(req, err)))
  }

  /** A renewal started by the timer answered (lines 97-102 and 108-117): one fewer call
    * pending; on success the renewal is stored as `refreshAccessToken` stores it, on
    * failure the catch logs out. */
  function OnTimerRefresh(s: ClientState, result: RefreshResult, claim: ExpClaim, now: int): (r: ClientState)
    requires s.timerCalls > 0
    ensures result.Renewed? ==>
      r == StoreRenewal(s.(timerCalls := s.timerCalls - 1), result.accessToken, result.refreshToken, claim, now)
    ensures result.RenewalRejected? ==> r.store == Cleared && r.redirected && r.timer == s.timer
    ensures result.RenewalRejected? || !Plan(Some(result.accessToken), claim, now).RefreshNow? ==>
      InFlight(r) == InFlight(s) - 1
    ensures r.isRefreshing == s.isRefreshing && r.failedQueue == s.failedQueue && r.interceptorCall == s.interceptorCall
    ensures Inv(s) ==> Inv(r)
  {
    var answered := s.(timerCalls := s.timerCalls - 1);
    match result
    case Renewed(token, rotated) => StoreRenewal(answered, token, rotated, claim, now)
    case RenewalRejected(_) => ForcedLogout(answered)
  }

  /** The armed timer fires (lines 107-109): the timer is spent and `refreshAccessToken`
    * runs; with no refresh token stored it throws at once and the catch (lines 111-116)
    * removes the keys and redirects. */
  function FireTimer(s: ClientState): (r: ClientState)
    requires s.timer.Some?
    ensures r.timer.None?
    ensures InFlight(r) == InFlight(s) + (if IsTruthy(s.store.refreshToken) then 1 else 0)
    ensures !IsTruthy(s.store.refreshToken) ==> r.store == Cleared && r.redirected
    ensures IsTruthy(s.store.refreshToken) ==> r.store == s.store && r.redirected == s.redirected
    ensures r.isRefreshing == s.isRefreshing && r.failedQueue == s.failedQueue && r.interceptorCall == s.interceptorCall
    ensures Inv(s) ==> Inv(r)
  {
    TimerRefresh(s.(timer := None))
  }

  // ---------------------------------------------------------------- runs of events

  /** The interceptor handling a burst of failures one after another. */
  function RunErrors(s: ClientState, errs: seq<HttpError>): (ClientState, seq<Disposition>)
    decreases |errs|
  {
    if errs == [] then (s, [])
    else
      var (s1, d) := OnResponseError(s, errs[0]);
      var (s2, ds) := RunErrors(s1, errs[1..]);
      (s2, [d] + ds)
  }

  function Configs(errs: seq<HttpError>): (reqs: seq<Request>)
    ensures |reqs| == |errs| && forall k :: 0 <= k < |errs| ==> reqs[k] == errs[k].config
  {
    seq(|errs|, k requires 0 <= k < |errs| => errs[k].config)
  }

  predicate AllEligible(errs: seq<HttpError>) {
    forall k :: 0 <= k < |errs| ==> EntersRefreshPath(errs[k])
  }

  /** While a renewal is pending, every eligible failure only joins the queue, in arrival
    * order, and no renewal call is issued. */
  lemma {:induction false} QueuedWhileRefreshing(s: ClientState, errs: seq<HttpError>)
    requires s.isRefreshing && AllEligible(errs)
    ensures RunErrors(s, errs).0 == s.(failedQueue := s.failedQueue + Configs(errs))
    ensures RunErrors(s, errs).1 == seq(|errs|, _ => Queued)
    decreases |errs|
  {
    if errs != [] {
      var s1 := s.(failedQueue := s.failedQueue + [errs[0].config]);
      assert OnResponseError(s, errs[0]) == (s1, Queued);
      QueuedWhileRefreshing(s1, errs[1..]);
      assert s1.failedQueue + Configs(errs[1..]) == s.failedQueue + Configs(errs);
      assert [Queued] + seq(|errs| - 1, _ => Queued) == seq(|errs|, _ => Queued);
    }
  }

  /** Single flight: any number of eligible failures arriving while nothing is pending
    * start exactly one renewal (for the first); the others wait in arrival order. */
  lemma SingleFlight(s: ClientState, errs: seq<HttpError>)
    requires Inv(s) && !s.isRefreshing && IsTruthy(s.store.refreshToken)
    requires |errs| >= 1 && AllEligible(errs)
    ensures RunErrors(s, errs).0 ==
      s.(isRefreshing := true, interceptorCall := Some(errs[0].config.(retry := true)),
         failedQueue := Configs(errs[1..]))
    ensures RunErrors(s, errs).1 == [RefreshIssued] + seq(|errs| - 1, _ => Queued)
    ensures InFlight(RunErrors(s, errs).0) == InFlight(s) + 1
  {
    var s1 := s.(isRefreshing := true, interceptorCall := Some(errs[0].config.(retry := true)));
    assert OnResponseError(s, errs[0]) == (s1, RefreshIssued);
    QueuedWhileRefreshing(s1, errs[1..]);
    assert s.failedQueue == [];
  }

  /** The whole burst settles together: when the one renewal answers, the waiters are
    * released in arrival order with the same token (or the same error), the first
    * request is resent once, marked as retried, and the flag is down again. */
  lemma BurstSharesOneOutcome(s: ClientState, errs: seq<HttpError>, result: RefreshResult, claim: ExpClaim, now: int)
    requires Inv(s) && !s.isRefreshing && IsTruthy(s.store.refreshToken)
    requires |errs| >= 1 && AllEligible(errs)
    ensures var (t, _) := RunErrors(s, errs);
      t.interceptorCall.Some? &&
      var (u, settled) := OnInterceptorRefresh(t, result, claim, now);
      && !u.isRefreshing && u.failedQueue == [] && Inv(u)
      && |settled.released| == |errs| - 1
      && (result.Renewed? ==>
           settled.original == Resend(WithBearer(errs[0].config.(retry := true), result.accessToken)) &&
           forall k :: 1 <= k < |errs| ==>
             settled.released[k - 1] == Resend(WithBearer(errs[k].config, result.accessToken)))
      && (result.RenewalRejected? ==>
           settled.original == Reject(errs[0].config.(retry := true), RenewalFailed(result.reason)) &&
           forall k :: 1 <= k < |errs| ==>
             settled.released[k - 1] == Reject(errs[k].config, RenewalFailed(result.reason)))
  {
    SingleFlight(s, errs);
    var (t, _) := RunErrors(s, errs);
    assert Inv(t) by {
      assert forall k :: 0 <= k < |t.failedQueue| ==> t.failedQueue[k] == errs[k + 1].config;
    }
    var (u, settled) := OnInterceptorRefresh(t, result, claim, now);
    assert forall k :: 1 <= k < |errs| ==> t.failedQueue[k - 1] == errs[k].config;
  }

  /** No infinite retry: the request resent after a renewal carries the `_retry` marker,
    * so whatever failure it meets next is passed to the caller. */
  lemma ResentOriginalIsFinal(s: ClientState, result: RefreshResult, claim: ExpClaim, now: int, next: HttpError)
    requires Inv(s) && s.interceptorCall.Some?
    requires OnInterceptorRefresh(s, result, claim, now).1.original.Resend?
    requires next.config == OnInterceptorRefresh(s, result, claim, now).1.original.request
    ensures !EntersRefreshPath(next)
  {
  }

  /** Queued requests are resent without the `_retry` marker: an authentication failure of
    * the resend goes to the refresh path again. */
  lemma ReplayedWaiterMayRefreshAgain(s: ClientState, token: string, k: nat, next: HttpError)
    requires Inv(s) && k < |s.failedQueue|
    requires next.config == Drain(s.failedQueue, Token(token))[k].request
    requires next.response == Some(401)
    ensures EntersRefreshPath(next)
  {
  }

  /** The timer does not consult `isRefreshing`: its renewal and the interceptor's can be
    * pending at the same time. */
  lemma TimerAndInterceptorOverlap(s: ClientState, e: HttpError)
    requires Inv(s) && s.timer.Some? && !s.isRefreshing && IsTruthy(s.store.refreshToken)
    requires EntersRefreshPath(e)
    ensures OnResponseError(FireTimer(s), e).1 == RefreshIssued
    ensures InFlight(OnResponseError(FireTimer(s), e).0) == InFlight(s) + 2
  {
  }
}
