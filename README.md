# BookMind front end: session tokens and list rules, in Dafny

This project models the part of the BookMind React front end that keeps a user signed in. It also models the small list rules of the catalogue and admin pages. The model covers:

- **The session client** (`src/services/api.js`).
  - The request interceptor attaches the stored access token.
  - The response interceptor turns a 401, a 403 or a bare "Network Error" into one token renewal. Failures that arrive while that renewal is pending wait in `failedQueue`, and `processQueue` settles all of them with the renewal's one outcome.
  - The proactive timer reads `exp` from the access token (`getTokenExpiry`, which uses `atob`). It renews one minute before expiry, or at once when the token is already inside that margin.
  - A failed renewal removes the three stored keys and sends the browser to `/login`.
- **The authentication provider** (`src/context/AuthContext.jsx`). `login`, `initAuth`, `fetchUserProfile` and `logout` write the same three keys and the `user` and `loading` state.
- **The pages.**
  - The catalogue search and genre filter, and the genre choices (`BookList.jsx`).
  - The admin search filters for orders, books and users.
  - The order status editor rule.
  - The per-book summary progress map.
  - The add and edit book forms.
  - How user roles are shown.

How the model is laid out:

- **`Session`** is a pure, event-driven specification of the client. Each event of the client is a function on one `ClientState` value.
- **`Api.AuthClient`** is a class with the module's fields. Its methods perform the same events in place. Each method is proved to end in the state the matching `Session` function gives. The four event methods (`OnResponseError`, `OnInterceptorRefresh`, `OnTimerRefresh` and `FireTimer`) are also proved to keep the invariant `Session.Inv`. The helpers they call run mid-event, where the invariant may not hold yet.
- **Asynchronous steps are split at their `await`.** The response interceptor's work up to the renewal call is one event (`OnResponseError`). The renewal's answer is another event (`OnInterceptorRefresh` or `OnTimerRefresh`).
- **`Auth.AuthProvider`** is a class holding the provider's state. It calls into `Api.AuthClient`.
- **`Base64.Atob`** is the browser's forgiving base64 decoder, as the WHATWG Infra standard defines it, over the alphabet of section 4 of RFC 4648. It is proved against a standard encoder (`Btoa`).
- **The page rules** are pure functions over `Lists.Filter`. Every filter is proved to keep exactly the matching positions, in their original order.

Five behaviours of the code that are easy to miss:

- **A timer renewal ignores `isRefreshing`** (`Session.TimerAndInterceptorOverlap`). So a timer renewal and an interceptor renewal can be pending together: the interceptor keeps its own renewals to one at a time, but the timer path does not take part in that.
- **A queued request is resent without the `_retry` marker** (`Session.ReplayedWaiterMayRefreshAgain`). If the resend fails authentication again, it can start a second renewal. Only the request that started the renewal is protected from retrying again.
- **A token valid for about 24.8 to 49.7 days is renewed at once.** `setTimeout` takes its delay as a 32-bit signed integer. A delay from 2^31 ms up to 2^32 ms wraps negative and fires at once (`Session.LongDelayFiresAtOnce`), and a longer one waits its remainder modulo 2^32 ms. The timer holds the delay `setTimeout` actually waits (`Expiry.TimeoutDelay`).
- **A renewal answered after logout brings the session back.** `refreshAccessToken` writes the new access token and restarts the timer without checking whether the user logged out while the call was pending (`Auth.LateRenewalRevivesSession`).
- **The payload is decoded with `atob`, not with base64url.** `atob` takes the standard alphabet, so a payload written with `-` or `_` gives no expiry and no timer (`Expiry.UrlSafePayloadNoExpiry`). A token with no dot asks `atob` to decode the text `undefined`, which it rejects (`Expiry.NoDotNoExpiry`).

## Model

| member | source | states |
|---|---|---|
| `Text.Lower` | src/pages/BookList.jsx:22 | `toLowerCase` keeps the length and lower-cases each position; no upper-case ASCII letter remains |
| `Text.LowerIdempotent` | src/pages/admin/AdminBooks.jsx:153 | lower-casing an already lower-cased search changes nothing |
| `Text.IndexOf` | src/pages/admin/AdminUsers.jsx:79 | `indexOf` returns the first position where the needle occurs, or none when it occurs nowhere |
| `Text.Includes` | src/pages/admin/AdminUsers.jsx:77 | `includes` holds exactly when the needle occurs at some position |
| `Text.IncludesEmpty` | src/pages/admin/AdminOrders.jsx:38 | every string includes the empty string |
| `Text.IncludesInfix` | src/pages/admin/AdminOrders.jsx:38 | a string includes any piece it is built around |
| `Text.ReplaceFirst` | src/pages/admin/AdminUsers.jsx:79 | `replace` with a string pattern changes nothing when the pattern is absent, and otherwise replaces only its first occurrence |
| `Text.ReplaceLeading` | src/pages/admin/AdminUsers.jsx:79 | removing a leading pattern gives back what followed it |
| `Text.NatToString` | src/pages/admin/AdminOrders.jsx:38 | a number's decimal text has only digits and no leading zero |
| `Text.NatToStringValue` | src/pages/admin/AdminOrders.jsx:38 | the decimal text reads back as the number it came from |
| `Text.IntToString` | src/pages/admin/AdminOrders.jsx:38 | an integer's text starts with `-` exactly when it is negative, and its digits read back as the number's magnitude |
| `Base64.StripWhitespace` | src/services/api.js:72 | `atob` step 1 keeps exactly the characters that are not ASCII whitespace |
| `Base64.StripWhitespaceIsFilter` | src/services/api.js:72 | step 1 equals the filter that drops ASCII whitespace, so the other characters keep their order |
| `Base64.StripWhitespacePositions` | src/services/api.js:72 | step 1 keeps exactly the positions without whitespace, in order |
| `Base64.StripPadding` | src/services/api.js:72 | `atob` step 2 removes only trailing `=`, at most two, and what remains ends in `=` only when two were removed |
| `Base64.StripPaddingCases` | src/services/api.js:72 | `==` at the end loses both, a single `=` is removed, and anything else is unchanged |
| `Base64.Atob` | src/services/api.js:72 | `atob` fails exactly when the normalized text leaves remainder 1 modulo 4 or holds a character outside the alphabet; otherwise it yields three bytes per four characters |
| `Base64.DecodeEncode` | src/services/api.js:72 | decoding the sextets of an encoding gives back the bytes |
| `Base64.BtoaRoundTrip` | src/services/api.js:72 | `atob` decodes every standard padded encoding to the bytes it encodes |
| `Base64.DecodeShorter` | src/services/api.js:72 | decoding n characters yields 3 bytes per full group and one fewer than the characters of a partial group |
| `Base64.UrlSafeCharacterRejected` | src/services/api.js:72 | any input holding `-` or `_` makes `atob` fail |
| `Base64.RemainderOneRejected` | src/services/api.js:72 | whitespace-free input whose length leaves remainder 1 modulo 4 makes `atob` fail |
| `Expiry.Split` | src/services/api.js:72 | `split('.')` returns at least one part, and no part contains the separator |
| `Expiry.JoinSplit` | src/services/api.js:72 | joining the parts of a split gives back the token |
| `Expiry.SplitJoin` | src/services/api.js:72 | splitting joined dot-free parts gives back those parts |
| `Expiry.PayloadSegment` | src/services/api.js:72 | `token.split('.')[1]` is the second part when the token has a dot, and the text `undefined` otherwise; it never contains a dot |
| `Expiry.TokenExpiry` | src/services/api.js:70-77 | there is an expiry exactly when the payload decodes and its `exp` reads as a number; the expiry is `exp` seconds in milliseconds |
| `Expiry.UndefinedSegmentRejected` | src/services/api.js:72 | `atob(undefined)`, which decodes the text `undefined`, fails |
| `Expiry.NoDotNoExpiry` | src/services/api.js:70-77 | a token without a dot has no expiry |
| `Expiry.UrlSafePayloadNoExpiry` | src/services/api.js:70-77 | a payload segment written in base64url with `-` or `_` has no expiry |
| `Expiry.StandardPayloadExpiry` | src/services/api.js:70-77 | for `header.payload.signature` with a standard base64 payload, the expiry is the payload's `exp` times 1000 |
| `Expiry.Plan` | src/services/api.js:86-104 | no timer without a truthy token or a non-zero expiry; otherwise a positive delay that ends one minute before expiry, or an immediate renewal when the token is already inside that minute |
| `Expiry.TimeoutDelay` | src/services/api.js:107-118 | `setTimeout` waits a delay below 2^31 ms as given. A delay whose remainder modulo 2^32 is below 2^31 waits that remainder, and any other fires at once |
| `Session.WithBearer` | src/services/api.js:25 | the request gains `Authorization: Bearer <token>`, and its other headers, id and `_retry` marker are unchanged |
| `Session.Initial` | src/services/api.js:33-34 | at load time the store is what the browser kept, no timer is armed, the page is not redirected, nothing is queued or pending, and the invariant holds |
| `Session.IsAuthError` | src/services/api.js:135 | an authentication failure is a response with status 401 or 403 |
| `Session.IsNetworkError` | src/services/api.js:136 | a network error has no response, so it is never an authentication failure |
| `Session.EntersRefreshPath` | src/services/api.js:135-140 | a failure reaching the refresh path was not retried, and is a 401 or 403 or a bare "Network Error" |
| `Session.FreshAuthFailuresRefresh` | src/services/api.js:135-140 | every first failure with a 401, a 403 or a bare "Network Error" reaches the refresh path |
| `Session.OnlyAuthFailuresRefresh` | src/services/api.js:135-140 | other statuses, other transport errors and already retried requests never reach the refresh path |
| `Session.Drain` | src/services/api.js:36-45 | `processQueue` settles every waiter in queue order with the one outcome |
| `Session.DrainSharesOutcome` | src/services/api.js:36-45 | every waiter is resent with the same token, or every one is rejected with the same error |
| `Session.ForcedLogout` | src/services/api.js:163-170 | the three keys are removed and the page is redirected; nothing else changes |
| `Session.TimerRefresh` | src/services/api.js:48-52 | a timer renewal without a refresh token fails at once and logs out; otherwise one more renewal is pending |
| `Session.StartTimer` | src/services/api.js:79-119 | the old timer is always cleared; a timer is armed only for a positive delay, and waits what `setTimeout` makes of it, which below 2^31 ms ends one minute before expiry; an immediate renewal when inside the margin; the invariant is kept |
| `Session.LongDelayFiresAtOnce` | src/services/api.js:107-118 | a delay from 2^31 up to 2^32 ms arms a timer that fires at once |
| `Session.StopTimer` | src/services/api.js:121-126 | no timer remains and nothing else changes |
| `Session.StoreRenewal` | src/services/api.js:53-63 | the new access token is stored, and the refresh token is replaced only by a non-empty rotated one, with the user key kept. The store is cleared and the page redirected only when the new token is already inside the margin and no refresh token remains. A timer is armed exactly when the plan for the new token arms one, waiting what `setTimeout` makes of the delay, which below 2^31 ms ends one minute before its expiry. One timer renewal is added exactly when the new token needs renewing at once and a refresh token remains. The flag and queue are untouched and the invariant is kept |
| `Session.RenewalRotatesRefreshToken` | src/services/api.js:55-61 | when the new token's timer is armed, the stored refresh token is the rotated one if it is non-empty and the old one otherwise, and no redirect happens |
| `Session.OnResponseError` | src/services/api.js:131-156 | a failure passes through unchanged unless it is eligible. An eligible failure queues while refreshing, or else marks `_retry` and starts exactly one renewal. Without a refresh token it rejects all waiters with `No refresh token`, empties the queue, lowers the flag and logs out, exactly as `Session.ForcedLogout` does. The timer is untouched and the invariant is kept |
| `Session.OnInterceptorRefresh` | src/services/api.js:156-173 | on renewal, the new tokens are stored and the timer restarted exactly as `Session.StoreRenewal` does, the waiters are resent in order with the new token and the first request is resent once. On rejection, the session is exactly `Session.ForcedLogout` and all are rejected with the same error. The flag is lowered, the queue emptied and the pending call cleared either way |
| `Session.OnTimerRefresh` | src/services/api.js:107-117 | a successful timer renewal stores the tokens and restarts the timer as `Session.StoreRenewal` does, with one fewer call pending. A rejected one clears the session and redirects. One fewer renewal is pending unless the new token needs renewing at once. The interceptor's flag and queue are untouched |
| `Session.FireTimer` | src/services/api.js:107-116 | firing disarms the timer. With a refresh token stored, one renewal becomes pending and the store is untouched. Without one, the three keys are removed and the page is redirected |
| `Session.Configs` | src/services/api.js:132 | the configurations of a burst of failures, in arrival order |
| `Session.QueuedWhileRefreshing` | src/services/api.js:143-150 | while a renewal is pending, every eligible failure only joins the queue, in arrival order |
| `Session.SingleFlight` | src/services/api.js:143-156 | a burst of eligible failures arriving while idle starts exactly one renewal; the rest wait in order |
| `Session.BurstSharesOneOutcome` | src/services/api.js:155-173 | the whole burst settles together, in arrival order, with one token or one error, and the invariant holds again |
| `Session.ResentOriginalIsFinal` | src/services/api.js:152-162 | the request resent after a renewal carries `_retry`, so its next failure is passed to the caller |
| `Session.ReplayedWaiterMayRefreshAgain` | src/services/api.js:146-148 | a replayed waiter carries no `_retry` marker, so a 401 on it enters the refresh path again |
| `Session.TimerAndInterceptorOverlap` | src/services/api.js:107-109 | the timer ignores `isRefreshing`, so its renewal and the interceptor's can be pending together |
| `Api.AuthClient.constructor` | src/services/api.js:33-34 | the client starts in `Session.Initial` of the stored keys |
| `Api.AuthClient.AttachToken` | src/services/api.js:21-30 | the bearer header is set exactly when a truthy access token is stored |
| `Api.AuthClient.ProcessQueue` | src/services/api.js:36-45 | the loop releases `Session.Drain` of the queue, then empties it |
| `Api.AuthClient.ForceLogout` | src/services/api.js:163-170 | ends in `Session.ForcedLogout` |
| `Api.AuthClient.RefreshFromTimer` | src/services/api.js:48-52 | ends in `Session.TimerRefresh` |
| `Api.AuthClient.StartTokenRefreshTimer` | src/services/api.js:79-119 | ends in `Session.StartTimer` |
| `Api.AuthClient.StopTokenRefreshTimer` | src/services/api.js:121-126 | ends in `Session.StopTimer` |
| `Api.AuthClient.StoreRenewedTokens` | src/services/api.js:53-63 | ends in `Session.StoreRenewal` |
| `Api.AuthClient.OnResponseError` | src/services/api.js:131-156 | ends in `Session.OnResponseError` and keeps the invariant |
| `Api.AuthClient.OnInterceptorRefresh` | src/services/api.js:156-173 | ends in `Session.OnInterceptorRefresh` and keeps the invariant |
| `Api.AuthClient.OnTimerRefresh` | src/services/api.js:97-102 | ends in `Session.OnTimerRefresh` and keeps the invariant |
| `Api.AuthClient.FireTimer` | src/services/api.js:107-118 | ends in `Session.FireTimer` and keeps the invariant |
| `Auth.BasicUser` | src/context/AuthContext.jsx:64 | the user made from the login answer has its id, name, email and verification flag, and no roles |
| `Auth.WithProfile` | src/context/AuthContext.jsx:22 | a fetched profile overwrites only the stored user key; a failed fetch changes nothing |
| `Auth.LoggedIn` | src/context/AuthContext.jsx:60-67 | login's writes and timer start keep the invariant and leave the interceptor's flag and queue alone |
| `Auth.LoggedOut` | src/context/AuthContext.jsx:84-91 | after logout, no keys are stored, no timer remains and the page is redirected; pending renewals are untouched |
| `Auth.LogoutIdempotent` | src/context/AuthContext.jsx:84-91 | logging out twice equals logging out once |
| `Auth.LoginStoresSession` | src/context/AuthContext.jsx:60-71 | with a non-empty refresh token, or a token that needs no renewal at once, login leaves exactly the new token pair stored, with the profile (or the basic user) under `user` |
| `Auth.LateRenewalRevivesSession` | src/services/api.js:53-63 | a timer or interceptor renewal answered after logout stores the new access token (and a rotated refresh token) again, and re-arms the timer when the plan for that token arms one |
| `Auth.LoginArmsTimer` | src/context/AuthContext.jsx:67 | a login token expiring more than a minute ahead arms the timer for what `setTimeout` makes of the time left before the margin, which is that time itself below 2^31 ms |
| `Auth.LoginInsideMargin` | src/context/AuthContext.jsx:67 | a login token already inside the margin starts a renewal at once, or logs out when the refresh token is empty |
| `Auth.AuthProvider.constructor` | src/context/AuthContext.jsx:10-11 | no user, and loading |
| `Auth.AuthProvider.FetchUserProfile` | src/context/AuthContext.jsx:14-30 | returns the profile or null; on success it stores the profile and makes it the user, and on failure nothing changes |
| `Auth.AuthProvider.InitAuth` | src/context/AuthContext.jsx:33-50 | with a stored token, the stored user is restored when it parses, the timer is started and the profile fetched; without one nothing changes; loading ends false |
| `Auth.AuthProvider.Login` | src/context/AuthContext.jsx:54-77 | a rejected login changes nothing and is passed on. A successful one stores the tokens and the basic user, starts the timer and fetches the profile, and answers with the profile or else the basic user |
| `Auth.AuthProvider.Logout` | src/context/AuthContext.jsx:84-91 | ends in `Auth.LoggedOut` with no user |
| `Lists.Filter` | src/pages/admin/AdminUsers.jsx:24 | `filter` keeps exactly the accepted elements and never lengthens the list |
| `Lists.FilterPositions` | src/pages/admin/AdminUsers.jsx:24 | `filter` keeps exactly the positions whose element is accepted, in order |
| `Lists.FilterIsSubsequence` | src/pages/BookList.jsx:23 | a filtered list is a subsequence of its input |
| `Lists.FilterFuse` | src/pages/BookList.jsx:23-30 | two filters in a row are one filter by both conditions |
| `Lists.FilterCongruent` | src/pages/BookList.jsx:23-30 | filters whose conditions agree give the same list |
| `Lists.FilterKeepsAll` | src/pages/BookList.jsx:19 | a filter that accepts everything returns its input |
| `Lists.Distinct` | src/pages/BookList.jsx:49 | `[...new Set(xs)]` has the same members as `xs`, each once |
| `Lists.DistinctFirstOccurrences` | src/pages/BookList.jsx:49 | each distinct value sits at its first occurrence, so the values come in first-occurrence order |
| `Lists.ElementsOrEmpty` | src/pages/admin/AdminOrders.jsx:19 | an array body is used as is, and anything else gives the empty list; the `/orders` and `/users` pages (AdminUsers.jsx line 16) both normalise this way |
| `BookList.FilteredBooks` | src/pages/BookList.jsx:18-34 | a book is shown iff an empty query or its lower-cased title or author contains the lower-cased query, and `'All'` or its exact genre |
| `BookList.FilteredBooksIsOneFilter` | src/pages/BookList.jsx:19-33 | the two filters in a row equal one filter by both conditions |
| `BookList.FilteredBooksPositions` | src/pages/BookList.jsx:18-33 | exactly the positions of the shown books are kept, in their original order |
| `BookList.FilteredBooksIsSubsequence` | src/pages/BookList.jsx:18-33 | `filteredBooks` is a subsequence of `books` |
| `BookList.NoFilterShowsAll` | src/pages/BookList.jsx:21-31 | an empty query with `'All'` shows the whole catalogue |
| `BookList.GenreIsCaseSensitive` | src/pages/BookList.jsx:30 | the genre filter compares exactly, so letter case matters |
| `BookList.TruthyGenres` | src/pages/BookList.jsx:49 | the present, non-empty genres, no more than there are books |
| `BookList.TruthyGenresAppend` | src/pages/BookList.jsx:49 | the genres are read in book order |
| `BookList.GenreOptions` | src/pages/BookList.jsx:49 | `'All'` first, then every present non-empty genre, each once |
| `BookList.GenreOptionsOrder` | src/pages/BookList.jsx:49 | the genres follow `'All'` in order of first occurrence |
| `BookList.AllGenreListedTwice` | src/pages/BookList.jsx:49 | a book whose genre is literally `All` makes `All` appear again after the first choice |
| `AdminOrders.FilteredOrders` | src/pages/admin/AdminOrders.jsx:37-42 | an order is kept iff it matches both the search and the status filter |
| `AdminOrders.FilteredOrdersPositions` | src/pages/admin/AdminOrders.jsx:37-42 | exactly the matching positions are kept, in their original order |
| `AdminOrders.EmptySearchMatchesAll` | src/pages/admin/AdminOrders.jsx:38 | an empty search matches every order |
| `AdminOrders.NoFilterListsAll` | src/pages/admin/AdminOrders.jsx:37-42 | an empty search with `'ALL'` lists every order |
| `AdminOrders.SearchByNumber` | src/pages/admin/AdminOrders.jsx:38 | searching for an order's number, with or without `#`, finds it |
| `AdminOrders.NoItemsSearchesNumberOnly` | src/pages/admin/AdminOrders.jsx:38-39 | an order without items matches only through `#<id>` |
| `AdminOrders.StatusFilterIsExact` | src/pages/admin/AdminOrders.jsx:40 | a status other than `'ALL'` keeps only orders with exactly that status |
| `AdminOrders.StatusEditor` | src/pages/admin/AdminOrders.jsx:110-118 | the editor is offered iff the status is neither DELIVERED nor CANCELLED, and always with the four flow statuses |
| `AdminOrders.EditorOptions` | src/pages/admin/AdminOrders.jsx:110-118 | the editor never offers CANCELLED and always offers every flow status |
| `AdminOrders.EditorForUnknownStatus` | src/pages/admin/AdminOrders.jsx:110-118 | a missing or unknown status still gets the editor, whose value is then none of its options |
| `AdminBooks.MatchingBooks` | src/pages/admin/AdminBooks.jsx:152-156 | a book is kept iff a present title, author or genre, lower-cased, contains the lower-cased search |
| `AdminBooks.MatchingBooksPositions` | src/pages/admin/AdminBooks.jsx:152-156 | exactly the matching positions are kept, in their original order |
| `AdminBooks.EmptySearchNeedsAField` | src/pages/admin/AdminBooks.jsx:152-156 | with an empty search, a book is listed iff it has a title, an author or a genre |
| `AdminBooks.SearchIgnoresCase` | src/pages/admin/AdminBooks.jsx:153-155 | the search ignores the letter case of what is typed |
| `AdminBooks.SummaryProgress.constructor` | src/pages/admin/AdminBooks.jsx:24 | no summary action in progress |
| `AdminBooks.SummaryProgress.StartGenerate` | src/pages/admin/AdminBooks.jsx:42 | only this book's entry becomes `'generating'` |
| `AdminBooks.SummaryProgress.StartDelete` | src/pages/admin/AdminBooks.jsx:59 | only this book's entry becomes `'deleting'` |
| `AdminBooks.SummaryProgress.Finish` | src/pages/admin/AdminBooks.jsx:48-53 | ends in `AdminBooks.Without` the book |
| `AdminBooks.Without` | src/pages/admin/AdminBooks.jsx:65-70 | the book's entry is gone and every other entry is unchanged |
| `AdminBooks.StartThenFinish` | src/pages/admin/AdminBooks.jsx:42-53 | finishing an action on an idle book restores the map as it was |
| `AdminBooks.FinishLeavesOthers` | src/pages/admin/AdminBooks.jsx:59-70 | finishing one book's action keeps another book's entry |
| `AdminBooks.OverlappingActionsShareEntry` | src/pages/admin/AdminBooks.jsx:42-70 | a second action on a busy book overwrites its entry, and the first to finish removes it |
| `AdminBooks.TextOrBlank` | src/pages/admin/AdminBooks.jsx:98 | the text shown for a field is empty iff the field is missing or empty |
| `AdminBooks.NumberOrBlank` | src/pages/admin/AdminBooks.jsx:102 | a missing or zero number becomes `''` |
| `AdminBooks.OpenAdd` | src/pages/admin/AdminBooks.jsx:89-93 | nothing is being edited, the modal is open, and the form is `emptyBook`: blank but available |
| `AdminBooks.OpenEdit` | src/pages/admin/AdminBooks.jsx:95-113 | the book is being edited in the open modal. Each of the eight text fields and four number fields is the book's value, or `''` when that value is falsy. `available` falls back to true only when missing |
| `AdminBooks.OpenEditOfBlankBook` | src/pages/admin/AdminBooks.jsx:6-11 | editing a book with nothing filled in opens `emptyBook` |
| `AdminBooks.ZeroPriceShownBlank` | src/pages/admin/AdminBooks.jsx:102 | a price of 0 is shown as an empty field |
| `AdminUsers.FilteredUsers` | src/pages/admin/AdminUsers.jsx:24-27 | a user is kept iff a present username or email, lower-cased, contains the lower-cased search |
| `AdminUsers.FilteredUsersPositions` | src/pages/admin/AdminUsers.jsx:24-27 | exactly the matching positions are kept, in their original order |
| `AdminUsers.NamelessUserHidden` | src/pages/admin/AdminUsers.jsx:24-27 | a user with neither username nor email is never listed |
| `AdminUsers.EmptySearchListsNamedUsers` | src/pages/admin/AdminUsers.jsx:24-27 | an empty search lists every user with a username or an email |
| `AdminUsers.RoleBadge` | src/pages/admin/AdminUsers.jsx:77 | the badge is `admin` iff the role contains `ADMIN`, else `user` |
| `AdminUsers.RoleLabel` | src/pages/admin/AdminUsers.jsx:79 | the label is the role with its first `ROLE_` removed |
| `AdminUsers.PrefixedRoleLabel` | src/pages/admin/AdminUsers.jsx:79 | `ROLE_<name>` is labelled `<name>` |
| `AdminUsers.AdminNamedRoleBadge` | src/pages/admin/AdminUsers.jsx:77 | any role whose name contains `ADMIN` gets the admin badge |

## Left out

- **HTTP transport** is left out: the axios instances, base URLs, and the resend of requests.
  - A call's outcome enters as a parameter: an `HttpError`, a `RefreshResult`, a `/me` profile or a `/login` answer.
  - What happens to a resent request after it is sent is not modelled.
- **Interleaving.** Microtask ordering and the interleaving of events are not modelled: each event runs to its end. In particular, the rejection of `refreshAccessToken` for a missing refresh token is taken within the same step.
- **Clock and timers.** `Date.now()` is a parameter `now`. The timer is its armed delay.
  - The source never sets `refreshTimerId` back to null once the timer fires. The model marks a fired timer as gone, which is equivalent because clearing a fired timer does nothing.
- **JSON.** `JSON.parse` of the token payload followed by reading `exp` is an abstract function `claim`. The `JSON.stringify` and `JSON.parse` of a stored user are the provider's `stringify` and `parse`.
- Auth.AuthProvider.InitAuth: a stored user that parses to a value other than a user object (such as `null`) is not distinguished from a user.
- Text.Lower: lower-cases ASCII letters only, while `toLowerCase` also maps other Unicode letters.
- Text.IntToString: always writes plain decimal digits. JavaScript writes integers of magnitude 1e21 or more in exponent form (`1e+21`), so an order id that large would be searched by a different text.
- **Floating point.**
  - `payload.exp * 1000` is exact integer arithmetic. A NaN or fractional `exp` is not modelled.
  - Book prices and counts are reals, and `parseFloat` and `handleSave` are not modelled.
- **Window location.** The redirect to `/login` is a flag. Console logging and `alert` are not modelled.
- **Stored `undefined`.** `localStorage.setItem` of an `undefined` token, which stores the text `undefined`, is not modelled. Tokens in a login or renewal answer are strings.
- **The `/me` request's own header.** `fetchUserProfile` goes through `authApi`, which has no interceptors. Its call is the `me` parameter.
- **`register`** is not modelled. It posts to `/register` and returns the body without touching any state.
- BookList.FilteredBooks: requires that the search can be evaluated. A book without a title, or without an author when its title does not match, makes the page throw, and that throw is not modelled.
- **Page actions outside the listed rules** are not modelled: fetching, saving, deleting, status updates and `handleGenerateAll` are network calls followed by a re-fetch. React rendering is left out too.
