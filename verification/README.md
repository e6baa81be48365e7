# Heart-health app core, modelled in Dafny

This project models the session and request core of the heart-health web app's frontend:

- the session store kept in `localStorage` with an in-memory cache (`authStorage`);
- the event bus for logout, token and user changes (`authBus`);
- the mapping from a failed request to a message key (`errorMapper`);
- the derivation of the API base URL and origin (`apiBase`, and the copy in `client.js`);
- the API client's two interceptors, together with the refresh coordinator. The coordinator is the `isRefreshing` flag and `refreshQueue`: the first request that gets a 401 starts one token refresh, and later ones wait for it;
- the signup form's validators (`validation.js`).

It also models the backend's signup schema (`UserCreate` and its password rule) and the risk service's banding and tip generation.

Files, one module each:

- `Base`: `Option`, `Result`.
- `Text`: character classes, JavaScript `trim` and Python `strip`, ASCII lower-casing, UTF-16 length.
- `Json`: JSON values, JavaScript truthiness, `??` and `||`, and property reads. It also holds `Codec`, a stand-in for `JSON.parse`/`JSON.stringify`.
- `AuthBus`, `AuthStorage`, `ErrorMapper`, `ApiBase`, `ApiClient`.
- `Coordinator`: the client as a state machine over the events where JavaScript yields to the event loop.
- `Validation`, `Schemas`, `HeartRisk`.

The coordinator's main result is an invariant that holds in every reachable state (`Coordinator.Reachable`):

- at most one refresh call is outstanding, and `isRefreshing` is set exactly while one is;
- the queue is non-empty only while a refresh runs, and holds each waiting request once;
- a request is replayed at most once;
- the `Missing refresh token` throw is never reached.

Further lemmas show:

- each settlement of the queue notifies every waiting request exactly once;
- a refresh call is issued only when none is outstanding;
- a replayed request that gets another 401 is not refreshed again.

## Model

| member | source | states |
|---|---|---|
| ApiBase.StripTrailingSlashUndoesAppend | frontend/src/lib/apiBase.js:4 | stripping undoes appending one `/`; otherwise the result is the input itself or the input less one final `/`, so at most one slash is removed |
| ApiBase.DigitRunEnd | frontend/src/lib/apiBase.js:11 | the end of the maximal run of ASCII digits starting at a position, as `\d+` consumes it |
| ApiBase.RewriteFromLeftmost | frontend/src/lib/apiBase.js:11 | the Codespaces rewrite replaces the leftmost `-<digits>.` segment by `-8000.` and keeps the rest of the host |
| ApiBase.RewriteFromNone | frontend/src/lib/apiBase.js:11 | a host without a `-<digits>.` segment is left unchanged |
| ApiBase.RewriteCodespaceHostSpec | frontend/src/lib/apiBase.js:10-12 | `replace(/-\d+\./, '-8000.')` rewrites the first matching segment only, and nothing when there is none |
| ApiBase.Leftmost | frontend/src/lib/apiBase.js:11 | when some port segment exists, a leftmost one exists |
| ApiBase.EnvValueWins | frontend/src/lib/apiBase.js:2-5 | a non-empty `VITE_API_BASE_URL` wins, with its trailing slash removed. `VITE_API_URL` is consulted only when the first is unset. A set but empty first value falls through to the window rule, because `??` keeps the empty string |
| ApiBase.ClientIgnoresApiUrl | frontend/src/api/client.js:7-27 | the client's private copy equals the shared derivation with `VITE_API_URL` removed. It agrees with the shared one whenever `VITE_API_BASE_URL` is set |
| ApiBase.WindowFallback | frontend/src/lib/apiBase.js:7-20 | without env values: a Codespaces host is rewritten, a host without `:` gets `:8000`, any other host is kept, and `/api/v1` is appended. Outside a browser the result is `http://localhost:8000/api/v1` |
| ApiBase.TrailingDigitsStart | frontend/src/lib/apiBase.js:29 | the start of the maximal run of digits at the end of a string |
| ApiBase.TrailingDigitsOfSuffix | frontend/src/lib/apiBase.js:29 | digits appended after a non-digit form exactly the trailing run |
| ApiBase.OriginStripsVersionedPath | frontend/src/lib/apiBase.js:27-32 | a base URL ending in `/api/v<digits>` (case-insensitive, no line break before it) has its origin equal to the part before that suffix |
| ApiBase.MatchVersionedPathExactly | frontend/src/lib/apiBase.js:29-31 | the pattern matches exactly the strings made of a prefix without line terminators, then `/api/v` in any letter case, then one or more ASCII digits; the captured group is that prefix |
| ApiBase.OriginWithoutVersionedPath | frontend/src/lib/apiBase.js:27-34 | when the URL less its trailing slash is not of that form (for any prefix, marker spelling and digits), the origin is the URL less its trailing slash |
| ApiBase.OriginOfWindowBaseUrl | frontend/src/lib/apiBase.js:7-34 | for a host outside Codespaces (no `.github.dev`), and a protocol and host without line breaks, the origin of the window-derived base URL is `protocol//host`, with `:8000` added when the host has no colon |
| ApiClient.RequestInterceptor | frontend/src/api/client.js:98-108 | `Bearer <access token>` is added only when a truthy token exists and the caller set no Authorization. `Accept-Language` is always the preferred language. No other part of the config changes. The store changes only by the lazy cache load |
| ApiClient.UnwrapPrecedence | frontend/src/api/client.js:111-122 | the success handler prefers `data.data`, then `data`; with no body, a 204 gives `undefined` and any other status the whole response |
| ApiClient.UnwrapEnvelope | frontend/src/api/client.js:112-113 | a `{success, data}` envelope yields exactly its payload |
| ApiClient.RefreshPathExactly | frontend/src/api/client.js:137 | the refresh path is taken exactly for a 401 response on a request not yet retried and without `_skipAuthRefresh` |
| ApiClient.NoToastFor4xx | frontend/src/api/client.js:180-184 | a terminal 4xx failure, or a request with `suppressToast`, shows no toast. A 5xx failure without `suppressToast` shows one |
| ApiClient.RefreshedTokens | frontend/src/api/client.js:78-81 | the refresh reply is accepted exactly when `data.data.access_token` is truthy. The accepted tokens are `data.data`, and the access token is read from them |
| ApiClient.RetryConfig | frontend/src/api/client.js:149-156 | the replayed config carries `_retry` and `Bearer <new token>`, and keeps the target and the caller's flags |
| ApiClient.ReplayKeepsBearer | frontend/src/api/client.js:98-108 | the request interceptor does not overwrite the refreshed Authorization of a replay |
| AuthBus.Subscribe | frontend/src/lib/authBus.js:7-10 | subscribing returns an unsubscriber for the same channel and callback, and leaves the other channels alone |
| AuthBus.Unsubscribe | frontend/src/lib/authBus.js:9 | `delete` reports whether the callback was present and removes exactly it from that channel |
| AuthBus.SubscribeMembers | frontend/src/lib/authBus.js:8 | `Set.add` appends a new callback at the end of the insertion order and ignores one already present |
| AuthBus.SubscribeTwice | frontend/src/lib/authBus.js:8 | subscribing the same callback twice is the same as subscribing it once |
| AuthBus.SubscribeThenUnsubscribe | frontend/src/lib/authBus.js:7-10 | calling the returned unsubscriber removes the callback, whether or not it was subscribed before |
| AuthBus.MembersHolds | frontend/src/lib/authBus.js:1-5 | a callback is in a channel's set exactly when its slot list holds it |
| AuthBus.MembersDelete | frontend/src/lib/authBus.js:9 | deletion empties the callback's slot, so the live members are the old ones without it |
| AuthBus.EmitFrom | frontend/src/lib/authBus.js:16-48 | every callback invoked by an emission receives the emitted payload. Whether it threw is exactly what the callback does. The walk takes at most the step budget |
| AuthBus.EmitQuiet | frontend/src/lib/authBus.js:16-48 | when listeners do not touch the bus, an emission invokes the channel's members from the given position in insertion order, and leaves the bus unchanged |
| AuthBus.EmitDeliversToChannel | frontend/src/lib/authBus.js:28-36 | with quiet listeners, an emission calls every member of the channel once, in order, with the payload |
| AuthBus.ThrowsAreIsolated | frontend/src/lib/authBus.js:18-22 | a listener that throws changes nothing but its own record: the bus, the callbacks reached and termination are as if nobody threw |
| AuthBus.LiveIterationExample | frontend/src/lib/authBus.js:17 | `forEach` walks the live set: a listener that removes a later one and adds a new one causes the new one to be called and the removed one not |
| AuthBus.LiveIteration | frontend/src/lib/authBus.js:16-23 | `forEach` walks the live set: after the callback at a position has run, the walk calls exactly the members that lie after that position in the set as the callback left it, in order. A member it deleted is not called, and one it added is called |
| AuthBus.PerformKeepsEntries | frontend/src/lib/authBus.js:7-10 | adding and deleting never shorten a set's entry list: a deletion leaves a hole and an addition appends |
| AuthStorage.SafeParse | frontend/src/lib/authStorage.js:6-14 | a missing or empty stored value, or one that does not parse, reads as `null` |
| AuthStorage.SafeParseRoundTrip | frontend/src/lib/authStorage.js:6-14 | reading back what `JSON.stringify` wrote gives the value |
| AuthStorage.EnsureCache | frontend/src/lib/authStorage.js:21-31 | the lazy load reads storage only when both caches are `null` and a browser is present; otherwise the store is unchanged. Storage is never written |
| AuthStorage.EnsureCacheIdempotent | frontend/src/lib/authStorage.js:27-31 | loading twice is the same as loading once |
| AuthStorage.Persist | frontend/src/lib/authStorage.js:33-40 | `null` removes the key and any other value stores its JSON. No other key or cache changes. Outside a browser nothing changes |
| AuthStorage.PersistRoundTrip | frontend/src/lib/authStorage.js:33-40 | a persisted value parses back to itself |
| AuthStorage.TokenFieldGetters | frontend/src/lib/authStorage.js:47-52 | the access and refresh getters read the field of the cached tokens, with `null` when it or the tokens are missing |
| AuthStorage.RefreshTokenReadStable | frontend/src/lib/authStorage.js:50-52 | reading the refresh token twice gives the same value and store |
| AuthStorage.SetTokens | frontend/src/lib/authStorage.js:53-57 | the token cache becomes the argument and the user cache is untouched. `tokensUpdated` is emitted exactly when the tokens are truthy |
| AuthStorage.SetUser | frontend/src/lib/authStorage.js:62-66 | the user cache becomes the argument. `userUpdated` is emitted every time, for `null` too |
| AuthStorage.SetThenGetTokens | frontend/src/lib/authStorage.js:43-57 | after `setTokens(t)`, `getTokens()` returns `t` |
| AuthStorage.SetThenGetUser | frontend/src/lib/authStorage.js:58-66 | after `setUser(u)`, `getUser()` returns `u` |
| AuthStorage.Clear | frontend/src/lib/authStorage.js:76-81 | both caches become `null` and both keys are removed. Other keys stay and nothing is emitted |
| AuthStorage.ClearIdempotent | frontend/src/lib/authStorage.js:76-81 | clearing twice is the same as clearing once |
| AuthStorage.SetSessionEffect | frontend/src/lib/authStorage.js:67-75 | a falsy session clears. Otherwise tokens and then user are set, with the notifications in that order, and both read back |
| AuthStorage.GetPreferredLanguage | frontend/src/lib/authStorage.js:82-85 | the stored `app.lang` when it is non-empty in a browser, else `en`. Never empty |
| AuthStorage.CoherentLoadIsIdentity | frontend/src/lib/authStorage.js:27-31 | when the caches agree with storage, the lazy load changes nothing |
| AuthStorage.FirstReadCoheres | frontend/src/lib/authStorage.js:18-31 | the first read after module load leaves the caches agreeing with storage |
| AuthStorage.SetTokensKeepsCoherence | frontend/src/lib/authStorage.js:53-57 | `setTokens` keeps caches and storage in agreement |
| AuthStorage.SetUserKeepsCoherence | frontend/src/lib/authStorage.js:62-66 | `setUser` keeps caches and storage in agreement |
| AuthStorage.ClearCoheres | frontend/src/lib/authStorage.js:76-81 | after `clear` the caches agree with storage |
| AuthStorage.SetSessionKeepsCoherence | frontend/src/lib/authStorage.js:67-75 | `setSession` keeps caches and storage in agreement |
| AuthStorage.ExternalChangeKeepsCoherence | frontend/src/lib/authStorage.js:88-97 | a change of one key by another tab, followed by its storage event, keeps the caches in agreement |
| AuthStorage.ExternalClearLeavesStaleCache | frontend/src/lib/authStorage.js:90-96 | `localStorage.clear()` in another tab (event key `null`) leaves a stale token cache |
| AuthStorage.SetUserBeforeFirstReadHidesTokens | frontend/src/lib/authStorage.js:27-31 | `setUser` before any read makes the lazy load skip storage, so stored tokens read as `null` |
| Coordinator.SettleAll | frontend/src/api/client.js:47-59 | settling the queue changes exactly the queued requests and keeps the set of requests |
| Coordinator.NotifiedOnce | frontend/src/api/client.js:47-59 | every waiting request is notified, exactly once, and nobody else is |
| Coordinator.NotifiedAtMostOnce | frontend/src/api/client.js:43-59 | over every run from the initial state, no request is resolved or rejected from the queue twice. A notified request is settled or carries `_retry`, so it is not waiting in the queue and can never join it again |
| Coordinator.StartInv | frontend/src/api/client.js:40-41 | the initial state (not refreshing, empty queue) satisfies the invariant |
| Coordinator.IssueKeepsInv | frontend/src/api/client.js:98-108 | sending a new request keeps the invariant |
| Coordinator.ResumeKeepsInv | frontend/src/api/client.js:148-157 | replaying a resumed request keeps the invariant |
| Coordinator.ReplyKeepsInv | frontend/src/api/client.js:123-187 | handling a network reply keeps the invariant |
| Coordinator.RefreshReplyKeepsInv | frontend/src/api/client.js:61-96 | finishing the refresh keeps the invariant |
| Coordinator.StepKeepsInv | frontend/src/api/client.js:43-187 | every enabled event keeps the invariant |
| Coordinator.RunKeepsInv | frontend/src/api/client.js:43-187 | every run of events keeps the invariant |
| Coordinator.Reachable | frontend/src/api/client.js:40-187 | in every reachable state, at most one refresh is outstanding and `isRefreshing` is set exactly while one is. The queue is non-empty only while refreshing and has no duplicates. No request is replayed twice, and the `Missing refresh token` throw never happens |
| Coordinator.GuardCoversRefresh | frontend/src/api/client.js:61-66 | after the caller's refresh-token check, `refreshAccessToken` passes its own check and issues the refresh call with that token |
| Coordinator.RefreshPathStep | frontend/src/api/client.js:137-177 | a refreshable 401 clears the session and emits logout when there is no refresh token. During a refresh it joins the queue. Otherwise it starts the one refresh call with `_retry` set |
| Coordinator.TerminalFailure | frontend/src/api/client.js:126-186 | a non-refreshable failure rejects with the mapped error and its original. The network toast is shown when no response came; with a response, the toast is shown only for a missing or zero status or 5xx without `suppressToast`. The session and queue are untouched |
| Coordinator.RefreshReplySettles | frontend/src/api/client.js:78-95 | a good refresh reply stores the tokens and resumes every waiter and the initiator with the new token. Any failure rejects them all with the mapped error, clears the session, emits logout and shows `sessionExpired`. Either way the flag drops and the queue empties |
| Coordinator.ResumeReplays | frontend/src/api/client.js:148-174 | a resumed request is sent again once, with `_retry` and the new Authorization |
| Coordinator.ReplayIsNotRefreshedAgain | frontend/src/api/client.js:137 | a failed replay goes to the terminal path and never starts or joins another refresh |
| Coordinator.SettledStaysSettled | frontend/src/api/client.js:43-187 | a settled request stays settled, and no request disappears |
| Coordinator.RefreshCallOnlyWhenIdle | frontend/src/api/client.js:144-166 | a refresh call is issued only from an idle state, and the caller becomes the single outstanding refresh |
| Coordinator.FailureCallsOnlyWhenIdle | frontend/src/api/client.js:144-166 | a failure reply starts a refresh only when none is running |
| Coordinator.RefreshReplyCallsNothing | frontend/src/api/client.js:83-95 | finishing a refresh never issues another refresh call |
| Coordinator.DeliveryIsEmission | frontend/src/lib/authBus.js:28-48 | a recorded tokens or user delivery is what the bus's emission does when listeners leave the bus alone: the walk reaches the end, each recorded listener is called once in order with the stored value, and the bus is unchanged |
| Coordinator.LogoutDeliveryIsEmission | frontend/src/lib/authBus.js:16-24 | the same for the logout delivery, whose listeners are called with no argument |
| ErrorMapper.ServerStatuses | frontend/src/utils/errorMapper.js:1-13 | `errors.server` is the key for exactly 500, 502, 503 and 504. Other 5xx statuses have no table entry |
| ErrorMapper.MapApiError | frontend/src/utils/errorMapper.js:18-62 | a status is reported exactly when a response exists, and it is that response's status. Details appear only with a response |
| ErrorMapper.NoResponseIsNetwork | frontend/src/utils/errorMapper.js:19-24 | without a response the result is the network key and message, with no status |
| ErrorMapper.InvalidCredentials | frontend/src/utils/errorMapper.js:30-36 | a 401 whose backend message contains `incorrect username or password` (any case) maps to `invalidCredentials`, keeping the message |
| ErrorMapper.ConflictUsernameFirst | frontend/src/utils/errorMapper.js:38-44 | a 409 that mentions an existing username maps to exactly `usernameExists` with the backend message, status 409 and no details, even if it also mentions the phone |
| ErrorMapper.ConflictPhone | frontend/src/utils/errorMapper.js:46-52 | a 409 that mentions only the phone maps to exactly `phoneExists` with the backend message, status 409 and no details |
| ErrorMapper.OtherStatusesTakeDefault | frontend/src/utils/errorMapper.js:54-61 | the key is the status table's entry, else a truthy `error.code`, else `errors.generic`. The details and message are carried over |
| ErrorMapper.RefinementNarrows | frontend/src/utils/errorMapper.js:30-54 | a 401 yields `invalidCredentials` or `unauthorized`; a 409 yields `usernameExists`, `phoneExists` or `conflict` |
| ErrorMapper.MessageFallback | frontend/src/utils/errorMapper.js:28 | the message is the backend's when truthy, else the error's own message, else absent |
| Json.LastMember | frontend/src/lib/authStorage.js:9 | a property read finds a member exactly when one has that name, and returns the value of the LAST member with that name, as `JSON.parse` keeps the last duplicate key |
| Json.GetOpt | frontend/src/api/client.js:78 | optional chaining on `null` or `undefined` yields `undefined` |
| Schemas.PasswordComplexity | backend/src/schemas.py:18-26 | an accepted password is returned unchanged |
| Schemas.PasswordRulesInOrder | backend/src/schemas.py:19-26 | the length message exactly when fewer than 8 code points; the digit message exactly when long enough without a digit; the uppercase message exactly when it has a digit but no uppercase; accepted exactly when all three hold |
| Schemas.BackendAcceptsFormPassword | backend/src/schemas.py:19-26 | every password the signup form accepts that has no astral characters is accepted by the backend |
| Schemas.AsciiWitnessesSuffice | backend/src/schemas.py:19-26 | an ASCII digit and an ASCII uppercase letter in 8 code points suffice for the backend |
| Schemas.AcceptedWhenRulesHold | backend/src/schemas.py:19-26 | a digit and an uppercase character in 8 code points make the backend accept |
| Schemas.FormAcceptsAsciiPassword | backend/src/schemas.py:19-26 | an ASCII password the backend accepts also passes the form |
| Schemas.AstralPasswordSplitsThem | backend/src/schemas.py:20 | a password of 5 code points and 8 UTF-16 units passes the form but fails the backend's length rule |
| Schemas.AgeRange | backend/src/schemas.py:12 | `gt=12, lt=121` accepts exactly the ages 13 to 120 |
| Schemas.MatchesPhonePatternExactly | backend/src/schemas.py:14 | the phone pattern accepts exactly an optional `+` followed by 10 to 15 ASCII digits |
| Schemas.ValidatePhone | backend/src/schemas.py:14 | a phone is accepted exactly when the stripped input is an optional `+` followed by 10 to 15 ASCII digits, and the kept value is the stripped input |
| Schemas.PhoneIgnoresPadding | backend/src/schemas.py:14 | surrounding whitespace never changes the verdict or the stored phone |
| Schemas.PhoneAcceptsPaddedNumber | backend/src/schemas.py:14 | a padded `+` number of 10 to 15 digits is accepted and stored without the padding |
| Schemas.FormUsernameFitsBackend | backend/src/schemas.py:10 | a username the form accepts, once trimmed, satisfies the backend's 2-to-50 length |
| Schemas.ParseGender | backend/src/models.py:6-10 | a parsed gender is the enum member named by the input |
| Schemas.GenderRoundTrip | backend/src/models.py:6-10 | every gender's value parses back to it |
| Schemas.ValidateUserCreate | backend/src/schemas.py:8-26 | a rejection reports at least one field |
| Schemas.UserCreateAccepts | backend/src/schemas.py:8-26 | the model is built exactly when every field's rule holds. It keeps every field except the phone, which is stored stripped |
| Schemas.OnlyPasswordReported | backend/src/schemas.py:18-26 | when only the password fails, the single error is the password validator's message |
| Text.DropLeading | frontend/src/utils/validation.js:7 | removes exactly the maximal leading whitespace |
| Text.DropTrailing | frontend/src/utils/validation.js:7 | removes exactly the maximal trailing whitespace |
| Text.TrimPadded | frontend/src/utils/validation.js:7 | trimming ignores any whitespace added around a string |
| Text.TrimUnpadded | frontend/src/utils/validation.js:7 | a string not starting or ending with whitespace is its own trim |
| Text.TrimIdempotent | frontend/src/utils/validation.js:7 | trimming twice is trimming once |
| Text.LowerAsciiNormalizes | frontend/src/utils/errorMapper.js:16 | lower-casing leaves no ASCII capital letter, lower-casing twice is lower-casing once, and every character that is not an ASCII capital stays as it was |
| Text.Utf16Length | frontend/src/utils/validation.js:24 | `length` lies between the number of code points and twice that |
| Validation.CheckUsername | frontend/src/utils/validation.js:9-21 | one left-to-right scan decides exactly what `validateUsername` decides |
| Validation.ScanUsername | frontend/src/utils/validation.js:1-5 | the scan accepts exactly the strings matching the username pattern without two adjacent separators |
| Validation.UsernameIgnoresPadding | frontend/src/utils/validation.js:7-10 | surrounding whitespace never changes the verdict |
| Validation.BlankUsernameRejected | frontend/src/utils/validation.js:11-13 | empty and whitespace-only usernames are rejected |
| Validation.AcceptedUsernameShape | frontend/src/utils/validation.js:1-21 | accepted exactly when the trimmed value has 3 to 20 characters, starts with an ASCII letter, uses only letters, digits, `.` and `_`, and never has two separators in a row |
| Validation.PasswordChecksSurviveAppending | frontend/src/utils/validation.js:23-35 | appending characters never clears a password flag, never turns an accepted password into a rejected one, and the flags of two joined parts do not depend on their order |
| Text.Utf16LengthConcat | frontend/src/utils/validation.js:24 | the UTF-16 length of a concatenation is the sum of the parts' lengths |
| Validation.ValidatePassword | frontend/src/utils/validation.js:29-35 | accepted exactly when all three flags hold. The empty string is rejected |
| Validation.PasswordRegexAgreement | frontend/src/utils/validation.js:3 | the exported `passwordRegex` and `validatePassword` agree on every password without a line break |
| Validation.LineBreakSeparatesThem | frontend/src/utils/validation.js:3 | a password ending in a newline passes `validatePassword` but not `passwordRegex` |
| HeartRisk.Band | ml/heart-risk/heart-risk-app/main.py:170-178 | Low below 0.2 (the double nearest it), Medium from there below 0.5, High from 0.5 |
| HeartRisk.BandMonotone | ml/heart-risk/heart-risk-app/main.py:170-178 | a higher probability never gives a lower band |
| HeartRisk.GenerateTips | ml/heart-risk/heart-risk-app/main.py:66-150 | a warning comes with no personalized and no general tips |
| HeartRisk.WarningExactlyForAcuteSymptoms | ml/heart-risk/heart-risk-app/main.py:76-91 | the urgent warning is given exactly for acute symptoms at High risk. The recommended warning is given exactly for acute symptoms at Medium risk |
| HeartRisk.LowRiskIgnoresSymptoms | ml/heart-risk/heart-risk-app/main.py:82-91 | at Low risk the acute symptoms have no effect on the tips |
| HeartRisk.RaisedMembers | ml/heart-risk/heart-risk-app/main.py:94-137 | a factor gets a tip exactly when it is listed and answered 1 |
| HeartRisk.PersonalizedFollowsFactorOrder | ml/heart-risk/heart-risk-app/main.py:94-137 | without a warning the personalized tips are the factors answered 1, in the fixed order smoking, blood pressure, cholesterol, stress, family history |
| HeartRisk.PersonalizedExactlyRaised | ml/heart-risk/heart-risk-app/main.py:94-137 | every personalized tip is for a factor answered 1. Without a warning every such factor gets one, and no tip repeats |
| HeartRisk.GeneralTipsRule | ml/heart-risk/heart-risk-app/main.py:140-148 | without personalized tips: the two maintenance tips at Low risk, the check-up and activity tips otherwise. With personalized tips: the single walking tip |
| HeartRisk.RenderedTipsAreRaised | ml/heart-risk/heart-risk-app/main.py:94-150 | in the returned tips (the list `Render` places in `personalized_tips`), every personalized entry is the tip of a factor answered 1 and has two points, no title appears twice, and without a warning every factor answered 1 has its tip there |
| HeartRisk.WarningTextEmpty | ml/heart-risk/heart-risk-app/main.py:72-91 | the warning text is empty exactly when no warning is given |
| HeartRisk.WarningTextsDiffer | ml/heart-risk/heart-risk-app/main.py:84-91 | the urgent and recommended texts differ |
| HeartRisk.TitlesDistinct | ml/heart-risk/heart-risk-app/main.py:94-137 | every factor's tip has two points and its own title |
| HeartRisk.PredictRisk | ml/heart-risk/heart-risk-app/main.py:155-191 | the prediction fails exactly when the model is not loaded |
| HeartRisk.PredictionIsConsistent | ml/heart-risk/heart-risk-app/main.py:170-191 | the reported probability is the model's. The band and warning follow the thresholds and symptoms, and a warning suppresses the tips |
| HeartRisk.Respond | ml/heart-risk/heart-risk-app/main.py:161-162 | there is no response body exactly when the model is not loaded |
| HeartRisk.LabelsDistinct | ml/heart-risk/heart-risk-app/main.py:170-178 | the three risk labels are distinct |
| HeartRisk.AnswerNamesBand | ml/heart-risk/heart-risk-app/main.py:184-191 | the response names the band it computed and carries the probability. The urgent-warning field is empty exactly when there is no warning |

## Left out

- JSON text: `JSON.parse` and `JSON.stringify` are a parameter (`Json.Codec`). Round trips assume only that printing a value with distinct member names never yields `""` and parses back (`Json.Lawful`). JSON numbers are integers; floats are not modelled.
- Text.ToLowerAscii: `toLowerCase` is modelled on ASCII only. That is exact for the three ASCII phrases `errorMapper.js` searches for, because only U+0130 and U+212A lower into ASCII, and neither can complete one of those phrases.
- Schemas.PasswordComplexity: Python's `str.isdigit` and `str.isupper` are a parameter (`Schemas.CharClasses`). The cross-checks with the form assume only that they agree with ASCII on ASCII characters.
- Schemas.ValidateUserCreate: pydantic's messages are modelled only for the password validator. The other fields report only their names, and the error record's other members are out.
- `constr(...)` inside `Annotated`: the model assumes pydantic enforces the length limits, the stripping and the phone pattern written there. Used as `Annotated` metadata, `constr` builds a type rather than a constraint, and the code may not enforce any of them. `strip_whitespace` is modelled as Python's `str.strip()`.
- AuthBus.EmitFrom: JavaScript `forEach` over a live set can run forever if listeners keep adding callbacks, so an emission takes a step budget.
- Coordinator: bus listeners are taken not to subscribe or unsubscribe while they run, as `AuthBus.EmitDeliversToChannel` assumes. Their own effects are out.
- Coordinator: the order in which resolved waiters replay is left open. Any order of `Resume` events is allowed, which covers every microtask order.
- Coordinator: the `Missing refresh token` throw and the `finally` are modelled. The throw is shown unreachable (`Coordinator.Reachable`), because the caller checks the refresh token first.
- axios itself: timeouts, headers other than Authorization and Accept-Language, and the transport are out. A timeout is the error code `ECONNABORTED` given as input.
- Console logging is out. The `try`/`catch` around registering the storage listener is out; registration is taken to succeed.
- `authService` is out, except that its `suppressToast` and `_skipAuthRefresh` flags are inputs of a request.
- Toasts are recorded as effects with their key and message. Translation is out.
- UI components, the legacy fetch wrappers, the mock API and the backend's database, routes and security are out.
- The validators are called only with strings here. Non-string arguments are out.
- HeartRisk: the classifier is a parameter. Its predicted probability is an exact real input, and the thresholds are the exact values of the doubles 0.2 and 0.5. Feature encoding, model loading and all numeric code are out.
- HeartRisk.PredictRisk: the `{"error": "Model not loaded"}` reply is the constructor `ModelNotLoaded`. FastAPI's validation of the response model is out.
