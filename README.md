# ws-delivery, modelled in Dafny

ws-delivery follows a VRChat event log and pushes selected events to
websocket clients. This project models the sequential logic of that service:

- **Instance-owner extraction.** `ParseInstanceOwner` (event.go) and its
  copy `parseInstanceOwner` (cmd/delivery/main.go) return the second group of
  the leftmost match of `(hidden|friends|private|group)\(([^\)]+)\)`. The
  model is an explicit scanner (`InstanceOwner.ScanFrom`). It is proved equal
  to a declarative "leftmost match" definition (`MatchAt`, `LeftmostMatch`).
- **Forwarding policies.** `Event.Forward` is the closure built by
  `PredicateBuilder` in event.go. It handles friend-location and
  friend-offline events, and the "private" and "traveling" cases.
  `Delivery.Forward` is the older `predicateBuilder` of cmd/delivery/main.go.
  A payload is the top-level JSON object of a log line, as
  `json.Unmarshal` into `map[string]interface{}` gives it. Its keys are the
  object's own keys, which in this log are dotted names such as
  `message.type`; a lookup of `message.type` (event.go:66) finds that literal
  key and does not descend into nested objects. A value is `Str(s)` for a
  JSON string and `Other` for anything else (nested objects, numbers,
  booleans, null).
- **Predicate chains.** `BuildPredicateChain` and `buildPredicateChain` OR
  their predicates in order and stop at the first true one
  (`PredicateChain`).
- **Ingestion.** `ConnectToSource` and `connectToSource` turn the log
  follower's results into messages (`Ingest`). The two copies are identical.
  The follower's output is a sequence of `Line(body) | TailError`. JSON
  decoding is a function parameter.
- **The broadcaster registry.** `newBroadcasterBuilder` exists as two
  identical copies, in server.go and cmd/delivery/server.go. It is the class
  `Broadcaster.Registry`:
  - channels are numbered in registration order;
  - `live` is the domain of the Go map `m`;
  - `closed` and `closeLog` record the `close` calls;
  - `delivered` records what each channel has received.
- **Handler plumbing.** `newHandlerBuilder`, the two token checks and
  `getQueryParamAny` are modelled in `Handlers` and `Authentication`. A
  handler is the stack of middlewares in front of the websocket handler.

No arithmetic in the core can overflow, so no integer width is modelled.
Strings are sequences of Unicode characters: the scanner steps through
characters where Go's regexp steps through UTF-8 runes and slices bytes.
The two agree on the valid UTF-8 that `encoding/json` produces.

Only the exact location `"private"` is special-cased (event.go:80). A
location such as `wrld_x:1~private` has no parenthesised tag, so its owner
is `""`, and it is forwarded only when `""` is an allowed owner
(`Event.PrivateSuffixIsNotSentinel`).

## Model

| member | source | states |
|---|---|---|
| Payload.GetString | event.go:66 | a string is returned exactly when the key is present and holds a string, and it is that string (Go's `v, ok := payload[k].(string)`) |
| InstanceOwner.KeywordAt | event.go:45 | a returned keyword is one of the four tags and occurs at the given index |
| InstanceOwner.KeywordAtComplete | event.go:45 | any tag occurring at an index is the one KeywordAt reports; the four tags have distinct first letters |
| InstanceOwner.FirstClose | event.go:45 | the result is the first `)` at or after the start, or the end of the string; no `)` lies before it |
| InstanceOwner.TokenAt | event.go:45 | a token found at i is a genuine match at i: a tag, `(`, a non-empty run without `)`, and `)` |
| InstanceOwner.TokenAtComplete | event.go:45 | every match starting at i is the one TokenAt finds, so the owner at a given start is unique (greedy `[^\)]+` stops at the first `)`) |
| InstanceOwner.ScanFrom | event.go:46 | the result is `""` iff no match starts at or after i; otherwise it is the owner of a match that no earlier match precedes |
| InstanceOwner.ParseInstanceOwner | event.go:44-51 | `""` iff the pattern matches nowhere; otherwise the second group of the leftmost match |
| InstanceOwner.ParseInstanceOwnerIsLeftmost | event.go:45-50 | whenever the match at i is leftmost, the result is exactly its owner |
| InstanceOwner.OwnerShape | event.go:45-50 | a non-empty owner contains no `)`, and tag + `(` + owner + `)` occurs in the input |
| InstanceOwner.MatchStartsWithTagLetter | event.go:45 | a match can start only at an h, f, p or g |
| InstanceOwner.OwnerAfterPlainPrefix | event.go:45-50 | after a prefix with no tag letter, the first tagged owner is the result, whatever follows |
| InstanceOwner.NoTagMeansEmptyOwner | cmd/delivery/main.go:78-81 | an identifier without any tag letter has owner `""` |
| InstanceOwner.NoTagLetterSuffixPrivate | event.go:45-50 | a trailing `~private` with no parentheses adds no match, so the owner is `""` |
| InstanceOwner.PrivateSentinelHasNoOwner | event.go:80 | the location `"private"` has owner `""` |
| InstanceOwner.TravelingSentinelHasNoOwner | event.go:84 | the location `"traveling"` has owner `""` |
| InstanceOwner.HiddenInstanceExample | cmd/delivery/vrc_test.go:11-15 | the hidden-instance test input yields `usr_23dbxxxx-e8xx-xxxx-yyyy-zzzzzzzzzzzz` |
| InstanceOwner.GroupInstanceExample | cmd/delivery/vrc_test.go:16-20 | the group-instance test input yields `grp_xxxxxxx-1111-4444-8888-8aa3cc832b33` |
| PredicateChain.ChainHoldsIffSome | event.go:53-62 | the chain holds iff some predicate holds; an empty chain is false |
| PredicateChain.ChainAppend | cmd/delivery/main.go:85-94 | chaining two lists is the OR of the two chains |
| PredicateChain.ChainHolds | event.go:53-62 | definition; characterised by PredicateChain.ChainHoldsIffSome and PredicateChain.EvaluateChain |
| PredicateChain.EvaluateChain | event.go:55-60 | the loop returns the chain's value, calls predicates in order, stops right after the first true one, and calls all of them when none holds |
| Event.Forward | event.go:64-105 | a forwarded event is friend-location with the user check passed and a string location, or friend-offline with the allowed user id |
| Event.UserAllowed | event.go:73-77 | definition; characterised by Event.OtherUserRejected and Event.AbsentUserIsNoConstraint |
| Event.EffectiveLocation | event.go:84-88 | `"traveling"` is replaced by the destination when that is a string; any other location, and `"traveling"` without a string destination, is kept |
| Event.PredicateBuilder | event.go:64-105 | the built predicate holds exactly for a friend-location event whose user check passes and whose string location is `"private"` or has an allowed (destination-substituted) owner, and for a friend-offline event whose userId is the allowed id |
| Event.UnknownTypeDropped | event.go:66-69 | a missing or non-string type, or any type other than the two friend events, is dropped |
| Event.OtherUserRejected | event.go:73-77 | friend-location with a string user id other than the allowed one is dropped |
| Event.AbsentUserIsNoConstraint | event.go:73-77 | with no string user id, the allowed user id makes no difference |
| Event.FriendLocationRule | event.go:72-96 | friend-location is forwarded iff the user check passes and the location is a string that is `"private"` or whose effective owner is allowed |
| Event.PrivateLocationForwarded | event.go:80-82 | the location `"private"` is forwarded whatever the owner list |
| Event.TravelingUsesDestination | event.go:84-93 | `"traveling"` with a string destination is judged by the destination's owner |
| Event.TravelingWithoutDestination | event.go:84-93 | `"traveling"` without a string destination passes only if `""` is allowed |
| Event.MissingLocationRejected | event.go:79-96 | a missing or non-string location drops a friend-location event |
| Event.FriendOfflineRule | event.go:98-104 | friend-offline is forwarded iff the userId is a string equal to the allowed id; a missing id drops it even when the allowed id is `""` |
| Event.TaggedOwnerDecides | event.go:90-93 | with a tagged owner after a plain prefix, the event passes iff that owner is allowed |
| Event.PrivateSuffixIsNotSentinel | event.go:80-93 | `world~private` is not the sentinel; it passes only if `""` is allowed |
| Event.FriendLocationEvent | event.go:72-79 | the example payload carries the friend-location type, the user id and the location |
| Event.AllowedGroupForwarded | event.go:90-93 | u1 at `wrld_x:1~group(g1)` passes when g1 is allowed |
| Event.UnlistedHiddenOwnerDropped | event.go:90-96 | u1 at `wrld_x:1~hidden(u9)` is dropped when only g1 is allowed |
| Delivery.Forward | cmd/delivery/main.go:96-123 | a forwarded event is friend-location and passes the user check |
| Delivery.PredicateBuilder | cmd/delivery/main.go:96-123 | the built predicate holds exactly for a friend-location event whose user check passes and whose location, when it is a string, has an allowed owner |
| Delivery.ForwardRule | cmd/delivery/main.go:98-121 | forwarded iff friend-location, the user check passes, and a string location has an allowed owner; a missing location passes |
| Delivery.OtherUserRejected | cmd/delivery/main.go:105-109 | a string user id other than the allowed one is dropped |
| Delivery.MissingLocationForwarded | cmd/delivery/main.go:111-118 | a friend-location event without a string location is forwarded once the user check passes |
| Delivery.PrivateLocationNeedsEmptyOwner | cmd/delivery/main.go:111-115 | with no sentinel case, `"private"` passes iff `""` is allowed |
| Delivery.OlderPolicyIgnoresFriendOffline | cmd/delivery/main.go:103-121 | the older policy drops every non-friend-location event; the newer one forwards friend-offline events with the allowed id |
| Ingest.Step | event.go:15-30 | a tail error gives one tail-error message; a decode failure gives one parse-error message; a payload gives its raw string iff the predicate holds and raw is a string, and nothing otherwise |
| Ingest.ConnectToSource | event.go:11-34 | definition (the stream of messages for a finite prefix of tail results); characterised by Ingest.Run, Ingest.ConnectToSourceAppend, Ingest.ErrorPerFailure, Ingest.BodiesComeFromAcceptedPayloads and Ingest.OutputBounded |
| Ingest.Run | event.go:14-31 | the send loop emits exactly ConnectToSource of the results |
| Ingest.ConnectToSourceAppend | event.go:14-31 | the output of a concatenation is the concatenation of the outputs, so order is preserved |
| Ingest.ErrorDoesNotStop | event.go:15-24 | a failing result yields one error message and processing continues with the rest |
| Ingest.CountErrorsAppend | event.go:14-31 | error counts add up over concatenated outputs |
| Ingest.ErrorPerFailure | cmd/delivery/main.go:47-56 | the output holds exactly one error message per tail error or decode failure |
| Ingest.BodiesComeFromAcceptedPayloads | cmd/delivery/main.go:58-62 | every forwarded body is the raw string of a decoded payload that the predicate accepted |
| Ingest.OutputBounded | event.go:14-31 | the output is never longer than the input |
| Broadcaster.Registry.constructor | server.go:53-54 | the registry starts empty, with nothing closed and nothing delivered |
| Broadcaster.Registry.Register | server.go:74-78 | the new channel was never handed out before and is added to the registry; nothing else changes |
| Broadcaster.Registry.Cleanup | server.go:80-89 | the first call removes the channel and closes it once; a later call changes nothing; other channels are untouched; the closed-iff-registered-and-gone invariant is kept |
| Broadcaster.Registry.TakeSnapshot | server.go:59-64 | the copy lists every registered channel exactly once |
| Broadcaster.Registry.SendAll | server.go:66-69 | each copied channel receives the value once at the end of its sequence; every other channel is unchanged |
| Broadcaster.Registry.Broadcast | server.go:57-69 | every registered channel receives the value; the rest receive nothing |
| Broadcaster.Registry.Run | server.go:56-71 | with no registration in between, every registered channel receives the whole inbox in inbox order |
| Broadcaster.LateRegistrationMissesValue | cmd/delivery/server.go:50-62 | a channel registered after the snapshot receives nothing, and every channel in the snapshot receives the value |
| Broadcaster.CleanupTwice | cmd/delivery/server.go:73-82 | two cleanups close the channel once and have the effect of one (the deferred cleanup after a send error) |
| Authentication.Get | middleware/authentication.go:28 | an absent key reads as `""` |
| Authentication.FirstNonEmpty | middleware/authentication.go:26-33 | definition; characterised by Authentication.FirstNonEmptySpec and Authentication.GetQueryParamAny |
| Authentication.FirstNonEmptySpec | middleware/authentication.go:26-32 | the lookup is `""` iff every key is missing or empty; otherwise it is some key's value and every earlier key is empty |
| Authentication.GetQueryParamAny | middleware/authentication.go:26-33 | the loop returns the first non-empty value in key order, or `""` when none is non-empty |
| Authentication.NoKeysGiveEmpty | middleware/authentication.go:32 | with no keys to look up the result is `""` |
| Authentication.FirstOfTwo | middleware/authentication.go:12 | two keys give the first one's value unless it is empty, then the second one's |
| Authentication.AuthTokenPreferred | middleware/authentication.go:12 | when authToken and auth are both non-empty, authToken is used |
| Authentication.TokenCheck | server.go:181-196 | calls next iff the authToken query value equals the accepted token; otherwise 401 with `{"message":"unauthorized"}` |
| Authentication.AuthenticationMiddleware | middleware/authentication.go:9-24 | calls next iff the looked-up token equals the accepted token; otherwise 401 with `{"message":"unauthorized"}` |
| Authentication.AuthAloneAccepted | middleware/authentication.go:12-13 | a token given only as auth passes the middleware version and fails the server version |
| Authentication.EmptyAcceptTokenAcceptsBareRequest | middleware/authentication.go:12-21 | with an empty accepted token, a request with neither parameter is accepted |
| Handlers.NewHandlerBuilder | server.go:198-206 | the loop builds m[0](m[1](...m[n-1](final))); the first middleware is outermost, and an empty list gives final itself |
| Handlers.NestLayers | cmd/delivery/server.go:147-155 | the request meets the middlewares in list order, then those of final |
| Handlers.NestAppend | server.go:198-206 | building with a + b is building with a around building with b |
| Handlers.NestOne | server.go:198-206 | one middleware wraps the final handler once |
| Handlers.ServeReachedIffAllPass | server.go:186-193 | the final handler runs iff every middleware calls next; otherwise the first rejecting one answers |
| Handlers.StacksAdmitExactlyTheToken | server.go:100-106 | both servers' stacks reach the websocket handler iff authToken equals the accepted token; otherwise they answer 401 |
| Handlers.RequestLogTransparent | server.go:145-168 | the request log never changes a request's outcome; this rests on the model's reading of requestLogMiddleware as always calling next (server.go:168) |
| Handlers.Nest | server.go:198-206 | definition; characterised by Handlers.NestLayers, Handlers.NestAppend and Handlers.NewHandlerBuilder |
| Handlers.Decide | server.go:181-196 | the request log calls next; the server token check decides as Authentication.TokenCheck and the middleware one as Authentication.AuthenticationMiddleware |
| Handlers.Serve | server.go:186-193 | definition; characterised by Handlers.ServeReachedIffAllPass |
| Handlers.DeliveryStack | cmd/delivery/server.go:94-98 | definition; characterised by Handlers.StacksAdmitExactlyTheToken |
| Handlers.ServerStack | server.go:101-106 | definition; characterised by Handlers.StacksAdmitExactlyTheToken |

## Left out

- Following the log file (`tailLog` in file.go) is I/O with a timed
  backoff. It becomes the sequence of tail results given to
  `Ingest.ConnectToSource`.
- `parseVRCEvent` is a wrapper over `encoding/json`. Decoding is a function
  parameter that returns `Decoded(payload)` or `DecodeError`.
- Error message texts are not modelled, only which step failed.
  Message[string] errors wrap Go error values. The parse-error path wraps
  `v.Err`, which is nil there, instead of the decode error (event.go:22,
  cmd/delivery/main.go:54).
- Goroutines, the mutex and channel blocking in the broadcaster are not
  modelled. The model runs one operation at a time.
- Broadcaster.Registry.SendAll: requires every copied channel to still be
  registered. In Go a cleanup between the snapshot and the send closes a
  copied channel, and the send on it panics (server.go:68 against
  server.go:88). The model does not claim that race is absent.
- Broadcaster.Registry.Broadcast: a send in Go blocks until the subscriber
  reads. The model delivers at once and has no timeout, as the source has
  none.
- The websocket handlers (`wsConnectionHandler`, `deliveryHandler`), `Serve`
  and `serve`, and the server shutdown are network and concurrency code.
  They are not modelled. A send error in `deliveryHandler` calls cleanup,
  and the deferred cleanup runs again afterwards. `Broadcaster.CleanupTwice`
  models that sequence.
- `requestLogMiddleware` logs, generates transaction ids and measures time.
  Only its behaviour of always calling the next handler is kept
  (`Handlers.RequestLog`).
- `getXID` and `setXID` (server.go, middleware/context.go) are context
  plumbing. Logging of rejected requests is left out as well.
- `main` and `run` (signal handling, environment configuration) are not
  modelled. middleware/request_log.go is not part of this model.
- The `raw` field is forwarded unchanged (event.go:27-28); no field of a
  payload is rewritten.
- A query parameter given several times is read through `url.Values.Get`,
  which returns the first value. The model's query maps each name to that
  first value.
