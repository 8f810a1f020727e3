# green-servers: metrics ingestion, threshold alerting and server registration

This project models the API side of green-servers, a server-monitoring service
built as steps of one event-driven flow (`green-server-flow`):

- `POST /login` signs a user in with the identity provider and caches the
  session in the state store under `"user"`/access token.
- `POST /watcher-login` signs a watcher agent in and emits
  `watcher.login.attempt`. The server registrar consumes that event and records
  the host in `servers`.
- `POST /set-threshold` upserts the caller's row in `alert_thresholds` and then
  caches the values under `"thresholds"`/userId.
- `POST /push_metrics` stores one sample in `server_metrics` and then emits
  `metric.pushed`. The threshold evaluator consumes that event and, on a
  breach, sends one alert e-mail through `sendEmail`.
- `GET /list-servers` lists the caller's servers.
- Every authenticated endpoint sits behind the header-presence middleware
  `auth({ required: true })`.

Modules follow the source files:

| module | file |
|---|---|
| `AuthMiddleware` | `middlewares/auth.middleware.ts` |
| `MailService` | `lib/mailService.ts` |
| `MonitorMetricsEvent` | `events/monitor-metrics-event.step.ts` |
| `WatcherLoginEvent` | `events/watcher-login-event.step.ts` |
| `PushMetrics` | `metrics/push-metrics.step.ts` |
| `SetServerThreshold` | `metrics/set-server-threshold.step.ts` |
| `ListServers` | `metrics/list-servers.step.ts` |
| `Login` | `auth/login.step.ts` |
| `WatcherLogin` | `auth/watcher-login.step.ts` |

Four shared modules support them:

- `Json`: request bodies, event payloads and the schema field checks.
- `Model`: records, the state store, the tables, the event outbox and the mail
  outbox as classes, plus `maybeSingle` and the cross-step invariants.
- `Headers`: reading the bearer token from the `authorization` header.
- `Pipeline`: delivering events to subscribers, and properties that span steps.

Each state-changing step is a `Handler` method over the objects it receives.
The method is proved equal to a pure function of the same module (`Push`,
`SetThreshold`, `Register`, `Login`, `WatcherLogin`, `Evaluate`), and the lemmas
are stated about those functions.

External calls are parameters of the model:

- Each database call and the mail transport take a flag saying whether the
  call fails.
- The identity provider is a map from credentials to access tokens and from
  tokens to users.
- The UUID and e-mail format checks are function parameters (`Formats`).
- JavaScript's number-to-text conversion in the e-mail body is the parameter
  `show`.
- Ids the database assigns are parameters (`newId`).
- The timestamp `new Date().toISOString()` is the parameter `now`.

Notes on the code, which the model follows:

- `/watcher-login` does not cache a session in the state store.
- When `getUser` fails, `/watcher-login` only logs the failure; reading
  `decoded.user.id` then throws (`Thrown`).
- The registrar does not check its lookup's error, so a failed lookup still
  inserts.

## Model

| member | source | states |
|---|---|---|
| Json.OptionalStringField | api/src/events/watcher-login-event.step.ts:9 | An absent key is accepted as undefined. A string value is accepted as itself. Every other value, `null` included, is rejected. |
| Model.Where | api/src/metrics/push-metrics.step.ts:61-65 | The `.eq(...)` filter: a row is in the result iff it is in the table and matches, and the result is no longer than the table. |
| Model.Payload | api/src/metrics/push-metrics.step.ts:100-110 | The emitted `data` is an object with exactly the event's keys, and `timestamp` appears iff it is defined. Its round trip through each subscriber's schema is `ParsePayload`. |
| Model.MaybeSingle | api/src/metrics/push-metrics.step.ts:61-66 | No data for zero rows and the row for exactly one. An error for more than one, or when the call fails. |
| Model.Updated | api/src/metrics/set-server-threshold.step.ts:80-87 | Every row keeps its owner and its place. Every row of the user holds the new values, and the user keeps as many rows as before. Every other user's rows are exactly as before. |
| Model.UpdatedFixed | api/src/metrics/set-server-threshold.step.ts:80-87 | Updating a user's rows with the values they already hold changes nothing. |
| Model.UniqueAtMostOne | api/src/events/watcher-login-event.step.ts:37-42 | When (userId, server_name) is unique in `servers`, a lookup matches at most one row. |
| Model.StateStore.SetUser | api/src/auth/login.step.ts:70-74 | Sets `"user"`/token. The thresholds namespace is unchanged. |
| Model.StateStore.SetThresholds | api/src/metrics/set-server-threshold.step.ts:123-127 | Sets `"thresholds"`/userId. The user namespace is unchanged. |
| Model.Database.InsertServer | api/src/events/watcher-login-event.step.ts:52-59 | On success, appends exactly the row. On failure, returns the error and leaves the table as it was. The other tables are unchanged. |
| Model.Database.InsertMetric | api/src/metrics/push-metrics.step.ts:79-89 | On success, appends exactly the row. On failure, returns the error and changes nothing. |
| Model.Database.InsertThreshold | api/src/metrics/set-server-threshold.step.ts:103-108 | On success, appends exactly the row. On failure, returns the error and changes nothing. |
| Model.Database.UpdateThresholds | api/src/metrics/set-server-threshold.step.ts:80-87 | On success, the table becomes `Updated`. On failure, nothing changes. |
| Model.EventBus.Emit | api/src/metrics/push-metrics.step.ts:100-110 | Appends the event to the outbox. |
| Model.Mailbox.Send | api/src/lib/mailService.ts:47-52 | The message joins the sent mail unless the transport fails. |
| Headers.AuthHeader | api/src/metrics/push-metrics.step.ts:49-50 | The header is present iff either key is present. The lower-case `authorization` wins whenever it is present, even when empty. |
| Headers.Split | api/src/metrics/push-metrics.step.ts:51 | At least one piece. No piece contains the separator. A string without the separator is its own single piece. A string with it gives at least two pieces. |
| Headers.SplitJoin | api/src/metrics/push-metrics.step.ts:51 | Joining the pieces with the separator gives back the header. |
| Headers.BearerToken | api/src/metrics/push-metrics.step.ts:51 | A token exists iff the header holds a space, and the token holds no space. |
| Headers.BearerTokenOf | api/src/metrics/push-metrics.step.ts:51 | For `"<scheme> <token>"`, the session key read is exactly `<token>`. |
| Headers.CurrentUser | api/src/metrics/push-metrics.step.ts:49-52 | A session is found iff there is a token and it is a key of `"user"`. The session found is the one stored under that token. |
| AuthMiddleware.Auth | api/src/middlewares/auth.middleware.ts:11-30 | 401 "Unauthorized" iff the header is required and missing or empty. Otherwise `next`, without looking at the token. |
| AuthMiddleware.EmptyLowercaseHides | api/src/middlewares/auth.middleware.ts:11-14 | An empty lower-case header hides a filled-in `Authorization` header, so the request is rejected. |
| MailService.AlertItems | api/src/lib/mailService.ts:20-46 | The hostname item appears iff the hostname is present and non-empty. Each number item appears iff its value is defined, so 0 is rendered. Items come in template order. |
| MailService.HtmlContent | api/src/lib/mailService.ts:20-46 | A definition: the heading, the items of `AlertItems` in order, then the closing paragraph. Its contract states that the body is the heading, then some text, then the closing paragraph, and is just the heading and the closing paragraph when no item is rendered. |
| MailService.AlertEmail | api/src/lib/mailService.ts:13-52 | The recipients are exactly `[to]`. The subject is the one passed, or "Monitoring Alert" when it is undefined. |
| MailService.SendEmail | api/src/lib/mailService.ts:13-57 | Exactly one message is added to the sent mail, or none when the transport fails. It never throws. |
| MonitorMetricsEvent.Parse | api/src/events/monitor-metrics-event.step.ts:5-12 | An accepted event has a UUID userId, a hostname of at least 3 characters and three values in [0, 100], all read from the event. |
| MonitorMetricsEvent.ParsePayload | api/src/events/monitor-metrics-event.step.ts:5-12 | An emitted `metric.pushed` payload parses back to its data iff the data meets the schema. |
| MonitorMetricsEvent.Evaluate | api/src/events/monitor-metrics-event.step.ts:24-72 | One call iff the event parses, the user has thresholds, the token has a session, and some metric is strictly above its threshold. The call goes to the session's e-mail and carries the hostname and all three values. |
| MonitorMetricsEvent.AtThresholdNoAlert | api/src/events/monitor-metrics-event.step.ts:56-60 | A sample equal to every threshold sends no e-mail. |
| MonitorMetricsEvent.Handler | api/src/events/monitor-metrics-event.step.ts:24-80 | The only mail sent is the `Evaluate` call's e-mail, or nothing. The state store is read, never written. |
| PushMetrics.ParseInput | api/src/metrics/push-metrics.step.ts:6-12 | Accepts iff the hostname has at least 3 characters and cpu, memory, disk and uptime are numbers, with no range check. The input holds those values. |
| PushMetrics.Push | api/src/metrics/push-metrics.step.ts:34-118 | 400 on bad input, then 401 without a session. With both, 400 "Server not found" iff the lookup fails, does not match exactly one row, or the row has an empty id. Otherwise 500 iff the insert fails, and 200 when it succeeds. Only 200 writes a row and emits an event: exactly one row for the matched server, and one event with the session's userId, the hostname, the token and the three values. |
| PushMetrics.PushKeepsEventsBacked | api/src/metrics/push-metrics.step.ts:79-110 | Write before emit: every `metric.pushed` event in the outbox stays backed by a stored sample. |
| PushMetrics.Handler | api/src/metrics/push-metrics.step.ts:34-118 | The reply, the sample table and the outbox are those of `Push`. `servers` and `alert_thresholds` are unchanged. It keeps every event backed. |
| SetServerThreshold.ParseInput | api/src/metrics/set-server-threshold.step.ts:6-10 | Accepts iff all three thresholds are numbers in [0, 100]. |
| SetServerThreshold.SetThreshold | api/src/metrics/set-server-threshold.step.ts:33-133 | 400 on bad input, then 401 without a session. With both, 200 iff the lookup and the write succeed and the caller has at most one row; otherwise 500. 400, 401 and 500 change neither the table nor the cache. On 200, the cache maps userId to the input; the caller's rows hold the input; other users' rows are exactly as before; and a row is appended iff the caller had none. |
| SetServerThreshold.InsertKeepsOthers | api/src/metrics/set-server-threshold.step.ts:103-108 | An inserted row leaves other users' rows as they were and joins its own user's rows. |
| SetServerThreshold.SetThresholdUpdatesOne | api/src/metrics/set-server-threshold.step.ts:59-99 | With input, a session, working database calls and exactly one existing row for the caller, the reply is 200, that row is updated to the input and the cache maps the caller to it. |
| SetServerThreshold.SetThresholdLeavesOneRow | api/src/metrics/set-server-threshold.step.ts:59-120 | After a 200 the caller has exactly one row, whether it was updated or inserted. |
| SetServerThreshold.RepeatAfterDone | api/src/metrics/set-server-threshold.step.ts:59-127 | A request repeated after a 200 gives the same reply, table and cache again. |
| SetServerThreshold.SetThresholdIdempotent | api/src/metrics/set-server-threshold.step.ts:59-127 | Repeating a request gives the same reply, table and cache as making it once. |
| SetServerThreshold.SetThresholdKeepsRowsUnique | api/src/metrics/set-server-threshold.step.ts:59-120 | At most one row per userId is preserved. |
| SetServerThreshold.Handler | api/src/metrics/set-server-threshold.step.ts:33-133 | The reply, the table and the cache are those of `SetThreshold`. The cache is written only after the durable write succeeds. |
| WatcherLoginEvent.Parse | api/src/events/watcher-login-event.step.ts:5-10 | An accepted event has a UUID id, a hostname of at least 3 characters, a boolean `success` and an optional string timestamp. |
| WatcherLoginEvent.ParsePayload | api/src/events/watcher-login-event.step.ts:5-10 | An emitted `watcher.login.attempt` payload parses back to its data iff the data meets the schema. |
| WatcherLoginEvent.Register | api/src/events/watcher-login-event.step.ts:22-71 | Append-only, by at most the row {id, hostname}. An invalid event or an insert error changes nothing. Exactly one existing row blocks the insert. No row, several rows (`maybeSingle` then errors), or a lookup error lets it through, and the row is appended. |
| WatcherLoginEvent.RegisterKeepsUnique | api/src/events/watcher-login-event.step.ts:37-59 | When the lookup answers, (userId, server_name) stays unique. |
| WatcherLoginEvent.RegisterOneRow | api/src/events/watcher-login-event.step.ts:37-59 | After a successful handling there is exactly one row for the event's (id, hostname). |
| WatcherLoginEvent.RegisterIdempotent | api/src/events/watcher-login-event.step.ts:37-59 | On a table with at most one row per (userId, server_name), handling the same event a second time, after a first handling whose lookup and insert succeeded, leaves the table as the first handling left it. |
| WatcherLoginEvent.DuplicatesKeepGrowing | api/src/events/watcher-login-event.step.ts:37-59 | Once a host has two or more rows, each later valid login with working database calls adds one more row for it, because `maybeSingle` errors and the insert runs. |
| WatcherLoginEvent.LookupErrorDuplicates | api/src/events/watcher-login-event.step.ts:37-44 | With a failed lookup, an existing row is inserted a second time. |
| WatcherLoginEvent.SuccessIgnored | api/src/events/watcher-login-event.step.ts:30-59 | Flipping `success` does not change the table. |
| WatcherLoginEvent.Handler | api/src/events/watcher-login-event.step.ts:22-71 | `servers` becomes `Register`'s result and the other tables are unchanged. Uniqueness is kept when the lookup answers. |
| WatcherLogin.ParseInput | api/src/auth/watcher-login.step.ts:5-9 | Accepts iff the e-mail is well-formed, the hostname has at least 3 characters and the password at least 6. |
| WatcherLogin.WatcherLogin | api/src/auth/watcher-login.step.ts:34-90 | 400 on bad input and 401 "Invalid credentials" on a sign-in failure, both with no event. Thrown iff `getUser` fails. When the input parses, the sign-in succeeds and `getUser` answers, 200 with the access token and exactly one event {user id, hostname, success: true, now}. |
| WatcherLogin.Handler | api/src/auth/watcher-login.step.ts:34-90 | The reply and the outbox are those of `WatcherLogin`. The state store is not written. |
| Login.ParseInput | api/src/auth/login.step.ts:5-8 | Accepts iff the e-mail is well-formed and the password has at least 6 characters. |
| Login.Login | api/src/auth/login.step.ts:33-85 | 400, 401 "Invalid credentials" and 401 "User not found" cache nothing. When the input parses, the sign-in succeeds and `getUser` answers, 200: the returned token is the access token, and the session cached under it is {userId, email, user_metadata} of the user. |
| Login.Handler | api/src/auth/login.step.ts:33-85 | `"user"` gains exactly the one session entry on success and is unchanged otherwise. `"thresholds"` is untouched. |
| ListServers.Summaries | api/src/metrics/list-servers.step.ts:43-46 | One summary per row, at the same position as its row, and {id, server_name} is listed iff some row carries that id and name. |
| ListServers.ListServers | api/src/metrics/list-servers.step.ts:30-63 | 401 iff there is no session. 500 on a query error. Null data gives an empty list. Otherwise the list has one entry per row the caller owns, in table order, and each entry is that row's {id, server_name}. |
| Pipeline.Deliver | api/src/events/monitor-metrics-event.step.ts:14-22 | `metric.pushed` reaches the evaluator and `watcher.login.attempt` reaches the registrar. Delivery keeps every event backed, and keeps server uniqueness when the lookup answers. |
| Pipeline.OutOfRangeStoredNotAlerted | api/src/events/monitor-metrics-event.step.ts:9-11 | A body with a value outside [0, 100], from a caller with a session and exactly one matching server, gets 200. Its values are stored and emitted, and the event then triggers no alert for any thresholds or sessions. |
| Pipeline.LoginThenAuthenticated | api/src/auth/login.step.ts:70-84 | The token returned by `/login`, sent back as a bearer header, resolves to the session `/login` cached. |
| Pipeline.WatcherLoginRegistersServer | api/src/auth/watcher-login.step.ts:72-80 | The emitted event passes the registrar's schema when the id is a UUID. Handling it leaves exactly one row for (user id, hostname). |
| Pipeline.WatcherLoginTwiceOneServer | api/src/events/watcher-login-event.step.ts:37-59 | Two logins with the same body leave one server row, and the second inserts nothing. |
| Pipeline.CpuBreachAlerts | api/src/events/monitor-metrics-event.step.ts:56-71 | With thresholds {80, 80, 90}, the sample {85, 50, 50} gives one alert to the session's address, listing hostname, cpu 85, memory 50 and disk 50. |
| Pipeline.BoundarySampleNoAlert | api/src/events/monitor-metrics-event.step.ts:56-60 | With thresholds {80, 80, 90}, the sample {80, 80, 90} gives no alert. |

## Left out

- Logging (`logger.*`, `console.*`) is not modelled. It has no effect on replies or state.
- Asynchronous delivery and concurrency are not modelled. Handlers run one at a time to completion, `emit` appends to an outbox, and `Pipeline.Deliver` hands over one event.
- The registrar's check-then-insert race under concurrent logins is not modelled. Only the sequential duplicate after a failed lookup is shown (`WatcherLoginEvent.LookupErrorDuplicates`).
- Supabase, Resend and the identity provider are not modelled. They become failure flags, a credentials-to-token map and a token-to-user map. How a call fails (network, HTTP status) is not distinguished.
- Columns the database fills in (`servers.id`, timestamps) are parameters or left out. Only the columns the handlers write or read are modelled.
- Metrics and thresholds are `real`. JavaScript doubles, NaN, infinities and rounding are not modelled. Only comparisons and range checks matter.
- The UUID and e-mail formats of the validation library are not modelled; they are parameters. String lengths count characters, not UTF-16 code units.
- `MailService.HtmlContent` keeps the template's text and order but not the indentation whitespace of the template literal. Numbers are rendered through the `show` parameter.
- `passedMetricsSchema` is declared in `mailService.ts` but never applied to the `metrics` argument, so the model does not validate it either.
- `PushMetrics.Push`, `SetServerThreshold.SetThreshold`, `ListServers.ListServers` and their handlers require an authorization header. This is what `auth({ required: true })` guarantees before each of them runs (`AuthMiddleware.Auth`). Without a header, `split` on `undefined` would throw.
- `Login.Login` takes the user's e-mail as a string. The provider's possibly-undefined `email` is not modelled.
- Repeated breaches are not deduplicated: every breaching sample sends its own alert. The model keeps that behaviour.
- The other repository files are not part of this model: the web app, the Python watcher agent, the second `middleware/auth.middleware.ts`, `register.step.ts`, `fetch-metrics.step.ts` (a stub), the stream declaration and the type declarations.
- WatcherLoginEvent.RegisterKeepsUnique: proved only when the lookup succeeds. With a failed lookup the registrar can insert a duplicate, as `LookupErrorDuplicates` exhibits.
