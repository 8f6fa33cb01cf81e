# Geo broadcasting system: a Dafny model of the incident core

The system keeps a table of incident zones. Each zone is a centre point, a
radius in meters and a status. It answers location checks: "is this user
standing inside an active zone?". Every check is recorded in an audit table.
When a check falls inside one or more zones, a webhook event is published to
the Redis list `webhook_events`. A background worker pops events from that
list and POSTs each one to a configured URL. A delivery is optionally signed
with HMAC-SHA256 and retried with exponential backoff.

The model covers six parts of the system, one Dafny file each:

- `repository.dfy` is the repository: the `incidents` table, the
  `location_checks` table, the Redis incident cache and the database clock. It
  is a class whose state the methods update in place. A ghost call log
  records every call, as the test mocks do.
- `service.dfy` is the incident service over the repository and the publisher.
  It covers cache-aside reads, write-then-invalidate mutations, page clamping,
  and the location check that audits and publishes.
- `publisher.dfy` holds the webhook event, the Redis list as a queue (LPUSH on
  the left, BRPOP from the right), and the publisher.
- `worker.dfy` holds the consumer loop and the retry/backoff loop. It also
  decides when a delivery is signed.
- `auth.dfy` holds the API-key middleware: which key a request presents, and
  the 401 / pass decision.
- `mapper.dfy` holds the request/response mappers of the HTTP layer.

`wrappers.dfy` (Option, Result) and `models.dfy` (Incident, LocationCheck, the
scalar types) are shared.

Everything outside the program is a parameter:

- The failure of each database or Redis call the repository makes is a
  boolean `fail` flag per call. In the service these flags form a `Faults`
  record.
- The publisher's LPUSH failure is the flag `pushFails`.
- PostGIS `ST_DWithin` is an uninterpreted `WithinRadius` function.
- HMAC-SHA256 is an uninterpreted `Signer`.
- JSON encoding and decoding of webhook events is a `Codec` pair, with a
  round-trip law (`Lawful`) assumed only where a lemma needs it.
- Cached incidents are stored as `Incident` values, not as JSON.
- The outcome of each delivery attempt is a function `outcome: nat -> Outcome`.
- The consumer loop's environment is a finite schedule of `Tick`s.
- The clock is an abstract integer. The database clock only moves forward.

## Model

| member | source | states |
|---|---|---|
| `Repository.CacheKey` | internal/repository/incident.go:279 | the cache key is "incident:" followed by the id, and the id can be read back from it |
| `Repository.CacheKeyInjective` | internal/repository/incident.go:297 | two ids share a cache key exactly when they are equal, so get, set and invalidate of one id never touch another's entry |
| `Repository.Find` | internal/repository/incident.go:51-86 | lookup by primary key: a found index holds a row with that id, and None exactly when no row has it |
| `Repository.FindAfterRewrite` | internal/repository/incident.go:88-136 | rewriting a row without changing its id leaves every lookup by id unchanged, so an updated or soft-deleted row is still found |
| `Repository.Revised` | internal/repository/incident.go:89-97 | the updated row keeps its id and created_at, gets updated_at = NOW(), and otherwise agrees with the caller's incident |
| `Repository.Deactivated` | internal/repository/incident.go:121-125 | the deactivated row has status "inactive" and updated_at = NOW(); no other column changes |
| `Repository.ActiveAndWithin` | internal/repository/incident.go:203-209 | a row matches exactly when its status is "active" and it lies within its radius of the point, so a soft-deleted ("inactive") row never matches |
| `Repository.ActiveWithin` | internal/repository/incident.go:203-209 | a row is returned exactly when it is in the table, its status is "active" and it lies within its radius of the point, so inactive zones are never returned |
| `Repository.RecentUsers` | internal/repository/incident.go:243-246 | a user is counted exactly when some check of theirs is at or after the cutoff; no checks gives no users |
| `Repository.PageLength` | internal/repository/incident.go:155-156 | a page holds at most pageSize rows, never reaches past the table's end, and is short only at the end of the table |
| `Repository.Offset` | internal/repository/incident.go:141 | the intended offset (page-1)*pageSize, never negative from page 1 on |
| `Repository.OffsetAsWritten` | internal/repository/incident.go:141 | the offset as computed in Go's 64-bit `int`: equal to the intended offset whenever that fits in 64 bits |
| `Repository.Wrap64` | internal/repository/incident.go:141 | Go's 64-bit two's-complement wrap: values in range are unchanged, and any other value is reduced modulo 2^64 |
| `Repository.OffsetAsWrittenGoesNegative` | internal/repository/incident.go:141 | page 92233720368547760 with page size 100 passes the service's clamp, yet the 64-bit offset is negative while the true offset is not |
| `Repository.OffsetAsWrittenWrapsToSmallOffset` | internal/repository/incident.go:141 | page 1106804644422573098 with page size 100 passes the service's clamp, yet the 64-bit offset wraps to 4: on a table of more than 4 rows the query returns rows where the intended page is empty |
| `Repository.OffsetNonNegative` | internal/repository/incident.go:141 | computed without overflow, the offset is never negative for page >= 1, and is zero exactly on the first page or for an empty page size |
| `Repository.IncidentRepository.Create` | internal/repository/incident.go:31-48 | on success one row is appended: the caller's incident with the generated id and both timestamps set to NOW(); a driver error or a duplicate id changes nothing |
| `Repository.IncidentRepository.GetByID` | internal/repository/incident.go:51-86 | returns the row with that id, NotFound when there is none, or the driver error |
| `Repository.IncidentRepository.Update` | internal/repository/incident.go:88-117 | overwrites name, description, location, radius and status of the matching row and stamps updated_at, keeping id and created_at; zero rows affected is not-found and changes nothing |
| `Repository.IncidentRepository.Delete` | internal/repository/incident.go:120-136 | soft delete: the row stays, with status "inactive" and a new updated_at; zero rows affected is not-found and changes nothing |
| `Repository.IncidentRepository.ListIncidents` | internal/repository/incident.go:139-187 | the page is newest first, skips (page-1)*pageSize rows and holds at most pageSize; a negative offset or limit is refused |
| `Repository.IncidentRepository.FindActiveLocation` | internal/repository/incident.go:190-239 | the row-by-row scan returns exactly the active rows that contain the point, in table order |
| `Repository.IncidentRepository.GetLocationCheckStats` | internal/repository/incident.go:242-257 | returns the number of distinct users with a check in the last `minutes` minutes |
| `Repository.IncidentRepository.SaveLocationCheck` | internal/repository/incident.go:260-275 | appends exactly one audit record, with the next serial id and checked_at = NOW(); a failure appends nothing |
| `Repository.IncidentRepository.GetIncidentFromCache` | internal/repository/incident.go:278-293 | a hit returns the cached snapshot; a missing key is no incident and no error |
| `Repository.IncidentRepository.SetIncidentCache` | internal/repository/incident.go:296-307 | stores the incident under its key with the five-minute TTL; nothing else in the cache changes |
| `Repository.IncidentRepository.InvalidateIncidentCache` | internal/repository/incident.go:310-316 | removes exactly that id's key; an absent key is not an error |
| `Repository.IncidentRepository.SetThenGet` | internal/repository/incident.go:288-306 | a get after a successful set returns an equal incident, stored with the five-minute TTL |
| `Repository.IncidentRepository.InvalidateThenGet` | internal/repository/incident.go:279-284 | a get after a successful invalidation is a miss: no incident and no error |
| `Publisher.Reversed` | internal/webhook/publisher.go:52 | reading the list from the right end gives its elements in the opposite order |
| `Publisher.Pushed` | internal/webhook/publisher.go:52 | each LPUSH adds exactly one element at the left, so the earlier contents stay, unchanged, at the right end |
| `Publisher.PopOrderIsPushOrder` | internal/webhook/publisher.go:52 | popping from the right after a series of LPUSHes yields the earlier contents first, then the pushed payloads in push order (FIFO) |
| `Publisher.EventQueue.LPush` | internal/webhook/publisher.go:52 | the payload becomes the new left end of "webhook_events" |
| `Publisher.EventQueue.RPop` | internal/webhook/worker.go:51 | takes the right end of a non-empty list and leaves the rest |
| `Publisher.RedisWebhookPublisher.Publish` | internal/webhook/publisher.go:45-56 | every call records the event; a marshal failure or a push failure reports its error and leaves the list unchanged; otherwise exactly the encoded event is added at the left end |
| `Worker.Headers` | internal/webhook/worker.go:94-100 | every request has Content-Type application/json; X-Webhook-Signature is present exactly when the secret is non-empty, and then equals the signature of the payload under the secret; there are no other headers |
| `Worker.Attempts` | internal/webhook/worker.go:87-118 | the retry loop from attempt i on: it never starts with a sleep, and nothing is delivered without a step (its other properties are the lemmas below) |
| `Worker.Process` | internal/webhook/worker.go:79-87 | without a webhook URL nothing is sent and nothing is delivered; a delivery needs a URL and at least one step |
| `Worker.AttemptsBounded` | internal/webhook/worker.go:87 | at most maxRetries passes through the loop (request-build failures included), none when maxRetries <= 0, and all of them when nothing is delivered |
| `Worker.BackoffDoubles` | internal/webhook/worker.go:104-117 | the k-th wait (0-based) lasts baseDelay * 2^k |
| `Worker.SendsCarryThePayload` | internal/webhook/worker.go:88-100 | every request the loop sends is a POST of the raw payload, unchanged, to the configured URL with the configured headers |
| `Worker.SleepsFollowFailedSends` | internal/webhook/worker.go:88-118 | a transport error or non-2xx response is always directly followed by a sleep, and every sleep directly follows one; a request-building failure never sleeps |
| `Worker.DeliveryEndsAtFirstSuccess` | internal/webhook/worker.go:111-113 | no step follows a 2xx response, and the event counts as delivered exactly when the last send got one |
| `Worker.RecoversAfterFailures` | internal/webhook/worker.go:87-118 | a subscriber that fails k < maxRetries times and then answers 200 gets the event, after exactly k + 1 attempts |
| `Worker.NeverDeliveredWhenAlwaysFailing` | internal/webhook/worker.go:111-121 | with a subscriber that always answers 500 the event is never delivered |
| `Worker.AlwaysFailingExhausts` | internal/webhook/worker.go:79-121 | with a URL and an always-failing subscriber: no delivery, exactly max(maxRetries, 0) attempts, and doubling waits |
| `Worker.WebhookWorker.ProcessWebhookEvent` | internal/webhook/worker.go:75-122 | the retry loop does exactly what `Attempts` specifies (the properties above): nothing without a URL, and otherwise up to maxRetries passes with backoff, stopping at the first 2xx |
| `Worker.WebhookWorker.SignedRequest` | internal/webhook/worker.go:88-100 | the request is a POST of the raw payload to the configured URL, with exactly the headers `Headers` describes |
| `Worker.WebhookWorker.TakeOne` | internal/webhook/worker.go:51-69 | pops the right end; an undecodable payload is skipped, and a decoded one is delivered once with its original raw string |
| `Worker.WebhookWorker.Start` | internal/webhook/worker.go:40-73 | each iteration answers its tick: a cancelled pop does nothing, another pop error sleeps WebhookTimeout, and each popped payload is skipped or processed once; payloads leave the queue from the right in order; the loop stops only on context cancellation or when BRPOP blocks on an empty list |
| `Worker.PublishedEventsArriveInOrder` | internal/webhook/publisher.go:45-56 | events published onto an empty list are popped in publish order, and each decodes to the event that was published |
| `Service.Overwritten` | internal/service/incident.go:135-140 | the updated record keeps the stored id and timestamps and otherwise agrees with the request's incident |
| `Service.PageParameter` | internal/service/incident.go:185-187 | the page passed on is at least 1, and is the caller's page whenever that is at least 1 |
| `Service.PageSizeParameter` | internal/service/incident.go:189-191 | the page size passed on is within 1..100, and is the caller's size whenever that is |
| `Service.AuditRecord` | internal/service/incident.go:225-233 | the audit record carries the caller's user and point, and is flagged dangerous exactly when some zone was found |
| `Service.ClampedQueryIsWellFormed` | internal/service/incident.go:185-191 | page < 1 becomes 1 and a pageSize outside 1..100 becomes 20, so the repository always receives page >= 1 and 1 <= pageSize <= 100, with a non-negative offset |
| `Service.IncidentService.CreateIncident` | internal/service/incident.go:60-81 | the status is forced to "active" before storing; the cache entry is invalidated only after a successful store, and an invalidation failure does not fail the call; a store failure stores and invalidates nothing |
| `Service.IncidentService.GetIncident` | internal/service/incident.go:84-119 | a cache hit is returned without touching the store or the cache; on a miss or a cache error the store is read, a store failure leaves the cache untouched, and a stored row is cached (best effort) and returned; the result always has the requested id |
| `Service.IncidentService.UpdateIncident` | internal/service/incident.go:122-153 | a failed pre-read is "not found for update" with no Update and no invalidation; otherwise exactly the six editable fields are overwritten, keeping id and created_at, and the cache entry is invalidated only after a successful store |
| `Service.IncidentService.DeactivateIncident` | internal/service/incident.go:156-181 | a failed pre-read is "not found for deactivate" with no Delete and no invalidation; otherwise the row is soft-deleted, and the cache entry is invalidated only after a successful store |
| `Service.IncidentService.ListIncidents` | internal/service/incident.go:184-209 | the repository is called once with the clamped page and page size; the call fails exactly when the store does, and otherwise returns the newest-first page |
| `Service.IncidentService.CheckLocation` | internal/service/incident.go:212-260 | a failed zone query returns an error with no audit and no publish; otherwise exactly one audit record is written (dangerous iff zones were found), exactly one event (userId, dangerous, found list) is published iff zones were found, and the found list is returned whatever the audit or publish did |
| `Service.IncidentService.ReadAfterUpdate` | internal/service/incident.go:142-151 | after a stored update and a successful invalidation, the next read returns the revised row even if a stale snapshot was cached |
| `Service.IncidentService.ReadAfterDeactivate` | internal/service/incident.go:169-178 | after a stored deactivation and a successful invalidation, the next read sees the incident as inactive |
| `Service.IncidentService.GetStats` | internal/service/incident.go:263-278 | counts the distinct users who checked their location within the configured window; a store failure is reported |
| `Auth.PresentedKey` | internal/handler/http/v1/auth.go:15-22 | X-API-Key wins when non-empty; otherwise an Authorization value "Bearer " + k presents k; any other Authorization value presents no key |
| `Auth.BearerKeyRecovered` | internal/handler/http/v1/auth.go:19-20 | a bearer credential presents exactly the key it was built from, and "Bearer " alone presents the empty key |
| `Auth.OtherSchemesSupplyNoKey` | internal/handler/http/v1/auth.go:19-22 | with X-API-Key empty, an Authorization value that is not "Bearer " followed by a non-empty key presents no key |
| `Auth.Authenticate` | internal/handler/http/v1/auth.go:13-46 | 401 "API key required" exactly when no key is presented, 401 "Invalid API key" exactly when the key is not configured, and the chain continues exactly when it is |
| `Mapper.DTOToIncidentModel` | internal/handler/http/v1/mapper.go:7-28 | a create request's five fields come back unchanged with an empty status; an update request also carries its status; any other argument gives nil; id and timestamps are zero |
| `Mapper.ModelToIncidentResponse` | internal/handler/http/v1/mapper.go:31-43 | the response describes the same incident: all nine fields are copied unchanged |
| `Mapper.ResponsesDistinguishIncidents` | internal/handler/http/v1/mapper.go:31-43 | two incidents give the same response exactly when they are equal |
| `Mapper.UpdateRequestOverwritesEditableFields` | internal/handler/http/v1/mapper.go:17-25 | the model built from an update request, laid over a stored record by the service, has exactly the request's six fields and keeps the stored id and timestamps |
| `Mapper.ModelsToIncidentResponses` | internal/handler/http/v1/mapper.go:46-52 | the result has the input's length, its i-th slot is the response for the i-th incident, and no slot stays nil; an empty input gives an empty output |

## Left out

- Geodesic distance: `ST_DWithin` on the geography type is the uninterpreted
  `within` function. Coordinates are opaque integer codes, because the core
  only copies and compares them.
- Floating point: latitudes and longitudes are float64 in the source. No
  arithmetic is done on them in the core.
- HMAC-SHA256 and hex encoding are the uninterpreted `Signer`.
- JSON marshalling and unmarshalling of webhook events are the `Codec`
  oracle.
- Cached incidents are stored as `Incident` values. The JSON round trip of an
  incident is assumed exact, including its float64 coordinates and its
  `time.Time` fields. `Repository.IncidentRepository.SetThenGet` and the hit
  branch of `Service.IncidentService.GetIncident` rest on that assumption. A
  marshal failure is the cache-write flag. An unmarshal failure is the
  cache-read flag.
- Real time: sleeps are recorded as durations, not taken. The cache TTL is
  stored as a constant, and expiry is not modelled. `time.Now()` in
  CheckLocation is the parameter `now`.
- Delays are unbounded naturals. `time.Duration` is an int64 count of
  nanoseconds, so the doubled delay overflows after about
  63 - log2(baseDelay in ns) doublings (34 for a one-second base). From then
  on the wrapped delay is baseDelay * 2^k reduced modulo 2^64. With a
  one-second base:
  - some waits are negative, so `time.Sleep` returns at once (k = 34);
  - some are enormous and positive, so the worker stalls on that event and
    stops popping (k = 37 gives about 263 years);
  - from k = 55 on every wait is 0.

  The model's delays keep doubling instead.
- Concurrency: the worker runs in a goroutine, and Redis and Postgres serve
  concurrent clients. The model is sequential. BRPOP's blocking wait on an
  empty list ends the modelled loop.
- `Worker.WebhookWorker.Start`: after a cancelled pop the context is done, so
  the source's next pass returns through `ctx.Done()`. The schedule may put
  any tick there instead, so the model allows more runs than the source has.
- The order of rows returned by FindActiveLocation has no ORDER BY in the
  source. The model returns them in insertion order.
- The `location_checks` serial id is the number of stored rows plus one. Gaps
  left by failed inserts are not modelled.
- HTTP plumbing: gin handlers, routing, status-code mapping, validator tags,
  header-name canonicalisation, the closing of response bodies, and logging.
- Configuration loading and the logger. The service's stats window is a
  constructor parameter.
- Nil pointers: the source's `*models.Incident` may be nil in places; the
  model has no nil incidents, except the nil slots before
  ModelsToIncidentResponses fills them.
- `Publisher.RedisWebhookPublisher.Publish`: a failed LPUSH is modelled as
  leaving the list unchanged. The source promises only that an error is
  returned.
- `Repository.IncidentRepository.ListIncidents`: the offset is the intended
  `Offset`, without the 64-bit wrap of incident.go:141 (see Findings). Rows
  with equal created_at come out in reverse insertion order. `ORDER BY
  created_at DESC` leaves their order unspecified, so in the source two pages
  can overlap when timestamps tie.
- `Service.IncidentService.ListIncidents`: it rests on the repository's
  overflow-free offset, so "the call fails exactly when the store does" holds
  for the intended program only. As written, page 92233720368547760 with page
  size 100 fails with no store fault. Tied created_at values are ordered as in
  the repository line above.
- `Repository.IncidentRepository.Create`: the generated UUID is the parameter
  `newId`. A duplicate id fails like any other driver error.

## Findings

| source | as written | input that shows it | evidently intended | confidence | as-written member | corrected member |
|---|---|---|---|---|---|---|
| internal/repository/incident.go:141 | `offset := (page - 1) * pageSize` in Go's 64-bit `int`, after the service has only checked page >= 1 and 1 <= pageSize <= 100 | page = 92233720368547760, pageSize = 100: the product wraps to a negative offset, and Postgres rejects the query ("OFFSET must not be negative"), so a request for a far page fails instead of returning an empty page. page = 1106804644422573098, pageSize = 100: the product wraps to offset 4, so the source returns rows 5..104 of the newest-first list where the intended page is past the end and empty | the offset of a valid page is never negative and never wraps: a page past the end is empty | high that the wrap happens; not executed | `Repository.OffsetAsWrittenGoesNegative`, `Repository.OffsetAsWrittenWrapsToSmallOffset` | `Repository.OffsetNonNegative` |
