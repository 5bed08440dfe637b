# short-it, modelled in Dafny

A model of the core of the short-it URL shortener, with proofs about that model. The shortener is a FastAPI service with three pieces of state:

- a relational store: the `urls` table and the `clicks` log;
- a Redis cache `url:<key>` holding redirect targets;
- Redis counters `rate_limit:<ip>` that limit URL creation per client address.

The model covers four of the five request handlers of `src/main.py` (the root endpoint is left out) and the background click recorder of `src/services/analytics.py`. It also covers the record shapes and the constraints of `src/models.py`.

Files:

- `wrappers.dfy`: `Option` and `Result`.
- `redis.dfy`: Redis GET, SET with expiry, INCR and EXPIRE on a map.
  - Each entry has an optional absolute expiry time.
  - Every operation takes the current time `now`.
- `models.dfy`: the two tables.
  - The column defaults, and the `filter(...).first()` queries (`FirstMatch`).
  - The `click_events` relationship (`ClickEvents`).
  - The store invariant `StoreValid`, which covers:
    - unique `key`;
    - unique `secret_key`;
    - every click's `url_key` refers to a record;
    - every record's `clicks` equals the number of its click events.
  - Lemmas showing that inserting a record and counting a click keep the invariant.
- `rate_limit.dfy`: the fixed-window limiter.
  - `Admit` is the limiter's decision. `CallsAgreeAtOneInstant` proves it equals the handler's three Redis calls when they run at one instant.
  - `CallsAsWritten` and `CallsIntended` model the three calls at separate instants (see Findings).
  - `FixedWindowBudget` proves that, in one window, the first five requests pass and every later one is refused.
- `analytics.py`'s recorder in `analytics.dfy`:
  - `Record` gives the tables after one background task runs.
  - Lemmas say what it counts and that it keeps the invariant.
- `api.dfy`: the handlers as functions from the state they read to their response and the state they leave.
  - `Create` is `POST /url`.
  - `Forward` is `GET /{url_key}`.
  - `QrLink` is `GET /{url_key}/qr`.
  - `AdminView` is the value the `GET /admin/{secret_key}` handler returns; `AdminResponse` is that value after the `URLInfo` response model (see Findings).
  - Lemmas state each handler's outcomes and the invariants it keeps.
- `service.dfy`: class `Service`. Its fields are the two tables, the cache, the counters and the queue of scheduled background tasks.
  - Each state-changing handler (`POST /url`, `GET /{url_key}`, the recorder) is a method that changes these fields step by step, as the source does. The read-only handlers `GET /{url_key}/qr` and `GET /admin/{secret_key}` are only the functions `QrLink` and `AdminView`, which the scenarios apply to the service's tables.
  - Each method is proved to leave exactly the state, and return exactly the response, that the matching function of `api.dfy` or `analytics.dfy` gives.
  - Every method keeps `Valid()`, which is the store invariant plus two more:
    - every cached target is its record's target;
    - every counter lies between 1 and 5 and has an expiry.
- `scenarios.dfy`: client programs that drive a fresh `Service`. They follow the request sequences of `tests/test_api.py` and the limiter, cache and analytics behaviour.

Choices made in the model:

- **Generated keys are inputs.** The random key generator is not part of this model. The generated key and the secret key are parameters of `POST /url`.
- **Clock and client come from the request.** The server clock, the client address, the `user-agent` header and `base_url` are fields of a `Request` value.
- **Redis as maps.** The two Redis prefixes never overlap, so each namespace is a separate map indexed by the part of the key after the prefix.
- **Python truthiness kept.**
  - An empty `custom_key` means "generate a key".
  - An empty cached value is a cache miss.
- **Create conflicts give 500.**
  - `create_url` does not catch the `IntegrityError` a unique-constraint violation raises at commit, so a generated key or secret key that is already stored makes FastAPI answer 500 (`Conflict`).
  - The rate-limit count taken before the failure stands.
- **Background tasks are queued.**
  - A cache-hit redirect appends its `record_click_stats` call, with a fresh session, to `pending`.
  - `RunBackgroundTask` runs the oldest queued call.
  - The recorder's failure is the parameter `commitFails`. A failed commit is caught and logged, so nothing persists. The session is closed on every path.
- **No geolocation.** The recorder performs no geolocation, and `Click` has no country or city columns. The model records exactly the given fields.
- **One instant per request.** A handler's reads and writes happen at the one `now` of its `Request`. The three Redis calls of the limiter are the exception that matters; `CallsAsWritten` gives each its own instant.

## Model

| member | source | states |
|---|---|---|
| Models.NewRecord | src/models.py:10-14 | a new `urls` row: the given key, secret key, target and creation time, active, with no clicks; properties in `InsertPreservesStore` and `CreateOutcomes` |
| Models.NewClick | src/main.py:123-130 | a new `clicks` row with the request's address and user agent, each replaced by "Unknown" in the handler when absent (the column defaults never apply); properties in `EventsAppend` and `ForwardCountsClick` |
| Models.StoreValid | src/models.py:10-31 | the store invariant: unique keys, unique secret keys, every click refers to a stored key, every counter equals its click events; kept by `InsertPreservesStore`, `CountClickPreservesStore`, `RecordPreservesStore`, `CreatePreservesStore`, `ForwardPreservesStore` |
| Models.CountClick | src/main.py:123-130 | `db_url.clicks += 1` on one row and no other; kept consistent with the log by `CountClickPreservesStore` |
| Models.FirstMatch | src/main.py:111-115 | `filter(...).first()` returns a matching row (the earliest), and nothing exactly when no row matches; under the unique constraints it is the only match (`FindsUniqueRecord`) |
| Models.ClickEvents | src/models.py:31-34 | a click is among a record's click events iff it is logged under the record's key, and there are no more of them than logged clicks; multiplicities in `ClickEventsFilter` |
| Models.ClickEventsFilter | src/models.py:31-34 | the click events are the log filtered by key: each click under the key appears exactly as often as it was logged, and no other click appears |
| Models.ClickCountIsEvents | src/models.py:14-18 | the number of clicks counted under a key is the length of that key's `click_events` |
| Models.QueriesFindHolders | src/main.py:70 | the key and secret-key queries find a row exactly when some record holds that key or secret key |
| Models.NoEventsForUnknownKey | src/models.py:31 | under the foreign key, a key no record holds has no click events |
| Models.EventsAppend | src/models.py:18 | logging one click adds it to its own key's events and to no other key's |
| Models.EvolvesKeepsKeys | src/models.py:10-12 | when rows are only appended and keep their identity, every key and every key's target stays stored |
| Models.EvolvesKeepsReferences | src/models.py:31 | appending rows and raising counters keeps every click's reference valid |
| Models.InsertPreservesStore | src/models.py:10-14 | inserting a record with a new key, a new secret key and no clicks keeps uniqueness, the foreign key and the click accounting, and only appends |
| Models.CountClickPreservesStore | src/main.py:123-132 | raising a record's counter and logging a click under its key keeps the store invariant, and only lets the table evolve |
| Models.FindsUniqueRecord | src/models.py:10-11 | under the unique constraints, the key query, the active-key query and the active-secret query each find the one record holding the key or secret |
| RateLimit.Admit | src/main.py:54-67 | the limiter's decision at one instant: refuse at a live count of 5, otherwise count the request, opening a 60-second window when no counter lives; properties in the lemmas below |
| RateLimit.CallsAsWritten | src/main.py:56-67 | the three Redis calls as written, each at its own instant: GET, refuse at 5, INCR, and EXPIRE only when GET found nothing; properties in `CallsAgreeAtOneInstant` and `CallsAsWrittenCanLoseExpiry` |
| RateLimit.CallsIntended | src/main.py:56-67 | the corrected calls: EXPIRE whenever INCR leaves 1; properties in `CallsIntendedKeepCountersBounded` and `CallsAgreeAtOneInstant` |
| RateLimit.CallsAgreeAtOneInstant | src/main.py:56-67 | at one instant, GET, then INCR, then EXPIRE only when GET found nothing, produce exactly the counter table `Admit` gives, and so do the intended calls |
| RateLimit.CallsAsWrittenCanLoseExpiry | src/main.py:56-67 | a counter at 3 expiring at 60, read by GET at 59 and incremented at 60, is recreated as 1 with no expiry, breaking the counter bounds |
| RateLimit.StuckCounterRefusesForever | src/main.py:59-60 | a counter at the budget with no expiry refuses its address at every later moment |
| RateLimit.CallsIntendedKeepCountersBounded | src/main.py:56-67 | with EXPIRE keyed on INCR's result, every counter stays between 1 and 5 with an expiry, whatever the moments of the three calls, in order; a counter this request opens expires 60 seconds after its EXPIRE, and a counted one keeps its expiry |
| RateLimit.RejectsExactlyAtBudget | src/main.py:59-60 | a request is refused exactly when the caller's live counter has reached 5 |
| RateLimit.AdmitCountsOnce | src/main.py:62-63 | an admitted request raises the caller's live count by exactly one, from zero when no counter lives |
| RateLimit.AdmitKeepsWindow | src/main.py:65-67 | the 60-second expiry is set only when the counter was absent; later requests never move the window |
| RateLimit.AdmitTouchesOnlyCaller | src/main.py:55-63 | other addresses' counters are untouched |
| RateLimit.WindowReopens | src/main.py:56-67 | once the window has run out, the next request opens a fresh window with count 1 |
| RateLimit.AdmitKeepsCountersBounded | src/main.py:56-67 | every stored counter stays between 1 and 5 and keeps an expiry |
| RateLimit.WithinWindow | src/main.py:56-67 | inside a window with k requests counted, the i-th further request passes iff k + i < 5 |
| RateLimit.FixedWindowBudget | src/main.py:56-67 | starting with no live counter, in one 60-second window exactly the first five requests pass and every later one is refused |
| Analytics.Record | src/services/analytics.py:4-28 | the tables after one `record_click_stats` call: lookup by key alone, then the counter and one click in one commit; properties in `RecordCountsOnce` and `RecordPreservesStore` |
| Analytics.RecordCountsOnce | src/services/analytics.py:9-22 | a committed task for a stored key (active or not) raises that record's counter by one, leaves every other record unchanged and logs exactly one click with the given fields under that key only; an unknown key or a failed commit changes nothing |
| Analytics.RecordPreservesStore | src/services/analytics.py:10-22 | recording keeps the store invariant and only lets the table evolve |
| Api.EvolvesKeepsCache | src/main.py:119 | a cache consistent with the table stays consistent while the table only evolves |
| Api.CacheFillKeepsConsistent | src/main.py:117-119 | caching a record's own target under its key, with the 10800-second TTL, keeps the cache consistent |
| Api.Describe | src/main.py:84-85 | the response for a record: its columns, `base_url + key`, `base_url + "admin/" + secret_key` and its click events; stated in `CreateOutcomes` and `AdminView` |
| Api.IsCustom | src/main.py:69 | a `custom_key` counts only when present and non-empty; stated in `CreateOutcomes` |
| Api.ChosenKey | src/main.py:69-74 | the custom key when it counts, otherwise the generated key; stated in `CreateOutcomes` |
| Api.CacheHit | src/main.py:98-100 | `if cache_data:`: a live cache entry with a non-empty value; stated in `ForwardRedirectsToRecord` and `ForwardCountsClick` |
| Api.Create | src/main.py:52-87 | the response, table and counters `POST /url` leaves: limiter, then alias check, then the insert or the unhandled conflict; properties in `CreateRateLimit`, `CreateOutcomes`, `CreatePreservesStore`, `CreatedIsVisible` |
| Api.CreateRateLimit | src/main.py:54-67 | the limiter alone decides the 429 response, which changes neither counters nor the table; once a request is admitted its count stands whatever the outcome |
| Api.CreateOutcomes | src/main.py:69-85 | once admitted: 400 iff the custom key is held by any record, active or not; 500 iff otherwise the chosen key or the secret key collides; success iff both are new, appending exactly one active record with no clicks and returning `base_url + key` and `base_url + "admin/" + secret_key` |
| Api.CreatePreservesStore | src/main.py:78-82 | creation keeps the store invariant and the counter bounds, and only appends |
| Api.CreatedIsVisible | src/main.py:176-190 | after a successful creation, the admin lookup by the returned secret gives the same response and the QR link of the returned key is the returned `url` |
| Api.Forward | src/main.py:90-136 | the response, cache, tables and scheduled task `GET /{url_key}` leaves: cache hit, table hit or 404; properties in `ForwardRedirectsToRecord`, `ForwardCountsClick`, `ForwardPreservesStore`, `DeferredCountMatchesDirect` |
| Api.ForwardRedirectsToRecord | src/main.py:98-136 | every redirect, from the cache or from the table, goes to the target of the record holding the key; 404 with no effect exactly when the cache misses and no active record holds the key |
| Api.ForwardCountsClick | src/main.py:98-132 | a cache hit changes no table and schedules one task with the address (or 127.0.0.1) and user agent (or Unknown); a miss on an active record raises its counter by one, leaves every other record unchanged, appends exactly one click to the log under the key and no other, sets only that key's cache entry with the 10800-second TTL, and so makes every redirect within that time a hit |
| Api.ForwardPreservesStore | src/main.py:117-132 | a redirect keeps the store invariant and the cache consistent, and only lets the table evolve |
| Api.DeferredCountMatchesDirect | src/main.py:100-109 | the click a cache hit defers, once its task commits, leaves the tables the direct table path would have left, for a request with a client address |
| Api.QrLink | src/main.py:140-152 | the QR code exists iff an active record has the key, and it encodes `base_url + url_key`; otherwise 404 |
| Api.AdminView | src/main.py:176-190 | the handler's return value: 404 iff no active record has the secret key; otherwise that record's columns, `base_url + key`, `base_url + "admin/" + secret_key` and its click events |
| Api.AdminResponse | src/main.py:175-190 | what a client of `GET /admin/{secret_key}` receives once the `URLInfo` response model has validated the handler's value: 404 as the handler gives it, the page when it has no click events, 500 otherwise; properties in `AdminServedOnlyBeforeFirstClick` |
| Api.AdminServedOnlyBeforeFirstClick | src/main.py:175-190 | in a consistent store the client gets the admin page iff an active record holds the secret key and has no clicks; a found record with clicks answers 500 |
| Service.Session.Close | src/services/analytics.py:26-28 | the session is closed |
| Service.Service.CreateUrl | src/main.py:52-87 | the response, the table and the counters are exactly those `Create` gives; the click log, the cache and the queue are untouched; the invariant is kept |
| Service.Service.CountRequest | src/main.py:54-67 | the GET/INCR/EXPIRE sequence admits exactly when `Admit` does and leaves its counter table, keeping the counter bounds |
| Service.Service.InsertUrl | src/main.py:78-82 | appends exactly the given record and keeps the invariant |
| Service.Service.LogClick | src/main.py:123-132 | raises record i's counter, appends the click and keeps the invariant |
| Service.Service.CacheTarget | src/main.py:119 | `set(url:<key>, target, ex=10800)` for the record, keeping the cache consistent |
| Service.Service.ForwardToTargetUrl | src/main.py:90-136 | response, cache, table and log are exactly those `Forward` gives; a hit appends one task with a fresh open session to the queue, and no other path touches it |
| Service.Service.RecordClickStats | src/services/analytics.py:4-28 | never fails, closes the session on every path, and leaves exactly the tables `Record` gives |
| Service.Service.RunBackgroundTask | src/main.py:101-107 | runs the oldest queued call, leaving the tables `Record` gives for it and closing its session; with an empty queue nothing changes |
| Scenarios.FirstCreation | src/main.py:52-87 | on a fresh service, a creation succeeds, stores one record and opens the caller's window with count 1 |
| Scenarios.RepeatAlias | src/main.py:56-71 | a request for a held alias, inside a window with budget left, gets 400 and still uses up one unit of budget |
| Scenarios.OverBudget | src/main.py:59-60 | with the counter at 5 inside its window, a creation gets 429 and nothing changes |
| Scenarios.AfterWindow | src/main.py:56-67 | once the window has run out, a creation with new keys succeeds and opens a fresh window |
| Scenarios.FirstRedirect | src/main.py:111-134 | with nothing cached, a redirect to the only record returns its target, counts one click and caches the target for 10800 seconds |
| Scenarios.CachedRedirect | src/main.py:98-109 | a redirect to a cached key returns the cached target, changes no table and queues exactly one task |
| Scenarios.RunOnlyTask | src/services/analytics.py:10-22 | the queued task for the only record's key raises its counter by one |
| Scenarios.CustomAliasLifecycle | tests/test_api.py:46-61 | the custom key is echoed with no clicks and the derived URLs; the duplicate gets 400; the alias redirects to its target |
| Scenarios.SixthCreationInWindowIsRejected | src/main.py:56-71 | one success and four refused duplicate aliases use up the budget, so the sixth creation in the minute gets 429; at 60 seconds a creation succeeds again |
| Scenarios.AdminViewFollowsClicks | src/main.py:123-132 | the handler's admin value has no click events before a redirect and afterwards exactly that one click with the default user agent; the client then gets 500 |
| Scenarios.CachedRedirectIsCountedLater | src/main.py:98-109 | the second redirect is answered from the cache with the same target, and once its task runs both redirects are counted |

## Left out

- HTTP routing, the root endpoint, CORS and the lifespan hook (`src/main.py:18-49`). These are framework wiring. Errors are a result datatype, with `Status` giving the HTTP code.
- The Redis and SQLAlchemy clients, connection settings and the request handlers' own sessions (`src/database.py`, `src/config.py`). These are replaced by maps and sequences.
- Connection errors of Redis or the database in the request handlers. The model treats these stores as always available.
- Models.CountClick: `UrlRecord.clicks` is an unbounded `nat`, while the `clicks` column is a 32-bit `Integer` (`src/models.py:14`). At 2^31-1 the increment's commit would fail: an unhandled 500 on the redirect miss path, with the cache entry already set, and a caught failure with nothing persisted in the recorder. The model does not capture that overflow, so `ForwardCountsClick` and `RecordCountsOnce` always raise the counter by one.
- QR image rendering with `qrcode` and `BytesIO` (`src/main.py:155-172`). This is a foreign library. `QrLink` models the lookup and the string that would be encoded.
- Pydantic validation and normalisation (`src/schemas.py`), for example `HttpUrl` adding a trailing "/". `target_url` is taken as the already-normalised string.
- Response serialisation beyond the admin page's validation failure. `UrlInfo.clickEvents` holds the click rows themselves; `AdminResponse` models only that a non-empty list fails the `ClickInfo` schema (`src/schemas.py:14-17`).
- Random key generation. `src/keygen` is not part of this model; its results are inputs to `POST /url`.
- Background-task scheduling and concurrency (`src/main.py:101-107`).
  - Tasks are queued and run later by an explicit call, in queue order.
  - Interleavings of concurrent requests are not modelled.
- Real time. Expiry uses an explicit integer clock that the caller supplies.
- Service.Service.CountRequest: runs GET, INCR and EXPIRE at the one `now` of the request, so it does not show the lost expiry; `CallsAsWritten` and the Findings row do.
- Surrogate `id` columns. A record's position in the table stands for its `id`.
- Parsing the stored counter with `int(str(...))`. Only INCR writes the counter, so it is modelled as an integer.
- Failures inside `record_click_stats` before the commit. The model treats any such exception like a failed commit: nothing persists.
- `tests/load_test.py`: a load script against a live server.
- Geolocation. Neither `analytics.py` nor any other core file performs it.
- RateLimit.Decisions: its own contract only states that it gives one decision per request. What the decisions are is stated by `WithinWindow` and `FixedWindowBudget`.
- Api.DeferredCountMatchesDirect: stated only for requests that carry a client address. Without one, the cache-hit path records "127.0.0.1" while the table path records "Unknown", so the two paths disagree.

## Findings

| source | as written | input that shows it | evidently intended | confidence | as-written member | corrected member |
|---|---|---|---|---|---|---|
| src/main.py:56-67 | EXPIRE runs only when the earlier GET saw no counter; GET, INCR and EXPIRE are separate round trips | a counter at 3 expiring at t=60, GET at t=59, INCR at t=60: INCR recreates it as 1 with no expiry and EXPIRE is skipped, so after four more creations the address is refused for good | every counter carries an expiry: a window a request opens closes 60 seconds after its EXPIRE, and a later request keeps that expiry, so no address is refused for good | high, not executed | RateLimit.CallsAsWrittenCanLoseExpiry | RateLimit.CallsIntendedKeepCountersBounded |
| src/main.py:175-190 | the handler returns the row through `response_model=schemas.URLInfo`, whose `ClickInfo` items require `country` and `city` (`src/schemas.py:14-17`), columns `Click` lacks | one redirect to a record, then `GET /admin/<its secret key>`: the response fails validation and the client gets 500 | the admin page lists the record's click events | medium, not executed | Api.AdminServedOnlyBeforeFirstClick | Api.AdminView |

The model uses the corrected behaviour: `Admit`, which `CallsAgreeAtOneInstant` ties to the intended calls, and `AdminView` as the admin result.
