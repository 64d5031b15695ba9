# SafeShe backend core, in Dafny

This project models the core of the SafeShe backend, a FastAPI service for
location sharing and incident reports, and proves properties of the model.
It covers five parts:

- **The live-tracking connection registry**, `ConnectionManager`
  (`registry.dfy`). It is a class with the map `active` from user id to that
  user's list of viewer connections. Its three methods `Connect`,
  `Disconnect` and `Broadcast` are proved against the pure functions
  `Attach`, `Detach` and `AfterBroadcast`. `Broadcast` keeps the source's two
  loops: the send loop collects the failing connections, and the second loop
  disconnects them. A ghost log `sends` records every attempted send and
  whether it went through.
- **The data model** of `schemas.py` (`schemas.dfy`). Each pydantic model is a
  table of field declarations. `Validate` checks a request body against a
  table: it returns the model's dump, or every field that failed. For
  `Guardian`, `Trackpoint`, `Incident` and `Areaalert`, a hand-written
  validity predicate lists the model's range constraints, and it is proved
  equivalent to conformance with the table. `User` has no such predicate:
  every field has a default, and its lemmas state those defaults instead.
- **Mock login** (`auth.dfy`). Covers the provider check, the defaults and
  the stored `User`.
- **Location tracking and listings** (`tracking.dfy`). Covers:
  - the stored record and the live payload of `POST /location/update`;
  - the newest-first selection of `GET /location/last`;
  - the filter and ordering of `GET /incidents`.

  Python's `list.sort(..., reverse=True)` is stable, so it is modelled as a
  stable insertion sort. Two lemmas state it: `NewestFirstSortsPermutes` proves the result sorted
  and a permutation of the input, and `NewestFirstStable` proves that items
  with equal `created_at` keep their order.
- **The values** (`documents.dfy`): JSON-like values and records, and the
  document store. The store is reduced to an insert that hands back a fresh
  id. `json.dumps` is reduced to the predicate `Encodable`: a `datetime` or an
  `ObjectId` inside a value makes it raise.

Inputs the service takes from its environment become parameters:

- The clock (`datetime.now`) is a `now: Time` argument.
- Whether a socket's send raises is a `dead: set<Socket>` argument.
- The store's `get_documents` is a function argument `fetch` from a `Query` to the records it returns.

## Model

| member | source | states |
|---|---|---|
| Registry.ConnectionManager.constructor | main.py:175-176 | the registry starts with no users |
| Registry.ConnectionManager.Connect | main.py:178-180 | the new registry is `Attach` of the old one; no entry is ever empty afterwards |
| Registry.Lookup | main.py:183 | `active.get(u, [])`, also used at main.py:190; a user with no entry has no connections, see `BroadcastToUnwatched` and `DetachRemovesOne` |
| Registry.Attach | main.py:180 | `active.setdefault(u, []).append(ws)` on the registry map; its properties are those of `AttachAppends` |
| Registry.AttachAppends | main.py:180 | `connect` puts the connection at the end of the user's list, creating the entry if absent; every other user's entry is unchanged; no empty entry appears |
| Registry.ConnectionManager.Disconnect | main.py:182-187 | the new registry is `Detach` of the old one; no entry is ever empty afterwards |
| Registry.DetachRemovesOne | main.py:182-187 | `disconnect` removes exactly the first occurrence of the connection; it drops the user's key iff the list runs empty; other users are unchanged; it is a no-op when the connection or the user is absent, and never inserts a key |
| Registry.Detach | main.py:182-187 | `disconnect` on the registry map; its properties are those of `DetachRemovesOne` |
| Registry.RemoveFirst | main.py:185 | `list.remove` leaves a list without the element unchanged, and otherwise shortens it by one |
| Registry.RemoveFirstSplices | main.py:185 | `list.remove` cuts out exactly the first occurrence |
| Registry.RemoveFirstMultiset | main.py:185 | `list.remove` takes away one copy of the element and nothing else |
| Registry.ConnectionManager.Broadcast | main.py:189-198 | it attempts one send per listed connection, in list order; a send fails exactly on the failing connections; the new registry is `AfterBroadcast` on those failures |
| Registry.Failing | main.py:193-196 | the connections whose send raises: the dead ones, or all of them when `json.dumps` refuses the message; see `UnencodableReachesNobody` and `EncodableFailsOnDead` |
| Registry.AfterBroadcast | main.py:189-198 | the registry after a broadcast; its properties are those of `BroadcastPrunesStale` and `PruningIsAfterBroadcast` |
| Registry.BroadcastPrunesStale | main.py:189-198 | after a broadcast the user's list is its healthy connections, in their old order; no failing connection remains; the key is gone iff nothing healthy is left; other users are unchanged; no empty entry appears |
| Registry.BroadcastToUnwatched | main.py:190 | a broadcast to a user with no entry sends nothing and inserts no key |
| Registry.DeliveredOncePerOccurrence | main.py:192-196 | a healthy connection gets the message once per occurrence in the list; a failing one gets one failed attempt per occurrence; only listed, healthy connections get a successful send |
| Registry.FiltersPartition | main.py:192-196 | the send loop splits the list into healthy and stale connections, keeping each connection's multiplicity |
| Registry.PruningIsAfterBroadcast | main.py:197-198 | disconnecting the collected stale list one by one, after the send loop, gives exactly `AfterBroadcast` |
| Registry.PruneProgress | main.py:197-198 | after the first k stale connections are disconnected, the healthy part is untouched and the rest of the stale list remains |
| Registry.DetachFirstStale | main.py:197-198 | one pruning step removes the first failing connection and leaves the healthy part alone |
| Registry.RemoveFirstStale | main.py:185 | removing the first failing connection keeps the healthy part and drops the head of the stale part |
| Registry.PruningDone | main.py:197-198 | a registry whose user list has no stale connection left, with every other user unchanged, is the broadcast's result |
| Registry.NoStaleMeansHealthy | main.py:192-196 | with no failed send, the healthy part is the whole list |
| Registry.AllFailing | main.py:193-196 | when every send raises, no attempt succeeds and nothing stays healthy |
| Registry.UnencodableReachesNobody | main.py:193-198 | a message `json.dumps` rejects reaches none of the user's viewers, and the broadcast disconnects all of them |
| Registry.EncodableFailsOnDead | main.py:193-196 | an encodable message fails exactly on the dead connections |
| Registry.FiltersAppend | main.py:192-196 | the send loop's outcome on a concatenation is the concatenation of its outcomes |
| Registry.ConnectThenDisconnect | main.py:178-187 | a viewer session that connects a new connection and then disconnects it leaves the registry as it was |
| Registry.AttachAllAppends | main.py:178-180 | a series of connects appends the connections in order and touches no other user |
| Registry.DetachAllRemoves | main.py:182-187 | a series of disconnects of listed connections removes exactly those copies |
| Registry.DetachAllKeepsOthers | main.py:182-187 | a series of disconnects touches no other user and leaves no empty entry |
| Registry.AllClosedLeavesNoEntry | main.py:176-187 | once every connection opened on an unwatched user is closed, in any order, the registry is back to what it was: no empty entry is left behind |
| Documents.DocumentStore.Create | main.py:109 | an insert keeps the store's ids consecutive, returns an id not used before, and appends the document |
| Schemas.Validate | schemas.py:12-56 | a body validates iff every declared field validates; the dump has exactly the declared fields, each with its checked value |
| Schemas.CheckField | schemas.py:12-56 | one field declaration checked against a body: the value sent, or the default when absent, or an error; its properties are those of `RequiredFieldPresent` and `AbsentFieldDefaults` |
| Schemas.ValidateReportsEveryFailure | schemas.py:12-56 | every failing field is reported |
| Schemas.ValidateReportsOnlyFailures | schemas.py:12-56 | every reported error comes from a failing field |
| Schemas.ValidatedConforms | schemas.py:12-56 | what validation returns is a valid model |
| Schemas.ConformingRevalidates | schemas.py:12-56 | validating a valid model's dump gives it back unchanged |
| Schemas.RequiredFieldPresent | schemas.py:22-23 | a field with no default must be in the body, with an acceptable value |
| Schemas.AbsentFieldDefaults | schemas.py:46 | a field left out takes its default |
| Schemas.UserWellFormed | schemas.py:12-18 | `User`'s field names are distinct and its defaults are acceptable values |
| Schemas.GuardianWellFormed | schemas.py:21-26 | `Guardian`'s field names are distinct and its defaults acceptable |
| Schemas.TrackpointWellFormed | schemas.py:29-37 | `Trackpoint`'s field names are distinct and its defaults acceptable |
| Schemas.IncidentWellFormed | schemas.py:40-47 | `Incident`'s field names are distinct and its defaults acceptable |
| Schemas.AreaalertWellFormed | schemas.py:50-56 | `Areaalert`'s field names are distinct and its defaults acceptable |
| Schemas.TrackpointNames | schemas.py:30-37 | a `Trackpoint` has exactly the fields user_id, lat, lng, accuracy, speed, heading, battery and ts |
| Schemas.TrackpointConforms | schemas.py:29-37 | a record meeting the Trackpoint constraints is a valid `Trackpoint` |
| Schemas.ConformingTrackpointValid | schemas.py:29-37 | a valid `Trackpoint` has user_id a string; lat in [-90, 90] and lng in [-180, 180], both required; accuracy and speed at least 0, heading in [0, 360] and battery in [0, 100], each only when present; ts null or a datetime |
| Schemas.TrackpointValidity | schemas.py:29-37 | both directions of the two lemmas above |
| Schemas.IncidentNames | schemas.py:41-47 | an `Incident` has exactly its seven declared fields |
| Schemas.IncidentConforms | schemas.py:40-47 | a record meeting the Incident constraints is a valid `Incident` |
| Schemas.ConformingIncidentValid | schemas.py:40-47 | a valid `Incident` has user_id and type strings; lat and lng range-checked only when present; media_urls a list of strings; severity, when present, an integer in 1..5 |
| Schemas.IncidentValidity | schemas.py:40-47 | both directions |
| Schemas.AreaalertNames | schemas.py:51-56 | an `Areaalert` has exactly its six declared fields |
| Schemas.AreaalertConforms | schemas.py:50-56 | a record meeting the Areaalert constraints is a valid `Areaalert` |
| Schemas.ConformingAreaalertValid | schemas.py:50-56 | a valid `Areaalert` has lat and lng required and in range, and radius_m an integer in 50..20000 |
| Schemas.AreaalertValidity | schemas.py:50-56 | both directions |
| Schemas.GuardianNames | schemas.py:22-26 | a `Guardian` has exactly its five declared fields |
| Schemas.GuardianConforms | schemas.py:21-26 | a record meeting the Guardian constraints is a valid `Guardian` |
| Schemas.ConformingGuardianValid | schemas.py:21-26 | a valid `Guardian` has user_id and name strings and the other fields null or strings |
| Schemas.GuardianValidity | schemas.py:21-26 | both directions |
| Schemas.UserIdRequired | schemas.py:22 | `Guardian`, `Trackpoint` and `Incident` all reject a body without a string `user_id` |
| Schemas.MediaUrlsDefaultEmpty | schemas.py:46 | an `Incident` sent without media_urls gets the empty list |
| Schemas.UserFieldsDefault | schemas.py:13-18 | every `User` field has a default |
| Schemas.UserNullDefaults | schemas.py:13-18 | every `User` field but is_active defaults to null; is_active defaults to true |
| Schemas.UserDefaultsFromNothing | schemas.py:13-18 | a `User` built with no arguments is valid, is active, and has every other field null |
| Schemas.UserNames | schemas.py:13-18 | a `User` has exactly its six declared fields |
| Auth.AdvertisedIsSupported | main.py:69 | the providers `mock-login` accepts are exactly the ones `/auth/providers` lists |
| Auth.Lower | main.py:74 | `str.lower` on the provider; see `LowerIdempotent` and `LowerHasNoCapital` |
| Auth.LowerIdempotent | main.py:74 | lower-casing twice is lower-casing once |
| Auth.LowerHasNoCapital | main.py:74 | a lower-cased provider has no capital ASCII letter |
| Auth.ProviderCaseInsensitive | main.py:74-75 | the login outcome does not depend on the provider's letter case |
| Auth.UserArguments | main.py:78-84 | the keyword arguments of `User(...)`; see `ArgumentsAccepted`, `ArgumentChecks` and `MoreArgumentChecks` |
| Auth.ArgumentsAccepted | main.py:78-84 | `User(...)` accepts every argument `mock-login` passes it |
| Auth.ArgumentChecks | main.py:79-81 | the name and email fall back to "SafeShe User" and "user-<provider>@safeshe.app" when missing or empty; the provider is the lower-cased one |
| Auth.MoreArgumentChecks | main.py:82-84 | the provider id falls back to "mock-token"; the photo is kept as sent; is_active takes its default, true |
| Auth.MockLogin | main.py:73-84 | the user `mock-login` stores, or its error; its properties are those of `MockLoginAccepts`, `MockLoginUser` and `ProviderCaseInsensitive` |
| Auth.MockLoginAccepts | main.py:74-84 | login fails iff the lower-cased provider is not supported, and then with "Unsupported provider" |
| Auth.MockLoginUser | main.py:74-84 | the stored user has exactly the six `User` fields: the given name, email and token unless missing or empty, else their defaults; the lower-cased provider; the photo as sent; is_active true |
| Auth.MockLoginUserConforms | main.py:78-84 | the stored user is a valid `User` |
| Auth.MockDefaults | main.py:74-84 | a login with only a provider that lower-cases to "mock" succeeds with every default |
| Auth.MockLoginEndpoint | main.py:72-86 | on a rejected provider nothing is stored and the error is returned; otherwise one `user` document is inserted under a fresh id, and the answer carries that id and the lower-cased provider |
| Tracking.CreatedAt | main.py:123 | the sort key `x.get("created_at", datetime.min)`; see `NewestFirstSortsPermutes` and `SerializeKeepsKey` |
| Tracking.Serialize | main.py:126 | `x["_id"] = str(x["_id"])`, also at main.py:142; see `SerializeKeepsKey` |
| Tracking.SerializeKeepsKey | main.py:126 | making the id a string changes only `_id`, and not the sort key |
| Tracking.NewestFirst | main.py:123 | `sort(key=created_at, reverse=True)`; its properties are those of `NewestFirstSortsPermutes` and `NewestFirstStable` |
| Tracking.InsertPermutes | main.py:123 | one insertion step of the sort adds exactly the item |
| Tracking.InsertSorted | main.py:123 | one insertion step keeps the list newest first |
| Tracking.NewestFirstSortsPermutes | main.py:123 | the sort orders by created_at, newest first, with a missing value as the minimum, and keeps every item |
| Tracking.InsertKeepsTies | main.py:123 | one insertion step keeps the order of items with equal created_at |
| Tracking.CreatedAtTimeAppend | main.py:123 | picking the items created at one time distributes over concatenation |
| Tracking.NewestFirstStable | main.py:123 | the sort is stable: items with equal created_at keep the store's order |
| Tracking.FirstNewest | main.py:123-124 | the index of the first item whose created_at no other item exceeds |
| Tracking.NewestFirstHead | main.py:123-124 | the head of the sorted list is the first of the newest items |
| Tracking.LocationLast | main.py:119-127 | `GET /location/last` on what the store returns for `LastQuery`; its properties are those of `LocationLastIsNewest` |
| Tracking.LocationLastIsNewest | main.py:121-127 | `latest` is none iff the query `LastQuery(user_id)` returned nothing; otherwise it is the first of the newest items with its id made a string, and no item is newer |
| Tracking.IncidentFilter | main.py:139 | the filter `{"user_id": user_id} if user_id else {}`; see `IncidentFilterOnlyWhenGiven` |
| Tracking.IncidentFilterOnlyWhenGiven | main.py:139 | the incident filter is empty iff user_id is missing or empty; otherwise it is exactly `{user_id}` |
| Tracking.SerializeAll | main.py:141-142 | every incident's id is made a string, and nothing else changes |
| Tracking.ListIncidents | main.py:137-145 | `GET /incidents` on what the store returns for `IncidentsQuery`; its properties are those of `ListIncidentsNewestFirst` |
| Tracking.ListIncidentsNewestFirst | main.py:139-145 | the listing holds every incident returned for `IncidentsQuery(user_id, limit)`, newest first, with equal created_at kept in store order |
| Tracking.Persisted | main.py:107-108 | the stored record; see `PersistedKeepsPoint` |
| Tracking.PersistedKeepsPoint | main.py:107-109 | the stored trackpoint is the whole point, nulls included, plus server_ts |
| Tracking.NonNull | main.py:112 | the comprehension keeping the non-null fields of the point; see `PayloadFields` |
| Tracking.TrackMessage | main.py:111 | the message `{"type": "track", "data": payload}`; see `PayloadEncodableIff` |
| Tracking.Payload | main.py:111-115 | the live payload as written; see `PayloadFields` and `TimestampedPayloadUnencodable` |
| Tracking.PayloadFields | main.py:111-115 | the live payload holds exactly the point's non-null fields, `_id` set to the new id, and server_ts; it holds no null |
| Tracking.TimestampedPayloadUnencodable | main.py:111-115 | a point with a client ts gives a payload `json.dumps` refuses |
| Tracking.TimestampedPointDropsViewers | main.py:111-115 | as written, such a point reaches none of the user's viewers, and they are all disconnected |
| Tracking.UntimedPayloadEncodable | main.py:111-115 | a point sent without ts gives a message `json.dumps` accepts |
| Tracking.PayloadEncodableIff | main.py:111-115 | as written, the message can be encoded iff the point has no ts |
| Tracking.UntimedPointReachesViewers | main.py:111-115 | as written, for a point without ts a send fails exactly on the dead connections; every live viewer gets the message once per time it is listed, and only the dead ones are pruned |
| Tracking.PointFieldsEncodable | schemas.py:29-37 | every field of a valid point is encodable once a datetime is written as text |
| Tracking.EncodedPayload | main.py:111-115 | the corrected payload, with a datetime written as its ISO string; see `EncodedPayloadEncodable` and `EncodedPayloadMatches` |
| Tracking.EncodedPayloadEncodable | main.py:111-115 | the payload with ts written as an ISO string is always encodable |
| Tracking.EncodedPayloadMatches | main.py:111-115 | that payload differs from the one built only in how a datetime is written |
| Tracking.LocationUpdate | main.py:105-116 | as written: the point is stored with the server time under a fresh id; the track message built from `Payload` goes to the viewers of `point.user_id`; a send fails on a dead connection, or on every connection when `json.dumps` refuses the message; the failing ones are pruned; the answer is `{"trackpoint_id": id}` |
| Tracking.LocationUpdateCorrected | main.py:105-116 | the corrected endpoint: the same store and answer, with the encodable payload, so a send fails exactly on the dead connections |

## Left out

- The FastAPI application, CORS middleware, and the `/`, `/health` and `/schema` endpoints are framework plumbing. The `uvicorn` entry point is too.
- The `database` module is not part of this model. `create_document` is an insert that returns a fresh id, and the model assumes it returns the id as a string. `get_documents` is the argument `fetch`, applied to the `Query` each endpoint builds (`Tracking.LastQuery`, `Tracking.IncidentsQuery`). Which documents it returns for a filter and a `limit`, and in what order, is up to the store, so nothing is assumed about it beyond `Tracking.Stored`. Fields the store may add, such as `created_at`, come in with the returned documents.
- `POST /guardians`, `GET /guardians` and `POST /incidents` pass a validated model to the store, or list the store's documents, with no logic beyond `Validate` and `Serialize`.
- `nearby_alerts` returns hard-coded samples built by floating-point offsets.
- The websocket endpoint (main.py:208-227) is network I/O. This includes the handshake (`accept`), the receive loop and the initial "last" push. Only its use of the registry is modelled: `connect` on open, `disconnect` on close (`Registry.ConnectThenDisconnect`, `Registry.AllClosedLeavesNoEntry`).
- Concurrency between handlers is left out. In the source, `broadcast` suspends at every `await ws.send_text` (main.py:194). While it is suspended, the websocket handler can `connect` or `disconnect` (main.py:180, main.py:227) and change the very list `broadcast` is iterating, so the loop may skip a recipient or reach a newly added one. The model runs each registry method to completion and does not capture that interleaving.
- `json.dumps`, `isoformat` and `datetime.now` are library calls:
  - `json.dumps` is reduced to the predicate `Encodable`;
  - a timestamp is an opaque `Time`, and its ISO text is `IsoText`;
  - the clock is an argument.
- `EmailStr` and `HttpUrl` format checks are pydantic internals; those fields are plain strings here. Because of this, `Auth.MockLogin` never returns the `InvalidUser` error, which a malformed email or photo URL would cause in the source; `Auth.MockLoginAccepts` states that the provider check is its only rejection.
- Auth.Lower: lower-cases `A`-`Z` and the Kelvin sign, the only characters whose lower case is a single ASCII letter. Which providers are accepted, and the stored provider, are therefore exact. Other non-ASCII characters are kept as they are; they only ever appear on the rejection path.
- Schemas.HasKind: of pydantic's lax coercions, only an integral float for an `int` field is modelled. Coercions from strings to numbers or datetimes are not.
- Floating-point numbers are real numbers; only their bounds matter here.
- A `user_id` of `""` is accepted, as the plain `str` fields in schemas.py accept it.
- The registry compares connections by identity (`Socket`), like Python's `WebSocket` objects. The connection list is a value in the map rather than a shared mutable list. In the source, `broadcast`'s local `conns` is that same list object, which `disconnect` mutates; the model takes a copy when the broadcast starts, which differs only under the interleaving described above.

## Findings

| source | as written | input that shows it | evidently intended | confidence | as-written member | corrected member |
|---|---|---|---|---|---|---|
| main.py:111-115 | The live payload keeps a client `ts` as a `datetime`. `json.dumps(message)` in `broadcast` then raises `TypeError` inside the `try`, so every viewer is marked stale and disconnected, and none receives the point. | a Trackpoint posted with `"ts": "2024-05-01T10:00:00Z"` while one viewer is connected for its user_id; pydantic parses that string into a `datetime`, and the model starts from the validated point, where `ts` is a `DateTime` | `ts` sent as an ISO string, as `server_ts` already is (main.py:219 passes `default=str` for the same reason) | not executed; high | Tracking.TimestampedPointDropsViewers | Tracking.EncodedPayloadEncodable |
