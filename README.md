# Monetag ad-event tracker: a Dafny model of the server core

This project models the server side of a small ad-event tracker in Dafny and proves
properties of the model. The ad network (Monetag) calls a webhook for every impression or
click. The server stores each event in a relational store. A mini app registers short-lived
"ad sessions" tying a user to an ad zone. Dashboards read listings and aggregate counts
through tRPC procedures.

The model has one module per file:

- `wrappers.dfy` — `Option` and `Result`.
- `jsvalues.dfy` — the JavaScript values the handlers see: truthiness, `String(v)`, `v ? String(v) : null`, and query-string and JSON-body lookup.
- `sorting.dfy` — `WHERE`, stable `ORDER BY` and `LIMIT` as functions on sequences of rows.
- `schema.dfy` — the three row types of `drizzle/schema.ts`: the event-kind and role enums, nullable columns, varchar bounds, the `isActive` default and id bounds.
- `rawdata.dfy` — `JSON.stringify` of a flat query object, with a reader that proves the snapshot loses nothing.
- `db.dfy` — the lazily cached store handle (a `Connection` class) and the store itself (a `Store` class over three sequences of rows). It holds the inserts, listings and aggregate counts, the zone status update, and the `upsertUser` record building.
- `postback.dfy` — the `/monetag/postback` decision chain (ignore, reject or record) and the handler that appends the event.
- `sessions.dfy` — the ad-session table (a `SessionTable` class) with `start`, `active` and `cleanup`.
- `stats.dfy` — the per-e-mail stats handler. It includes a model of `parseFloat` on exact reals, the revenue fold and `toFixed(4)`.
- `routers.dfy` — the tRPC procedures: zod-style input validation, `|| null` mapping and forwarding to the store.

## Modelling choices

- **Time.** Times are integers in milliseconds. Every `Date.now()` / `new Date()` becomes a `now` parameter.
- **Randomness.** The random part of a session token is a `suffix` parameter.
- **Store handle.** A `Store` has an `available` flag that says whether `getDb()` yields a handle. The handle cache itself is modelled on its own by `Db.Connection`; nothing links a `Connection` to a `Store`'s flag.
- **Store failures.** A write is refused in these cases (`Db.DbError`):
  - there is no handle;
  - a value is longer than its varchar column (strict SQL mode);
  - a unique key would repeat;
  - the auto-increment id would leave the signed 32-bit range.
- **Ordering ties.** `ORDER BY` is a stable sort, so rows with equal keys keep table order. This breaks ties in one of the ways MySQL may; MySQL itself promises no order among rows with equal `createdAt`. The store functions (`Db.Store.EventsByTelegramId`, `Db.Store.EventsByZone`, `Db.Store.AllEvents`) return this one listing. The router procedures promise only what holds for every tie order (`Db.NewestListing`).
- **Requests.** A query string is an ordered list of name/value pairs, and `req.query[k]` is the first value with that name. A JSON body or RPC input is a list of members with JavaScript values.
- **`onUpdateNow`.** `updatedAt` moves only when an `UPDATE` actually changes a row.
- **Unseen symbols.** The `adSessions` table is not part of `drizzle/schema.ts`. Its rows are modelled with the columns `server/sessions.ts` reads and writes, and `createdAt` is the insertion time. `getAdEventsByEmail` is not part of this model: the stats handler receives the fetched events, or the fetch failure, as a parameter.

Behaviour of the handlers as modelled:

- **Sessions are not consulted.** Neither postback handler reads the session table, and the `ymid` and `request_var` parameters are not read.
- **One chain for both methods.** POST and GET run the same chain, and both read `req.query`.
- **Macro check first, as corrected.** `Postback.Handle` uses the corrected decision `Postback.Decide`: the literal-macro check comes before validation, so a payload with both literal macros and no `event_type` is answered 200 "Ignored". As written, that payload gets 500 (`Postback.DecideAsWritten`; see Findings).
- **Active lookup, as corrected.** `Sessions.SessionTable.Active` uses the corrected lookup `Sessions.MostRecentActive`. As written, `active` reads the *oldest* ten rows of the zone (`Sessions.ActiveAsWritten`; see Findings).

## Model

| member | source | states |
|---|---|---|
| `Schema.ParseEventType` | drizzle/schema.ts:46 | only the names `impression` and `click` are event kinds, and each reads back to its own name |
| `Schema.EventTypeNameRoundTrip` | drizzle/schema.ts:46 | each event kind's stored name parses back to that kind |
| `Schema.StoredAdEvent` | drizzle/schema.ts:42-71 | an inserted event keeps every supplied column, gets the assigned id and `createdAt = now`, and the supplied values can be recovered from the row |
| `Schema.StoredAdZone` | drizzle/schema.ts:28-36 | an inserted zone keeps its columns, `isActive` defaults to true, and both timestamps are `now` |
| `JsValues.NullIfFalsy` | server/postback.ts:61-77 | `v ? String(v) : null` is NULL exactly for falsy values, is never the empty string, and passes a non-empty string through |
| `JsValues.QueryParam` | server/postback.ts:22-31 | `req.query[k]` is undefined exactly when no parameter has that name, and otherwise is a value that arrived under that name |
| `JsValues.NatToStringRoundTrip` | server/sessions.ts:38 | the decimal numeral of a timestamp reads back as that timestamp |
| `RawData.SerializeRoundTrip` | server/postback.ts:78 | the `rawData` snapshot of a query parses back to the same query, with names, values and order intact |
| `RawData.SerializeInjective` | server/postback.ts:154 | two different queries never produce the same `rawData` snapshot |
| `Sorting.SortBy` | server/db.ts:112 | `ORDER BY` yields a permutation of the rows in non-decreasing key order |
| `Sorting.TakeSortedKeepsSmallest` | server/db.ts:112-113 | `ORDER BY … LIMIT n` returns a sub-multiset of the rows, and every row left out has a key no smaller than any row returned |
| `Sorting.FilterIdempotent` | server/sessions.ts:138 | applying the same `WHERE` twice selects what applying it once does |
| `Db.Connection.GetDb` | server/db.ts:8-18 | a cached handle is returned unchanged forever; without one, a handle is created only from a non-empty `DATABASE_URL` whose connection succeeds, and the call returns what is cached afterwards |
| `Db.NewestFirst` | server/db.ts:108-113 | a listing returns `min(limit, matching)` rows, all among the matching ones, in non-increasing `createdAt` order |
| `Db.OfTelegramId` | server/db.ts:111 | `WHERE telegramId = ?` keeps only rows of the table carrying that `telegramId` |
| `Db.OfZone` | server/db.ts:125 | `WHERE zoneId = ?` keeps only rows of the table from that zone |
| `Db.NewestFirstKeepsNewest` | server/db.ts:136-140 | a limited listing keeps the newest rows: no row left out is newer than a row returned |
| `Db.NewestFirstComplete` | server/db.ts:174-183 | a listing whose limit covers all matching rows returns every one of them |
| `Db.NewestFirstIsListing` | server/db.ts:108-113 | the model's listing meets what `ORDER BY createdAt DESC LIMIT n` promises under any tie order: `min(n, matching)` rows, from the matching ones, newest first, no row left out newer than one returned |
| `Db.Store.CreateAdEvent` | server/db.ts:92-100 | the insert succeeds exactly when there is a handle, the row fits its columns and an id is left, and then appends one row with a fresh id larger than every earlier one; otherwise it fails with the first applicable error (no handle first) and writes nothing |
| `Db.Store.EventsByTelegramId` | server/db.ts:102-114 | without a handle the result is empty; otherwise it is the newest-first listing of the rows with that `telegramId`, at most `limit` of them |
| `Db.Store.EventsByZone` | server/db.ts:116-128 | without a handle the result is empty; otherwise it is the newest-first listing of the rows of that zone, at most `limit` of them |
| `Db.Store.AllEvents` | server/db.ts:130-141 | without a handle the result is empty; otherwise it has exactly `min(limit, rows)` rows, newest first |
| `Db.Store.EventsByDateRange` | server/db.ts:168-184 | the result holds exactly the rows with `start <= createdAt <= end`, each as often as in the table, newest first, with no limit; empty without a handle |
| `Db.Store.Stats` | server/db.ts:143-166 | all zeros without a handle; otherwise the impression count, the click count and the number of distinct non-null `telegramId`s |
| `Db.StatsBounds` | server/db.ts:153-159 | impressions plus clicks is the number of events, and there are no more distinct users than events |
| `Db.StatsAppend` | server/db.ts:155-157 | recording one event moves the counter of its kind by one and the user count by one exactly when its `telegramId` is new |
| `Db.TelegramIdsBound` | server/db.ts:157 | the distinct non-null `telegramId`s are never more than the events |
| `Db.StatsExample` | server/db.ts:153-165 | an empty table gives (0, 0, 0); one impression and one click from two users give (1, 1, 2) |
| `Db.Store.CreateAdZone` | server/db.ts:187-195 | the insert succeeds exactly when there is a handle, the row fits, its `zoneId` is new and an id is left, and then appends the row with `isActive` defaulted; otherwise nothing is written |
| `Db.Store.ZoneByZoneId` | server/db.ts:197-210 | undefined without a handle; otherwise the row with that `zoneId`, or undefined exactly when there is none |
| `Db.Store.ZoneLookupUnique` | server/db.ts:203-209 | since `zoneId` is unique, the lookup returns the one row that has it |
| `Db.Store.AllZones` | server/db.ts:212-219 | every zone row, each once, newest first; empty without a handle |
| `Db.WithStatus` | server/db.ts:227-230 | `SET isActive WHERE zoneId = ?` changes only rows of that zone, only `isActive` and `updatedAt`, and a row already in the requested state stays as it was |
| `Db.WithStatusIdempotent` | server/db.ts:227-230 | setting the same status twice leaves the zones as the first update left them |
| `Db.Store.UpdateAdZoneStatus` | server/db.ts:221-231 | fails with "Database not available" and writes nothing without a handle; otherwise the zone table becomes `WithStatus` of the old one |
| `Db.BuildUpsert` | server/db.ts:31-68 | `openId` is inserted but never updated; each text field enters `values` and `updateSet` exactly when it is not undefined, with NULL kept; the given role, or admin for the owner, enters both; `values.lastSignedIn` is always set; `updateSet` is never empty |
| `Db.InsertedIsUpserted` | server/db.ts:70-72 | a new row built from the plan carries the supplied fields, defaults for the rest, and `lastSignedIn = now` when none is given |
| `Db.UpdatedIsUpserted` | server/db.ts:70-72 | an existing row updated from the plan keeps its id and `createdAt`, takes every defined field, keeps every undefined one, and moves `lastSignedIn` to now only when nothing else is updated |
| `Db.UpsertedRow` | server/db.ts:31-72 | the row an upsert leaves is the inserted or updated row the plan promises, keeps the supplied `openId`, and keeps the prior id when a row existed |
| `Db.UpdatedUser` | drizzle/schema.ts:20 | an update keeps the id, `openId` and `createdAt`, and moves `updatedAt` to now exactly when some column changed |
| `Db.Store.UpsertUser` | server/db.ts:20-77 | a missing `openId` fails; no handle is a silent no-op; otherwise the user with that `openId` is updated in place, or a new one is appended, leaving all other rows alone |
| `Db.Store.UserByOpenId` | server/db.ts:79-89 | undefined without a handle; otherwise the row with that `openId`, or undefined exactly when there is none |
| `Postback.EventRow` | server/postback.ts:60-79 | the built row takes its kind and zone from the query, `sub_id` as both `telegramId` and `subId`, each optional parameter or NULL when falsy, the user agent only when non-empty, the serialized query as `rawData`, and NULL for `eventId`, `userId` and `subId2` |
| `Postback.Decide` | server/postback.ts:35-58 | the payload is ignored exactly when both correlation parameters are literal macros; otherwise it is rejected as missing exactly when `event_type` or `zone_id` is falsy, rejected as invalid exactly when `event_type` is neither name, and accepted with the kind and zone the query gives |
| `Postback.AcceptedRowReflectsQuery` | server/postback.ts:67-79 | an accepted row's `rawData` reads back to the very query, and its kind and zone agree with that snapshot |
| `Postback.Respond` | server/postback.ts:83-92 | 200 with success for ignored and recorded payloads, 400 exactly for rejected ones, 500 exactly when an accepted row is not stored |
| `Postback.Handle` | server/postback.ts:20-94 | the webhook appends exactly the decided row when the store takes it, and changes nothing otherwise; it answers as `Respond` says |
| `Postback.DecideAsWritten` | server/postback.ts:36 | as written, the handler throws exactly when `sub_id` is the literal macro and otherwise decides as `Decide` |
| `Postback.LiteralMacrosThrowAsWritten` | server/postback.ts:36-42 | the payload with both literal macros is answered 500 as written, where 200 "Ignored" is meant |
| `Postback.AsWrittenAgreesElsewhere` | server/postback.ts:115-121 | away from a literal `sub_id` the as-written handlers answer exactly as the model |
| `Sessions.Token` | server/sessions.ts:38 | the token starts with `session_`, followed by digits that read back as the creation time and then `_` |
| `Sessions.NewSession` | server/sessions.ts:41-50 | the inserted row has the three fields as strings, the token, `createdAt = now` and `expiresAt = now + 300000` |
| `Sessions.SessionTable.Start` | server/sessions.ts:21-65 | a falsy field gives 400 and inserts nothing; without a store, 500 and nothing; otherwise exactly one row is appended and its token returned, and every row keeps `expiresAt = createdAt + 5 min` |
| `Sessions.ZoneRows` | server/sessions.ts:89-93 | the zone's rows, all of them and only them, in ascending creation order |
| `Sessions.LastLive` | server/sessions.ts:97-107 | among the rows strictly before expiry, the one created last, or none exactly when no row is live |
| `Sessions.ActiveAsWritten` | server/sessions.ts:87-107 | as written, the answer is a live row of the ten-row page (the zone's ten oldest rows), created no earlier than any other live row of the page, and is none exactly when every row of the page is expired |
| `Sessions.MostRecentActive` | server/sessions.ts:87-88 | the intended lookup: a live row of the zone created no earlier than any other live row of the zone, or none exactly when the zone has no live row |
| `Sessions.SessionTable.Active` | server/sessions.ts:71-124 | a falsy `zoneId` gives 400, no store 500; otherwise 404 "No active session found" or the found session's user, e-mail and zone, the zone being the queried one |
| `Sessions.SmallZoneAgrees` | server/sessions.ts:89-107 | while a zone has at most ten rows the as-written lookup and the intended one agree |
| `Sessions.StartedSessionIsFound` | server/sessions.ts:97-107 | a session just started is found in its zone at every instant of its lifetime while no later session is started there |
| `Sessions.StartThenActive` | server/sessions.ts:21-124 | `start` followed by `active` on the same zone within five minutes finds the started session |
| `Sessions.FullPageUnchanged` | server/sessions.ts:93-94 | once a zone holds ten rows, a newer session does not enter the page `active` reads |
| `Sessions.PageHidesNewSession` | server/sessions.ts:89-104 | with ten expired, not yet deleted rows in a zone, the as-written lookup answers none for a just-started session that the intended lookup finds |
| `Sessions.PageHidesNewSessionExample` | server/sessions.ts:89-104 | the concrete case of that: ten sessions at 0..9 ms and a new one at 400000 ms |
| `Sessions.Unexpired` | server/sessions.ts:138 | cleanup keeps every row with `expiresAt >= now`, only rows of the table, and only rows with `expiresAt >= now` |
| `Sessions.CleanupRemovesOnlyExpired` | server/sessions.ts:138 | the kept rows and the rows with `expiresAt < now` together make up the whole table |
| `Sessions.CleanupIdempotent` | server/sessions.ts:137-138 | a second cleanup at the same instant changes nothing |
| `Sessions.ExpiryBoundary` | server/sessions.ts:97 | a row expiring exactly at `now` is neither deleted nor returned by either lookup |
| `Sessions.CleanupKeepsLookup` | server/sessions.ts:130-153 | cleaning up at `now` does not change whether, or how recent, a session the lookup finds at `now` or later is |
| `Sessions.SessionTable.Cleanup` | server/sessions.ts:130-153 | without a store, 500 and nothing deleted; otherwise the table becomes its unexpired rows |
| `Stats.ParseFloat` | server/stats.ts:35 | `parseFloat` yields a number exactly when, after white space and one sign, a digit or a dot-digit starts the text |
| `Stats.ParseNumeral` | server/stats.ts:35 | a plain numeral reads as its value |
| `Stats.ParseDecimal` | server/stats.ts:35 | `w.f` reads as `w + f / 10^len(f)` |
| `Stats.ParseIgnoresTrailing` | server/stats.ts:35 | text after `w.f` that does not start an exponent is ignored: `w.f` followed by it reads as `w.f` |
| `Stats.ParseScaled` | server/stats.ts:35 | `w.f` followed by `e` and digits reads as `w.f` scaled by ten to the power of those digits, whatever non-digit text follows |
| `Stats.ParseRevenueExample` | server/stats.ts:35 | "0.0050" reads as 0.005 |
| `Stats.ParseEmptyIsNaN` | server/stats.ts:35 | the empty string is NaN, which is why a missing revenue is read as "0" |
| `Stats.ParseWordIsNaN` | server/stats.ts:35-36 | "abc" is NaN, so it contributes 0 |
| `Stats.ParseBareSignIsNaN` | server/stats.ts:35-36 | " -." is NaN: white space and a sign do not make a bare dot a number |
| `Stats.ToFixed4` | server/stats.ts:42 | `toFixed(4)` of the total reads back as a number within 1/20000 of it |
| `Stats.Revenue` | server/stats.ts:35-36 | a missing or empty revenue counts 0, an unparseable one 0, and any other its parsed value |
| `Stats.TotalRevenueAppend` | server/stats.ts:34-37 | the revenue total of two batches is the sum of their totals |
| `Stats.TotalRevenueOfUnpaid` | server/stats.ts:34-37 | events without a numeric revenue add nothing |
| `Stats.Handle` | server/stats.ts:13-58 | a falsy `email` gives 400, a failed fetch 500; otherwise 200 with the impression and click counts of the fetched events, their sum being the number of events, and a total within 1/20000 of the revenue sum |
| `Routers.RequiredString` | server/routers.ts:30 | `z.string()` accepts exactly a string member and yields it |
| `Routers.OptionalString` | server/routers.ts:29 | `z.string().optional()` accepts exactly an absent or string member, and yields absent for absent |
| `Routers.Limit` | server/routers.ts:72 | `limit` is 100 when absent, the given number when one is given, and invalid otherwise |
| `Routers.OrNull` | server/routers.ts:45-54 | `x \|\| null` is NULL exactly for absent and empty strings and otherwise `x` |
| `Routers.RecordEventRow` | server/routers.ts:26-55 | the input is accepted exactly when `eventType` is one of the two names, `zoneId` is a string and each optional member is absent or a string; then kind and zone are stored unchanged and each optional member as its `\|\| null` value |
| `Routers.RecordedOptionalsNonEmpty` | server/routers.ts:45-54 | after `\|\| null`, no optional column of a recorded event is the empty string |
| `Routers.RecordEvent` | server/routers.ts:25-65 | invalid input is refused with nothing written; a store refusal becomes INTERNAL_SERVER_ERROR "Failed to record event" with nothing written; otherwise exactly the input's row is appended |
| `Routers.GetByTelegramId` | server/routers.ts:68-77 | invalid input is refused; without a handle the answer is `[]`, even for a negative `limit`; otherwise a negative `limit` fails in the store, and any other gives `min(limit, matching)` of the rows with that `telegramId`, newest first, none left out newer than one returned |
| `Routers.NegativeLimit` | server/db.ts:103-105 | a negative `limit` gives `[]` without a handle, because the store function returns before any query, and a store failure with one |
| `Routers.GetAllEvents` | server/routers.ts:80-88 | invalid input is refused; without a handle the answer is `[]`, even for a negative `limit`; otherwise a negative `limit` fails in the store, and any other gives `min(limit, rows)` rows of the table, newest first, none left out newer than one returned |
| `Routers.GetByZone` | server/routers.ts:91-100 | invalid input is refused; without a handle the answer is `[]`, even for a negative `limit`; otherwise a negative `limit` fails in the store, and any other gives `min(limit, matching)` of the zone's rows, newest first, none left out newer than one returned |
| `Routers.GetStats` | server/routers.ts:103-105 | zeros without a store; otherwise exactly the impression count, click count and distinct-user count of the table, the two counts summing to at most the events and the users no more than the events |
| `Routers.GetByDateRange` | server/routers.ts:108-117 | `[]` without a store; otherwise exactly the events created between the two instants, inclusive, each as often as in the table, newest first |
| `Routers.CreateZoneRow` | server/routers.ts:124-137 | the input is accepted exactly when `zoneId` is a string and the two optional members are absent or strings; `zoneId` is forwarded unchanged and an empty name or type becomes NULL |
| `Routers.CreatedZoneIsActive` | server/routers.ts:131-135 | a zone created through the router is stored active, since it supplies no `isActive` |
| `Routers.CreateZone` | server/routers.ts:123-147 | invalid input is refused; a store refusal becomes INTERNAL_SERVER_ERROR "Failed to create zone"; otherwise exactly the input's zone is appended |
| `Routers.GetZoneById` | server/routers.ts:150-154 | a non-string `zoneId` is refused; without a store the answer is none; otherwise a zone of the table with that `zoneId`, or none exactly when no zone has it |
| `Routers.GetAllZones` | server/routers.ts:157-159 | `[]` without a store; otherwise every zone, each as often as in the table, newest first |
| `Routers.UpdateStatus` | server/routers.ts:162-180 | invalid input is refused; without a store, INTERNAL_SERVER_ERROR "Failed to update zone status"; otherwise the zones become `WithStatus` of the old ones |

## Left out

- Logging (`console.log`/`console.error`) and the HTTP/tRPC transport: responses are datatypes with their status codes.
- The health endpoint (`server/postback.ts:175-181`): a constant 200 answer whose only datum is the clock time.
- `auth.me`, `auth.logout`, the `system` router and the `protectedProcedure` access check: cookies and authentication are not part of this model.
- Repeated and nested query parameters: the query parser turns these into arrays or objects. The model gives each name a single string value.
- Member order: `JSON.stringify` lists integer-like member names first. The model serializes in arrival order.
- `Sessions.Token`: the random suffix is an arbitrary parameter. The model does not constrain it to `Math.random().toString(36).substr(2, 9)` output (at most nine base-36 characters).
- `Sessions.SessionTable.Active`: uses the corrected lookup `MostRecentActive`. The as-written paging is `Sessions.ActiveAsWritten` (see Findings).
- `Stats.ParseFloat`: works on exact reals.
  - It does not round to the nearest double.
  - It does not read the literal `Infinity` (the model yields NaN for it).
  - It does not treat `-0` as distinct from 0.
- `Stats.ToFixed4`: uses exact arithmetic. It does not model the exponential form `toFixed` uses for magnitudes of 1e21 and above.
- `Stats.TotalRevenue`: sums exactly, without floating-point rounding between steps.
- Numbers in RPC inputs and JSON bodies are integers: fractional `limit` values are not modelled.
- A negative `limit` (which `z.number()` lets through) gives `[]` without a handle, as the store functions return before querying. With a handle it becomes an internal error, because the database rejects a negative `LIMIT`. The wording of the database's error is not modelled.
- `getByDateRange` takes its two instants directly. The zod `z.date()` check on `Date` objects is not modelled.
- Concurrency: each call runs alone. Interleaved session creation and lookup are not modelled.
- `server/events-api.ts`, the React pages and `server/postback.test.ts`: thin wrappers, UI and live-database tests, which are not part of this model.
- `getAdEventsByEmail` is not part of this model. The stats handler receives its result as a parameter.
- Connection failure after the handle is created (a lost connection on a later query) is not modelled. Only "no handle" and constraint violations make a write fail.
- Timestamp precision: the `timestamp` columns (`drizzle/schema.ts:19-21, 34-35, 70`) keep whole seconds. The model stores the millisecond `now` unrounded. That can move an event across a `getByDateRange` bound by under a second, and it makes fewer `createdAt` ties than the database would.
- One clock reading per session: `start` reads `Date.now()` twice, once for the token and once for `expiresAt` (`server/sessions.ts:37, 40`), and the database sets `createdAt` from its own clock. The model uses a single `now` for all three. This is what makes `Sessions.SessionTable.Valid()`'s `expiresAt == createdAt + TTL` exact.
- Collation: MySQL's default collation compares strings without regard to case, so `=`, `UNIQUE` and `COUNT(DISTINCT)` may treat `"ABC"` and `"abc"` as equal. The model compares strings exactly.
- Repeated member names in a JSON body: `JsValues.Get` returns the first member with a name, while `JSON.parse` keeps the last. The model assumes bodies without repeated names.
- `Db.Connection` is a standalone model of the `getDb()` cache; a `Store`'s `available` flag is not derived from it.
- Ties in `createdAt`: the store functions return the stable-sort listing, one of the orders MySQL may produce. Only the router procedures' contracts (`Db.NewestListing`) hold for every tie order.

## Findings

| source | as written | input that shows it | evidently intended | confidence | as-written member | corrected member |
|---|---|---|---|---|---|---|
| server/postback.ts:36 | the literal-macro test reads `sub_id2`, which the handler never takes from `req.query` (lines 22-31; the GET copy at line 115 is the same); it is only evaluated when `sub_id` is the literal `{sub_id}`, and then it throws, which the catch turns into 500 | `sub_id={sub_id}&sub_id2={sub_id2}&event_type=impression&zone_id=10269314` | read `sub_id2` from the query and answer 200 "Ignored - literal macros" | not executed; high | `Postback.DecideAsWritten`, `Postback.LiteralMacrosThrowAsWritten` | `Postback.Decide` (used by `Postback.Handle`) |
| server/sessions.ts:89-107 | `active` orders the zone's sessions by ascending `createdAt` and takes the first ten before dropping expired ones, so it reads the ten oldest rows | ten sessions started in zone `z` at 0..9 ms and not cleaned up, then a new start in `z` at 400000 ms: `active` at 400000 ms answers 404 | the most recent live session of the zone, as the comment at line 87 says | not executed; high | `Sessions.ActiveAsWritten`, `Sessions.PageHidesNewSession`, `Sessions.PageHidesNewSessionExample` | `Sessions.MostRecentActive` (used by `Sessions.SessionTable.Active`), with `Sessions.StartThenActive` |
