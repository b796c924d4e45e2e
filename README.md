# Humidity sensor dashboard — Dafny model

This project models the logic of a small humidity-monitoring web application.
Sensors post readings (a humidity percentage and a location label) to the
`/api/sensors` route. The route stores them in the `humedad` table and serves
the ten newest rows back. A dashboard page polls that route, sorts the rows by
time, picks the latest reading for the location "Ubicacion 1", recommends a
cleat type for that humidity and plots the history.

Three files:

- `readings.dfy` (module `Readings`): the row type `HumidityData` shared by
  both sides, and `Option` for `null`/`undefined`.
- `dashboard.dfy` (module `Dashboard`): the page `app/sensors/page.tsx`.
  - `DetermineCleatsType` is the three-way humidity classifier.
  - `SortByTimestamp` is the in-place sort of the fetched array, written as
    an insertion sort on an `array`.
  - `FilterLocation`, `Pop` and `LatestReading` are the `filter(...).pop()`
    selection.
  - `ChartValues` is the `history.map` projection into chart values.
  - Class `SensorsPage` holds the component state `history` and
    `latestReading`, which one poll updates.
- `sensors_route.dfy` (module `SensorsRoute`): the route `app/api/sensors/route.ts`.
  - Class `SensorsApi` holds the `connected` flag of the module-level client
    and the table, as a sequence of rows.
  - `ConnectToDatabase`, `Post` and `Get` are the handlers, written as
    step-by-step methods.
  - `MissingRequiredData` is the falsy-value validator.
  - `Newest` is the `ORDER BY timestamp DESC LIMIT 10` query, as an ordering
    function followed by a prefix.

Timestamps are integers: the milliseconds that `Date.getTime()` gives for them.
Humidity values are `real`. Anything the handlers depend on but cannot see is a
method parameter: whether `client.connect()`, `req.json()`, the INSERT and the
SELECT succeed, and the timestamp the database gives a new row.

A humidity of `0` is a real reading and ought to be accepted, but the code
tests `!humidity_value`, so it answers 400 to a reading of 0. The model follows
the code. `MissingRequiredData`
and `Post` reproduce that, and `ZeroHumidityIsRejected` states it. An empty
table gives `200` with `[]`, as in the code, not a message object.

## Model

| member | source | states |
|---|---|---|
| `Dashboard.DetermineCleatsType` | app/sensors/page.tsx:27-31 | The result is "Suela dura" exactly when humidity <= 30 (30 included), "Tacos intermedios" exactly when 30 < humidity <= 60, and "Tacos largos" exactly when humidity > 60. So the function is total and the three labels are disjoint. |
| `Dashboard.CleatsTypeMonotone` | app/sensors/page.tsx:27-31 | The classifier is monotone: a higher humidity never gives a harder sole (rank dry < intermediate < long). |
| `Dashboard.SwapWithPrevious` | app/sensors/page.tsx:42-44 | One step of the in-place sort: `a[j-1]` and `a[j]` trade places, every other element stays, and the array keeps its multiset. |
| `Dashboard.InsertIntoSorted` | app/sensors/page.tsx:42-44 | One insertion step of the sort. A sorted prefix `a[..i]` becomes a sorted prefix `a[..i+1]`. The array stays a permutation of its old contents and nothing after `i` changes. |
| `Dashboard.SortByTimestamp` | app/sensors/page.tsx:42-44 | After the in-place sort the array's timestamps are non-decreasing, and the array is a permutation (same multiset) of the fetched rows. |
| `Dashboard.FilterLocation` | app/sensors/page.tsx:48 | The filtered sequence holds only rows of the input at location `loc`, and it holds every such row. |
| `Dashboard.Pop` | app/sensors/page.tsx:48 | `pop` gives nothing exactly on an empty sequence, and otherwise gives its last element. |
| `Dashboard.LatestReading` | app/sensors/page.tsx:48-49 | `filter(...).pop() \|\| null`: when present, the reading is a row of the input at `loc`. `LatestReadingNoneIff`, `LatestReadingIsLastMatch` and `LatestReadingIsNewest` state the rest: null exactly when no row is at `loc`, otherwise the last match, which on sorted rows is the newest. |
| `Dashboard.LatestReadingNoneIff` | app/sensors/page.tsx:48-49 | `latestReading` is null exactly when no fetched row has location `loc`. Both directions are proved. |
| `Dashboard.LatestReadingIsLastMatch` | app/sensors/page.tsx:48 | When present, `latestReading` is a row of the input at `loc`, and no later row is at `loc`. It is the last match. |
| `Dashboard.LatestReadingIsNewest` | app/sensors/page.tsx:42-48 | On the sorted history, a present `latestReading` is at `loc` and has the largest timestamp among all rows at `loc`. |
| `Dashboard.SimulatorLocation` | simulateData.js:7 | The simulator's labels "Ubicación 1".."Ubicación 5" (accented) are never equal to "Ubicacion 1". |
| `Dashboard.SimulatedRowsHaveNoLatestReading` | app/sensors/page.tsx:48 | Location matching is exact equality, so if every row carries a simulator label then `latestReading` stays null. |
| `Dashboard.ChartValues` | app/sensors/page.tsx:63 | The chart data has one value per history row, and value `i` is `history[i].humidity_value`. |
| `Dashboard.SensorsPage.constructor` | app/sensors/page.tsx:34-35 | The component starts with an empty history and no latest reading. |
| `Dashboard.SensorsPage.FetchHumidityData` | app/sensors/page.tsx:38-50 | After a poll, `history` is the sorted fetched array itself, ascending by timestamp, and a permutation of the fetched rows. `latestReading` is the last "Ubicacion 1" row of that history, or none. |
| `Dashboard.SensorsPage.ChartData` | app/sensors/page.tsx:58-63 | The plotted data set is index-aligned with `history` and has the same length. |
| `SensorsRoute.MissingRequiredData` | app/api/sensors/route.ts:32 | `!humidity_value \|\| !location` under JavaScript truthiness. A body that passes has both fields present. `AcceptedBodies` states both directions of the test, and `ZeroHumidityIsRejected` states that humidity 0 fails it. |
| `SensorsRoute.NewRow` | app/api/sensors/route.ts:38-43 | The inserted row carries the given `humidity_value` and `location`, which are non-zero and non-empty, and the database's timestamp. |
| `SensorsRoute.AcceptedBodies` | app/api/sensors/route.ts:32 | A body passes validation exactly when both fields are present, the humidity is not 0 and the location is not "". |
| `SensorsRoute.ZeroHumidityIsRejected` | app/api/sensors/route.ts:32-35 | A reading of humidity 0 counts as missing data, whatever its location. |
| `SensorsRoute.InsertNewestFirst` | app/api/sensors/route.ts:66 | Inserting a row into a sequence adds exactly that row to its multiset. |
| `SensorsRoute.InsertKeepsNewestFirst` | app/api/sensors/route.ts:66 | Inserting into a newest-first sequence keeps it newest first. |
| `SensorsRoute.OrderNewestFirst` | app/api/sensors/route.ts:66 | `ORDER BY timestamp DESC` returns a permutation of the table. |
| `SensorsRoute.OrderNewestFirstIsSorted` | app/api/sensors/route.ts:66 | The ordered table has non-increasing timestamps. |
| `SensorsRoute.Newest` | app/api/sensors/route.ts:64-68 | `ORDER BY timestamp DESC LIMIT n`: at most `n` rows, each a row of the table. `NewestLength`, `NewestIsSortedNewestFirst`, `NewestSplitsTable` and `OmittedRowsAreNotNewer` state its length, order, and split of the table. |
| `SensorsRoute.NewestLength` | app/api/sensors/route.ts:64-68 | The query returns `min(n, rows in table)` rows, so GET returns at most 10. |
| `SensorsRoute.NewestIsSortedNewestFirst` | app/api/sensors/route.ts:66 | The query result is in descending timestamp order. |
| `SensorsRoute.NewestSplitsTable` | app/api/sensors/route.ts:64-68 | The returned rows and the omitted rows together are exactly the table (as a multiset). |
| `SensorsRoute.OmittedRowsAreNotNewer` | app/api/sensors/route.ts:64-68 | No omitted row is newer than any returned row. |
| `SensorsRoute.NewestOfSmallTable` | app/api/sensors/route.ts:64-68 | A table of at most `n` rows comes back whole, newest first. |
| `SensorsRoute.InsertedRowComesFirst` | app/api/sensors/route.ts:38-47 | A row inserted with a timestamp later than all others is the first row the next query returns. |
| `SensorsRoute.NewestOfEmptyTable` | app/api/sensors/route.ts:72-75 | On an empty table the query result is the empty sequence. |
| `SensorsRoute.SensorsApi.constructor` | app/api/sensors/route.ts:5-8 | The module-level client starts out not connected. |
| `SensorsRoute.SensorsApi.ConnectToDatabase` | app/api/sensors/route.ts:11-22 | The client connects only when not already connected. Afterwards `connected` is true exactly when it was already connected or the connect succeeded. An already-connected client is left as it was, and the call reports success. |
| `SensorsRoute.SensorsApi.Post` | app/api/sensors/route.ts:25-56 | Connect happens first, so a failed connect gives 500 even for an invalid body. An unreadable body gives 500. A falsy field gives 400 with "Faltan datos requeridos". A failed insert gives 500 with "Error interno del servidor". Otherwise exactly one row (`NewRow`) is appended and returned with 200. Every non-200 answer leaves the table unchanged. |
| `SensorsRoute.SensorsApi.Get` | app/api/sensors/route.ts:59-81 | After connecting, a successful query answers 200 with `Newest(table, 10)`, including `[]` for an empty table. Any failure answers 500 with "Error interno del servidor". The table never changes. |

## Left out

- Rendering: the JSX, the Chart.js registration and options, the `Image` and `Link` components, and the time labels made with `toLocaleTimeString`. These are presentation and locale formatting only.
- Polling: the `setInterval`/`clearInterval` loop and the effect cleanup. These are timer and async behaviour. Each poll is one call of `FetchHumidityData`.
- A failed poll. When GET fails, the route answers 500 with `{error: ...}` (app/api/sensors/route.ts:79). That body parses, but it is not an array, so `data.sort` throws (app/sensors/page.tsx:42) and the poll leaves `history` and `latestReading` as they were. A failed `fetch` or an unparsable response ends the same way. `FetchHumidityData` takes an array of rows, so it cannot be given a non-array body, and the model does not state that a failed poll changes nothing.
- Network and JSON: `fetch`, `response.json()` and `req.json()`. The POST body is a record of optional fields, and `None` stands for an unparsable body.
- JSON field types: other types for `humidity_value` and `location` (strings, booleans, NaN) are not modelled. NaN humidity classification is floating-point behaviour.
- Timestamp strings: timestamps are integers, so parsing an invalid date string to NaN inside the comparator is not modelled.
- The PostgreSQL client: SQL execution, TLS settings and `DATABASE_URL` are replaced by a sequence of rows plus success flags. The library's refusal to reconnect a client after a failed connect is not modelled; `connectSucceeds` can be any value on every call.
- The database's default timestamp: its definition is not visible in the route, so it is the `now` parameter.
- The table's implicit primary-key column is not modelled.
- Concurrency: each handler runs to completion in the model. Interleaved requests sharing the one client are not modelled.
- SortByTimestamp: its contract states a sorted permutation but not stability, which JavaScript's sort guarantees. The insertion sort itself is stable, because it swaps only on a strictly later timestamp, but no lemma states this. The order of equal-timestamp rows reaching the page comes from the SQL query and is already open (see `Newest` below). So the model does not fix which of several equal-timestamp "Ubicacion 1" rows `latestReading` picks.
- Newest: SQL leaves the order of equal timestamps open. The model fixes one order, and its lemmas do not depend on which.
- Logging with `console.log`/`console.error`.
- The load generator `simulateData.js` is not part of this model, apart from its location labels (`SimulatorLocation`). It consists of random values, an HTTP POST and a timer.
