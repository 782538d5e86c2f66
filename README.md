# In-memory store of the bot dashboard, in Dafny

The dashboard keeps its data in `MemStorage` (`server/storage.ts`), a small
keyed store with three parts:

- a single bot-settings slot, always stored under id 1;
- a command table with its own id counter: create (with `enabled`
  defaulting to true), get, list, shallow-merge update (an error for an
  unknown id) and silent delete;
- an analytics ledger with its own id counter. `updateAnalytics(name, ms)`
  is an upsert keyed on the command name: an existing row counts one more
  call and folds `ms` into its rounded running average, otherwise a new row
  starts at one call.

The model is the class `Storage.MemStorage`. Its fields are the source's
fields, and each JavaScript `Map` is a Dafny `map` from id to row plus the
map's key order, because `Array.from(map.values())` lists rows in
insertion order. Its methods change these fields in place, and their
contracts give the new state in terms of the old. The invariant `Valid()`
says:

- ids are positive, below their counter, and stored under themselves;
- the key orders are ascending, so listings come out in id order;
- there is at most one analytics row per command name.

The value-level parts are modelled as functions, each with lemmas about it:

- `Rounding`: `Math.round(p / q)` as an integer division, and the running
  average.
- `KeyOrder`: the key order of a JavaScript `Map`.
- `Commands`: the record `createCommand` builds and the spread
  `{ ...existing, ...patch }`.
- `Ledger`: the per-name statistics, one recorded call, and `Replay`, the
  fold of a run of calls.

`Scenarios` holds client methods that run the store's methods on a fresh
store, and proves concrete outcomes from their contracts alone.

Two details of the code that the model keeps as written:

- Analytics rows are found by command name alone
  (server/storage.ts:87-88). The table declares a `botSettingsId` column
  (shared/schema.ts:32), but `MemStorage` never sets it, and no bot is
  checked. Two bots with a command of the same name share one row.
- The table defaults a usage count to 0 (shared/schema.ts:34), but every
  row this store creates starts at 1, and `Valid()` states that.

## Model

| member | source | states |
|---|---|---|
| `Storage.MemStorage.constructor` | server/storage.ts:24-36 | a new store satisfies the invariant, has no settings, empty tables and both counters at 1 |
| `Storage.MemStorage.GetBotSettings` | server/storage.ts:38-40 | returns the settings slot, which is empty or holds a row with id 1 |
| `Storage.MemStorage.UpdateBotSettings` | server/storage.ts:42-46 | stores the input's fields with id 1 in the slot, returns that row, and changes nothing else |
| `Storage.MemStorage.GetCommands` | server/storage.ts:48-50 | lists every stored command exactly once, in key order, which is ascending id order |
| `Storage.MemStorage.GetCommand` | server/storage.ts:52-54 | returns the command stored under the id, and returns none exactly when no command has that id |
| `Storage.MemStorage.CreateCommand` | server/storage.ts:56-67 | the new command takes the counter's old value as its id, an id not in use; the counter goes up by one; only that key is added, and it goes last in key order |
| `Storage.MemStorage.UpdateCommand` | server/storage.ts:69-76 | an unknown id fails with "Command not found" and changes nothing; a known id stores and returns the merge of the patch into its command; no other key changes |
| `Storage.MemStorage.DeleteCommand` | server/storage.ts:78-80 | removes exactly the given key from the table and its key order; an absent id changes nothing and is no error; the counter is untouched, so ids are never reused |
| `Storage.MemStorage.GetAnalytics` | server/storage.ts:82-84 | lists every analytics row exactly once, in ascending id order, with no command name twice |
| `Storage.MemStorage.FindAnalytics` | server/storage.ts:87-88 | finds a row for the name exactly when one exists, and the row found is the stored row for that name |
| `Storage.MemStorage.UpdateAnalytics` | server/storage.ts:86-116 | an existing row keeps its id and key position: its count goes up by one and its average becomes the rounded running average; otherwise a new row takes the next id with count 1 and average equal to the latency; other names' statistics and the command table are unchanged; at most one row per name is kept |
| `Commands.NewCommand` | server/storage.ts:58-64 | the created record has the given id; name, description and response are copied; it is enabled unless the input says false; the owning bot id is not copied |
| `Commands.Merge` | server/storage.ts:73 | each supplied field overrides; each omitted field and the id keep their old values |
| `Commands.MergeNoChange` | server/storage.ts:73 | an update that supplies no field leaves the command as it was |
| `Commands.MergeIdempotent` | server/storage.ts:73 | repeating the same update changes nothing more |
| `Commands.MergeCombine` | server/storage.ts:73 | two successive updates equal one update with the later patch spread over the earlier |
| `Rounding.RoundDivNearest` | server/storage.ts:92-94 | `RoundDiv(p, q)` is the integer nearest to p/q, with a half rounding up, which is `Math.round` on non-negative quotients |
| `Rounding.RoundDivUnique` | server/storage.ts:92-94 | any integer within half a unit of p/q (halves up) equals the rounded quotient |
| `Rounding.RoundDivWithin` | server/storage.ts:92-94 | if p/q lies in [lo, hi], its rounding does too |
| `Rounding.RunningAverageWithin` | server/storage.ts:91-94 | the new average lies within any range holding both the old average and the new latency |
| `Rounding.RunningAverageOfEqual` | server/storage.ts:91-94 | a latency equal to the current average leaves the average unchanged |
| `KeyOrder.Remove` | server/storage.ts:79 | deleting a key drops exactly that key from the key order; the order stays ascending; an absent key changes nothing |
| `KeyOrder.AppendLarger` | server/storage.ts:65 | appending a key larger than every present key keeps the key order ascending |
| `KeyOrder.ListingHoldsValues` | server/storage.ts:49 | a listing that takes the map's value at each key of a key order holds exactly the map's values |
| `KeyOrder.KeyOrderSize` | server/storage.ts:49 | a key order has exactly as many entries as its map has keys |
| `KeyOrder.Values` | server/storage.ts:49 | lists the map's value for each key, in key order |
| `Ledger.ReplayCount` | server/storage.ts:90-115 | k recorded calls of one name leave a row with count k, and no calls leave no row |
| `Ledger.ReplayWithin` | server/storage.ts:90-115 | the average after any run of calls stays within the range of their latencies, despite rounding at every step |
| `Ledger.ReplayConstant` | server/storage.ts:90-115 | calls that all take v ms average exactly v |
| `Ledger.ReplayNearMean` | server/storage.ts:90-115 | after k calls with average a, `k * a` is within `k * (k - 1) / 2` of the total latency: at most half a millisecond of drift from the exact mean per call after the first, none after one call |
| `Ledger.NearMeanUpdate` | server/storage.ts:92-94 | one rounded update adds at most `n` to twice the drift of the total, so the bound `n * (n - 1)` grows to `(n + 1) * n` |
| `Ledger.ReplayPair` | server/storage.ts:90-115 | two calls leave count 2 and the running average of the two latencies |
| `Ledger.ReplayTriple` | server/storage.ts:90-115 | three calls leave count 3 and the running average folded twice |
| `Ledger.ReplayFiftyThenHundredFifty` | server/storage.ts:90-115 | calls of 50 and 150 ms leave count 2 and average 100 |
| `Ledger.ReplayTenTenEleven` | server/storage.ts:90-115 | calls of 10, 10 and 11 ms leave count 3 and average round(31/3) = 10 |
| `Ledger.RewriteRow` | server/storage.ts:96-103 | rewriting a name's existing row under its own id keeps the ledger well formed, gives the name the row's statistics and leaves other names' statistics unchanged |
| `Ledger.AddRow` | server/storage.ts:106-115 | adding a row under the counter's id for a name with no row, and advancing the counter, keeps the ledger well formed (fresh ascending id, one row per name), gives the name the row's statistics and leaves other names' unchanged |
| `Ledger.WriteRow` | server/storage.ts:102-114 | writing a row over its own name's row, or under a new key for a name with no row, keeps at most one row per name and changes only that name's statistics |
| `Ledger.StatsOfRow` | server/storage.ts:87-88 | with one row per name, a name's statistics are those of its row |
| `Ledger.StatsOfOtherName` | server/storage.ts:102 | writing one name's row leaves every other name's statistics unchanged |
| `Scenarios.SettingsRoundTrip` | server/storage.ts:38-46 | before any update the slot is empty; after an update the stored row has id 1 and is read back unchanged |
| `Scenarios.IdsNeverReused` | server/storage.ts:56-80 | create, delete, then create gives ids 1 and 2; the deleted id is then unknown and only the second command is listed |
| `Scenarios.UpdateThenDelete` | server/storage.ts:56-80 | updating a created command stores and returns the merge; updating it after deletion fails with "Command not found" |
| `Scenarios.RecordingExamples` | server/storage.ts:86-116 | calls of 50 and 150 ms average 100 over 2 calls; calls of 10, 10 and 11 ms average 10 over 3 calls |
| `Scenarios.RecordAll` | server/storage.ts:86-116 | recording a run of calls of one name in the store leaves exactly the statistics of `Replay`, with one count per call |

## Left out

- Routes, WebSocket status broadcast, zod request parsing (`server/routes.ts`): HTTP I/O, timers and random numbers. The store's inputs are the records those routes parse.
- The calls to the language-model API (`server/openai.ts`): a foreign service.
- The table declarations and zod schemas (`shared/schema.ts`): only the record shapes the store reads and writes are modelled, in `Schema`.
- The React client (`client/src/**`): UI rendering and data fetching.
- The `IStorage` interface (server/storage.ts:7-22) and the exported singleton (server/storage.ts:119): `MemStorage` is the only implementation, and the model constructs stores directly.
- `async`/`Promise`: every method is a synchronous Dafny method. Interleaved calls, and any update lost between them, are not modelled.
- Storage.MemStorage.UpdateAnalytics: `responseTime` is a `nat`. Negative and fractional latencies, and the floating-point rounding of very large totals, are not modelled.
- Storage.MemStorage.GetCommand: ids are unbounded integers. Fractional route ids are not modelled, since they can never match a stored key.
- Storage.MemStorage.UpdateCommand: ids are unbounded integers, as for `GetCommand`. A fractional id would match no key and fail with "Command not found".
- Storage.MemStorage.DeleteCommand: ids are unbounded integers, as for `GetCommand`. A fractional id would match no key and delete nothing.
- Object identity: the source returns the very object it stores (server/storage.ts:44-45, 65-66, 74-75, 102-103, 114-115), so a caller that mutated a result would change the store. The model returns values, so that aliasing is not captured. No caller in the server mutates a returned record.
- Ids and counters are unbounded. The 2^53 limit on exact JavaScript integers is not modelled.
- Analytics rows carry no `botSettingsId`, because the store never sets it. Per-tenant scoping is likewise not modelled, because the code has none.
