# osu-pp-rebalance request cache, result cache and calculator-output parser, in Dafny

This project models the core of the osu-pp-rebalance web service: the part
that sits between incoming "recalculate this player" requests and a slow
external performance calculator.

- `player_cache.dfy` (module `PlayerCache`) models `src/player_cache.rs`.
  That file holds the admission, deduplication and cooldown state machine:
  - a status table maps each player to `Pending(sequence, lastPing)`,
    `Calculating`, `Done` or `Error`;
  - a result store maps each player to `(result, completedAt)`;
  - two counters, `last_queue` (sequence numbers issued) and `current_queue`
    (the position a worker reached);
  - a FIFO job channel, here a `seq<string>`.

  The class `Cache` has these as fields. Each operation is a method whose new
  state equals a specification function of the old state (`RequestNext`,
  `PingNext`, `StartNext`, `FinishNext`). The queue invariant `Inv` is kept
  by every method and proved about every function. One iteration of the
  worker loop is two steps: `StartJob` (dequeue, evict a stale job or mark it
  `Calculating`) and `FinishJob` (record the calculator's outcome, which is a
  parameter).
- `profile_cache.dfy` (module `ProfileCache`) models `src/profile_cache.rs`,
  the keyed result store with load-failure fallback, `get` and `set`.
- `performance_calculator.dfy` (module `PerformanceCalculator`) models
  `parse_results` of `src/performance_calculator.rs`. It reads the
  calculator's text table: the line starting with `User: ` and the two total
  lines after it, four skipped decoration lines, then a score row from every
  second line. Rows are split on the separator characters and need five
  non-empty fields.
- `mods.dfy` (module `Mods`) models the `Mod` enum of
  `src/performance_calculator/mod.rs`: its argument and display strings, the
  derived declaration order, iteration over a `BTreeSet<Mod>`, and the
  `mods!` macro.
- `wrappers.dfy` holds `Option` and a map lookup.

Time is a caller-supplied `nat` in seconds. One parameter `now` stands for
both `Instant::now()` (ping times) and `SystemTime::now()` (completion
times).

Two points where the behaviour is easy to misread:
- When the clock has moved backwards, `SystemTime::elapsed` fails. The code
  leaves it open whether a forced recalculation should then be allowed (its
  comment at src/player_cache.rs:167-168 asks "Should we allow it or not?").
  As written (src/player_cache.rs:169-173), it lets the request through as
  if the cooldown were over. `CooldownOver` treats `now < completedAt` that
  way.
- Score fields are filtered for emptiness before they are trimmed
  (src/performance_calculator.rs:54). A field made only of spaces therefore
  counts toward the five, and the score gets an empty string for it.

## Model

| member | source | states |
|---|---|---|
| `PlayerCache.Cache.constructor` | src/player_cache.rs:119-153 | Empty status table and queue, both counters at zero, the result store as loaded (or empty when loading failed); the queue invariant holds |
| `PlayerCache.Initial` | src/player_cache.rs:119-153 | The start state satisfies the queue invariant with no jobs and no statuses |
| `PlayerCache.Cache.CalculateRequest` | src/player_cache.rs:155-200 | Returns `RequestResult` and moves to `RequestNext` of the old state, keeping the queue invariant |
| `PlayerCache.Cache.SendJob` | src/player_cache.rs:181-184 | The enqueue sub-procedure: counter +1, status `Pending(new counter, now)`, player appended to the channel |
| `PlayerCache.Enqueue` | src/player_cache.rs:193-196 | Enqueue raises `last_queue` by one, installs `Pending` with that number and the current time, appends the player to the queue, and touches nothing else |
| `PlayerCache.RequestResult` | src/player_cache.rs:162-172 | A `CantForce` answer carries a remaining time in (0, cooldown] |
| `PlayerCache.RequestWithoutResult` | src/player_cache.rs:190-199 | No cached result: always `Enqueued`; a job is sent exactly when the status is absent or `Error`, else nothing changes |
| `PlayerCache.RequestCachedNotForced` | src/player_cache.rs:158-160 | Cached result and no force: `AlreadyDone`, state unchanged |
| `PlayerCache.RequestForcedTooSoon` | src/player_cache.rs:162-172 | Forced within 15 minutes of completion: `CantForce(900 - elapsed)` with 0 < remaining <= 900, state unchanged |
| `PlayerCache.RequestForcedAfterCooldown` | src/player_cache.rs:169-188 | Forced after the cooldown or with the clock gone backwards: `Enqueued`; a job is sent exactly when the status is absent, `Error` or `Done` |
| `PlayerCache.RequestSparesInFlight` | src/player_cache.rs:176-180 | A request never touches a player that is `Pending` or `Calculating` |
| `PlayerCache.RequestFrame` | src/player_cache.rs:155-200 | Only the requested player's status changes; no status is removed; store and worker position unchanged; the queue grows only at its tail, by at most one job (the requested player); the counter grows by exactly the number of jobs sent |
| `PlayerCache.RequestTwiceSendsOnce` | src/player_cache.rs:190-199 | A second unforced request right after the first changes nothing, so two requests send at most one job |
| `PlayerCache.RequestLeavesStatus` | src/player_cache.rs:190-199 | With no cached result, the player has a status after the request |
| `PlayerCache.RequestPreservesInv` | src/player_cache.rs:155-200 | `calculate_request` keeps the queue invariant |
| `PlayerCache.Cache.CheckStatus` | src/player_cache.rs:202-210 | Returns the status exactly when the player has one, changing nothing |
| `PlayerCache.Cache.Ping` | src/player_cache.rs:212-220 | Moves to `PingNext` of the old state and keeps the queue invariant |
| `PlayerCache.PingRefreshes` | src/player_cache.rs:212-220 | `Pending(pos, _)` becomes `Pending(pos, now)`; no-op for other statuses and unknown players; nothing else changes |
| `PlayerCache.PingPreservesInv` | src/player_cache.rs:212-220 | `ping` keeps the queue invariant |
| `PlayerCache.Cache.GetCurrentInQueue` | src/player_cache.rs:222-224 | Returns the worker position, which never exceeds the last sequence number issued |
| `PlayerCache.Cache.GetPerformance` | src/player_cache.rs:226-235 | Returns the stored result exactly when there is one, changing nothing |
| `PlayerCache.Cache.StartJob` | src/player_cache.rs:38-51 | Dequeues the head job; returns `StartResult` and moves to `StartNext`, keeping the queue invariant |
| `PlayerCache.StartResult` | src/player_cache.rs:38-51 | The job handed to the calculator, if any, is the head of the queue |
| `PlayerCache.StartStale` | src/player_cache.rs:41-46 | Head job pinged more than 15 s ago: it becomes `Error`, is not calculated, and the worker position is unchanged |
| `PlayerCache.StartLive` | src/player_cache.rs:41-50 | Otherwise the job is calculated, marked `Calculating`, and its sequence number becomes the worker position |
| `PlayerCache.StartIdle` | src/player_cache.rs:38 | With an empty channel nothing happens |
| `PlayerCache.DequeuedIsPending` | src/player_cache.rs:41 | The worker's lookup of the dequeued player never misses and always finds `Pending` |
| `PlayerCache.StartPreservesInv` | src/player_cache.rs:38-51 | Dequeuing keeps the queue invariant |
| `PlayerCache.DequeuePreservesInv` | src/player_cache.rs:38-51 | Removing the head of the queue, giving it a non-Pending status and moving the worker position at most up to its number keeps the invariant |
| `PlayerCache.Cache.FinishJob` | src/player_cache.rs:53-61 | Moves to `FinishNext` of the old state, keeping the queue invariant |
| `PlayerCache.FinishOutcome` | src/player_cache.rs:53-61 | Success: `Done` and the result stored with the completion time. Failure: `Error` and the store untouched. Queue and counters unchanged either way |
| `PlayerCache.FinishPreservesInv` | src/player_cache.rs:53-61 | Recording an outcome keeps the queue invariant |
| `PlayerCache.NoDuplicateJobs` | src/player_cache.rs:176-196 | No player is queued twice |
| `PlayerCache.PositionEstimate` | src/player_cache.rs:48 | For the i-th queued job, sequence number minus worker position is at least i + 1 |
| `ProfileCache.InitialData` | src/profile_cache.rs:78-90 | No results file, or a file that fails to load: the cache starts empty; a file that loads: the cache holds exactly what was loaded |
| `ProfileCache.Cache.constructor` | src/profile_cache.rs:78-95 | The cache starts with `InitialData` |
| `ProfileCache.FreshCacheIsEmpty` | src/profile_cache.rs:81-87 | A cache whose file failed to load answers None for every player |
| `ProfileCache.Cache.Get` | src/profile_cache.rs:101-110 | Returns the stored pair exactly when the player has one, changing nothing |
| `ProfileCache.Stored` | src/profile_cache.rs:114-118 | After a set at time t, a lookup of that player gives `(result, t)` and every other player's lookup is unchanged |
| `ProfileCache.Cache.Set` | src/profile_cache.rs:114-118 | The new map is `Stored(old map, player, result, now)` |
| `ProfileCache.StoredOverwrites` | src/profile_cache.rs:117 | A second set for the same player replaces the first |
| `ProfileCache.StoredCommutes` | src/profile_cache.rs:117 | Sets for different players commute |
| `ProfileCache.SetThenGet` | src/profile_cache.rs:101-118 | A get after a set returns exactly the pair just set |
| `PerformanceCalculator.IsSeparator` | src/performance_calculator.rs:26-30 | True exactly for U+FFFD, U+2551 and U+2502; never a newline or ASCII |
| `PerformanceCalculator.Split` | src/performance_calculator.rs:41 | One more piece than separators, and no piece contains a separator |
| `PerformanceCalculator.LinesJoin` | src/performance_calculator.rs:41 | Joining the lines with newlines gives the text back |
| `PerformanceCalculator.JoinLines` | src/performance_calculator.rs:41 | Newline-free pieces joined with newlines split back into the same pieces |
| `PerformanceCalculator.SepsOf` | src/performance_calculator.rs:54 | The separator characters of a row, one per separator, each accepted by the predicate |
| `PerformanceCalculator.SplitJoin` | src/performance_calculator.rs:54 | Splitting on separator characters loses nothing: putting each separator back between the pieces around it gives the row back |
| `PerformanceCalculator.NonEmpty` | src/performance_calculator.rs:53-54 | Every piece it keeps is a non-empty input piece and every non-empty input piece is kept; never more pieces than it was given |
| `PerformanceCalculator.NonEmptyAppend` | src/performance_calculator.rs:53-54 | Filtering a concatenation filters each part and concatenates: kept pieces stay in input order, repeats included |
| `PerformanceCalculator.NonEmptyOne` | src/performance_calculator.rs:53-54 | A single piece is kept exactly when it is not empty |
| `PerformanceCalculator.TrimIsSlice` | src/performance_calculator.rs:60-64 | `Trim`'s result is a slice of the input with only whitespace around it, and does not start or end with whitespace |
| `PerformanceCalculator.TrimIdempotent` | src/performance_calculator.rs:60-64 | Trimming twice is trimming once |
| `PerformanceCalculator.ParseRow` | src/performance_calculator.rs:54-66 | A row gives a score exactly when it has at least five non-empty fields; the score is the first five fields, trimmed; extra fields are ignored |
| `PerformanceCalculator.StepBy2` | src/performance_calculator.rs:53 | Keeps the elements at offsets 0, 2, 4, ... and nothing else |
| `PerformanceCalculator.CandidatesAreEvenLines` | src/performance_calculator.rs:53 | A candidate row is a non-empty line at an even offset of the table body |
| `PerformanceCalculator.CandidatesCons` | src/performance_calculator.rs:53 | Candidates keep the order of the body: the first line, when not empty, comes before the candidates of the lines after the second |
| `PerformanceCalculator.Scores` | src/performance_calculator.rs:53-67 | At most one score per candidate row |
| `PerformanceCalculator.FilterMapAppend` | src/performance_calculator.rs:53-67 | `filter_map` (and so `Scores`, which is `filter_map` with `ParseRow`) over concatenated rows concatenates: scores keep the order of the rows, and no row affects another |
| `PerformanceCalculator.ScoresOfRow` | src/performance_calculator.rs:56-67 | A row with fewer than five fields is dropped silently |
| `PerformanceCalculator.FilterMapMembers` | src/performance_calculator.rs:53-67 | Every value of `filter_map` (so every score) comes from a row that parses, and every such row contributes its score |
| `PerformanceCalculator.SkipToUser` | src/performance_calculator.rs:41 | Drops exactly the lines before the first one starting with `User: ` |
| `PerformanceCalculator.SkipToUserFrom` | src/performance_calculator.rs:41 | When line k is the first `User: ` line, skipping leaves lines k onwards |
| `PerformanceCalculator.SkipToUserNone` | src/performance_calculator.rs:41 | With no `User: ` line, skipping leaves nothing |
| `PerformanceCalculator.FirstUserLine` | src/performance_calculator.rs:41 | The index of the first line starting with `User: `, or None when there is none |
| `PerformanceCalculator.ParseResultsSpec` | src/performance_calculator.rs:32-70 | None exactly when there is no `User: ` line or fewer than 7 lines from it on. Otherwise user and the two totals are lines k, k+1, k+2 verbatim (the user line keeps its prefix), and the scores come from lines k+7, k+9, ... |
| `Mods.Rank` | src/performance_calculator/mod.rs:28-42 | Each mod's declaration index, below 12 |
| `Mods.FromRank` | src/performance_calculator/mod.rs:28-42 | The mod declared at index n has rank n |
| `Mods.ToArg` | src/performance_calculator/mod.rs:47-64 | A two-letter string, the ASCII lower-case form of the display string |
| `Mods.ToString` | src/performance_calculator/mod.rs:67-85 | A two-letter upper-case string |
| `Mods.LessIsStrictTotalOrder` | src/performance_calculator/mod.rs:28 | The derived order is irreflexive, total and transitive |
| `Mods.ModSet` | src/performance_calculator/mod.rs:14-25 | `mods![..]` contains exactly the listed mods, duplicates collapsed |
| `Mods.KeepFrom` | src/performance_calculator/mod.rs:28 | The elements of rank n or more, exactly those, in strictly ascending order |
| `Mods.InOrder` | src/performance_calculator/mod.rs:28 | Iterating a set of mods visits exactly its elements, in strictly ascending declaration order |
| `Mods.ConsAscending` | src/performance_calculator/mod.rs:28 | A mod ranked below every element of an ascending sequence may be put in front of it |
| `Mods.AscendingUnique` | src/performance_calculator/mod.rs:28 | Two ascending sequences with the same elements are equal, so the iteration order is determined by the set |
| `Mods.ModOrderExample` | src/performance_calculator/mod.rs:121-131 | Inserting DT, HR, HD and iterating gives HD, HR, DT |

## Left out

- Persistence: `load_results`, `save_results` and the Ctrl-C handler that
  saves the cache (src/player_cache.rs:82-117, src/profile_cache.rs:29-72)
  are file I/O and signal wiring. The constructors take the load outcome as a
  parameter: `None` for a missing or unreadable file.
- Threads, mutexes and the channel: the worker threads, their count
  (`workers`), the locks and the blocking `recv` are not modelled. Each
  operation is one atomic step. A worker iteration is `StartJob` followed by
  `FinishJob`.
- Two races are not modelled. `Done` is set before the result is stored,
  under separate locks (src/player_cache.rs:56-57). Several workers also
  overwrite `current_queue` concurrently. `PositionEstimate` and the bound on
  `current_queue` hold for jobs taken one at a time.
- PlayerCache.Cache.FinishJob: requires the player to be `Calculating`. In
  the source this holds because only the worker that started a job finishes
  it; the model does not track which worker holds which job.
- The external calculator (`calculate_profile`, `calculate_performance`,
  `simulate_play`) runs a `dotnet` process. It is replaced by the `Outcome`
  parameter of `FinishJob`; `parse_results` is modelled on its own.
- Counters are unbounded `nat`s: the 64-bit overflow of `last_queue` after
  2^64 requests is not modelled.
- Durations have whole-second precision. The source's clocks have
  sub-second precision, so the 15-second and 15-minute comparisons are made
  on whole seconds here.
- `ProfileResults` and its floating-point fields are a type parameter `R`
  that this core only stores and returns.
- `Accuracy`, serde derives and error display types in
  src/performance_calculator/mod.rs are left out: they carry no behaviour
  of this core.
- src/main.rs (web routes), src/profile_queue.rs (a wrapper over an external
  job-queue crate), src/performance_calculator/simulate.rs and profile.rs
  (process calls, HTTP download, JSON decoding), static/home.js, build.rs and
  the configuration files are not part of this model.
