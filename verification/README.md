# Verified models of the VedaDB drivers

This project models the self-contained state machines, indexes and printers of the VedaDB client drivers in Dafny and
proves what they promise. Each component is a specification on values, with the operations as functions and runs as
sequences of steps; the classes of the drivers are Dafny classes whose methods, loops included, are proved to compute
those functions in place; and the main results are lemmas about every input, every run or every interleaving.

| component | files | main results |
|---|---|---|
| wire protocol (`node/src/protocol.js`) | `Text`, `Protocol`, `ProtocolHandlers`, `Channels`, `Correlation`, `LateReplies`, `Promises` | framing ignores chunk boundaries; every command is settled exactly once; end to end, the n-th reply settles the n-th command with what it says, with timeouts if and only if late replies find no command waiting |
| query caches (`go/vedadb/cache.go`, `node/src/cache.js`) | `Recency`, `RecencyHistory`, `GoCache`, `NodeCache`, `CachedQueries` | one recency sequence refined by both; reads give what was stored last; LRU inclusion; expired entries go first; staleness is bounded if and only if the key tells queries apart |
| connection pool (`node/src/pool.js`) | `Pool`, `PoolAnswers`, `PoolArrivals`, `ConnectionPools` | who gets which connection; accounting, ownership and fairness under all interleavings of the stretches between awaits |
| migrator (`go/vedadb/migrator.go`) | `Migrations`, `MigrationOutcomes` | exactly the pending scripts; how far a run gets and why it stops; up and down again restores |
| circuit breakers (`node/src/circuit.js`, `go/vedadb/circuit.go`, `dotnet/VedaCircuitBreaker.cs`) | `NodeBreaker`, `NodeBreakerRecovery`, `GoBreaker`, `GoBreakerRecovery`, `GoBreakerRaces`, `GoBreakerSchedules`, `DotnetBreaker`, `DotnetBreakerRecovery` | which calls are admitted and how a breaker recovers, read off the history; when a breaker can wedge; safety with stale completions; rules that make single-instruction interleavings keep the bounds, sufficient and independent; the window refines the history |
| query text (`node/src/client.js`, `src/utils.ts`, `go/vedadb/query_builder.go`) | `SqlText`, `SqlTokens`, `Placeholders`, `WhereClause`, `QueryTexts`, `QueryPlaces`, `QuestionMarks`, `QueryBuilders`, `SqlReading`, `SqlPhrases`, `QueryReadings`, `QueryStatements`, `QueryCalls`, `QueryMeanings` | the built text reads and evaluates as called; substitution keeps tokens, printing keeps meaning and placeholders line up, each if and only if a condition on the input holds |
| backoff, polling, failover (`go/vedadb/retry.go`, `streams.go`, `failover.go`) | `Retries`, `Streams`, `StreamProgress`, `Failover` | wrap-around backoff is exact; exactly-once delivery; repeated selection is a stable sort |

## Reading guide

- The world around a component is a parameter: the outcome of calls and statements, the clock, random draws, the
  cutting of a byte stream into chunks, the order in which timers and completions arrive.
- `JSON.parse` is an arbitrary total classifier of lines into unparsable text, errors, events and other JSON.
- Clocks are integers that never go backwards. 64-bit wrap-around is explicit in `Retries`, where it decides the result.
- SQL is lexed as in sections 5.2 and 5.3 of ISO/IEC 9075-2: literals and quoted identifiers with doubled quotes,
  introducers, comments, and in `SqlTokens` the longest number or word and literals continued after a line break.
  `SqlReading` reads the statements of the builder, with AND binding closer than OR.
- A class method states its whole new state; `View()`, `State()` or a ghost `contents` is the value it refines. The
  table below lists the methods whose loops or linked structures carry proof; the others state a function written
  beside them.

## Where the code differs from what one would expect

Each of these is a lemma of the project.

- The reply to a command that timed out settles whichever command waits then; it is harmless exactly when none does
  (`LateReplies.TimeoutShiftsReplies`, `Correlation.StraightIffLateRepliesAlone`).
- The cache key of the Go cache does not tell all queries apart (`CachedQueries.KeyTextNotInjective`); answers are
  fresh exactly when it does (`CachedQueries.AlwaysFreshIff`), as for queries without a bar
  (`CachedQueries.KeyTextInjective`).
- A regular expression with the flag g can spare a matching key of the Node cache (`NodeCache.GlobalSpares`); it spares
  none exactly under the condition of `NodeCache.GlobalInvalidatesIff`.
- The warm-up of the pool adds connections it does not count (`Pool.BalancedIffNoWarmup`); waiters can be forgotten
  beside a free place (`Pool.FullUnlessForgotten`); a second drain resolves early (`Pool.SecondDrainReturnsEarly`,
  `Pool.SecondDrainLeavesClients`).
- The Node breaker wedges on errors that are not retryable, and when it admits fewer trial calls than it wants
  successes (`NodeBreaker.IgnoredErrorsWedge`, `NodeBreaker.NeverWedgesIff`).
- The separate atomic instructions of the Go breaker admit schedules that break its bounds on trial calls, recovery
  time and failures; `GoBreakerSchedules.TrialsBoundedIff` and `GoBreakerSchedules.RecoveryKeptIff` give rules for
  interleavings that are sufficient for the bounds and independent of each other.
- A migration script whose record could not be written runs again (`Migrations.UntrackedRunsAgain`).
- Substituted parameters can merge with their neighbours: two strings into one literal, even on two lines, two numbers
  into one number, a minus sign and a negative number into a comment (`Placeholders.TokensKeptIff`,
  `Placeholders.StringsOnTwoLinesMerge`).
- `= NULL` never selects the rows that `matchesWhere` keeps (`WhereClause.SameMeaningIff`).
- UPDATE with Where before Set swaps parameters (`QueryPlaces.SetAfterWhereSwaps`); UNION takes over the question marks
  of the other builder without its parameters (`QuestionMarks.UnionDropsParameters`, `QuestionMarks.UnionKeepsIff`).
- Where after WhereOr binds closer than the order of the calls suggests (`QueryMeanings.LeftToRightIff`).
- An overflow can pass for a short delay (`Retries.OverflowPassesForDelay`); negative retry counts report success
  without an attempt (`Retries.SucceededIff`, `Failover.SucceededIff`).
- Duplicates of the change stream are kept out by the server alone (`Streams.DuplicateIff`).
- Failover announces a node it will not try when the attempts are used up (`Failover.LastAnnouncementIsIdle`), and may
  announce another node than it tries under the random strategy (`Failover.RandomAnnouncesNextIff`).

## Model

| member | source | states |
|---|---|---|
| `Protocol.DrainAppend` | node/src/protocol.js:245-284 | Draining the buffer before or after more bytes arrive gives the same state and the same log of effects. |
| `Protocol.FeedTwice` | node/src/protocol.js:112-115 | Two chunks with nothing in between act like their concatenation, from any state. |
| `Protocol.ChunkingIsInvisible` | node/src/protocol.js:108-131 | However one byte stream is cut into chunks, the handler ends in the same state with the same log. |
| `Protocol.ApplyInv` | node/src/protocol.js:93-307 | Every operation, timer, event line, disconnect and close keeps the invariant that `ExactlyOnce` states. |
| `Protocol.ExactlyOnce` | node/src/protocol.js:93-307 | In every run the ids 1..commandId are either pending and unsettled or settled exactly once; pending ids strictly increase; every armed timer belongs to a pending command; the queue never exceeds maxQueueSize and is empty while disconnected. |
| `Protocol.PipelineWritesOneLineEach` | node/src/protocol.js:174-208 | `pipeline` puts exactly one line per command on the wire, whatever characters the commands contain, and settles nothing. |
| `Protocol.PipelineIsSends` | node/src/protocol.js:140-208 | For trimmed newline-free commands that fit the queue, `pipeline` and successive `send` calls leave the same queue, ids, armed timers and bytes. |
| `ProtocolHandlers.ProtocolHandler.OnData` | node/src/protocol.js:112-115 | Appending and draining in place refine `Protocol.Feed`. |
| `ProtocolHandlers.ProtocolHandler.DrainBuffer` | node/src/protocol.js:245-284 | The loop handles the complete lines in order, leaves no newline behind, and terminates because the buffer shrinks. |
| `ProtocolHandlers.ProtocolHandler.TakeLine` | node/src/protocol.js:246-256 | One iteration: the first line leaves the buffer and is handled; blank lines do nothing. |
| `ProtocolHandlers.ProtocolHandler.HandleReply` | node/src/protocol.js:256-282 | The body of the loop for a line that meets a waiting command computes `Protocol.ProcessLine` in place; what that does to the promise is stated by `Promises.LineSettlesOldest`, and over runs by `Promises.EveryReplySaysWhatTheServerSaid`. |
| `ProtocolHandlers.ProtocolHandler.Send` | node/src/protocol.js:140-166 | Refuses without a connection or at a full queue; else issues the next id, arms its timer and writes one line. |
| `ProtocolHandlers.ProtocolHandler.Pipeline` | node/src/protocol.js:174-208 | All or nothing: refuses a batch that does not fit; else issues consecutive ids and writes the batch once. |
| `ProtocolHandlers.ProtocolHandler.OnTimer` | node/src/protocol.js:153-161 | A timed-out command leaves the queue wherever it stands and is rejected; the others keep their order. |
| `ProtocolHandlers.ProtocolHandler.RejectAll` | node/src/protocol.js:301-307 | Settles everything pending, oldest first, and leaves an empty queue. |
| `Promises.LogIsTruthful` | node/src/protocol.js:245-284 | In every run, timeouts and disconnects included, no promise is resolved with a line that carries an error, or marked as unread unless it is not JSON, and none is rejected as a failed query unless the line carries an error; emitted events and messages are what they are said to be. |
| `Promises.LineSettlesOldest` | node/src/protocol.js:245-284 | A line that arrives while commands wait: an error rejects the oldest with a query error, an event is emitted and leaves it first in the queue without its timer, and anything else resolves it with the trimmed line. |
| `Text.TrimIs` | node/src/protocol.js:248-248 | What `trim` removes is white space at both ends, and all of it. |
| `Promises.PromisesSayWhatTheServerSaid` | node/src/protocol.js:93-307 | End to end and without timeouts, the n-th promise settled is that of command n: a query error with the trimmed text of the n-th reply if and only if that reply carries an error, and else that text, marked unread if and only if it is not JSON. |
| `Promises.EveryReplySaysWhatTheServerSaid` | node/src/protocol.js:93-307 | The same with any timeouts: each reply that finds commands waiting settles the oldest of them, in the order of the replies, with what the reply says; no other promise is settled by a reply. |
| `Promises.SendAnswers` | node/src/protocol.js:140-166 | `send` is refused exactly without a connection or at a full queue, and changes nothing then; otherwise the command is last in the queue under the next number, one line is written, and a timer is armed exactly if its own limit, or without one the default, is positive. |
| `Promises.PipelineAnswers` | node/src/protocol.js:174-208 | `pipeline` is refused exactly without a connection or when the whole batch does not fit, and changes nothing then; otherwise its commands are queued last under consecutive numbers and written at once, each trimmed and on one line of its own, and each may time out as with `send`. |
| `Promises.EndingsRejectAll` | node/src/protocol.js:93-131 | A closed socket, a silent socket and `close` reject every waiting promise with their own reason, oldest first, and differ in what they do to the connection and to the buffer. |
| `Promises.TimersRejectTheirCommand` | node/src/protocol.js:153-161 | After every run, an armed timer that goes off rejects exactly its own command and leaves the others queued. |
| `Channels.NextInv` | node/src/protocol.js:108-307 | Every move of client, server, network and timers keeps client, channels and server in step. |
| `Correlation.StraightIffLateRepliesAlone` | node/src/protocol.js:127-284 | For every run with any command timeouts and socket timeouts: each reply settles the oldest command that waits, if any; every reply that settles a command settles its own, if and only if every reply to a timed-out command is handled while no command waits; and then a reply that settles nothing is such a late one. |
| `Correlation.RepliesReachTheirCommands` | node/src/protocol.js:140-284 | In every run without a timeout, under any mix of send, pipeline and chunking, command n is settled by the n-th reply; the rest are pending in order; events are emitted in order. |
| `Correlation.QuietMeansSettled` | node/src/protocol.js:127-284 | In every run, timeouts included: once both channels are empty no command waits, each command sent has been settled exactly once, and every event has been emitted. |
| `LateReplies.TimeoutShiftsReplies` | node/src/protocol.js:153-161 | A run from the start: the first of two commands times out, and the reply the server gave to it settles the second. |
| `Recency.RunOk` | go/vedadb/cache.go:79-166 | After every trace the cache holds each key at most once and no more entries than its capacity. |
| `Recency.ExpiredGoFirst` | go/vedadb/cache.go:109-147 | `Set` never gives up an unexpired entry while an expired one is present. |
| `Recency.ApplyNested` | go/vedadb/cache.go:79-166 | One operation on two caches of sizes m <= n keeps the smaller one contained in the larger one, with at least as much slack in the larger. |
| `Recency.LruInclusion` | go/vedadb/cache.go:79-147 | After every trace with one clock, the smaller cache is a subsequence of the larger, so each of its hits is a hit on the same entry in the larger. |
| `Recency.MoreRoomMoreHits` | go/vedadb/cache.go:79-101 | On every trace the larger cache has at least as many hits. |
| `RecencyHistory.ReadsLastStored` | go/vedadb/cache.go:75-147 | After every trace of reads, stores, removals and sweeps, of either cache: a read gives the entry stored last under its key, with its hits counted, and never one that was removed since or is too old; and it does give it unless at least max(maxSize, 1) other keys were used since. |
| `GoCache.Cache.Get` | go/vedadb/cache.go:79-101 | Refines the recency lookup on a map and a list that share their elements; counts one hit or one miss. |
| `GoCache.Cache.SetWithTTL` | go/vedadb/cache.go:109-147 | Expired entries go first; then the entry is replaced in front, or the oldest is evicted at capacity and the new one pushed. |
| `GoCache.Cache.Delete` | go/vedadb/cache.go:150-157 | Removes exactly the key from map and list. |
| `GoCache.Cache.Evict` | go/vedadb/cache.go:273-278 | Removes one element from both structures and counts one eviction. |
| `GoCache.Cache.EvictExpired` | go/vedadb/cache.go:286-295 | The walk from the back keeps exactly the unexpired entries in order and counts the others as evictions. |
| `CachedQueries.CachedClient.QueryWithCache` | go/vedadb/cache.go:204-223 | Only SELECT goes through the cache; a hit does not ask the server, a failure stores nothing. |
| `CachedQueries.CachedClient.InvalidateTable` | go/vedadb/cache.go:226-230 | Any pattern empties the whole cache. |
| `CachedQueries.BoundedStaleness` | go/vedadb/cache.go:204-223 | After every run, an answer at time t is what the server answers now or answered at some time in [t - TTL, t], though the database changes; the cache key must tell the SELECT queries in use apart, unless the time to live is negative. |
| `CachedQueries.IsSelectIff` | go/vedadb/cache.go:297-308 | A statement goes through the cache exactly if its first six characters, in upper case, are SELECT. |
| `CachedQueries.OthersReachTheServer` | go/vedadb/cache.go:204-208 | Every other statement is answered by the server and leaves the cache alone. |
| `CachedQueries.MissIsStored` | go/vedadb/cache.go:210-223 | A query that is not in the cache is answered by the server; a result is stored in front with its creation time and its expiry, a failure is not. |
| `CachedQueries.RepeatIsAnsweredAlike` | go/vedadb/cache.go:204-223 | A query asked again within the time to live is answered as the first time, whatever another server would say by then. |
| `CachedQueries.ExpiredIsAskedAnew` | go/vedadb/cache.go:204-223 | A query whose entry is beyond its time to live is answered by the server and stored anew; a failure only drops the entry. |
| `CachedQueries.AlwaysFreshIff` | go/vedadb/cache.go:169-223 | All answers are fresh, for all servers and histories, if and only if the key tells the SELECT queries in use apart or the time to live is negative. |
| `CachedQueries.CollisionAnswersTheOther` | go/vedadb/cache.go:169-176 | With one key for two queries, the second is answered with the rows of the first. |
| `CachedQueries.KeyTextNotInjective` | go/vedadb/cache.go:169-176 | The text that is hashed is the same for two different queries: a parameter can hide in the statement, and two parameters in one. |
| `CachedQueries.KeyTextInjective` | go/vedadb/cache.go:169-176 | Queries whose statement and parameters hold no bar are told apart by that text. |
| `CachedQueries.BarFreeIsInjective` | go/vedadb/cache.go:169-176 | So the key tells all bar-free SELECT queries apart on which the hash does not collide. |
| `NodeCache.QueryCache.Get` | node/src/cache.js:99-121 | Refines the recency lookup on a map and an access order; an expired entry is dropped from both. |
| `NodeCache.QueryCache.Set` | node/src/cache.js:131-142 | Refines the recency store without purging; a time to live of 0 or less never expires. |
| `NodeCache.QueryCache.Contains` | node/src/cache.js:151-161 | Present and unexpired; an expired entry is dropped, the order is not touched. |
| `NodeCache.QueryCache.Delete` | node/src/cache.js:170-175 | Removes exactly the key and says whether it was there. |
| `NodeCache.QueryCache.Invalidate` | node/src/cache.js:183-195 | Visits every key once, in some order, and drops exactly those that pass the test at their turn; the test may keep a state as a RegExp with the flag g does. The order of the rest stays, and their number is returned. |
| `NodeCache.PlainInvalidates` | node/src/cache.js:183-195 | A test without a state drops exactly the matching keys, in whatever order they are visited. |
| `NodeCache.TourIff` | node/src/cache.js:186-192 | For any test with any state and any order of the keys: exactly the entries of a kind are kept if and only if each key passes or fails accordingly in the state left by the keys before it. |
| `NodeCache.GlobalInvalidatesIff` | node/src/cache.js:183-195 | For every expression with the flag g, every `lastIndex` at the start and every order of the keys: exactly the matching keys are dropped if and only if each matching key visited first, or directly after one that was dropped, matches at or after the place where the match before it ended. |
| `NodeCache.CharacterInvalidatesIff` | node/src/cache.js:183-195 | The same for the expression of one character: exactly the keys with the character go if and only if each of them visited directly after a dropped one holds it after the match there. |
| `NodeCache.GlobalSpares` | node/src/cache.js:184-191 | Two keys for which an expression with the flag g drops the first and spares the second, though both match. |
| `NodeCache.QueryCache.Cleanup` | node/src/cache.js:217-230 | Drops exactly what has expired, the very instant of expiry included. |
| `Pool.PoolInvariant` | node/src/pool.js:133-438 | In every interleaving of every pool: idle + checked out + being created = total + connections warmed up, and total <= maxSize; no connection has two owners; waiters are served in order of arrival; a closed or draining pool has no waiters. Without a minimum size also: nobody waits while one is idle, a closed or draining pool has no idle connection, and a drain that resolves leaves none. |
| `Pool.ApplyBooks` | node/src/pool.js:133-438 | Every stretch between two awaits, and every timer, keeps the books of that invariant for any minimum size. |
| `Pool.BalancedIffNoWarmup` | node/src/pool.js:366-375 | idle + active = total in every run if and only if the warm-up has nothing to do. |
| `Pool.FullUnlessForgotten` | node/src/pool.js:146-205 | Waiters are left beside a free place exactly after a failed connection attempt or the release of a dead client, and, beside connections of the warm-up, after an idle timer or when a health check or an acquire destroys dead ones it does not replace. |
| `Pool.NobodyForgotten` | node/src/pool.js:133-438 | In every run from the start, nobody waits beside a free place until the first such step, and that step leaves somebody waiting. |
| `Pool.SecondDrainReturnsEarly` | node/src/pool.js:297-337 | A drain called during a drain resolves at once with every checked-out connection still there. |
| `Pool.SecondDrainLeavesClients` | node/src/pool.js:297-337 | For every pool size of at least 1, a run from the start: the second drain resolves at once while a client is checked out and the first drain still waits for it. |
| `ConnectionPools.ConnectionPool.PopIdle` | node/src/pool.js:143-154 | The loop computes `Pool.TakeIdle` in place; that it destroys the dead entries behind the last live one and hands that out is stated by `PoolAnswers.AcquireAnswers`. |
| `PoolAnswers.AcquireAnswers` | node/src/pool.js:133-187 | For every state: `acquire` refuses exactly a closed or draining pool; it hands out a connection exactly if some idle one is connected, and then the last such one, giving up only the dead ones behind it; else it connects exactly if the dead ones leave room, and else queues last. No connection that was alive dies. |
| `PoolAnswers.NoDeadHandedOut` | node/src/pool.js:133-222 | In no run does an `acquire` or a `release`, with the waiter it serves, hand out a connection that is dead. |
| `PoolAnswers.ReleaseAnswers` | node/src/pool.js:190-222 | A connection that comes back dead, or to a pool that is over, is given up; else the waiter that came first gets it, and without waiters it goes to the end of the idle list, with a timer exactly if there is an idle timeout and there are minSize idle ones already. |
| `PoolAnswers.TimersAreArmed` | node/src/pool.js:133-438 | In every run exactly the waiters and the idle connections that are to be closed have armed timers, and with an idle timeout at most minSize idle connections stay for good. |
| `PoolAnswers.WaiterTimerTurnsAway` | node/src/pool.js:171-184 | After every run a waiter whose timer goes off is turned away; the others keep their order. |
| `PoolAnswers.IdleTimerCloses` | node/src/pool.js:391-404 | After every run an idle connection whose timer goes off is closed and no longer counted; the others stay in place. |
| `PoolAnswers.HealthCheckSweeps` | node/src/pool.js:413-438 | The health check gives up exactly the dead idle connections, keeps the others in order, and in an open pool below its minimum starts exactly as many connections as are missing. |
| `PoolArrivals.WarmupStarts` | node/src/pool.js:366-375 | After every run a warm-up starts exactly as many attempts as connections are missing to min(minSize, maxSize), with new numbers, and does nothing else. |
| `PoolArrivals.WarmupsArrive` | node/src/pool.js:366-375 | After every run an attempt of the warm-up that ends well puts a new connection at the end of the idle list without counting it; one that fails leaves the pool as it is. |
| `PoolArrivals.ConnectionsArrive` | node/src/pool.js:158-187 | After every run an attempt of an `acquire` that ends well checks out a new connection, and one that fails frees the place reserved for it; nothing else changes. |
| `PoolAnswers.EndsEmptyThePool` | node/src/pool.js:297-362 | `close`, and `drain` as soon as nothing is checked out, close exactly the idle connections and turn every waiter away in order of arrival; checked-out connections are left to come back. |
| `PoolAnswers.DrainEndsIff` | node/src/pool.js:313-337 | A drain that waits ends exactly at a poll that finds nothing checked out. |
| `ConnectionPools.ConnectionPool.Acquire` | node/src/pool.js:133-183 | Computes `Pool.Acquire` in place, with its four answers; `PoolAnswers.AcquireAnswers` states which one it gives and to whom. |
| `ConnectionPools.ConnectionPool.Release` | node/src/pool.js:189-218 | A dead client, or any client of a closing pool, is destroyed; else it goes to the first waiter, else to idle. |
| `ConnectionPools.ConnectionPool.OnWaiterTimer` | node/src/pool.js:172-182 | A waiter that times out leaves the queue without disturbing the order. |
| `ConnectionPools.ConnectionPool.OnIdleTimer` | node/src/pool.js:398-404 | An idle connection that times out leaves the list and is destroyed. |
| `ConnectionPools.ConnectionPool.Warmup` | node/src/pool.js:366-375 | Starts as many connections as total lacks to the minimum, without counting them. |
| `ConnectionPools.ConnectionPool.HealthCheck` | node/src/pool.js:416-438 | Removing the dead positions highest first keeps exactly the live idle entries in order. |
| `ConnectionPools.ConnectionPool.FindDead` | node/src/pool.js:420-426 | The loop from the back finds exactly the dead positions, highest first. |
| `ConnectionPools.ConnectionPool.RemovePositions` | node/src/pool.js:427-431 | Splicing them out one by one never misses: each position is still valid when its turn comes. |
| `ConnectionPools.RemoveAllSweeps` | node/src/pool.js:420-431 | Removal by descending positions is the same as keeping the live entries. |
| `ConnectionPools.ConnectionPool.CloseIdle` | node/src/pool.js:306-311 | Every idle connection is closed, its timer cleared and its place given back. |
| `ConnectionPools.ConnectionPool.RejectWaiters` | node/src/pool.js:314-318 | Every waiter is turned away once, in order of arrival, and its timer cleared. |
| `ConnectionPools.ConnectionPool.Drain` | node/src/pool.js:297-337 | Empties idle and queue; resolves at once when nothing is checked out. |
| `NodeBreaker.BreakerInvariant` | node/src/circuit.js:88-180 | In every run, stale completions included: one armed reset timer while open and none otherwise; closed means fewer failures than the threshold; half-open means fewer successes and no more trial calls than allowed. |
| `NodeBreaker.NeverWedgesIff` | node/src/circuit.js:63-168 | With retryable errors only, half-open never refuses calls without a trial call in flight, if and only if halfOpenMaxCalls >= successThreshold. |
| `NodeBreaker.IgnoredErrorsWedge` | node/src/circuit.js:122-134 | Errors that are not retryable wedge the breaker under every configuration. |
| `NodeBreaker.WedgedForGood` | node/src/circuit.js:63-168 | A wedged breaker with nothing in flight changes only when it is forced. |
| `NodeBreaker.WedgedRuns` | node/src/circuit.js:63-168 | Once nothing is in flight, a wedged breaker refuses the next call after every run of calls, completions and timers without a forced change. |
| `NodeBreakerRecovery.AdmitsIff` | node/src/circuit.js:63-92 | After every run, a call is admitted exactly if the breaker is closed, or half-open with fewer than halfOpenMaxCalls calls admitted since it turned so; an admission changes no phase and a refusal nothing. |
| `NodeBreakerRecovery.PhasesChange` | node/src/circuit.js:104-186 | After every run, the phase after any next step, read off the history: a closed breaker opens exactly when forced or by the error that makes failureThreshold of them in a row, an open one turns half-open exactly when its armed timer goes off, a half-open one opens by the first error that counts and closes exactly with success number successThreshold. |
| `NodeBreakerRecovery.Recovers` | node/src/circuit.js:63-168 | A breaker that may admit as many trial calls as it wants successes recovers from every run that leaves it open: its timer is armed, and after it went off successThreshold calls in a row that succeed close it with no failures. |
| `NodeBreaker.CircuitBreaker.Begin` | node/src/circuit.js:88-97 | Admits when closed or half-open with room, and counts trial calls only. |
| `NodeBreaker.CircuitBreaker.Complete` | node/src/circuit.js:99-107 | A completion is judged by the state it finds, not by the one it was admitted in. |
| `GoBreaker.BreakerSafety` | go/vedadb/circuit.go:86-238 | In every run of atomic admissions and completions: half-open means a trial call of this epoch is in flight; an epoch admits at most 1 + HalfOpenMaxCalls; closed means fewer failures than the threshold. |
| `GoBreaker.NoCallDuringRecovery` | go/vedadb/circuit.go:86-104 | No call starts within RecoveryTimeout of an opening unless a reset came in between. |
| `GoBreaker.ClosedIsHealthyIff` | go/vedadb/circuit.go:203-212 | Closed implies fewer failures than the threshold in every run if and only if the threshold is at least 1. |
| `GoBreakerRecovery.AdmitsIff` | go/vedadb/circuit.go:86-125 | After every run and delay: a closed breaker admits every call, an open one exactly if the last failure is at least RecoveryTimeout old, and then as the first trial call of a new epoch, a half-open one exactly as long as no more than HalfOpenMaxCalls trial calls are under way; a refused call changes nothing. |
| `GoBreakerRecovery.TrialsFillUp` | go/vedadb/circuit.go:96-112 | Once the recovery time has passed, of any number of calls that arrive before one of them ends, exactly the first 1 + HalfOpenMaxCalls are admitted. |
| `GoBreakerRecovery.EndsDecide` | go/vedadb/circuit.go:114-217 | After every run: the end of a trial call closes a half-open breaker with no failures or opens it; a closed breaker opens exactly with failure number FailureThreshold since the last success or reset. |
| `GoBreakerRecovery.OthersDecide` | go/vedadb/circuit.go:86-238 | After every run: a reset closes the breaker and forgets the failures; an admission counts nothing and never closes or opens it. |
| `GoBreakerRecovery.StaysClosed` | go/vedadb/circuit.go:176-217 | A breaker stays closed as long as fewer than FailureThreshold calls have failed since the last success or reset. |
| `GoBreakerRecovery.Recovers` | go/vedadb/circuit.go:86-217 | From every run that leaves the breaker open: once RecoveryTimeout has passed since the last failure, the next call is a trial call, and its success, whenever it comes, closes the breaker with no failures. |
| `GoBreakerRecovery.CallIsAdmit` | go/vedadb/circuit.go:86-112 | The single instructions of `Call` up to the function, run without interruption, change the fields and decide as the one-step admission does. |
| `GoBreakerRecovery.ReturnIsFinish` | go/vedadb/circuit.go:114-217 | The same for the instructions after the function. |
| `GoBreakerRecovery.ResetIsReset` | go/vedadb/circuit.go:227-238 | The same for the instructions of `Reset`. |
| `GoBreaker.CircuitBreaker.Begin` | go/vedadb/circuit.go:86-119 | Computes `GoBreaker.Admit` in place; which calls that admits is stated by `GoBreakerRecovery.AdmitsIff` and `GoBreakerRecovery.Recovers`. |
| `GoBreaker.CircuitBreaker.Complete` | go/vedadb/circuit.go:156-217 | A trial call leaves half-open; a failure opens a closed breaker at the threshold; a stale completion swaps nothing. |
| `GoBreakerRaces.HalfOpenIsLeft` | go/vedadb/circuit.go:86-188 | In every interleaving of single atomic instructions a half-open breaker has a goroutine that will take it out of half-open. |
| `GoBreakerRaces.HalfOpenEnds` | go/vedadb/circuit.go:96-188 | From every reachable half-open world some goroutine needs at most three instructions of its own, whatever its function returns, until the breaker is closed or open. |
| `GoBreakerRaces.ClosedIsRepaired` | go/vedadb/circuit.go:203-217 | In every interleaving a closed breaker with too many failures has a goroutine about to open it or to forget the failures; with all goroutines done there is none. |
| `GoBreakerRaces.RulesBoundTrials` | go/vedadb/circuit.go:96-112 | In every interleaving that keeps three rules (between the swap to half-open and the clearing of the counter nobody is counted and nobody swaps again; no count is pending at that swap; no reset clears a count in use) at most 1 + HalfOpenMaxCalls trial calls start per half-open epoch. |
| `GoBreakerRaces.RulesGiveRecovery` | go/vedadb/circuit.go:90-104 | In every interleaving that keeps four rules on when the failure time is read, compared and stored, no call starts within RecoveryTimeout of an opening unless a reset came in between. |
| `GoBreakerSchedules.TrialsBoundedIff` | go/vedadb/circuit.go:86-238 | The three rules are sufficient and independent, for every threshold and every limit of at least 1: of the seven rules, a set bounds the trial calls of every run from the start if and only if it contains those three. |
| `GoBreakerSchedules.RecoveryKeptIff` | go/vedadb/circuit.go:86-238 | The four rules are sufficient and independent, for every threshold, limit and positive RecoveryTimeout: of the seven rules, a set keeps calls out of the recovery time in every run from the start if and only if it contains those four. |
| `GoBreakerSchedules.TooManyTrials` | go/vedadb/circuit.go:96-112 | For every limit, a run from the start that breaks only the first rule and lets too many trial calls start: another goroutine is counted before the counter is cleared. |
| `GoBreakerSchedules.CallDuringRecovery` | go/vedadb/circuit.go:176-212 | A run from the start that breaks only one rule and starts a call at the moment of an opening: the failure time is stored after the swap. |
| `GoBreakerSchedules.ClosedAtThreshold` | go/vedadb/circuit.go:203-212 | For every threshold, a run from the start that keeps all the rules and leaves a closed breaker holding as many failures as the threshold between two instructions. |
| `DotnetBreaker.WindowRefinesHistory` | dotnet/VedaCircuitBreaker.cs:75-85 | In every run the pruned queue counts exactly the failures in the window since the last success or reset, and closed means that count is below the threshold. |
| `DotnetBreaker.ClosesAfterStreak` | dotnet/VedaCircuitBreaker.cs:137-151 | A success closes a half-open breaker exactly when it completes a streak of SuccessThreshold successes. |
| `DotnetBreaker.NothingDuringRecovery` | dotnet/VedaCircuitBreaker.cs:179-212 | An open breaker lets nothing through before its recovery time has passed. |
| `DotnetBreakerRecovery.LetsThroughIff` | dotnet/VedaCircuitBreaker.cs:179-210 | After every run and delay: a closed or half-open breaker lets every call through, an open one exactly if its recovery time has passed since the failure that opened it, and is half-open from then on. |
| `DotnetBreakerRecovery.PhasesChange` | dotnet/VedaCircuitBreaker.cs:137-210 | After every run, the phase after any next step, read off the record: a closed breaker opens exactly by a failure that makes failureThreshold of them in the window, an open one stays open until it is asked late enough or reset, a half-open one opens by any failure and closes exactly by the success that completes the streak. |
| `DotnetBreakerRecovery.CountIs` | dotnet/VedaCircuitBreaker.cs:224-230 | The number of filtered failures is the number of places in the record with a failure in the window and no success or reset after it. |
| `DotnetBreakerRecovery.Recovers` | dotnet/VedaCircuitBreaker.cs:107-210 | From every run that leaves the breaker open: asked after its recovery time it lets the call through, and calls that succeed, at whatever times, close it exactly when there are successThreshold of them. |
| `DotnetBreaker.CircuitBreaker.OnFailure` | dotnet/VedaCircuitBreaker.cs:156-174 | Stamps and prunes with two readings of the clock; opens in half-open or at the threshold, and renews the opening time. |
| `DotnetBreaker.CircuitBreaker.IsExecutable` | dotnet/VedaCircuitBreaker.cs:179-186 | Allows unless open; turns half-open when the recovery time has passed. |
| `DotnetBreaker.CircuitBreaker.PruneFailures` | dotnet/VedaCircuitBreaker.cs:224-229 | The loop drops exactly the failures before the window from the front of the queue. |
| `Migrations.PendingExactly` | go/vedadb/migrator.go:115-156 | The pending migrations are the registered ones that are not recorded, each once, in ascending order. |
| `Migrations.UpExactly` | go/vedadb/migrator.go:159-205 | Without an error exactly the pending scripts ran, each once and in order, and are recorded; on an error at v exactly the pending versions below v are newly recorded and at most the script of v ran unrecorded. |
| `Migrations.SecondUpRunsNothing` | go/vedadb/migrator.go:159-182 | After an `Up` without an error a second one runs no script, whatever fails then. |
| `Migrations.UntrackedRunsAgain` | go/vedadb/migrator.go:282-325 | A script that ran but could not be recorded is the first one pending: the next `Up` runs it again. |
| `Migrations.UndoEach` | go/vedadb/migrator.go:243-279 | Rolling back what a run recorded passes through the very states of that run. |
| `Migrations.UpThenDownRestores` | go/vedadb/migrator.go:185-279 | If nothing fails by itself, and the migrations that Up has to apply have inverse scripts and lie above the applied ones, then up to any version and back down restores schema and tracking table, even if a script of the way up was refused. Nothing is asked of the other migrations. |
| `MigrationOutcomes.ApplyIs` | go/vedadb/migrator.go:282-325 | Of one migration, in either direction: a blank script is refused before anything happens, a script that fails leaves schema and table as they are, and after a script that ran its row is written or removed, unless that statement fails or the version is recorded already. |
| `MigrationOutcomes.UpStops` | go/vedadb/migrator.go:159-205 | For every database whose statements may fail: the migrations that are registered, not recorded and not beyond the target go through in ascending order up to the first that cannot, with its own script, statement and schema as the reason; rows, executed scripts and schema are those of the ones before it. |
| `MigrationOutcomes.UpSucceedsIff` | go/vedadb/migrator.go:159-205 | `Up` and `UpTo` report success if and only if none of those scripts is blank, no statement fails, and every script runs after those before it. |
| `MigrationOutcomes.DownToStops` | go/vedadb/migrator.go:243-279 | The same for `DownTo`: what is registered, recorded and above the target is rolled back, highest first, up to the first that cannot be; rows without a registered migration stay. |
| `MigrationOutcomes.DownToSucceedsIff` | go/vedadb/migrator.go:243-279 | `DownTo` reports success if and only if none of those scripts is blank, no statement fails, and every script runs; then just the rows at or below the target and those not registered are left. |
| `MigrationOutcomes.DownUndoesHighest` | go/vedadb/migrator.go:208-240 | `Down` undoes the highest recorded version and nothing else, with its own script; if that version is not registered it says so and changes nothing, and without rows it does nothing. |
| `Migrations.Migrator.Apply` | go/vedadb/migrator.go:282-325 | Blank scripts are refused; a script that fails is not recorded; a script that ran may still fail to be recorded. |
| `Migrations.Migrator.GetStatus` | go/vedadb/migrator.go:115-156 | The pending list of a registry sorted by version. |
| `Migrations.Migrator.MigrateUp` | go/vedadb/migrator.go:159-205 | Runs the pending migrations up to the target and stops at the first error. |
| `Migrations.Migrator.UpList` | go/vedadb/migrator.go:169-204 | The loop stops at the first version beyond the target. |
| `Migrations.Migrator.MigrateDownTo` | go/vedadb/migrator.go:243-279 | Rolls back the applied versions above the target, highest first; unregistered ones are skipped. |
| `Migrations.Migrator.DownList` | go/vedadb/migrator.go:253-276 | The loop from the back over the applied rows. |
| `Migrations.Migrator.MigrateDown` | go/vedadb/migrator.go:208-240 | Rolls back the last applied version; an unregistered one is an error. |
| `Placeholders.TokensKeptIff` | node/src/client.js:29-65 | For all templates and parameters: the substituted text has the tokens of the template, with one word, one number after its sign or one literal for each parameter, if and only if no placeholder of a parameter is inside a literal, quoted identifier or comment and no token reads on into what follows (`a-$1` with -5, `$1$2` with 1 and 2, two strings on two lines). Literals continued after a line break are one token. Which parameter a placeholder stands for is `Placeholders.PlaceholderPrintsItsParameter`. |
| `Placeholders.PlaceholderPrintsItsParameter` | node/src/client.js:58-65 | For every number of any length, leading zeros included, in front of anything that does not begin with a digit: the placeholder is replaced by that very parameter, and stays as it is if there is none, and the rest is substituted for itself. |
| `Placeholders.ValueReadsBack` | node/src/client.js:29-46 | Every value, printed for SQL, is read back as itself: numbers with their sign, texts with their quotes, truth values and NULL, and objects as the text of their JSON. |
| `SqlText.ShowsDecimal` | node/src/client.js:60-63 | The digits printed for a number have that number as their place value. |
| `Placeholders.StringsOnTwoLinesMerge` | node/src/client.js:58-65 | Two string parameters on two lines become a single literal, for all strings. |
| `SqlTokens.ReadsIff` | node/src/client.js:58-65 | A token in front of more text is still read as itself if and only if it does not read on into that text: into the next character, or, for a literal, also into a quote after white space and comments with a line break. |
| `Placeholders.LiteralHoldsString` | node/src/client.js:33-33 | The literal printed for a string decodes to that very string, quotes and `$2` included. |
| `SqlText.ScanDoubled` | node/src/client.js:33-33 | A literal with doubled quotes decodes to the string it was made of, whatever follows it except a quote. |
| `WhereClause.PrintThenParse` | src/utils.ts:188-194 | Parsing the printed clause recovers the map, whatever quotes, spaces or keywords its keys and values contain. |
| `WhereClause.SelectsIsMatches` | src/utils.ts:136-141 | Without null or undefined values, SQL selects with the printed clause exactly the rows that the filter keeps. |
| `WhereClause.SameMeaningIff` | src/utils.ts:136-194 | The clause and the filter agree on every row if and only if no value is null or undefined. |
| `WhereClause.MatchesWhere` | src/utils.ts:136-141 | The filter keeps a row exactly when every key has the value asked for. |
| `QueryPlaces.RunParamsStand` | go/vedadb/query_builder.go:96-183 | In every call sequence the k-th parameter is the value of the clause it was given for. |
| `QueryPlaces.PlaceholdersLineUpIff` | go/vedadb/query_builder.go:96-459 | Of the question marks that the builder prints itself, the k-th stands for the clause of `Params()[k]`, for all k, with equal counts, if and only if the calls fit: no IN or IS NULL through Where, no Set after a condition with parameters, rows of one length, no parameters for clauses that are not printed. Other question marks are counted by `QuestionMarks.TextLinesUpIff`. |
| `QuestionMarks.TextLinesUpIff` | go/vedadb/query_builder.go:83-459 | For every kind of statement and every sequence of calls, UNION included: the k-th `?` of the text, wherever it comes from, was printed for the clause of the k-th parameter, with equal counts, if and only if the calls fit and no text that this kind of statement prints (table, columns, operators, joins, HAVING, orders, RETURNING, the last UNION text) holds a `?`. |
| `QuestionMarks.UnionKeepsIff` | go/vedadb/query_builder.go:261-267 | A SELECT whose question marks and parameters line up still does after `Union(other)` if and only if the other builder prints no `?`, neither for a parameter nor in a text; the parameters are those from before. |
| `QuestionMarks.UnionAddsMarks` | go/vedadb/query_builder.go:261-267 | The first UNION adds as many question marks to the text as the other text holds, and no parameter. |
| `QuestionMarks.UnionDropsParameters` | go/vedadb/query_builder.go:261-267 | Two SELECT statements with one condition each line up by themselves; their UNION has fitting calls, two question marks and one parameter. |
| `QuestionMarks.MarksAreQuestionMarks` | go/vedadb/query_builder.go:311-459 | When no other piece of the text holds a `?`, the k-th question mark of the text is the one printed for the k-th placeholder: the positions agree, and there are as many. |
| `QuestionMarks.EachMarkHasItsParameter` | go/vedadb/query_builder.go:270-459 | For fitting calls without `?` in names, the text holds exactly as many question marks as there are parameters, and the k-th is printed for the clause that holds the k-th parameter. |
| `QueryCalls.ReadsAsCalled` | go/vedadb/query_builder.go:83-472 | For SELECT, INSERT, UPDATE and DELETE and every sequence of calls whose names are words: the text of `Build`, read by a reader of SQL statements, is the statement called for: table, columns, assigned columns in order, conditions in order with their columns, operators and tests, joined by AND or OR as called, joins, groups, orders with their directions, limit, offset and RETURNING. |
| `QueryStatements.BuildReads` | go/vedadb/query_builder.go:270-472 | What is written for the fields of any builder whose names are words is read back as the statement these fields stand for. |
| `QueryMeanings.TakesAsCalled` | go/vedadb/query_builder.go:83-459 | For every SELECT, UPDATE or DELETE with fitting calls and every row: the text, read as SQL and evaluated with `Params()`, takes the row exactly if the conditions of the calls do, each with the value given in its own call. |
| `QueryMeanings.AllConditionsHold` | go/vedadb/query_builder.go:122-184 | Without WhereOr a row is taken exactly if every condition holds for it. |
| `QueryMeanings.LeftToRightIff` | go/vedadb/query_builder.go:122-142 | SQL takes the rows that the calls suggest when read from left to right, whatever holds for them, if and only if no condition joined by AND comes after one joined by OR. |
| `QueryPlaces.SetAfterWhereSwaps` | go/vedadb/query_builder.go:96-132 | UPDATE with Where before Set binds the new name to the condition and the id to the assignment. |
| `QueryTexts.BuildMarksAre` | go/vedadb/query_builder.go:311-459 | The places of the question marks in each kind of statement, read off its clauses. |
| `QueryBuilders.QueryBuilder.Build` | go/vedadb/query_builder.go:270-286 | Each kind of statement is written by its own loops and yields the text of `QueryTexts.Build`, which `QueryCalls.ReadsAsCalled` reads back as the statement called for. |
| `QueryBuilders.QueryBuilder.BuildSelect` | go/vedadb/query_builder.go:311-355 | Writes the text whose question marks `QueryTexts.BuildMarksAre` locates. |
| `QueryBuilders.QueryBuilder.BuildInsert` | go/vedadb/query_builder.go:358-387 | Repeats the row of the first length for every row. |
| `QueryBuilders.QueryBuilder.BuildUpdate` | go/vedadb/query_builder.go:390-411 | Prints all SET clauses before all conditions, whatever the order of the calls. |
| `QueryBuilders.QueryBuilder.BuildDelete` | go/vedadb/query_builder.go:414-426 | Prints nothing but table, conditions and RETURNING. |
| `QueryBuilders.QueryBuilder.WriteConditions` | go/vedadb/query_builder.go:433-458 | The loop writes the conditions in order with their connectives; `QueryCalls.ReadsAsCalled` reads them back as called, and `QueryMeanings.TakesAsCalled` evaluates them. |
| `QueryBuilders.QueryBuilder.WriteWhere` | go/vedadb/query_builder.go:428-459 | Nothing at all without conditions. |
| `QueryBuilders.QueryBuilder.WriteOrderBy` | go/vedadb/query_builder.go:461-472 | The orders in the order of the calls. |
| `Retries.ExactIff` | go/vedadb/retry.go:194-203 | The delay before jitter equals min(Base * 2^attempt, Max) if and only if the 64-bit product did not overflow into a number between 0 and Max. |
| `Retries.AlwaysExactIff` | go/vedadb/retry.go:194-203 | The backoff is exact for every attempt if and only if it is for the first 64. |
| `Retries.BackoffExact` | go/vedadb/retry.go:194-203 | With Base = rest * 2^k and rest * Max < 2^63 the delay is min(Base * 2^attempt, Max) for every attempt, 63 and beyond included. |
| `Retries.BackoffGrows` | go/vedadb/retry.go:194-203 | The delay before jitter never shrinks and never exceeds Max. |
| `Retries.PoliciesExact` | go/vedadb/retry.go:24-51 | The three ready-made policies are exact for every attempt; the conservative one through the factor 2^9. |
| `Retries.OverflowPassesForDelay` | go/vedadb/retry.go:194-203 | A base for which the third attempt waits 4 nanoseconds instead of the maximum. |
| `Retries.JitterStaysWithin` | go/vedadb/retry.go:199-201 | The jittered delay lies between half the delay and the delay; the random draw panics exactly for delays of -2 and less. |
| `Retries.JitterReachesAll` | go/vedadb/retry.go:199-201 | Every value from half the delay up can be drawn. |
| `Retries.Execute` | go/vedadb/retry.go:70-118 | The loop of attempts and waits is a run of the specification: cancellation before and during each wait, the last attempt, errors that are not retryable. |
| `Retries.RunsAgree` | go/vedadb/retry.go:70-118 | What happens around the loop fixes the calls, the waits and the result. |
| `Retries.CallsBounded` | go/vedadb/retry.go:73-106 | fn is called at most MaxRetries + 1 times, and every call but the last failed with a retryable error. |
| `Retries.SucceededIff` | go/vedadb/retry.go:108-117 | nil is returned exactly when the last call succeeded; for negative MaxRetries it is returned without a call. |
| `Retries.FailedIs` | go/vedadb/retry.go:78-87 | An error is the one of the last call, and it was the last attempt or not retryable. |
| `Retries.RunIs` | go/vedadb/retry.go:70-118 | The whole of a run from what happens around it: no call after a cancellation, a wait of the computed delay exactly after each failure that is worth a retry (a connection or rate-limit error, a listed error, or any if none is listed) before the last attempt, and one of four endings, each with its reason. |
| `Retries.DelayIsMaximum` | go/vedadb/retry.go:194-203 | With a base of zero, a maximum that is not positive, or from attempt 64 on, the delay before jitter is the maximum. |
| `Retries.SleepBounded` | go/vedadb/retry.go:98-104 | All waits together take at most MaxRetries * MaxDelay. |
| `Streams.PollChanges` | go/vedadb/streams.go:100-140 | The nested loops with their cancellations compute the poller of the specification: deliveries, lastLSN and heartbeats. |
| `Streams.DeliveredExactlyOnce` | go/vedadb/streams.go:100-182 | Against an append-only log served in contiguous blocks, what was handed over is exactly the filtered log between ResumeAfter and lastLSN, in order. |
| `Streams.NoGapNoDuplicate` | go/vedadb/streams.go:100-140 | An entry is handed over if and only if it was asked for and lies between start and lastLSN, and the LSNs strictly increase. |
| `StreamProgress.ClosesIff` | go/vedadb/streams.go:114-138 | The poller stops if and only if its context is done at some turn or found to be cancelled while an event that was asked for is handed over; errors of the server only delay it. |
| `StreamProgress.CaughtUp` | go/vedadb/streams.go:121-138 | After a fetch that brought all there is, an event of the log is delivered if and only if it lies behind the start and is of a type asked for. |
| `StreamProgress.ReachedIs` | go/vedadb/streams.go:109-129 | For an arbitrary server: lastLSN is the greatest LSN among the start and all events looked at. |
| `StreamProgress.HeartbeatsCarry` | go/vedadb/streams.go:118-120 | A heartbeat is sent exactly at its turns before the end, with that LSN. |
| `Streams.AllDeliveredIff` | go/vedadb/streams.go:131-135 | Nothing is missing if and only if the poller did not stop with an event in hand. |
| `Streams.ResumeIsSeamless` | go/vedadb/streams.go:109-112 | Resuming after the last received event delivers the rest without gap or duplicate, also after a cancelled hand-over. |
| `Streams.RunGrows` | go/vedadb/streams.go:126-129 | lastLSN never goes back and no delivery is taken back, whatever the server answers. |
| `Streams.HandedIsAnswers` | go/vedadb/streams.go:100-140 | For an arbitrary server: what is handed over is the concatenation of its answers up to the end or the cancellation, without what was not asked for. |
| `Streams.DuplicateIff` | go/vedadb/streams.go:123-135 | An event is handed over twice if and only if it was asked for and the answers of the server hold it twice. |
| `Streams.RepeatedAnswerIsDeliveredTwice` | go/vedadb/streams.go:126-135 | A server that repeats an answer is not caught: every event of it that was asked for is handed over again. |
| `Failover.StableSortIs` | go/vedadb/failover.go:346-359 | The reference order is a sorted rearrangement that keeps the list order among equal priorities. |
| `Failover.SortedUnique` | go/vedadb/failover.go:346-359 | There is only one such rearrangement. |
| `Failover.FailoverManager.SelectSequential` | go/vedadb/failover.go:321-329 | The first node of the list that is not excluded. |
| `Failover.FailoverManager.SelectPriority` | go/vedadb/failover.go:346-359 | One scan finds the first node of the stable sort by priority that is not excluded. |
| `Failover.FailoverManager.SelectRandom` | go/vedadb/failover.go:331-344 | One of the nodes that are not excluded, whatever the clock says. |
| `Failover.FailoverManager.SelectNode` | go/vedadb/failover.go:307-319 | The node of the configured strategy. |
| `Failover.ChosenIsFree` | go/vedadb/failover.go:307-359 | Every strategy finds a node that is not excluded as long as there is one. |
| `Failover.FailoverManager.Attempt` | go/vedadb/failover.go:239-279 | One round: all failed, success, cancelled, or the next round. |
| `Failover.FailoverManager.Execute` | go/vedadb/failover.go:235-282 | The loop is a run of the specification, and the failure counter of a node moves by one exactly if its call failed. |
| `Failover.TriedFollowsOrder` | go/vedadb/failover.go:235-359 | Under Sequential and Priority the nodes tried are a prefix of the reference order without repeated names. |
| `Failover.NodesTriedInOrder` | go/vedadb/failover.go:235-359 | With distinct names they are a prefix of the list under Sequential and of its stable sort by priority under Priority. |
| `Failover.NoneTwice` | go/vedadb/failover.go:235-282 | Under every strategy no name is tried twice, and at most min(maxRetries + 1, number of nodes) are tried. |
| `Failover.SucceededIff` | go/vedadb/failover.go:235-282 | nil is returned exactly when the last node tried succeeded; for negative maxRetries it is returned without a try. |
| `Failover.RunIs` | go/vedadb/failover.go:235-282 | The whole of a run from what happens around it: all nodes tried before the last failed and were waited for, and each of the four endings has its reason. |
| `Failover.FailedAre` | go/vedadb/failover.go:245-265 | The nodes whose failure is counted are exactly those whose call failed. |
| `Failover.AllFailedMeansAll` | go/vedadb/failover.go:240-250 | "All nodes failed" means that every name was tried and every call failed. |
| `Failover.AnnouncementsHold` | go/vedadb/failover.go:261-270 | Under Sequential and Priority the failover callback is told the node that is tried next. |
| `Failover.EachFailureIsAnnounced` | go/vedadb/failover.go:245-265 | Under every strategy each failed call is announced with a node to go on with, except the last one when no name is left. |
| `Failover.LastAnnouncementIsIdle` | go/vedadb/failover.go:261-281 | When the attempts are used up with nodes left, the last announced failover never happens. |
| `Failover.RandomAnnouncesNextIff` | go/vedadb/failover.go:261-344 | Under Random the announced node is the one tried next if and only if the two draws agree modulo the number of free nodes. |
| `Failover.RandomAnnouncesAnother` | go/vedadb/failover.go:261-344 | A run under Random with three nodes in which the callback is told of one node and another is tried. |

## Left out

- Sockets, TLS, HTTP, JSON encoding, DNS and timers as system services: the world around each component is a parameter.
- Promises are represented by the log of settlements; microtask order between settled promises is not modelled.
- Event listeners that call back into the protocol handler, the pool or a cache while it is in the middle of an operation, and the events that only inform observers.
- `ping` of the protocol handler and the statistics getters of all classes: easy members.
- NodeBreaker.ValidConfig: negative options, which the constructor lets through, are not modelled.
- Failover.Chosen: the draw of the random strategy is the clock in nanoseconds, taken as nonnegative.
- The 32-bit wrap-around of the Go breaker's counters (`failures`, `halfOpenCalls`).
- GoBreaker.BreakerSafety: holds for admissions and completions as atomic steps; for single instructions `GoBreakerRaces.RulesBoundTrials`, `GoBreakerRaces.ClosedIsRepaired` and `GoBreakerSchedules.TrialsBoundedIff` say what remains and under which rules.
- GoBreaker.NoCallDuringRecovery: the same; for single instructions see `GoBreakerRaces.RulesGiveRecovery` and `GoBreakerSchedules.RecoveryKeptIff`.
- GoBreaker.ClosedIsHealthyIff: the same; for single instructions see `GoBreakerRaces.ClosedIsRepaired` and `GoBreakerSchedules.ClosedAtThreshold`.
- `CallResult` of the Go breaker and `ExecuteResult` of the retry policy: the same steps with a result value.
- The comparison of elapsed seconds as floating-point numbers in the .NET breaker is a comparison of clock ticks.
- `destroy` of the Node breaker and of the Node cache, and the metrics, gauges and state-change callbacks of all breakers.
- Pool.PoolInvariant: with a minimum size the connections of the warm-up stand beside the books, so that waiters can stand beside idle connections and a drain can leave some; `Pool.BalancedIffNoWarmup` proves that this is the exact condition for the accounting.
- CachedQueries.BoundedStaleness: asking the server and storing its answer is one step; the key must tell the SELECT queries in use apart, which `CachedQueries.AlwaysFreshIff` shows to be exact.
- CachedQueries.KeyTextInjective: parameters are the texts that `%v` prints for them; two values that print alike are one parameter here.
- Hashing in `QueryKey`, the hit-rate arithmetic, and the lock of the Go cache: its methods run under one lock.
- Correlation.RepliesReachTheirCommands: runs without timeouts; `Correlation.StraightIffLateRepliesAlone` says exactly what becomes of it with them. Runs that go on after a disconnect are not part of the end-to-end model.
- The migration callbacks, the file-name helpers, checksums and time stamps of the tracking table, quote characters in migration names, and `Status` beyond the pending list.
- Numbers with fractions, infinities, dates and nested objects in `escapeValue` and `escapeSqlValue`.
- Placeholders.EscapeSqlValue: numbers are unbounded integers printed in full; from 1e21 on `String` prints an exponent.
- Placeholders.TokensKeptIff: symbols are single characters, white space included, and Unicode escapes (`U&'...'`) are not read as one literal.
- `buildWhereClause`, `parseSetClause` and the `buildSql*` helpers: the same printers joined differently.
- QueryCalls.ReadsAsCalled: names of tables and columns are single words, operators are words or symbols, and the expressions of joins and of HAVING hold no word that begins a clause; the text of a UNION is not looked into.
- QueryMeanings.TakesAsCalled: how two values compare under an operator is a parameter; joins, groups and HAVING are not evaluated.
- `Count`, `Exists` and `SubQuery` of the query builder: easy members; and its mutex, so that a builder is not united with itself, which never returns. Slices other than `[]interface{}` and `[]string` are values without items.
- The `onRetry` and `onSuccess` callbacks of the retry policy.
- Registering the watch and the body of the heartbeat; `change_stream.go`, which always asks from the same position, is not part of this model.
- The health checker and the statistics of the failover manager, and the order of the random strategy, which has none.
- The second copy of the Go driver (`go/driver.go`, `go/dsn.go`, `go/errors.go`, `go/protocol.go`), the Go connection pool, DSN parsing, cursors, ORM, bulk insert, load balancing and interceptors.
