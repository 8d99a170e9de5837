# feathers-mongodb sessions, modelled in Dafny

This project models the transaction layer of the feathers-mongodb hooks.
A process-wide registry maps a session id to an entry `{id, counter, session}`.
The `start-session` hook starts an engine session or reuses the one whose id is in `params.sessionId`.
Each nested service call that shares the session raises the entry's counter.
`endSessionAndCommitTransaction` lowers the counter.
The last holder commits any open transaction, retrying on `UnknownTransactionCommitResult`, and tears the session down.
`startGetAndLockTransaction` enters the transaction and writes a lock token to every target document.
On a `WriteConflict` it aborts the transaction and retries.
The `load-data` hook uses it to read the locked document and copy selected fields into `context.data`.

Files and modules:

- `js_values.dfy` (`JsValues`): JavaScript values, truthiness, and documents as maps from key to value.
- `engine.dfy` (`Engine`): the engine errors and outcomes.
  The driver's session object is the class `EngineSession`, which records the calls made on it and whether a transaction is open.
- `exceptions.dfy` (`Exceptions`): the `TransactionAborted` message format and the errors the code raises.
- `retry.dfy` (`Retry`): the bounded retry shared by both loops (`LastAttempt`, at most 20 retries) and `_commitWithRetry`.
- `filters.dfy` (`Filters`): the two filter-query builders.
- `hook_context.dfy` (`HookContext`): the hook context.
  `params.sessionId` and `data` are mutable fields; the rest are constants.
- `sessions.dfy` (`Sessions`): the class `Registry` with the registry operations, the transaction lifecycle and the lock retry loop.
- `hooks.dfy` (`Hooks`): the `start-session` and `load-data` hooks, and the nested start/stop scenario from the transaction tests.

Engine outcomes are parameters.
Commit attempt `k` has outcome `oracle(k)`.
Lock attempt `k` gets the outcome of its `updateOne` round from `update(k)` and of its `findOneAndUpdate` round from `find(k)`.
The id `nanoid()` would generate is a parameter `newId`, which must be non-empty and not yet registered.
An unset `params.sessionId` is `None`.
`Registry.Valid` is the registry invariant: every entry is filed under its own id, has a counter of at least 1, and owns an engine session no other entry shares.
So every registered entry has at least one holder.
The converse does not hold: `endSession`, called from the error hook, removes an entry that other holders may still be using.

## Model

| member | source | states |
|---|---|---|
| Exceptions.AbortedMessage | lib/exceptions.js:2-4 | the message is "Transaction aborted (", then the caller's message verbatim, then ") sessionId ", then the id (or "undefined"); the length is the sum of the parts |
| Exceptions.MessageOfAborted | lib/exceptions.js:3 | the caller's message can be read back out of the text for the same session id |
| Exceptions.AbortedMessageOf | lib/exceptions.js:3 | every text from which a message can be read back is the message of that caller's message |
| Exceptions.AbortedMessageInjective | lib/exceptions.js:3 | for one session id, different caller messages give different texts |
| Exceptions.UnsetSessionIdMessage | lib/exceptions.js:3 | with the session id deleted, every message ends in "sessionId undefined" |
| Exceptions.TornDownLookupMessage | test/transactions.test.js:141-143 | a lookup after teardown reports exactly "Transaction aborted (getSessionObject: Session doesn't exist) sessionId undefined" |
| Retry.LastAttempt | lib/sessions.js:105-124 | a retry loop stops at an attempt no later than attempt 20; every attempt before it was retryable, and it stops early only on an attempt that is not retryable |
| Retry.LastAttemptUnique | lib/sessions.js:108-111 | those three facts determine the stopping attempt |
| Retry.CommitRetryContract | lib/sessions.js:105-124 | between 1 and 21 commits are made; only `UnknownTransactionCommitResult` leads to another attempt; no error is thrown exactly when the last commit succeeds; the error thrown is the last attempt's; an unknown-commit error escapes only after all 21 attempts |
| Retry.CommitWithRetry | lib/sessions.js:105-124 | the loop makes exactly `CommitAttempts` commit calls on the session and returns `CommitError`; the transaction stays open exactly when an error is thrown |
| Filters.QueryFilters | lib/sessions.js:230-235 | one filter per collection entry, in order, on the named collection, with the single key `field` bound to the query's `query` parameter |
| Filters.FromQuery | lib/sessions.js:227-239 | no filters for missing or empty `collections`; a `TypeError` exactly when there are entries but `params.query` is undefined; otherwise the filters above |
| Filters.FromModel | lib/sessions.js:199-215 | no filter exactly when there is no `Model`; otherwise one filter on the `Model`, holding the query's keys plus the id field; the id field is bound to `context.id` and every other key keeps its query value |
| Sessions.FinalCallsShape | lib/sessions.js:90-101 | the last holder commits exactly when a transaction is open; it aborts exactly when a commit error is rethrown (a failed commit is taken to leave the transaction open); every path ends the engine session last |
| Sessions.LockWrites | lib/sessions.js:145-155 | the lock succeeds exactly when the `updateOne` round succeeds or has no target and the `findOneAndUpdate` round locks or has no target; a failed `updateOne` round is reported before the `findOneAndUpdate` round is looked at; the error is that round's engine error; with no model target a successful lock returns `{}`, with one it returns the matched document (or null) |
| Sessions.LockRetryStep | lib/sessions.js:167-168 | an abort followed by the next attempt's transaction step adds one retry to a lock's calls and to its transaction state |
| Sessions.OutermostLockRestarts | lib/sessions.js:174-179 | at nesting depth 1 a lock always leaves a transaction open; with r retries it makes 1 + 2r calls (one more if a stale transaction was aborted first) and starts the transaction last |
| Sessions.NestedLockRetryDoesNotRestart | lib/sessions.js:167-174 | below depth 1 a retried lock aborts the enclosing transaction and never starts one, so no transaction is left open |
| Sessions.LockRetryContract | lib/sessions.js:156-169 | at most 20 lock retries; every attempt before the last hit a write conflict; a conflict escapes only when the retries are used up |
| Sessions.Registry.constructor | lib/sessions.js:43 | the registry starts empty |
| Sessions.Registry.GetSessionObject | lib/sessions.js:75-85 | the entry exactly when the id is registered; otherwise `TransactionAborted("getSessionObject: Session doesn't exist", id)`; reads only |
| Sessions.Registry.GetSession | lib/sessions.js:67-69 | the entry's engine session, with the same error on an absent id |
| Sessions.Registry.GetSessionCounter | lib/sessions.js:71-73 | the entry's counter, which is at least 1 under the registry invariant, with the same error on an absent id |
| Sessions.Registry.StartSession | lib/sessions.js:44-53 | adds exactly one entry, under the fresh id, with counter 1 and a new idle engine session; returns that id; no other entry changes |
| Sessions.Registry.ReuseSession | lib/sessions.js:55-65 | a registered id's counter rises by exactly 1 and nothing else changes; an absent id throws "resuseSession: Session doesn't exist" and leaves the registry untouched |
| Sessions.Registry.StartTransaction | lib/sessions.js:173-181 | at counter 1 it aborts an open transaction and then starts one; at other depths it calls nothing; an absent id throws `TransactionAborted` |
| Sessions.Registry.EndSession | lib/sessions.js:126-137 | on a registered id it aborts exactly when a transaction is open, ends the engine session, and deletes both the entry and `params.sessionId`; an absent id throws `TransactionAborted` and changes nothing |
| Sessions.Registry.EndSessionAndCommitTransaction | lib/sessions.js:87-103 | the counter drops by 1; above 0 nothing is committed and the entry stays; at 0 the commit-and-teardown below runs; an absent id fails with a `TypeError` |
| Sessions.Registry.CommitAndEndSession | lib/sessions.js:90-101 | commits only an open transaction, with retry; removes the entry and `params.sessionId` whether or not the commit succeeds; rethrows the commit error after the teardown |
| Sessions.Registry.LockAttempt | lib/sessions.js:141-155 | one try block: the transaction step, then the outcome of the lock writes on the query and model targets |
| Sessions.Registry.RetryAfterConflict | lib/sessions.js:157-168 | aborts the transaction and makes the next attempt, which extends the lock by one retry |
| Sessions.Registry.LockResult | lib/sessions.js:139-171 | an absent session throws `TransactionAborted`; otherwise every error is an engine failure or a `TypeError`; a write conflict escapes only after 20 retries |
| Sessions.Registry.StartGetAndLockTransaction | lib/sessions.js:139-171 | returns `LockResult`; the session's calls and transaction state are those of a lock with `LockRetries` retries; the registry itself is unchanged |
| Sessions.Registry.RetryWhileConflicting | lib/sessions.js:156-170 | the retry loop, from the first attempt's result to the lock with `LockRetries` retries |
| Hooks.StartSessionHook | lib/hooks/start-session.js:18-29 | with `params.sessionId` unset, a new entry with counter 1 is created and its id is stored in `params.sessionId`; when it is set and registered, only that entry's counter rises by 1 and the id is kept; when it is set but unknown, `TransactionAborted` propagates and nothing changes; on success it returns the same context |
| Hooks.KeysToCopy | lib/hooks/load-data.js:17-22 | the schema keys followed by `myLock`, `_id` and `alias`; none exactly when the service has no schema |
| Hooks.CopiedFields | lib/hooks/load-data.js:23-25 | after the copy loop, a field holds the document's value exactly when it is a copied key with a truthy value; every other field is unchanged, and no field is added otherwise |
| Hooks.CopiedIdempotent | lib/hooks/load-data.js:23-25 | running the copy loop twice gives the same data as running it once |
| Hooks.CopyFields | lib/hooks/load-data.js:23-25 | the loop leaves `context.data` as `Copied` describes |
| Hooks.NotFoundIffNoDocument | lib/hooks/load-data.js:15 | `NotFound`, naming the id and the path, is thrown exactly when the lock returns null |
| Hooks.EmptyLockCopiesNothing | lib/hooks/load-data.js:15-25 | the `{}` returned without a model target raises no `NotFound` and copies nothing |
| Hooks.LoadDataHook | lib/hooks/load-data.js:6-29 | calls other than `update` change nothing and lock nothing; for `update` the data becomes `LoadOutcome` of the lock result; on any error the data is unchanged and the error propagates; for `update` on a registered session, that session's calls and transaction state are those of a lock with `LockRetries` retries |
| Hooks.NestedStartStop | test/transactions.test.js:115-147 | three start-session hooks on one context, then three ends, read counters 1, 2, 3, 2, 1, and then the torn-down lookup error; the registry ends as it began |
| Hooks.NestedStart | test/transactions.test.js:118-125 | the three start-session hooks read counters 1, 2, 3 on one fresh entry |
| Hooks.NestedStop | test/transactions.test.js:134-143 | the three ends read counters 2, 1, then the lookup fails with `params.sessionId` deleted |
| Hooks.NestedHolders | lib/sessions.js:87-103 | at any depth n + 1, with a transaction opened at depth 1: the starts read 1 .. n + 1, the ends read n .. 1, the engine session sees only the transaction start until the last end, which then commits and tears down; the registry ends as it began |
| Hooks.OpenNested | lib/hooks/start-session.js:21-27 | one start and n reuses leave one fresh entry at counter n + 1, in a transaction, with only the transaction start recorded |
| Hooks.CloseNested | lib/sessions.js:87-103 | n ends from counter n + 1 read n .. 1 and call nothing; the last end commits, tears down and removes the entry |
| Hooks.ReuseHooks | lib/hooks/start-session.js:21-23 | n start-session hooks with the id set raise the counter from 1 to n + 1 and read 2 .. n + 1 |
| Hooks.InnerEnds | lib/sessions.js:87-90 | n ends from counter n + 1 read n .. 1, leave the entry at counter 1 and make no engine call |

## Left out

- Driver calls: the MongoDB driver is abstracted as the `EngineSession` class.
  `startSession`, `startTransaction`, `abortTransaction` and `endSession` always succeed in the model.
  The driver's own errors, such as aborting when no transaction is open, are not modelled.
  In the source, a second nested lock retry would hit that error; the model lets it succeed.
- Lock writes: `_lockDocument` is one outcome per round (`updateOne` round, then `findOneAndUpdate` round) per attempt.
  The individual concurrent writes under `Promise.all`, the `ObjectID()` lock token and the transaction options are not modelled.
  Lock writes are not recorded among the engine session's calls.
- Backoff: `_getExponentialTimeoutWithJitter`, `getRandomInt` and `_sleep` use floating point, randomness and timers; only the retry count is modelled.
- Concurrency: each session's operations run one after another, and overlapping hooks on one registry are not modelled.
- Diagnostics: `debugMsg`, `getUrl`, the `getCounter` counters and console logging are not modelled.
- Configuration: `setClient`, `setDatabase`, `getClient` and `getDatabase` are not modelled; a collection is referred to by name.
- Id generation: `nanoid()` is the parameter `newId`, which is assumed fresh and non-empty.
  A JavaScript lookup with an undefined id reads the key "undefined"; no such key is ever registered, so the model treats an unset id as absent.
- Thin hooks: `lib/hooks/end-session.js` (exit on a missing id, then `endSessionAndCommitTransaction`), `lib/hooks/error-session.js` (logging, then `endSession`) and `lib/hooks/lock-data.js` (one `startGetAndLockTransaction` call) are covered by the registry methods they call and are not modelled separately.
- `lib/hooks/patch-data.js` is not part of this model; its behaviour rests on lodash deep-merge semantics.
- Hooks.LoadDataHook: `context.data` is always a document; the `TypeError` the loop would raise on an undefined `data` is not modelled.
- JavaScript values: numbers are integers, so `NaN` and `-0` falsiness is not modelled.
  Documents are unordered maps, so key order in filters and copied data is not modelled.
- Sessions.Registry.EndSessionAndCommitTransaction: on an absent id the source fails while indexing `sessions[...]`; the model returns a plain `TypeError` without its message.
- Engine.EngineSession.CommitTransaction: a failed commit is assumed to leave the transaction open, so the teardown after a rethrown commit error aborts it.
  The driver is not part of this model; it may report no open transaction after a failed commit, and then the teardown only ends the session.
- NotFound errors: `NotFound` carries the id and path rather than the rendered "Can't find ... in ..." text.
