# Prepared-statement caches, modelled in Dafny

This project models the three prepared-statement caches of the
`chanxuehong/database` Go repository. Each cache gives callers a reusable
prepared statement for a query string. A call returns the cached statement
when one exists. Otherwise it asks the database client to prepare the query
once and caches the result on success. The statement wrappers handed to
callers have a `Close` that does nothing, because the cache owns the
statement.

- `sql` (module `Sql`, file `sql.dfy`) keeps the table as an immutable
  snapshot behind an atomically swapped pointer. A writer copies the
  snapshot, adds the new entry and publishes the copy. The model keeps every
  published snapshot in an explicit heap, so that "a snapshot a reader holds
  is never written" can be stated and proved.
- `sqlx` (module `Sqlx`, file `sqlx.dfy`) keeps three independent plain
  maps, one each for `Prepare`, `Preparex` and `PrepareNamed`.
- `sql2` (module `Sql2`, file `sql2.dfy`) goes through a capacity-limited
  cache with `Get`, `Add` and `SetSize`, and normalises the requested
  capacity.

The shared decision logic is in module `Protocol` (`protocol.dfy`). It looks
the query up, looks again under the write lock, and on a second miss calls
the database and inserts the statement if that succeeds. The predicate
`Protocol.Obeys` states the contract every variant keeps:

- a hit returns the cached statement, changes nothing and does not call the
  database;
- a miss calls the database exactly once;
- a failure returns the database's error and leaves the table unchanged;
- a success adds exactly the new query and keeps every other entry.

`Sql.Prepare` and the three `Sqlx` operations are proved to keep that
contract. `Sql2.Prepare` is proved to agree with it whenever the cache acts
as a plain table.

How the Go program is represented:

- Each call to `Prepare` is one atomic step. Locks and atomic pointer
  operations are not modelled as separate steps.
- The database client's prepare becomes an `Answer` parameter: either
  `Prepared(addr)`, a non-nil statement, or `Failed(err)`.
- A statement pointer is `Ptr = Nil | Ref(addr)`. Tables map each query to
  the pointer that its wrapper struct embeds. Lookups use the source's own
  test, `m[query]` is not nil (`Base.Probe`), so a missing key reads as the
  nil zero value.
- In place of a ghost prepare counter, every outcome records how many times
  the database was called (`dbCalls`). `PrepareCount` adds up the successful
  prepares for one query over a whole sequence of calls.
- In `sql2`, what the two `Get` calls return is given as parameters.
  Separate parameters also cover another writer adding the entry between the
  two lookups. The calls `Prepare` makes on the cache and the database are
  returned in order as `Effect`s.

## Model

| member | source | states |
|---|---|---|
| Protocol.Locked | sqlx/sqlx.go:49-62 | Under the write lock the table is checked again. The database is called exactly when the query is still missing at that point, and the result keeps the get-or-prepare contract. |
| Protocol.GetOrPrepare | sqlx/sqlx.go:40-63 | A hit returns the cached statement with no database call and no change. A failure returns the error and leaves the table unchanged. A success adds exactly the query with the new statement and keeps every other entry. The lock-free first read gives the same result as going straight to the locked section. |
| Protocol.OtherKeysUntouched | sqlx/sqlx.go:52-61 | Keys are compared exactly. A call for one query never adds, changes or removes the entry for any other query. |
| Protocol.CachedEntryStays | sqlx/sqlx.go:45-61 | Once a query is cached, no later call removes or replaces its entry. |
| Protocol.FailureIsRetried | sqlx/sqlx.go:56-61 | A failed prepare is not cached. The next call for the same query asks the database again and caches the statement if that call succeeds. |
| Protocol.AtMostOnePrepare | sqlx/sqlx.go:45-61 | Over any sequence of calls, the database prepares a query successfully at most once. It never does so for a query that was already cached. |
| Protocol.StaysCached | sqlx/sqlx.go:45-61 | A cached query stays cached through any sequence of calls. Every call for it returns the cached statement with no error and without calling the database. |
| Protocol.SameStatementAfterSuccess | sqlx/sqlx.go:45-61 | After one call prepares a query successfully, every later call for that query returns the same statement with no error and does not call the database. |
| Sql.NewDB | sql/sql.go:19-23 | A new DB has a nil snapshot pointer. Readers see that as the empty table, so no query is cached. |
| Sql.LockedPrepare | sql/sql.go:42-65 | Under the writer lock the pointer is loaded and checked again. The call keeps the get-or-prepare contract on the published table. Snapshots published earlier are never overwritten. A new snapshot is published only after a successful prepare. A hit or a failure leaves the DB exactly as it was. A success allocates exactly one new snapshot and points the pointer at it. |
| Sql.Prepare | sql/sql.go:33-66 | Same contract as the locked section, now including the lock-free fast path: a hit or a failure leaves the DB exactly as it was, and a success publishes exactly one new snapshot, a copy extended by exactly the new entry. |
| Sql.CopyAndInsert | sql/sql.go:58-62 | The copy loop builds a map with every old entry plus the new one, which is exactly the old map updated at the query. |
| Sql.LoadedSnapshotUnchanged | sql/sql.go:58-64 | Copy-on-write: any snapshot a reader loaded before a call is still present after the call and unchanged. |
| Sql.ReaderKeepsOldSnapshot | sql/sql.go:35-64 | Take a reader holding the snapshot published after a call for q1. After a later call for a different, missing q2, the held snapshot still contains q1's entry and still lacks q2. |
| Sql.WhitespaceMakesDistinctKeys | sql/sql.go:37-62 | Keys are compared exactly: "SELECT 1" and "SELECT  1" each cause their own database prepare and end up as two separate entries. |
| Sql.RefinesProtocol | sql/sql.go:33-66 | The snapshot cache makes the same transition as the in-place protocol: same statement, error and database calls, and the published table is the protocol's resulting table. |
| Sql.PrepareCountMatches | sql/sql.go:33-66 | Over any sequence of calls, the snapshot cache and the in-place protocol count the same number of successful prepares per query. |
| Sql.StepsMatch | sql/sql.go:33-66 | Over any sequence of calls, the snapshot cache goes through exactly the outcomes of the in-place protocol started from the published table. |
| Sql.StaysCached | sql/sql.go:35-50 | A published query stays published through any sequence of calls. Every call for it returns the cached statement with no database call and no error. |
| Sql.SameStatementAfterSuccess | sql/sql.go:37-64 | After one call prepares a query successfully, every later call for that query returns the same statement with no error and does not call the database again. |
| Sql.AtMostOnePrepare | sql/sql.go:37-64 | Over any sequence of calls on the snapshot cache, the database prepares a query successfully at most once. It never does so for a query already published. |
| Sql.Stmt.Close | sql/sql.go:74-76 | Close always returns nil. |
| Sql.CloseIsNoOp | sql/sql.go:74-76 | In any sequence of acquire and close operations, every close reports success. Removing all the closes changes neither the final cache nor the number of database prepare calls. |
| Sqlx.NewDB | sqlx/sqlx.go:23-30 | All three caches start as empty maps, so no query is cached in any of them. |
| Sqlx.Prepare | sqlx/sqlx.go:40-63 | Keeps the get-or-prepare contract on stmtSet and leaves stmtxSet and namedStmtSet unchanged. |
| Sqlx.Preparex | sqlx/sqlx.go:65-88 | Keeps the get-or-prepare contract on stmtxSet and leaves stmtSet and namedStmtSet unchanged. |
| Sqlx.PrepareNamed | sqlx/sqlx.go:90-113 | Keeps the get-or-prepare contract on namedStmtSet and leaves stmtSet and stmtxSet unchanged. |
| Sqlx.CachesIndependent | sqlx/sqlx.go:40-113 | Any call keeps the contract on its own cache and leaves the other two caches exactly as they were. |
| Sqlx.StaysCached | sqlx/sqlx.go:40-113 | A query cached in one cache stays cached there through any mixed sequence of calls. Every call to that cache for the query returns the cached statement with no error and without calling the database. |
| Sqlx.SameStatementAfterSuccess | sqlx/sqlx.go:40-113 | After a successful prepare of a query in one cache, every later call to that cache for that query returns the same statement with no error and without calling the database. |
| Sqlx.NothingSharedAcrossKinds | sqlx/sqlx.go:13-20 | A statement cached by Prepare does not satisfy Preparex or PrepareNamed for the same query. Each of those still calls the database. |
| Sqlx.Stmt.Close | sqlx/sqlx.go:121-123 | Close always returns nil. |
| Sqlx.Stmtx.Close | sqlx/sqlx.go:129-131 | Close always returns nil. |
| Sqlx.NamedStmt.Close | sqlx/sqlx.go:137-139 | Close always returns nil. |
| Sql2.NewDB | sql2/sql.go:19-24 | A new DB's cache is created with capacity DefaultCacheSize (1024). |
| Sql2.SetCacheSize | sql2/sql.go:34-39 | A positive size is used as given, and any other size becomes 1024. The resulting capacity is always positive and equals the request exactly when the request is positive. |
| Sql2.SetCacheSizeIdempotent | sql2/sql.go:34-39 | Normalising an already normalised capacity changes nothing. The result depends only on the requested size. |
| Sql2.Prepare | sql2/sql.go:41-75 | Cache and database calls are all about the query and happen in the order Get, Get, prepare, Add, with at most one prepare and one Add. A hit or an error on the first Get returns after that single Get. A hit or an error on the second Get returns after two Gets. A hit on either Get returns the cached value. A Get error other than not-found, or a prepare failure, is returned unchanged with no Add. The database is asked only after both Gets miss. On success, Add stores exactly the statement that is returned. |
| Sql2.AgreesWithProtocol | sql2/sql.go:41-75 | Against a cache that acts as a plain table with no nil entries, the result matches the in-place protocol: same statement and error, a database call exactly when the protocol makes one, and the same table after the Add. |
| Sql2.Stmt.Close | sql2/sql.go:83-85 | Close always returns nil. |

## Left out

- The `Open` functions (sql/sql.go:25-31, sqlx/sqlx.go:32-38, sql2/sql.go:26-32) only open a driver connection, which is I/O.
- Mutexes, read-write locks and the atomic pointer load and store are left out. Each call is one atomic step, and nothing is claimed about interleavings of concurrent calls. The at-most-one-prepare results hold for calls made one after another.
- The prepare calls of the database clients (`database/sql` and `jmoiron/sqlx`) are foreign code. They become the `Answer` parameter. A successful answer is always a non-nil statement. `database/sql` guarantees this for `Prepare`, and `jmoiron/sqlx` guarantees it for `Preparex` and `PrepareNamed`.
- The `sql2/lru` package is not part of this model. Its contents, recency order, eviction and capacity bound are left out. `Sql2.Prepare` takes the replies of its two `Get` calls as parameters, so nothing is proved about statements surviving in that cache across calls.
- Sql2.Prepare: the model has no at-most-one-prepare result across a sequence of calls. An LRU cache may evict an entry, after which a later call prepares the same query again.
- Sql2.SetCacheSize: the model records the capacity passed to the cache's `SetSize`. What `SetSize` does to the cache's contents is not modelled.
- A `sqlx` DB not built by `NewDB` is left out: only a DB built by `NewDB` is modelled, with its three maps allocated. A `DB` written as a struct literal has nil maps, and its first successful `Prepare`, `Preparex` or `PrepareNamed` panics at the map assignment (sqlx/sqlx.go:61, sqlx/sqlx.go:86, sqlx/sqlx.go:111) after the database has prepared the statement. The model's tables are always proper maps, so it cannot represent that state.
- Statement methods reached through the embedded `*sql.Stmt`, `*sqlx.Stmt` and `*sqlx.NamedStmt` (queries and executions) are left out. Only `Close` is overridden in these packages.
