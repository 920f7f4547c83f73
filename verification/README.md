# Cassandra.NetCore.ORM: database context, write batching and statement text

A Dafny model of the self-contained logic in `CassandraDbContext`, the data context of a
small object mapper over a Cassandra (CQL) session:

- **Write batching** (`AddOrUpdate`, `Dispose`). The context keeps a pending batch, a
  counter `_currentBatchSize`, a settable `BatchSize` (default 50) and a `UseBatching`
  flag (default off). With batching on, each add appends one insert statement and
  increments the counter. When the counter then equals `BatchSize`, the whole batch runs
  as one unit, and the counter and batch are reset. With batching off, each statement runs
  at once. `Dispose` runs the pending batch when the counter is positive, then releases
  the session.
  The model is module `Batching`. It is an immutable `Context` record with pure transition
  functions. Everything the session executes goes into an append-only log of events:
  `Executed(unit)`, `Failed(unit)` or `SessionReleased`. A unit is `Single(stmt)` or
  `Batch(stmts)`. So no-loss, no-duplication and ordering are stated as sequence
  equalities over `Delivered(log)`, the statements the session executed successfully.
  The counter is a C# `int` with unchecked wrap-around (module `Int32s`).
- **Statement text** (module `Statements`). The builders are:
  - the raw insert `insert into <table>(<c1>,...,<cn>) values (?,...,?)`;
  - the aggregate query `select <fn>(<column>) from <table> where <clause>`, used by
    `Average`, `Sum`, `Min` and `Max` and their async twins (all eight build the same
    text, so one function models them);
  - the `select * from <table>[ where <clause>]` query of `Select`/`SelectAsync`.

  Each builder has a reader that takes the text apart again, and the round trip is proved.
  Placeholder counts are compared with bound-value counts. The string helpers are in
  module `CqlText`.
- **Certificate acceptance** (module `Certificates`): the TLS callback accepts the server
  iff the reported `SslPolicyErrors` flags value is `None`.
- **Row helpers** (module `Reads`): `SingleOrDefault`, `FirstOrDefault` and the first cell
  of the first row that the aggregate operations read.
- Module `DbContext` puts the pieces together: `AddOrUpdate(entity)` builds the insert and
  routes it through the batching state machine.

Each public call is one atomic transition. The driver's `Execute` may succeed or throw, and
that outcome is a parameter (`ExecResult`) of the step. When a flush throws, the code
leaves the counter and the batch as they were, because the reset lines are skipped. It
does not drop the buffered statements.

## Model

| member | source | states |
|---|---|---|
| Batching.Init | CassandraDbContext.cs:19-24 | a new context has an empty batch, counter 0, `BatchSize` 50 and batching off, and it satisfies the buffer invariant |
| Batching.SetBatchSize | CassandraDbContext.cs:23 | setting `BatchSize` changes nothing else: pending batch, counter, `UseBatching` and log are kept |
| Batching.SetUseBatching | CassandraDbContext.cs:24 | setting `UseBatching` changes nothing else: pending batch, counter, `BatchSize` and log are kept |
| Batching.BatchingOffKeepsPending | CassandraDbContext.cs:383-386 | turning batching off with a batch pending loses nothing: the next add executes only its own statement and keeps the batch, and a successful `Dispose` delivers the batch afterwards, so the later statement overtakes the older pending ones |
| Batching.Add | CassandraDbContext.cs:369-386 | with batching on, whatever the driver does, the delivered statements followed by the pending ones grow by exactly the added statement; the log only grows, by at most one unit; with batching off, the pending batch and counter are untouched, exactly one `Single` unit is logged, and a successful execution delivers exactly that statement; the call throws iff its `Execute` throws, which always leaves one logged unit |
| Int32s.IncWrap | CassandraDbContext.cs:374 | the wrapping `++` on the counter stays in step with the true number of pending statements |
| Batching.AddPreservesTracking | CassandraDbContext.cs:373-374 | for every add and every driver outcome, the counter keeps representing the pending length as a 32-bit `int` |
| Batching.TrackedCountIsLength | CassandraDbContext.cs:64 | while fewer than 2^31 statements are pending, the counter equals their number, so `_currentBatchSize > 0` holds iff a batch is pending |
| Batching.AddFlushesAtThreshold | CassandraDbContext.cs:371-380 | with batching on and a successful session, an add flushes iff the pending batch then reaches `BatchSize`; the flush executes all pending statements plus the new one as one unit and resets counter and batch; otherwise nothing executes |
| Batching.AddKeepsBound | CassandraDbContext.cs:373-379 | with a fixed `BatchSize` of at least 1, successful adds keep counter = pending length < `BatchSize` |
| Batching.AddAllDelivers | CassandraDbContext.cs:373-379 | for a run of successful adds with batching on and a fixed `BatchSize`, the executed slices followed by the remainder account for every statement: the delivered statements followed by the pending batch are the earlier ones followed by the added statements, in order |
| Batching.AddRunDelivers | CassandraDbContext.cs:373-379 | for any run of adds with batching on, each execution succeeding or throwing and the caller carrying on, the delivered statements followed by the pending batch are the earlier ones followed by the added statements, in order: no loss, no duplication, even across failed flushes |
| Batching.AddAllBatches | CassandraDbContext.cs:373-380 | a run of successful adds executes exactly the consecutive `BatchSize`-sized slices of (pending ++ added), in order, one unit each; the incomplete tail stays pending |
| Batching.FlushCountFromEmpty | CassandraDbContext.cs:373-379 | from an empty batch, n adds cause exactly ⌊n / BatchSize⌋ flushes, each of exactly `BatchSize` statements, and leave n mod `BatchSize` pending |
| Batching.ThresholdRuns | CassandraDbContext.cs:375-380 | from empty, `BatchSize - 1` adds execute nothing; `BatchSize` adds execute all of them as one batch and leave nothing pending |
| Batching.Dispose | CassandraDbContext.cs:60-69 | `Dispose` never touches batch, counter, `BatchSize` or `UseBatching`; it throws iff a batch is pending and its execution throws; when it returns, the session release is the last logged event |
| Batching.DisposeFlushesOnce | CassandraDbContext.cs:62-68 | a successful `Dispose` executes the pending batch exactly once iff one is pending, and releases the session after it |
| Batching.AddThenDisposeDeliversAll | CassandraDbContext.cs:60-69 | with batching on, adds followed by `Dispose` deliver every statement exactly once in the order added, and the session release comes last |
| Batching.FailedFlushStopsFlushing | CassandraDbContext.cs:375-379 | a flush that throws leaves the counter equal to `BatchSize`; the next successful add goes past it without flushing |
| Batching.ShrunkBatchSizeStopsFlushing | CassandraDbContext.cs:375 | lowering `BatchSize` to the number of pending statements or below means the next add does not flush |
| Batching.AddCorrected | CassandraDbContext.cs:375-380 | with the flush test `>=`, an add still loses and repeats nothing, and the log grows by at most one unit |
| Batching.CorrectedAddRestoresBound | CassandraDbContext.cs:375-380 | with `>=`, every successful add restores counter = pending length < `BatchSize`, even after a failed flush or a lowered `BatchSize` |
| Batching.FailedDisposeKeepsSession | CassandraDbContext.cs:62-68 | when the flush in `Dispose` throws, the session is never released |
| Batching.DisposeCorrected | CassandraDbContext.cs:60-69 | with the release on every exit path, `Dispose` keeps batch and counter and throws iff a pending flush throws |
| Batching.CorrectedDisposeAlwaysReleases | CassandraDbContext.cs:60-69 | the corrected `Dispose` releases the session exactly once, last, after any flush attempt, whatever the driver does |
| DbContext.AddOrUpdate | CassandraDbContext.cs:365-387 | the statement queued or executed is the insert built from the entity; with batching on nothing is lost; with batching off batch and counter are untouched and a successful session delivers it at once; the call throws iff its `Execute` throws, since nothing catches the exception |
| DbContext.AddOrUpdateSendsInsert | CassandraDbContext.cs:367-373 | the statement an add appends reads back as an insert into that table with exactly those columns; it binds their values in column order, one per placeholder |
| Statements.CreateAddStatement | CassandraDbContext.cs:389-402 | the insert binds one value per column, in column order |
| Statements.InsertRoundTrip | CassandraDbContext.cs:394-398 | the insert text reads back as `insert into <table>(<c1>,...,<cn>) values (?,...,?)`, with exactly the columns in order and one placeholder per column |
| Statements.InsertFullyBound | CassandraDbContext.cs:396-399 | the number of placeholders in the insert text equals the number of bound values |
| Statements.AggregateStatement | CassandraDbContext.cs:176-178 | aggregate statements are bound with the compiled predicate's values unchanged |
| Statements.AggregateRoundTrip | CassandraDbContext.cs:176 | the aggregate text reads back as exactly `select <fn>(<column>) from <table> where <clause>`, with the same function, column, table and clause |
| Statements.AggregateFullyBound | CassandraDbContext.cs:174-178 | over a predicate with one placeholder per value, the aggregate statement has one placeholder per bound value |
| Statements.SelectStatement | CassandraDbContext.cs:147-157 | the `SelectAsync` statement binds no value, with or without a predicate |
| Statements.SelectRoundTrip | CassandraDbContext.cs:149-155 | the select text reads back as `select * from <table>`, with ` where <clause>` iff a predicate is given |
| Statements.SelectLeavesPlaceholdersUnbound | CassandraDbContext.cs:129-132 | for any predicate that binds at least one value, the select text carries that many placeholders and no bound value |
| Statements.BoundSelectStatement | CassandraDbContext.cs:153-157 | the corrected select has the same text and binds the predicate's values |
| Statements.BoundSelectFullyBound | CassandraDbContext.cs:149-157 | the corrected select has one placeholder per bound value, with or without a predicate |
| Reads.SingleOrDefault | CassandraDbContext.cs:355-358 | no row gives the default; one row gives that row; two or more rows give an error |
| Reads.FirstOrDefault | CassandraDbContext.cs:360-363 | the first row, or the default when there is none |
| Reads.SingleAgreesWithFirst | CassandraDbContext.cs:355-363 | wherever `SingleOrDefault` succeeds, it returns what `FirstOrDefault` returns, and every row equals that value |
| Reads.FirstCell | CassandraDbContext.cs:179-181 | the aggregate value is the first cell of the first row; no row or no cell is an error |
| Reads.FirstCellOfFirstRow | CassandraDbContext.cs:179-181 | the first cell exists iff the row `FirstOrDefault` picks (empty row as default) is non-empty, and it is that row's head |
| Certificates.ValidateServerCertificate | CassandraDbContext.cs:44-58 | the server is accepted iff the reported flags decode to no policy violation; any violation rejects it |
| Certificates.AcceptedIffNoViolation | CassandraDbContext.cs:52-57 | for every set of violations, the server is accepted iff the set is empty |

## Left out

- Cluster construction, TLS options, credentials and keyspace creation (CassandraDbContext.cs:27-43, :71-75): network and driver setup.
- `InsertAsync`, `InsertIfNotExists`, `InsertIfNotExistsAsync`, and the mapper's `Fetch`/`FetchAsync`: thin calls into the driver's generic mapper.
- The `_cluster.Connect(tableName)` that `Select` does on each call (CassandraDbContext.cs:127): a driver side effect on shared state.
- `Convert.ToDouble` of the aggregate cell: floating point and driver row types. `Reads.FirstCell` returns the raw cell.
- The locks (`_batchLock` in `AddOrUpdate`, `_currentBatch` in `Dispose`): concurrency is not modelled. Each call is one atomic step.
- The predicate compiler (`QueryBuilder.EvaluateQuery`, `QueryBuilder.EvaluatePropertyName`) and the reflection helpers (`ExtractTableName`, `GetCassandraRelevantProperties`, `GetColumnNameMapping`) are not part of this model. Their results are inputs: a table name, a (column, value) list, a compiled `(clause, values)` predicate.
- `Console.WriteLine` logging and the catch-and-rethrow wrappers: no logical content.
- The `sender`, `certificate` and `chain` arguments of `ValidateServerCertificate`: the code does not read them.
- Asynchrony: each async twin builds the same text as its sync method, so both share one model.
- `Select` with a null predicate: what `QueryBuilder` does with it is not visible. The sync `Select` is the with-predicate case of `Statements.SelectStatement`.
- Statements.InsertRoundTrip: proved only for table and column names that are unquoted CQL identifiers. Names containing `(`, `)`, `,` or `?` would make the text ambiguous.
- Statements.InsertFullyBound: proved only for unquoted identifiers, as above.
- Statements.AggregateRoundTrip: proved only when the column and table names are unquoted identifiers. The clause may be any text.
- Statements.AggregateFullyBound: relies on the predicate compiler emitting one `?` per bound value (`WellFormed`). That compiler is not part of this model.
- Statements.SelectRoundTrip: proved only for an unquoted-identifier table name.
- DbContext.AddOrUpdateSendsInsert: stated for batching on. With batching off, the same statement is the one logged as `Single`.
- A throwing `Execute` is modelled as applying nothing: its `Failed` event delivers no statement and a failed flush keeps its batch pending. A Cassandra write timeout can throw after the write was applied; in that case the code as written sends the kept batch again on the next flush or in `Dispose`, so its statements would be applied twice. The "no duplication" statements about `Delivered` hold only under this assumption.
- Batching.AddAllDelivers: stated for runs where every execution succeeds and `BatchSize` stays fixed; `Batching.AddRunDelivers` covers runs with failures.
- Batching.AddKeepsBound: holds only while `BatchSize` stays fixed and at least 1, and only for adds whose flush succeeds.

## Findings

| source | as written | input that shows it | evidently intended | confidence | as-written member | corrected member |
|---|---|---|---|---|---|---|
| CassandraDbContext.cs:375-379 | a flush whose `Execute` throws skips the reset. The counter stays equal to `BatchSize` and the `==` test never fires again | `UseBatching` on, `BatchSize` 1; the first `AddOrUpdate` flush throws; the second `AddOrUpdate` succeeds but leaves counter 2, with nothing flushed | a batch at or above `BatchSize` is flushed (`>=`), so the next add retries it | medium; not executed | Batching.FailedFlushStopsFlushing | Batching.CorrectedAddRestoresBound |
| CassandraDbContext.cs:60-69 | when the flush inside `Dispose` throws, `_session.Dispose()` is never reached | one pending statement, and a session whose `Execute` throws during `Dispose` | release the session on every exit path (`finally`) | medium; not executed | Batching.FailedDisposeKeepsSession | Batching.CorrectedDisposeAlwaysReleases |
| CassandraDbContext.cs:129-157 | `Select`/`SelectAsync` pass only the text to `Fetch`, so the compiled predicate's values are never bound; the aggregates do bind them | a predicate compiled to `("id = ?", [5])` on table `users` gives `select * from users where id = ?` with no bound value | bind the predicate's values, as the aggregate queries do | low (the predicate compiler is not visible); not executed | Statements.SelectLeavesPlaceholdersUnbound | Statements.BoundSelectFullyBound |

The corrected definitions sit next to the as-written ones: `Batching.AddCorrected`,
`Batching.DisposeCorrected` and `Statements.BoundSelectStatement`. The rest of the model
(`DbContext.AddOrUpdate` and the batching theorems) describes the code as written.
