# Lineage vault: model and proofs

Lineage vault stores pipeline events so that each idempotency key is written once, keeps them in a
hash-chained ledger, finishes staged events after a crash, and answers which datasets and fields an
upstream change reaches. This project models that core in Dafny and proves what it promises.
`dafny verify dfyconfig.toml` checks everything.

## What is modelled

- **The tables as values** (`Vault`, `VaultLaws`, `VaultEffects`, `VaultRuns`). Idempotency, the staging WAL and
  the ledger, with their UNIQUE rules as inserts that can fail, and what a single write, a batch, a staging and a
  recovery do to them, also said row by row without the functions that compute it. `VaultRuns` plays whole runs in which every call may be answered, lost before its commit, or
  committed with the answer lost.
- **The SQLite backend** (`SQLiteBackend`, `Loops`). A class with a working copy that statements change and a
  durable copy that commits change. Every statement is recorded, so that a crash or an unlocked reader at any
  of them is covered, and every file a crash leaves can be opened again.
- **The PostgreSQL backend** (`Postgres` is the machine; `SerialLog`, `PostgresInvariant`, `PostgresBatch`,
  `PostgresRecovery`, `PostgresCommit`, `PostgresSteps`, `PostgresRuns`, `PostgresOrder`, `Renumbering` and
  `PostgresLaws` the proof). Any number of transactions run one SQL statement at a time under READ COMMITTED;
  batch writers and recoverers hold the advisory lock, `stage_partial` does not; conflicting inserts wait;
  connections get lost. Every reachable state is explained by a serial run of the same tables, so the laws of
  `VaultRuns` hold there too.
- **The hash chain** (`HashChain`, `Framing`, `AuditTrail`). The digest function is a parameter with 64-character
  results and is never taken to be injective: where a claim rests on it, the proof hands back a collision or a
  preimage of the genesis value.
- **JSON** (`Json`, `JsonRoundTrip`, `JsonFidelity`, `JsonForms`, `Codecs`). `json.dumps(..., sort_keys=True)` and
  `json.loads` on strings of code points, lone surrogates included; and the printed form character by character.
- **Lineage** (`Reachability`, `FieldImpact`, `TextOrder`, `OpenLineage`, `OpenLineageIngest`, `EventRows`,
  `IngestEffects`, `LineageCover`, `Ingestor`, `IngestRuns`). The searches behind upstream, downstream and field
  impact, what a run event records and in which order, why field impact stays inside dataset impact, and whole
  runs of ingested batches. `EventRows` and `IngestEffects` say in terms of the raw events which rows, answers and
  run events come out.
- **The ingestion queue** (`Pipeline`) and **the older two-file WAL and ledger** (`TwoFile`).
- **Two calls in a row** (`EndToEnd`): what a caller sees who ingests and then asks for impact, or stages, crashes
  and recovers, from the contracts of the classes alone.

## What the proofs found

- Payload fidelity (docs/crash-semantics.md, invariant 2) has an exception. A payload whose dict keys hold a
  surrogate pair as two code points is read back with the pair joined, which can change the key order; recovery
  then writes a text, and chains a digest, that was never staged. `JsonFidelity.TextFidelity` has the exact
  condition and `SplitKeyCounterexample` such a payload. Payloads decoded from JSON text that holds no raw
  surrogates (surrogates may be escaped) never have the problem.
- An event that was recovered from the WAL can never be acknowledged under a new key: its ledger row is there and
  the insert raises (`VaultLaws.BatchSucceedsExactly`).
- `record_field_mapping` does not roll back. Rows inserted before one that is refused stay uncommitted in the
  connection and reach the file with the next commit.
- `stop` returns with events left in the queue when they were accepted behind the last sentinel or there are no
  workers, and never returns when handlers that raised have used up the workers and the queue is full. Once a
  handler has raised, `stop` raises as soon as its sentinels are put, whatever the other workers still do.
- In the two-file pair, a crash between the ledger's commit and the WAL's mark jams the event: `commit` and
  `replay_pending` raise on it from then on. Nothing is lost and the chain verifies.

## Model

| member | source | states |
|---|---|---|
| `SQLiteBackend.SQLiteStorageBackend.AcknowledgeWritesBatch` | src/lineage_vault/storage/sqlite_backend.py:120-172 | the prefetching batch does exactly what folding single writes does (same answers and tables, repeated keys included), or raises and leaves every table as the file has it. Said of the rows: it returns exactly when every new item encodes and names an event that no ledger row and no other new item has; then the new items stand at the end of the ledger in their order, each with its own text and the digest of the row before, and every answer names the event its key has. Every state between its statements is safe to read, and a crash anywhere leaves the tables from before or after |
| `SQLiteBackend.SQLiteStorageBackend.AcknowledgeEach` | src/lineage_vault/storage/interface.py:49-57 | the default item-by-item batch: on batches that succeed the same answers and tables; when an item raises, exactly the items before it stay, and the batch form would have raised |
| `SQLiteBackend.SQLiteStorageBackend.AcknowledgeWrite` | src/lineage_vault/storage/sqlite_backend.py:109-118 | one write: a known key changes nothing and is answered as a duplicate; a new one leaves its key, its ledger row behind the last one, and a marked WAL row with the text staged first; it raises exactly for a payload that does not encode or an event that is in the ledger, and then changes nothing |
| `SQLiteBackend.SQLiteStorageBackend.WriteItems` | src/lineage_vault/storage/sqlite_backend.py:125-167 | the loop with its `existing` dict answers as the fold does and fails exactly where the fold fails |
| `SQLiteBackend.SQLiteStorageBackend.WriteItem` | src/lineage_vault/storage/sqlite_backend.py:145-158 | the four statements for a new key succeed exactly when the single write does: encodable payload, free key and event id, no ledger row |
| `SQLiteBackend.SQLiteStorageBackend.StagePartial` | src/lineage_vault/storage/sqlite_backend.py:80-91 | raises exactly for a payload that does not encode; an id that is not in wal_staging gets the next id and the text of this payload behind the pending rows, one that is there changes nothing |
| `SQLiteBackend.SQLiteStorageBackend.RecoverUncommitted` | src/lineage_vault/storage/sqlite_backend.py:174-200 | the recovery loop over the pending rows, selected and processed by id, computes the specification of recovery in one transaction: every pending row comes into the ledger with its text decoded and encoded again, is marked, and keeps its text in wal_staging |
| `SQLiteBackend.SQLiteStorageBackend.CrashAndReopen` | src/lineage_vault/storage/sqlite_backend.py:64-68 | a new process finds the durable tables, ids go on from the file's counter, and its loaded graph cache is again the pairs of dataset_edges |
| `SQLiteBackend.SQLiteStorageBackend.Open` | src/lineage_vault/storage/sqlite_backend.py:22-31 | any file that a crash at any statement left can be opened (DurableOnlyGrows says of every observed one that it fits), and everything above holds from there |
| `SQLiteBackend.SQLiteStorageBackend.LoadGraphCache` | src/lineage_vault/storage/sqlite_backend.py:64-68 | the cache is the set of (src, dst) pairs of the table |
| `SQLiteBackend.SQLiteStorageBackend.AddDatasetEdge` | src/lineage_vault/storage/sqlite_backend.py:227-244 | appends the row, commits, and keeps the cache equal to the pairs of the table; raises before any change for a payload that does not encode |
| `SQLiteBackend.SQLiteStorageBackend.RecordFieldMapping` | src/lineage_vault/storage/sqlite_backend.py:274-289 | inserts one row for each entry of the map, output column from the key and input column from the value, up to the first value that no column takes (null, a list, a dict; other scalars are stored as text); returns exactly when there is none; when it raises the rows before stay uncommitted and are not rolled back |
| `SQLiteBackend.SQLiteStorageBackend.UpstreamDatasets` | src/lineage_vault/storage/sqlite_backend.py:246-249 | exactly the other datasets from which a path of rows of dataset_edges leads to the dataset, cycles included, each once, in the order of their first differing character |
| `SQLiteBackend.SQLiteStorageBackend.DownstreamDatasets` | src/lineage_vault/storage/sqlite_backend.py:251-254 | exactly the other datasets to which a path of rows of dataset_edges leads from the dataset, each once, in the order of their first differing character |
| `SQLiteBackend.SQLiteStorageBackend.FieldImpactOf` | src/lineage_vault/storage/sqlite_backend.py:291-314 | impacted fields are exactly those that a chain of rows of field_mappings leads to, each next row having the output columns of the one before as its input columns; each row once, nearest first; with them the sorted list of downstream datasets |
| `SQLiteBackend.SQLiteStorageBackend.StoreRunEvent` | src/lineage_vault/storage/sqlite_backend.py:316-323 | the upsert under (run_id, event_type) |
| `SQLiteBackend.SQLiteStorageBackend.VerifyIntegrityNow` | src/lineage_vault/storage/sqlite_backend.py:202-213 | the check returns true in every state between calls |
| `SQLiteBackend.SQLiteStorageBackend.CountAcknowledged` | src/lineage_vault/storage/sqlite_backend.py:215-217 | the number of ledger rows |
| `SQLiteBackend.CrashAnywhere` | src/lineage_vault/storage/sqlite_backend.py:80-213 | at every statement of a call: what an unlocked reader sees verifies and extends the ledger as it was, and the file holds the tables from before the call, or from after it at the last statement only |
| `SQLiteBackend.DurableOnlyGrows` | src/lineage_vault/storage/sqlite_backend.py:80-213 | of any two moments, inside calls too, the earlier durable ledger is the beginning of the later one, both verify, and the file of each moment is one that can be opened: consistent tables, pending rows in id order with ids drawn before |
| `SQLiteBackend.AfterCommit` | src/lineage_vault/storage/sqlite_backend.py:80-200 | a call that commits leaves one state in the connection and in the file, with tables that are consistent again and the id counter advanced by exactly the ids it drew |
| `Vault.AckAllKeeps` | src/lineage_vault/storage/sqlite_backend.py:120-172 | a successful batch keeps ledger ids = committed WAL ids, keys over committed ids, distinct ids, pending rows in id order, and the verifying chain |
| `Vault.StageKeeps` | src/lineage_vault/storage/sqlite_backend.py:80-88 | staging keeps the same invariant |
| `Vault.StageThenSettle` | src/lineage_vault/storage/sqlite_backend.py:150-157 | INSERT OR IGNORE followed by the UPDATE settles the event with the text that was staged first |
| `VaultLaws.RecoverExactly` | src/lineage_vault/storage/sqlite_backend.py:174-200 | recovery of a consistent store appends exactly the pending rows (ORDER BY id is the order they stand in), returns their number, leaves idempotency alone, never raises, and leaves nothing to a second call, which returns 0 |
| `VaultLaws.RecoverRowAppends` | src/lineage_vault/storage/sqlite_backend.py:181-195 | no pending row of a consistent store is skipped as a duplicate or refused by UNIQUE |
| `VaultLaws.RecoveredRow` | src/lineage_vault/storage/sqlite_backend.py:181-195 | the i-th new ledger row is the i-th pending row with its text decoded and encoded again, behind the old ledger |
| `VaultLaws.RecoveredInIdOrder` | src/lineage_vault/storage/sqlite_backend.py:174-195 | of two recovered rows the one that stands first in the ledger had the smaller id |
| `VaultLaws.BatchWritesFresh` | src/lineage_vault/storage/sqlite_backend.py:134-167 | exactly the first items with new keys are written, in order, each as the next row of the chain |
| `VaultLaws.BatchAnswers` | src/lineage_vault/storage/sqlite_backend.py:134-167 | every item is answered with the event id its key has after the batch; duplicate exactly when the key was known or came earlier in the batch |
| `VaultLaws.BatchSucceedsExactly` | src/lineage_vault/storage/sqlite_backend.py:120-172 | on a consistent store a batch succeeds if and only if its fresh items encode, name no settled event and name no event twice |
| `VaultLaws.BatchReturnsExactly` | src/lineage_vault/storage/sqlite_backend.py:120-172 | the same item by item: every item that is the first with its key and whose key is not known must encode and name an event that is not in the ledger and not named by another such item |
| `VaultEffects.WritesAreMeant` | src/lineage_vault/storage/sqlite_backend.py:134-167 | what a batch leaves: keys of new items only, with their events; the ledger rows of the new items at their exact positions; answers that are duplicates exactly for items that are not new |
| `VaultEffects.WriteIsMeant` | src/lineage_vault/storage/sqlite_backend.py:109-158 | the same for one write, with the WAL row: it is taken from the pending ones and keeps the text that was staged first |
| `VaultEffects.RecoveryIsMeant` | src/lineage_vault/storage/sqlite_backend.py:174-200 | what a recovery leaves: no pending row, the i-th pending text decoded and encoded again as the i-th new ledger row, every staged text kept under its mark |
| `VaultEffects.StageIsMeant` | src/lineage_vault/storage/sqlite_backend.py:80-88 | INSERT OR IGNORE: the row with this text, or nothing when the id is there |
| `VaultRuns.EveryStateConsistent` | docs/crash-semantics.md:15-21 | over every run of calls, retries, crashes and reopenings: ledger ids = committed WAL ids, idempotency ids among them, verifying chain, pending rows in the order of ids drawn from the counter, and recovery never raises |
| `VaultRuns.ExactlyOnce` | src/lineage_vault/storage/sqlite_backend.py:124-169 | over every run: all answers for a key name one event id, at most the first is not a duplicate, and that id has exactly one ledger row, with the text first committed for the key |
| `VaultRuns.FreshAnswerIsFirst` | src/lineage_vault/storage/sqlite_backend.py:159-167 | the answer that is not a duplicate belongs to the item whose payload was committed for the key |
| `VaultRuns.CommittedStays` | docs/crash-semantics.md:7-11 | whatever follows: the ledger only grows at its end, and answers, keys and first texts stay |
| `VaultRuns.Conservation` | src/lineage_vault/storage/sqlite_backend.py:134-197 | over every run: ledger length = idempotency rows + everything committed recoveries returned, with disjoint event ids |
| `HashChain.VerifyIntegrity` | src/lineage_vault/storage/sqlite_backend.py:202-213 | the loop returns true exactly when every row names the digest of the row before it (64 zeros in front of the first) and carries the digest of its previous digest, event id and payload joined by bars |
| `HashChain.ChainedExactly` | src/lineage_vault/storage/sqlite_backend.py:202-213 | the recursive reading of the chain and the one row by row are the same |
| `HashChain.AppendChained` | src/lineage_vault/storage/sqlite_backend.py:93-100 | a row behind a verifying ledger keeps it verifying exactly when it is the next row |
| `Framing.NotBothWays` | src/lineage_vault/storage/ledger_chain.py:14-16 | no text is complete both from outside and from inside a string literal (RFC 8259, section 7): quote parity or a backslash rules it out |
| `Framing.JsonTextWalks` | src/lineage_vault/storage/ledger_chain.py:10-11 | any text `json.loads` accepts starts and ends outside every string |
| `Framing.PreimageIsInjective` | src/lineage_vault/storage/ledger_chain.py:14-16 | the text that is hashed determines the digest, the event id and the payload it was joined from, for 64-character digests and any JSON text, although ids and strings may hold the separator |
| `Framing.PrintedPreimageIsInjective` | src/lineage_vault/storage/ledger_chain.py:10-16 | the same for payloads as `payload_json` prints them |
| `Framing.HeadPinsHistory` | src/lineage_vault/storage/sqlite_backend.py:202-213 | two ledgers of JSON text that verify and end in one digest are equal row by row, or the comparison returns two texts with one digest or a preimage of the genesis value |
| `AuditTrail.EveryLedgerVerified` | src/lineage_vault/storage/sqlite_backend.py:93-213 | over every run the durable ledger verifies and holds JSON text only |
| `AuditTrail.HeadPinsRun` | src/lineage_vault/storage/sqlite_backend.py:202-213 | any ledger of JSON text that verifies and ends in the digest of a run's ledger is that ledger, or the hash is broken in a named place |
| `AuditTrail.RecoveredTextIsStaged` | docs/crash-semantics.md:18 | a staged payload that came in as JSON text without raw surrogates is recovered with exactly its staged text |
| `JsonRoundTrip.ValueRoundTrip` | src/lineage_vault/storage/ledger_chain.py:10-11 | reading the printed text of any encodable value gives the value back, with surrogate pairs joined |
| `JsonFidelity.ValueFidelity` | src/lineage_vault/storage/ledger_chain.py:10-11 | decode after encode gives the same value if and only if no string holds a split surrogate pair |
| `JsonFidelity.TextFidelity` | src/lineage_vault/storage/sqlite_backend.py:182-191 | encode, decode, encode gives the same text if and only if the keys, read back, are still in order |
| `JsonFidelity.SplitKeyCounterexample` | src/lineage_vault/storage/sqlite_backend.py:182-191 | a payload with a split pair in a key is recovered with a text that was never staged |
| `JsonFidelity.UnsplitTextSurvives` | src/lineage_vault/storage/sqlite_backend.py:182-191 | without split pairs the staged text survives |
| `JsonFidelity.DecodedPayloadSurvives` | src/lineage_vault/storage/sqlite_backend.py:182-191 | every payload that was decoded from JSON text without raw surrogates keeps its text |
| `JsonFidelity.StagedTextRedumps` | src/lineage_vault/storage/sqlite_backend.py:182-191 | staged text always decodes, and what it decodes to always encodes, so recovery never stops on it |
| `JsonFidelity.RedumpSettles` | src/lineage_vault/storage/sqlite_backend.py:182-191 | one round is enough: what recovery wrote is left alone by any later one |
| `JsonFidelity.PrintIsInjective` | src/lineage_vault/storage/ledger_chain.py:10-11 | two values with one text differ at most in split pairs |
| `JsonFidelity.SortKeysSorts` | src/lineage_vault/storage/ledger_chain.py:10-11 | `sort_keys` leaves every dict in strictly rising key order |
| `JsonForms.ScalarForm` | src/lineage_vault/storage/ledger_chain.py:10-11 | the printed text of null, booleans, integers (decimal digits without leading zeros), floats and strings (between quotes, each code point in its written form) |
| `JsonForms.EscapeForm` | src/lineage_vault/storage/ledger_chain.py:10-11 | the written form of a code point: itself in printable ASCII save quote and backslash, the short escapes, else four lower-case hexadecimal digits, or two such escapes for the surrogate halves |
| `JsonForms.ListForm` | src/lineage_vault/storage/ledger_chain.py:10-11 | a list encodes exactly when its items do, and its text is theirs with a comma and a space between them, in brackets |
| `JsonForms.DictForm` | src/lineage_vault/storage/ledger_chain.py:10-11 | a dict encodes exactly when its values do, and its text is that of its members, the same ones in the order of the first differing code point of their keys, each as key literal, colon, space and value, with a comma and a space between them, in braces |
| `JsonForms.LastMemberStays` | src/lineage_vault/storage/ledger_chain.py:10-11 | of members with one key the reader keeps the last |
| `Codecs.PythonIsSound` | src/lineage_vault/storage/ledger_chain.py:10-11 | the printer and reader above meet what the vault asks of its codec |
| `Reachability.Descendants` | src/lineage_vault/storage/sqlite_backend.py:251-254 | the search returns exactly the nodes reachable from the start, without the start |
| `Reachability.ReachesReverses` | src/lineage_vault/storage/sqlite_backend.py:246-254 | a is upstream of b exactly when b is downstream of a |
| `FieldImpact.Search` | src/lineage_vault/storage/sqlite_backend.py:292-307 | terminates on cyclic mappings; it lists a field exactly when a chain of rows leads to it, each row once, first occurrences in non-decreasing shortest distance, for any row order |
| `FieldImpact.SelectOutputs` | src/lineage_vault/storage/sqlite_backend.py:299-303 | for every row whose input columns are the field, in table order, one entry with its output columns, and no other entry |
| `FieldImpact.ImpactedExactly` | src/lineage_vault/storage/sqlite_backend.py:291-307 | an output of a row whose input is reachable is the same as a field that a chain of rows leads to |
| `SQLiteBackend.EdgesLeadExactly` | src/lineage_vault/storage/sqlite_backend.py:246-254 | reachability in the graph of pairs is the existence of a path of rows of dataset_edges |
| `TextOrder.BeforeExactly` | src/lineage_vault/storage/sqlite_backend.py:246-254 | the recursive order of texts is the one by the first difference |
| `FieldImpact.FirstLevelIsShortest` | src/lineage_vault/storage/sqlite_backend.py:291-307 | the queue level of a first occurrence is the length of the shortest non-empty mapping path |
| `OpenLineage.ParseDataset` | src/lineage_vault/openlineage/models.py:49-61 | defaults, then one field for each field of the schema and each column of columnLineage, in order; None exactly when a string field holds something that is not a string |
| `OpenLineage.ParseDatasets` | src/lineage_vault/openlineage/models.py:43-47 | all datasets in order, or None exactly when one of them is ill-typed |
| `OpenLineage.ParsedExactly` | src/lineage_vault/openlineage/models.py:49-61 | building a dataset fails if and only if one of its string fields is ill-typed; otherwise names, defaults, number and order of the fields are those of the raw attributes |
| `OpenLineage.BuildColumnMap` | src/lineage_vault/openlineage/models.py:80-84 | the field map from each column's first input field |
| `OpenLineage.ColumnMapExactly` | src/lineage_vault/openlineage/models.py:80-84 | the map has exactly the columns with an input field, each under its first input field |
| `OpenLineage.FieldMappings` | src/lineage_vault/openlineage/models.py:63-87 | the mappings of an event, by output and input |
| `OpenLineage.EveryInputGetsTheMap` | src/lineage_vault/openlineage/models.py:76-86 | the same map, from `inputFields[0]` only, is attributed to every input dataset |
| `LineageCover.FieldWalkIsDatasetWalk` | src/lineage_vault/storage/sqlite_backend.py:291-314 | over a covered table every walk along field mappings is a walk along dataset edges |
| `LineageCover.ImpactInsideDownstream` | src/lineage_vault/storage/sqlite_backend.py:291-314 | every impacted field's dataset is the queried one or downstream of it |
| `LineageCover.VaultCallKeepsCover` | src/lineage_vault/storage/sqlite_backend.py:120-172 | calls on the vault tables leave every intermediate and crashed state covered |
| `LineageCover.MappingKeepsCover` | src/lineage_vault/storage/sqlite_backend.py:274-289 | a field mapping over an existing edge leaves every intermediate and crashed state covered, also when it raises half-way |
| `OpenLineageIngest.SharedMapExactly` | src/lineage_vault/openlineage/ingest.py:73-76 | the map of shared fields has exactly the names both datasets have, each once |
| `OpenLineageIngest.EventEdges` | src/lineage_vault/openlineage/ingest.py:55-72 | a recorded event adds exactly its edges, also when one of its mappings raises |
| `OpenLineageIngest.EdgesOfExactly` | src/lineage_vault/openlineage/ingest.py:55-72 | the edges of an event are its inputs times its outputs: each edge from an input to an output with the run id, event time and schema version of the event, and none when its datasets cannot be parsed |
| `OpenLineageIngest.RecordedEdges` | src/lineage_vault/openlineage/ingest.py:39-72 | after the loop over the answers, returned or raised, the edges in the connection and in the file are those before, followed by those of the reached events that are not duplicates |
| `EventRows.EventRowsExactly` | src/lineage_vault/openlineage/ingest.py:59-90 | both directions for one event whose datasets have their columns in dicts, that is, with distinct names: a row is written exactly when the event calls for it, said of its raw datasets and columns |
| `EventRows.EventRowsSize` | src/lineage_vault/openlineage/ingest.py:63-90 | and as often as it is called for: the shared names over all pairs plus the mapped columns over all pairs |
| `EventRows.EventEdgesExactly` | src/lineage_vault/openlineage/ingest.py:63-72 | both directions for the edges, and their number |
| `EventRows.RecordableExactly` | src/lineage_vault/openlineage/ingest.py:55-90 | recording raises exactly for an ill-typed dataset and, with an input, for a first input field that no column takes |
| `EventRows.BatchRowsExactly` | src/lineage_vault/openlineage/ingest.py:39-43 | over a batch: a row is written exactly when a complete event that is not a duplicate calls for it |
| `IngestEffects.AnswersAreMeant` | src/lineage_vault/openlineage/ingest.py:29-52 | the answers of a batch by the keys as they were given |
| `IngestEffects.RunEventsAreMeant` | src/lineage_vault/openlineage/ingest.py:38-41 | which run events are stored, for every run and type, and with which body |
| `IngestEffects.AcknowledgedExactly` | src/lineage_vault/openlineage/ingest.py:26-35 | the storage takes a batch exactly when keys and events match in number and each new event encodes under an id of its own |
| `IngestEffects.RecordedExactly` | src/lineage_vault/openlineage/ingest.py:37-43 | and no lineage write raises exactly when the lineage of each new complete event can be recorded |
| `IngestEffects.RaisedMeans` | src/lineage_vault/openlineage/ingest.py:37-43 | what a batch leaves whose lineage raises: the first event that cannot be recorded, what the events before it and its own edges have added, and nothing of the events behind it |
| `EndToEnd.FreshExactly` | src/lineage_vault/openlineage/ingest.py:30-48 | an event is answered fresh exactly when its key was not known and no earlier event of the batch has it |
| `EndToEnd.TwoTypesBothFresh` | src/lineage_vault/openlineage/ingest.py:30 | two events of one run with different types and no keys, on a store that knows neither key, are both answered fresh, and both bodies are in the ledger |
| `EndToEnd.IngestThenImpact` | src/lineage_vault/openlineage/ingest.py:84-90 | once a complete event is answered fresh, the impact of an input field lists every output column made from it |
| `EndToEnd.RecordThenImpact` | src/lineage_vault/storage/sqlite_backend.py:274-314 | once a field mapping is recorded, the impact of each input field of the map lists its output field |
| `EndToEnd.StageThenRecover` | src/lineage_vault/storage/sqlite_backend.py:80-200 | a payload staged under a new id outlives a crash, and recovery returns with it in the ledger, decoded and encoded again |
| `IngestRuns.RunEdges` | src/lineage_vault/openlineage/ingest.py:18-72 | over every crash-free run of ingested batches, stagings, acknowledged writes and recoveries, with the vault's own answers: dataset_edges holds the sum of inputs times outputs over the acknowledged complete events that were not answered as duplicates, in the connection and in the file |
| `IngestRuns.ReplayChangesNothing` | src/lineage_vault/openlineage/ingest.py:18-53 | submitting any batch again that was acknowledged earlier in such a run, with any newly drawn event ids, leaves ledger, WAL, idempotency, id counter, edges, mappings and run events as they are |
| `IngestRuns.KeysStay` | docs/crash-semantics.md:19 | in such a run every key keeps its event id |
| `IngestRuns.EveryStateRests` | src/lineage_vault/openlineage/ingest.py:18-53 | in such a run the vault tables are consistent after every step, and connection and file differ at most in mappings that a raise left uncommitted |
| `OpenLineageIngest.MappingOverPairs` | src/lineage_vault/openlineage/models.py:63-87 | every mapping of an event names an input and an output of the event |
| `OpenLineageIngest.BatchWritesPrefix` | src/lineage_vault/openlineage/ingest.py:40-47 | once an event's lineage raises, no later event's is written |
| `Ingestor.OpenLineageIngestor.RecordPair` | src/lineage_vault/openlineage/ingest.py:64-82 | the edge first, then the fields both datasets share by name |
| `Ingestor.OpenLineageIngestor.RecordLineage` | src/lineage_vault/openlineage/ingest.py:55-90 | returns exactly when no dataset is ill-typed and no first input field is one that no column takes. Then field_mappings has gained exactly one row for each output, input and column with an input field (output column, its first input field or its own name), and one row (k, k) for each name k that output and input share; dataset_edges one row for each output and input with run id, time and the number of the output's fields; dataset names are namespace, dot, name. When a mapping raises the edges are all there. Mappings lie over edges at every statement, in the connection and in the file |
| `Ingestor.OpenLineageIngestor.IngestBatch` | src/lineage_vault/openlineage/ingest.py:18-53 | it returns exactly when there are as many keys as events or none, the storage takes the new events and their lineage can be recorded. Then event i is answered for the key that was given, or run id, colon, event type for a missing or empty one: fresh, under the id drawn for it and with its body in the ledger, exactly when the key was not known and no earlier event of the batch has it; every fresh event of any type is stored as a run event, the last for its run and type staying; and both lineage tables have gained exactly the rows that the fresh complete events call for. A batch that the storage does not take changes no key, ledger row, edge or run event; one whose lineage raises leaves the acknowledged writes, the run events up to the event that raises and the lineage of the events before it, with that event's edges when its datasets parse. It states all tables in the connection and in the file for every outcome; all states covered |
| `Ingestor.OpenLineageIngestor.Ingest` | src/lineage_vault/openlineage/ingest.py:15-16 | a batch of one: its answer, its key and its tables, in the same terms, whether it returns or raises |
| `Ingestor.OpenLineageIngestor.CrashAndReopen` | docs/crash-semantics.md:7-11 | a crash between calls keeps the mappings over edges |
| `Ingestor.OpenLineageIngestor.CrashLeavesFile` | docs/crash-semantics.md:7-11 | the file at every statement so far, inside a batch too, can be opened and has its mappings over edges |
| `Ingestor.OpenLineageIngestor.Open` | src/lineage_vault/openlineage/ingest.py:11-12 | an ingestor goes on from such a file |
| `Ingestor.OpenLineageIngestor.Impact` | src/lineage_vault/storage/sqlite_backend.py:291-314 | for lineage written through the ingestor, field impact stays inside dataset impact |
| `IngestRuns.ReplayWritesNothing` | src/lineage_vault/openlineage/ingest.py:31-43 | a batch under known keys succeeds, answers duplicates only, and writes no edge, mapping, run event or vault row |
| `IngestRuns.BatchKeysKnown` | src/lineage_vault/openlineage/ingest.py:31-38 | after a committed batch all its keys are known |
| `PostgresOrder.Serializable` | src/lineage_vault/storage/postgres_backend.py:91-226 | strict serializability of every interleaving of statements, failures and lost connections: one order of the finished transactions in which running them alone gives every answer that was given and the committed tables; it keeps the order of the advisory lock, and no transaction comes before one that had ended when it began |
| `PostgresOrder.InTimePairs` | src/lineage_vault/storage/postgres_backend.py:91-226 | the real-time clause pair by pair |
| `PostgresRuns.EveryStateFits` | src/lineage_vault/storage/postgres_backend.py:91-226 | the invariant after every statement |
| `PostgresRuns.FailsAsSpecified` | src/lineage_vault/storage/postgres_backend.py:137-226 | interleaving makes nothing fail: only a batch raises, and only one that raises when it runs alone on the tables of that moment |
| `PostgresRuns.SomeoneCanRun` | src/lineage_vault/storage/postgres_backend.py:137-226 | no deadlock: while transactions are open, one can run its next statement |
| `PostgresLaws.AnswersOfRun` | src/lineage_vault/storage/postgres_backend.py:91-226 | the concurrent run answers what a run of the sequential vault answers and stores the same keys, ledger and WAL, but for the ids of pending rows |
| `PostgresLaws.ConcurrentExactlyOnce` | src/lineage_vault/storage/postgres_backend.py:137-194 | exactly once per key under any interleaving: one event id per key, only the first answer fresh, one ledger row, and that row holds the text of the item answered fresh |
| `PostgresLaws.ConcurrentHeadPins` | src/lineage_vault/storage/postgres_backend.py:228-240 | a verifying ledger of JSON text with the digest of the committed ledger is that ledger, or the hash is broken in a named place |
| `PostgresLaws.ConcurrentLedger` | src/lineage_vault/storage/postgres_backend.py:228-240 | the committed ledger is always one verifying chain in the order of its numbers, and its length is the keys plus all recovered rows |
| `PostgresLaws.ConcurrentLedgerGrows` | src/lineage_vault/storage/postgres_backend.py:106-124 | the committed ledger only grows at its end |
| `PostgresBatch.BatchStepFits` | src/lineage_vault/storage/postgres_backend.py:137-194 | every statement of a batch under the lock goes on, commits or fails as the specification does |
| `PostgresRecovery.RecoveryStepFits` | src/lineage_vault/storage/postgres_backend.py:196-226 | every statement of a recovery; it never fails and never finds a selected row in the ledger |
| `PostgresInvariant.TopHashIsHead` | src/lineage_vault/storage/postgres_backend.py:82-86 | ORDER BY seq DESC reads the last row of the chain |
| `PostgresCommit.ApplyBatch` | src/lineage_vault/storage/postgres_backend.py:150-190 | what a batch commits is what the specification comes to on the tables of that moment |
| `PostgresCommit.ApplyRecovery` | src/lineage_vault/storage/postgres_backend.py:203-222 | what a recovery commits: its rows settled and appended, rows staged since left pending |
| `SerialLog.InsertEntry` | src/lineage_vault/storage/postgres_backend.py:91-104 | a staging can be put where its id was drawn, before entries that committed earlier: all answers stay, the tables gain its row |
| `SerialLog.AckAllAbsorb` | src/lineage_vault/storage/postgres_backend.py:137-194 | a batch decides and answers from idempotency and the ledger alone, whatever is in wal_staging |
| `SerialLog.AckAllWithRow` | src/lineage_vault/storage/postgres_backend.py:137-194 | a batch does not notice a staged row of another event |
| `PostgresLaws.SerialIsRun` | src/lineage_vault/storage/postgres_backend.py:91-226 | running a log serially is a run of module VaultRuns, but for the ids of pending rows |
| `Renumbering.AlikeAckAll` | src/lineage_vault/storage/postgres_backend.py:137-194 | a batch on tables whose pending rows have other ids answers the same and leaves the same tables, ids apart |
| `Renumbering.AlikeRecover` | src/lineage_vault/storage/postgres_backend.py:196-226 | so does a recovery when the ids stand in the same order |
| `Pipeline.AlwaysConserved` | src/lineage_vault/ingestion/pipeline.py:29-48 | over every run: the queue never exceeds a positive bound, events leave in the order they came, and accepted = queued + held by workers + handled |
| `Pipeline.ExactShutdown` | src/lineage_vault/ingestion/pipeline.py:45-48 | when `stop` has returned, with at least one worker: one sentinel for each worker, the queue holds exactly the events accepted behind the last sentinel, and every accepted event was handled if and only if there is none |
| `Pipeline.StoppedIsShutDown` | src/lineage_vault/ingestion/pipeline.py:45-48 | the same for a state of the object: its invariant and a returned `stop` give the exact shutdown |
| `Pipeline.ActFits` | src/lineage_vault/ingestion/pipeline.py:29-48 | what every state of the object satisfies (bound, order, conservation, sentinels, tail) is kept by every action |
| `Pipeline.DropsExactly` | src/lineage_vault/ingestion/pipeline.py:29-35 | at a state of the object an event is dropped exactly when the queue holds as many slots as its positive bound, and accepted otherwise |
| `Pipeline.DroppedAtTheBound` | src/lineage_vault/ingestion/pipeline.py:29-35 | over every run the number of drops goes up at an `ingest` that finds the queue at its bound, and nowhere else |
| `Pipeline.EveryIngestCounts` | src/lineage_vault/ingestion/pipeline.py:29-35 | over every run: accepted plus dropped is the number of `ingest` calls |
| `Pipeline.BlockedExactly` | src/lineage_vault/ingestion/pipeline.py:45-48 | blocked means: sentinels are missing, the queue holds as many slots as its positive bound, and every worker has finished or died |
| `Pipeline.QuietStopIsNeverLate` | src/lineage_vault/ingestion/pipeline.py:45-48 | no event is that late when none is ingested once `stop` has begun |
| `Pipeline.StopStallsExactly` | src/lineage_vault/ingestion/pipeline.py:37-48 | `stop` waits for ever if and only if all workers are gone, sentinels are missing and the queue is full |
| `Pipeline.OnlyRaisingBlocks` | src/lineage_vault/ingestion/pipeline.py:37-48 | that never happens with a worker and no handler that raised |
| `Pipeline.StepRemains` | src/lineage_vault/ingestion/pipeline.py:37-48 | while `stop` waits, everything that happens, save `ingest` and a raising handler, brings its return nearer |
| `Pipeline.LateEventIsLost` | src/lineage_vault/ingestion/pipeline.py:29-48 | a concrete run in which an accepted event is never handled |
| `Pipeline.NoWorkersHandleNothing` | src/lineage_vault/ingestion/pipeline.py:26-27 | without workers nothing is ever handled |
| `Pipeline.RaisingHandlerHangsStop` | src/lineage_vault/ingestion/pipeline.py:37-48 | a concrete run in which a handler that raises makes `stop` wait for ever |
| `Pipeline.IngestionPipeline.Offer` | src/lineage_vault/ingestion/pipeline.py:29-35 | `ingest`: queued and true exactly when there is no bound or the queue is shorter than it; otherwise dropped, counted and false |
| `Pipeline.IngestionPipeline.WorkerGets` | src/lineage_vault/ingestion/pipeline.py:38-41 | a worker takes the oldest slot and handles its event, or ends at a sentinel; accepted = taken + queued, in order |
| `Pipeline.IngestionPipeline.WorkerReturns` | src/lineage_vault/ingestion/pipeline.py:42-43 | the handler returns: its event is the next handled one, and taken = handled + held |
| `Pipeline.IngestionPipeline.WorkerRaises` | src/lineage_vault/ingestion/pipeline.py:42-43 | the handler raises: the worker is gone with its event, nothing else changes, and taken = handled + held |
| `Pipeline.IngestionPipeline.BeginStop` | src/lineage_vault/ingestion/pipeline.py:45-46 | no sentinel is out yet |
| `Pipeline.IngestionPipeline.StopPuts` | src/lineage_vault/ingestion/pipeline.py:46-47 | when the queue is shorter than its bound one sentinel is put at the end; as many are queued or taken as were put |
| `Pipeline.IngestionPipeline.Gather` | src/lineage_vault/ingestion/pipeline.py:48 | with all sentinels out it raises when a handler has raised, also before the other workers are done, and returns exactly when every worker has met its sentinel; then the shutdown was exact |
| `TwoFile.LedgerStore.Append` | src/lineage_vault/ledger/store.py:45-55 | one committed row behind the last, with the event id, the encoded text and the digest of the row before, exactly when the payload encodes and no row has the id; nothing otherwise |
| `TwoFile.LedgerStore.Verify` | src/lineage_vault/ledger/store.py:57-67 | true exactly when the chain verifies |
| `TwoFile.WalBuffer.Stage` | src/lineage_vault/wal/recovery.py:25-30 | an id that is not staged gets the next id and the text of this payload behind the pending rows; for one that is nothing changes; raises exactly for a payload that does not encode |
| `TwoFile.WalBuffer.Commit` | src/lineage_vault/wal/recovery.py:32-40 | the pending row of the event comes into the ledger, its text decoded and encoded again, and is marked with its text; nothing happens for an event that is not pending; raises exactly for one that is in the ledger and still pending |
| `TwoFile.WalBuffer.ReplayPending` | src/lineage_vault/wal/recovery.py:42-50 | appends (decoded and encoded again) and marks the rows in id order up to the first one whose event is in the ledger, and states ledger, working and durable rows exactly whether it raises or returns; returns exactly when no pending event is in the ledger, and only then commits the marks; an event once jammed stays jammed for ever |
| `EndToEnd.StageThenReplay` | src/lineage_vault/wal/recovery.py:25-50 | a payload staged under a new id outlives a crash, and a replay that returns has put it into the ledger, decoded and encoded again |
| `TwoFile.WalBuffer.CrashAndReopen` | src/lineage_vault/wal/recovery.py:42-50 | a crash takes back the marks of an unfinished replay, not its ledger rows |
| `TwoFile.WalBuffer.Open` | src/lineage_vault/wal/recovery.py:11-23 | a new process goes on from any file that a crash left |
| `TwoFile.FitsAt` | src/lineage_vault/wal/recovery.py:25-50 | at every crash point of the two files, inside calls too: marked ids are in the ledger, ledger ids are staged, no id twice, pending rows in id order, and the chain verifies |
| `TwoFile.NothingLost` | src/lineage_vault/wal/recovery.py:25-50 | of any two crash points the ledger of the first is the beginning of that of the second, and what was staged at the first is staged at the second |
| `TextOrder.SortedList` | src/lineage_vault/storage/sqlite_backend.py:246-254 | `sorted` over a set: every element once; of two elements the earlier has the smaller character where they first differ, or ends there |

## Left out

- The FastAPI app, the CLI, the demo, metrics, logging, the benchmark harness, configuration and the engine facades: plumbing around the core.
- SHA-256 itself and UTF-8 encoding of the preimage: the digest is a function on text. Event ids with lone surrogates, on which `.encode()` raises, are therefore not told apart.
- SQL engines, drivers, connection pools, the bound-variable limit, foreign keys and column affinities (a scalar in a TEXT column is the text that is stored for it): tables, UNIQUE rules, NOT NULL, commit, rollback and statement visibility are modelled.
- Failing COMMIT statements and disk errors: a commit happens or the process dies before it.
- networkx: upstream and downstream are stated as reachability without the start and computed by a search written for them.
- `migrate`, `all_ledger_entries`, `get_run_event`, `edges_at` and time travel: single statements or single filters.
- `created_at`, UUIDs and clock times: event ids are parameters, event times opaque text.
- JSON text with raw surrogate code points, which `json.loads` takes in a str: the reader's input is text without them, so what is said of payloads decoded from JSON is said of such text.
- Dict keys that are not strings, circular references, the recursion limit and the digit limit of big integers in JSON; a float is the text that `repr` gives it.
- OpenLineage facets of the wrong shape (a list where a dict is expected, columnLineage fields that are None) and Pydantic's validation of the event itself. A string field that holds something else is modelled; it raises.
- Type names of schema fields: they are parsed and kept, and nothing reads them.
- Recording lineage again after a crash between the acknowledged batch and its edges: docs/crash-semantics.md names it a non-goal, and a replay under the same keys writes nothing.
- Postgres: the backend is a machine of interleaved statements on values, not a class; its graph cache across processes, its edges and mappings (the same statements as in SQLite), pool exhaustion and serialization by anything but the advisory lock and row conflicts are not in it. A batch reads its `existing` rows in one step.
- Pipeline: awaiting is the gap between two actions; `start` is taken to have run once, before anything else. `rate` is not used by the code.
- TwoFile: the ledger's insert and its commit are one step, as nothing else uses its connection; a WAL that shares a ledger with another writer is not in it.
- SQLiteBackend.SQLiteStorageBackend.AddDatasetEdge: the payload column is kept as the value it encodes.
