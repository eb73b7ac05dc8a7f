/** `SQLiteStorageBackend`: one connection whose statements change a working copy of the tables, and the
  * copy on disk that only a commit changes.
  *
  * The backend's lock is re-entrant and held for a whole call, so calls do not overlap; but readers such
  * as `verify_integrity` take no lock and may look between two statements, and the process may die there.
  * The ghost field `observed` records the two copies after every statement, so that what such a reader or
  * a crash finds can be stated.
  */
module SQLiteBackend {
  import opened Wrappers
  import opened Json
  import opened HashChain
  import opened Vault
  import opened VaultLaws
  import opened VaultEffects
  import opened Loops
  import opened Codecs
  import opened Reachability
  import opened TextOrder
  import FieldImpact
  import Runs = VaultRuns

  /** One row of table dataset_edges; the payload column is kept as the value it encodes. */
  datatype Edge = Edge(src: string, dst: string, transformId: string, eventTime: string, schemaVersion: nat, payload: Value)

  /** All tables, and the counter behind wal_staging's AUTOINCREMENT ids. */
  datatype Db = Db(
    store: Store,
    nextId: nat,
    edges: seq<Edge>,
    mappings: seq<FieldImpact.Mapping>,
    runEvents: map<(string, string), string>)

  const EMPTY_DB := Db(EMPTY, 1, [], [], map[])

  datatype Snapshot = Snapshot(working: Db, durable: Db)

  /** The pairs a graph cache of the table holds. */
  function EdgePairs(edges: seq<Edge>): set<(string, string)> { set e | e in edges :: (e.src, e.dst) }

  /** Each dataset is the source of a row whose destination is the next. */
  predicate EdgePath(edges: seq<Edge>, p: seq<string>) {
    p != [] && forall i :: 0 <= i < |p| - 1 ==> HasEdge(edges, p[i], p[i + 1])
  }

  predicate HasEdge(edges: seq<Edge>, src: string, dst: string) { exists e :: e in edges && e.src == src && e.dst == dst }

  ghost predicate EdgesLead(edges: seq<Edge>, a: string, b: string) {
    exists p :: EdgePath(edges, p) && p[0] == a && p[|p| - 1] == b
  }

  lemma EdgePathExactly(edges: seq<Edge>, p: seq<string>)
    ensures EdgePath(edges, p) <==> Path(EdgePairs(edges), p)
  {
    if Path(EdgePairs(edges), p) {
      forall i | 0 <= i < |p| - 1 ensures HasEdge(edges, p[i], p[i + 1]) {
        assert (p[i], p[i + 1]) in EdgePairs(edges);
      }
    }
  }

  /** The rows lead from `a` to `b` exactly when `b` is reachable in the graph of their pairs. */
  lemma EdgesLeadExactly(edges: seq<Edge>, a: string, b: string)
    ensures EdgesLead(edges, a, b) <==> Reaches(EdgePairs(edges), a, b)
  {
    ReachesByPath(EdgePairs(edges), a, b);
    forall p ensures EdgePath(edges, p) <==> Path(EdgePairs(edges), p) {
      EdgePathExactly(edges, p);
    }
  }

  // ------------------------------------------------------------------ what can be seen between statements

  /** What an unlocked reader sees verifies and extends `base`, the tables before the call. */
  predicate ReaderSafe(c: Codec, base: Db, w: Db) {
    base.store.ledger <= w.store.ledger && Chained(c.hash, w.store.ledger)
  }

  /** A call that began at `was` with the tables `before` has come to `now` and committed nothing: every
    * snapshot it added is safe to read, and its durable copy is still `before`.
    */
  ghost predicate Uncommitted(c: Codec, was: seq<Snapshot>, now: seq<Snapshot>, before: Db) {
    now == was ||
    (|was| < |now| && Uncommitted(c, was, now[..|now| - 1], before) &&
     now[|now| - 1].durable == before && ReaderSafe(c, before, now[|now| - 1].working))
  }

  /** The snapshots of a whole call: every one is safe to read, and a crash before the last statement leaves
    * the tables as they were before the call.
    */
  ghost predicate CrashSafe(c: Codec, was: seq<Snapshot>, now: seq<Snapshot>, before: Db, after: Db) {
    if now == was then after == before
    else
      |was| < |now| && Uncommitted(c, was, now[..|now| - 1], before) &&
      now[|now| - 1].durable == after && ReaderSafe(c, before, now[|now| - 1].working)
  }

  lemma {:induction false} UncommittedAt(c: Codec, was: seq<Snapshot>, now: seq<Snapshot>, before: Db, i: nat)
    requires Uncommitted(c, was, now, before) && |was| <= i < |now|
    ensures now[i].durable == before && ReaderSafe(c, before, now[i].working)
    decreases |now|
  {
    if i < |now| - 1 {
      UncommittedAt(c, was, now[..|now| - 1], before, i);
    }
  }

  /** A crash or an unlocked read at any statement of a call: the readable tables verify and extend the
    * ledger as it was, and the file holds the tables from before the call or from after it.
    */
  lemma CrashAnywhere(c: Codec, was: seq<Snapshot>, now: seq<Snapshot>, before: Db, after: Db, i: nat)
    requires CrashSafe(c, was, now, before, after) && |was| <= i < |now|
    ensures ReaderSafe(c, before, now[i].working)
    ensures now[i].durable == if i < |now| - 1 then before else after
  {
    if i < |now| - 1 {
      UncommittedAt(c, was, now[..|now| - 1], before, i);
    }
  }

  /** What a file may hold: consistent tables whose pending rows have ids drawn from the counter. */
  predicate FileFits(c: Codec, file: Db) { Runs.RunFits(c, file.store, file.nextId) }

  /** The tables in the connection and in the file after a call on the vault tables. */
  function AfterCall(c: Codec, s: Snapshot, call: Runs.Call): Snapshot {
    var t := Runs.Commit(c, s.working.store, s.working.nextId, call);
    if call == Runs.Acknowledge([]) || (call.Stage? && t.None?) then s
    else if t.None? then Snapshot(s.durable, s.durable)
    else Snapshot(CallCommits(c, s.working, call), CallCommits(c, s.working, call))
  }

  /** What a call commits when it does not raise. */
  function CallCommits(c: Codec, w: Db, call: Runs.Call): Db
    requires Runs.Commit(c, w.store, w.nextId, call).Some?
  {
    w.(store := Runs.Commit(c, w.store, w.nextId, call).value, nextId := w.nextId + Runs.Draws(c, w.store, call))
  }

  lemma AfterCommit(c: Codec, s: Snapshot, call: Runs.Call)
    requires Sound(c) && FileFits(c, s.working) && call != Runs.Acknowledge([])
    requires Runs.Commit(c, s.working.store, s.working.nextId, call).Some?
    ensures FileFits(c, CallCommits(c, s.working, call))
    ensures AfterCall(c, s, call) == Snapshot(CallCommits(c, s.working, call), CallCommits(c, s.working, call))
  {
    Runs.CommitKeeps(c, s.working.store, s.working.nextId, call);
  }

  lemma AfterRaise(c: Codec, s: Snapshot, call: Runs.Call)
    requires call != Runs.Acknowledge([]) && !call.Stage?
    requires Runs.Commit(c, s.working.store, s.working.nextId, call).None?
    ensures AfterCall(c, s, call) == Snapshot(s.durable, s.durable)
  {
  }

  lemma AfterRecovery(c: Codec, s: Snapshot)
    requires Sound(c) && FileFits(c, s.working)
    ensures var r := Recover(c, s.working.store);
            && r.Recovered? && FileFits(c, s.working.(store := r.store))
            && AfterCall(c, s, Runs.RecoverUncommitted) == Snapshot(s.working.(store := r.store), s.working.(store := r.store))
  {
    RecoverExactly(c, s.working.store);
    AfterCommit(c, s, Runs.RecoverUncommitted);
  }

  /** INSERT OR IGNORE INTO wal_staging: an id is drawn only for a row that is inserted. */
  function WithStaged(w: Db, e: string, text: string): Db {
    w.(store := StageRow(w.store, w.nextId, e, text), nextId := w.nextId + if InWal(w.store, e) then 0 else 1)
  }

  /** What a single write makes of the tables. */
  function ItemWritten(c: Codec, w: Db, item: Item): Db
    requires AckOne(c, w.store, item).Some?
  {
    w.(store := AckOne(c, w.store, item).value.store, nextId := w.nextId + AckDraws(c, w.store, item))
  }

  /** The statements for an item whose key is new come to what a single write comes to. */
  lemma ItemStatements(c: Codec, w: Db, item: Item)
    requires item.idempotencyKey !in w.store.keys && c.dumps(item.payload).Some?
    ensures var key, e, text := item.idempotencyKey, item.eventId, c.dumps(item.payload).value;
            match InsertKey(w.store, key, e)
            case None => AckOne(c, w.store, item).None?
            case Some(s1) =>
              var staged := WithStaged(w.(store := s1), e, text);
              match AppendRow(c, Settle(staged.store, e), e, text)
              case None => AckOne(c, w.store, item).None?
              case Some(s2) => AckOne(c, w.store, item).Some? && ItemWritten(c, w, item) == staged.(store := s2)
  {
    var s1 := InsertKey(w.store, item.idempotencyKey, item.eventId);
    if s1.Some? {
      StageThenSettle(s1.value, w.nextId, item.eventId, c.dumps(item.payload).value);
    }
  }

  /** The tables after the first `i` items of a batch. */
  function WrittenTo(c: Codec, start: Db, items: seq<Item>, i: nat): Db
    requires i <= |items| && AckAll(c, start.store, items[..i]).Done?
  {
    start.(store := AckAll(c, start.store, items[..i]).store, nextId := start.nextId + BatchDraws(c, start.store, items[..i]))
  }

  lemma WrittenNext(c: Codec, start: Db, items: seq<Item>, i: nat)
    requires i < |items| && AckAll(c, start.store, items[..i]).Done?
    ensures var w := WrittenTo(c, start, items, i);
            match AckOne(c, w.store, items[i])
            case None => AckAll(c, start.store, items[..i + 1]).Failed?
            case Some(a) =>
              && AckAll(c, start.store, items[..i + 1]).Done?
              && WrittenTo(c, start, items, i + 1) == ItemWritten(c, w, items[i])
              && (items[i].idempotencyKey in w.store.keys ==> WrittenTo(c, start, items, i + 1) == w)
  {
    AckAllNext(c, start.store, items, i);
    BatchDrawsNext(c, start.store, items, i);
  }

  /** Where the loop of a batch is after `i` items. */
  predicate WritingFits(c: Codec, start: Db, items: seq<Item>, i: nat, w: Db, existing: map<string, string>, results: seq<Ack>)
    requires i <= |items|
  {
    match AckAll(c, start.store, items[..i])
    case Failed => false
    case Done(_, acks) =>
      w == WrittenTo(c, start, items, i) && results == acks && Prefetched(existing, items, w.store.keys)
  }

  lemma WritingDuplicate(c: Codec, start: Db, items: seq<Item>, i: nat, w: Db, existing: map<string, string>, results: seq<Ack>)
    requires i < |items| && WritingFits(c, start, items, i, w, existing, results) && items[i].idempotencyKey in existing
    ensures WritingFits(c, start, items, i + 1, w, existing,
                        results + [AcknowledgedWrite(existing[items[i].idempotencyKey], items[i].idempotencyKey, true, true)])
  {
    AckAllNext(c, start.store, items, i);
    WrittenNext(c, start, items, i);
    assert SameAnswer(existing, w.store.keys, items[i].idempotencyKey);
  }

  lemma WritingNew(c: Codec, start: Db, items: seq<Item>, i: nat, w: Db, existing: map<string, string>, results: seq<Ack>)
    requires i < |items| && WritingFits(c, start, items, i, w, existing, results) && items[i].idempotencyKey !in existing
    ensures var key, e := items[i].idempotencyKey, items[i].eventId;
            && key !in w.store.keys
            && if AckOne(c, w.store, items[i]).None? then AckAll(c, start.store, items).Failed?
               else WritingFits(c, start, items, i + 1, ItemWritten(c, w, items[i]), existing[key := e],
                                results + [AcknowledgedWrite(e, key, true, false)])
  {
    assert SameAnswer(existing, w.store.keys, items[i].idempotencyKey);
    AckAllNext(c, start.store, items, i);
    WrittenNext(c, start, items, i);
    if AckOne(c, w.store, items[i]).None? {
      FailureStays(c, start.store, items, i + 1);
    } else {
      FreshAck(c, w.store, items[i]);
      PrefetchedGrows(existing, items, w.store.keys, items[i]);
    }
  }

  /** Every state ever seen verifies, what the file held could be opened, and from each to the next the durable
    * ledger only grows at its end.
    */
  ghost predicate Watched(c: Codec, seen: seq<Snapshot>) {
    seen != [] ==>
      var init, last := seen[..|seen| - 1], seen[|seen| - 1];
      && Watched(c, init)
      && Chained(c.hash, last.working.store.ledger) && FileFits(c, last.durable)
      && (init != [] ==> init[|init| - 1].durable.store.ledger <= last.durable.store.ledger)
  }

  lemma WatchedStep(c: Codec, seen: seq<Snapshot>, snap: Snapshot)
    requires Watched(c, seen) && seen != []
    requires seen[|seen| - 1].durable.store.ledger <= snap.durable.store.ledger
    requires Chained(c.hash, snap.working.store.ledger) && FileFits(c, snap.durable)
    ensures Watched(c, seen + [snap])
  {
    assert (seen + [snap])[..|seen|] == seen;
  }

  /** So any two moments compare: the earlier durable ledger is the beginning of the later one. */
  lemma {:induction false} DurableOnlyGrows(c: Codec, seen: seq<Snapshot>, i: nat, j: nat)
    requires Watched(c, seen) && i <= j < |seen|
    ensures Chained(c.hash, seen[i].working.store.ledger) && FileFits(c, seen[i].durable)
    ensures seen[i].durable.store.ledger <= seen[j].durable.store.ledger
    decreases |seen|, j
  {
    var init := seen[..|seen| - 1];
    if j < |init| {
      DurableOnlyGrows(c, init, i, j);
    } else if i < j {
      DurableOnlyGrows(c, init, i, j - 1);
    }
  }

  /** One more statement of a call that has committed nothing yet. */
  lemma UncommittedStep(c: Codec, was: seq<Snapshot>, now: seq<Snapshot>, before: Db, snap: Snapshot)
    requires Uncommitted(c, was, now, before) && |was| <= |now| && ReaderSafe(c, before, snap.working)
    ensures CrashSafe(c, was, now + [snap], before, snap.durable)
    ensures snap.durable == before ==> Uncommitted(c, was, now + [snap], before)
  {
    assert (now + [snap])[..|now|] == now;
  }

  lemma TwoMore(was: seq<Snapshot>, a: Snapshot, b: Snapshot)
    ensures was + [a] + [b] == was + [a, b]
  {
  }

  predicate SameLineage(a: Db, b: Db) { a.edges == b.edges && a.mappings == b.mappings }

  /** The snapshots a call on the vault tables adds: each has the lineage tables that the call found, in the
    * connection or (after a rollback) in the file.
    */
  ghost predicate VaultOnly(was: seq<Snapshot>, now: seq<Snapshot>, before: Db)
    requires was != []
  {
    now == was ||
    (|was| < |now| && VaultOnly(was, now[..|now| - 1], before) &&
     (SameLineage(now[|now| - 1].working, was[|was| - 1].working) || SameLineage(now[|now| - 1].working, before)))
  }

  lemma VaultOnlyStep(was: seq<Snapshot>, now: seq<Snapshot>, before: Db, snap: Snapshot)
    requires was != [] && VaultOnly(was, now, before) && |was| <= |now|
    requires SameLineage(snap.working, was[|was| - 1].working) || SameLineage(snap.working, before)
    ensures VaultOnly(was, now + [snap], before)
  {
    assert (now + [snap])[..|now|] == now;
  }

  class SQLiteStorageBackend {
    const codec: Codec
    var working: Db                     // what the connection's statements see
    var durable: Db                     // what the file holds
    var graph: set<(string, string)>    // the in-memory graph cache
    ghost var observed: seq<Snapshot>

    /** Nothing is left uncommitted between calls, save rows of a field mapping that raised half-way. */
    ghost predicate Quiet()
      reads this
    {
      && working.store == durable.store && working.nextId == durable.nextId
      && working.edges == durable.edges && working.runEvents == durable.runEvents
      && durable.mappings <= working.mappings
    }

    ghost predicate Valid()
      reads this
    {
      && Sound(codec)
      && FileFits(codec, durable)
      && Quiet()
      && graph == EdgePairs(durable.edges)
      && Watched(codec, observed)
      && observed != [] && observed[|observed| - 1] == Snapshot(working, durable)
    }

    constructor (codec: Codec)
      requires Sound(codec)
      ensures Valid() && this.codec == codec && durable == EMPTY_DB
    {
      this.codec := codec;
      working, durable, graph := EMPTY_DB, EMPTY_DB, {};
      observed := [Snapshot(EMPTY_DB, EMPTY_DB)];
    }

    /** A new process opens the file. */
    constructor Open(codec: Codec, file: Db)
      requires Sound(codec) && FileFits(codec, file)
      ensures Valid() && this.codec == codec && working == durable == file && graph == EdgePairs(file.edges)
      ensures observed == [Snapshot(file, file)]
    {
      this.codec := codec;
      working, durable, graph := file, file, {};
      observed := [Snapshot(file, file)];
      new;
      LoadGraphCache();
    }

    // ---------------------------------------------------------------- statements

    /** The state of a call that began at `was` with the tables `before` and has not committed yet. */
    ghost predicate Underway(was: seq<Snapshot>, before: Db)
      reads this
    {
      && Uncommitted(codec, was, observed, before) && |was| <= |observed|
      && ReaderSafe(codec, before, working)
      && durable == before
      && Watched(codec, observed)
      && observed != [] && observed[|observed| - 1] == Snapshot(working, durable)
    }

    lemma DurableVerifies()
      requires Watched(codec, observed) && observed != [] && observed[|observed| - 1].durable == durable
      ensures FileFits(codec, durable)
    {
    }

    /** A statement is done: the working tables are `w` now. */
    method Execute(w: Db, ghost was: seq<Snapshot>, ghost before: Db)
      requires Underway(was, before) && ReaderSafe(codec, before, w)
      modifies this`working, this`observed
      ensures Underway(was, before) && working == w
      ensures observed == old(observed) + [Snapshot(w, durable)]
    {
      DurableVerifies();
      UncommittedStep(codec, was, observed, before, Snapshot(w, durable));
      WatchedStep(codec, observed, Snapshot(w, durable));
      working := w;
      observed := observed + [Snapshot(w, durable)];
    }

    /** A call on the vault tables is under way: the lineage tables are as it found them. */
    ghost predicate VaultCall(was: seq<Snapshot>, before: Db)
      reads this
    {
      Underway(was, before) && was != [] && VaultOnly(was, observed, before) && SameLineage(working, was[|was| - 1].working)
    }

    method ExecuteVault(w: Db, ghost was: seq<Snapshot>, ghost before: Db)
      requires VaultCall(was, before) && ReaderSafe(codec, before, w) && SameLineage(w, working)
      modifies this`working, this`observed
      ensures VaultCall(was, before) && working == w
      ensures observed == old(observed) + [Snapshot(w, durable)]
    {
      VaultOnlyStep(was, observed, before, Snapshot(w, durable));
      Execute(w, was, before);
    }

    method CommitTables(ghost was: seq<Snapshot>, ghost before: Db)
      requires Underway(was, before) && FileFits(codec, working)
      modifies this`durable, this`observed
      ensures durable == working
      ensures CrashSafe(codec, was, observed, before, durable) && Watched(codec, observed)
      ensures observed == old(observed) + [Snapshot(working, durable)]
    {
      UncommittedStep(codec, was, observed, before, Snapshot(working, working));
      WatchedStep(codec, observed, Snapshot(working, working));
      durable := working;
      observed := observed + [Snapshot(working, durable)];
    }

    /** The end of a call that changed no edge. */
    method Commit(ghost was: seq<Snapshot>, ghost before: Db)
      requires Underway(was, before)
      requires Sound(codec) && FileFits(codec, working) && graph == EdgePairs(working.edges)
      modifies this`durable, this`observed
      ensures Valid() && durable == working
      ensures CrashSafe(codec, was, observed, before, durable)
      ensures observed == old(observed) + [Snapshot(working, durable)]
    {
      CommitTables(was, before);
    }

    method Rollback(ghost was: seq<Snapshot>, ghost before: Db)
      requires Underway(was, before)
      requires Sound(codec) && FileFits(codec, durable) && graph == EdgePairs(durable.edges)
      modifies this`working, this`observed
      ensures Valid() && working == durable
      ensures CrashSafe(codec, was, observed, before, durable)
      ensures observed == old(observed) + [Snapshot(durable, durable)]
    {
      DurableVerifies();
      UncommittedStep(codec, was, observed, before, Snapshot(durable, durable));
      WatchedStep(codec, observed, Snapshot(durable, durable));
      working := durable;
      observed := observed + [Snapshot(working, durable)];
    }

    /** The end of a call on the vault tables. */
    method CommitVault(ghost was: seq<Snapshot>, ghost before: Db)
      requires VaultCall(was, before)
      requires Sound(codec) && FileFits(codec, working) && graph == EdgePairs(working.edges)
      modifies this`durable, this`observed
      ensures Valid() && durable == working
      ensures CrashSafe(codec, was, observed, before, durable) && VaultOnly(was, observed, before)
    {
      VaultOnlyStep(was, observed, before, Snapshot(working, working));
      Commit(was, before);
    }

    method RollbackVault(ghost was: seq<Snapshot>, ghost before: Db)
      requires VaultCall(was, before)
      requires Sound(codec) && FileFits(codec, durable) && graph == EdgePairs(durable.edges)
      modifies this`working, this`observed
      ensures Valid() && working == durable
      ensures CrashSafe(codec, was, observed, before, durable) && VaultOnly(was, observed, before)
    {
      VaultOnlyStep(was, observed, before, Snapshot(durable, durable));
      Rollback(was, before);
    }

    method InsertKeyRow(key: string, e: string, ghost was: seq<Snapshot>, ghost before: Db) returns (ok: bool)
      requires VaultCall(was, before)
      modifies this`working, this`observed
      ensures VaultCall(was, before)
      ensures ok <==> InsertKey(old(working.store), key, e).Some?
      ensures ok ==> working == old(working).(store := InsertKey(old(working.store), key, e).value)
    {
      if key in working.store.keys || e in working.store.keys.Values {
        return false;
      }
      ExecuteVault(working.(store := working.store.(keys := working.store.keys[key := e])), was, before);
      return true;
    }

    method InsertStagedRow(e: string, text: string, ghost was: seq<Snapshot>, ghost before: Db)
      requires VaultCall(was, before)
      modifies this`working, this`observed
      ensures VaultCall(was, before)
      ensures working == WithStaged(old(working), e, text)
    {
      if InWal(working.store, e) {
        ExecuteVault(working, was, before);
      } else {
        var row := Staged(working.nextId, e, text);
        ExecuteVault(working.(store := working.store.(pending := working.store.pending + [row]), nextId := working.nextId + 1),
                     was, before);
      }
    }

    /** UPDATE wal_staging SET committed=1. */
    method MarkCommitted(e: string, ghost was: seq<Snapshot>, ghost before: Db)
      requires VaultCall(was, before)
      modifies this`working, this`observed
      ensures VaultCall(was, before)
      ensures working == old(working).(store := Settle(old(working.store), e))
    {
      ExecuteVault(working.(store := Settle(working.store, e)), was, before);
    }

    /** `_append_ledger`: encode, read the head, insert. False when encoding or the insert raises. */
    method AppendLedger(e: string, payload: Value, ghost was: seq<Snapshot>, ghost before: Db) returns (ok: bool)
      requires VaultCall(was, before)
      modifies this`working, this`observed
      ensures VaultCall(was, before)
      ensures ok <==> codec.dumps(payload).Some? && AppendRow(codec, old(working.store), e, codec.dumps(payload).value).Some?
      ensures ok ==> working == old(working).(store := AppendRow(codec, old(working.store), e, codec.dumps(payload).value).value)
    {
      if codec.dumps(payload).None? {
        return false;
      }
      var text := codec.dumps(payload).value;
      var rows := working.store.ledger;
      var prev := Head(rows);
      var row := Row(e, text, prev, EntryHash(codec.hash, prev, e, text));
      if e in LedgerIds(rows) {
        return false;
      }
      AppendChained(codec.hash, rows, row);
      ExecuteVault(working.(store := working.store.(ledger := rows + [row])), was, before);
      return true;
    }

    // ---------------------------------------------------------------- staging

    method StagePartial(e: string, payload: Payload) returns (r: Result<()>)
      requires Valid()
      modifies this`working, this`durable, this`observed
      ensures Valid()
      ensures r.Returned? <==> codec.dumps(payload).Some?
      ensures r.Returned? ==> durable == working
      ensures r.Returned? && IsStaged(old(working.store), e) ==> working == old(working)
      ensures r.Returned? && !IsStaged(old(working.store), e) ==>
        working == old(working).(
          store := old(working.store).(
            pending := old(working.store.pending) + [Staged(old(working.nextId), e, codec.dumps(payload).value)]),
          nextId := old(working.nextId) + 1)
      ensures r.Raised? ==> working == old(working) && durable == old(durable)
      ensures Snapshot(working, durable) == AfterCall(codec, old(Snapshot(working, durable)), Runs.Stage(e, payload))
      ensures CrashSafe(codec, old(observed), observed, old(durable), durable)
      ensures VaultOnly(old(observed), observed, old(durable))
    {
      if codec.dumps(payload).None? {
        return Raised;
      }
      var text := codec.dumps(payload).value;
      ghost var was, before := observed, durable;
      AfterCommit(codec, Snapshot(working, durable), Runs.Stage(e, payload));
      StageIsMeant(working.store, working.nextId, e, text);
      InsertStagedRow(e, text, was, before);
      CommitVault(was, before);
      return Returned(());
    }

    // ---------------------------------------------------------------- acknowledged writes

    /** The statements for one item whose key is new. False when one of them raises. */
    method WriteItem(item: Item, ghost was: seq<Snapshot>, ghost before: Db) returns (ok: bool)
      requires VaultCall(was, before) && item.idempotencyKey !in working.store.keys
      modifies this`working, this`observed
      ensures VaultCall(was, before)
      ensures ok <==> AckOne(codec, old(working.store), item).Some?
      ensures ok ==> working == ItemWritten(codec, old(working), item)
    {
      if codec.dumps(item.payload).None? {
        return false;
      }
      var text := codec.dumps(item.payload).value;
      ItemStatements(codec, working, item);
      ok := InsertKeyRow(item.idempotencyKey, item.eventId, was, before);
      if !ok {
        return;
      }
      InsertStagedRow(item.eventId, text, was, before);
      MarkCommitted(item.eventId, was, before);
      ok := AppendLedger(item.eventId, item.payload, was, before);
    }

    /** The loop of a batch, after the prefetch and before the commit. */
    method WriteItems(items: seq<Item>, ghost was: seq<Snapshot>, ghost before: Db) returns (ok: bool, results: seq<Ack>)
      requires VaultCall(was, before)
      modifies this`working, this`observed
      ensures VaultCall(was, before)
      ensures match AckAll(codec, old(working.store), items)
              case Done(t, acks) =>
                && ok && results == acks
                && working == old(working).(store := t, nextId := old(working.nextId) + BatchDraws(codec, old(working.store), items))
              case Failed => !ok
    {
      ghost var start := working;
      var existing := map item | item in items && item.idempotencyKey in working.store.keys ::
        item.idempotencyKey := working.store.keys[item.idempotencyKey];
      results := [];
      for i := 0 to |items|
        invariant VaultCall(was, before)
        invariant WritingFits(codec, start, items, i, working, existing, results)
      {
        var item := items[i];
        if item.idempotencyKey in existing {
          WritingDuplicate(codec, start, items, i, working, existing, results);
          results := results + [AcknowledgedWrite(existing[item.idempotencyKey], item.idempotencyKey, true, true)];
          continue;
        }
        WritingNew(codec, start, items, i, working, existing, results);
        ok := WriteItem(item, was, before);
        if !ok {
          return;
        }
        existing := existing[item.idempotencyKey := item.eventId];
        results := results + [AcknowledgedWrite(item.eventId, item.idempotencyKey, true, false)];
      }
      assert items[..|items|] == items;
      ok := true;
    }

    /** The batch does what the item-by-item specification does, in one transaction: it succeeds exactly
      * when that does, with the same answers and tables; otherwise it changes no table.
      */
    method AcknowledgeWritesBatch(items: seq<Item>) returns (r: Result<seq<Ack>>)
      requires Valid()
      modifies this`working, this`durable, this`observed
      ensures Valid()
      ensures match AckAll(codec, old(working.store), items)
              case Done(t, acks) => r == Returned(acks) && working.store == t
              case Failed => r.Raised?
      ensures BatchOutcome(codec, old(working.store), items, r, working.store)
      ensures Snapshot(working, durable) == AfterCall(codec, old(Snapshot(working, durable)), Runs.Acknowledge(items))
      ensures CrashSafe(codec, old(observed), observed, old(durable), durable)
      ensures VaultOnly(old(observed), observed, old(durable))
    {
      ghost var s := working.store;
      if items == [] {
        BatchReturns(codec, s, items, s, []);
        return Returned([]);
      }
      ghost var was, before := observed, durable;
      if AckAll(codec, working.store, items).Done? {
        AfterCommit(codec, Snapshot(working, durable), Runs.Acknowledge(items));
      }
      var ok, results := WriteItems(items, was, before);
      if !ok {
        RollbackVault(was, before);
        BatchRaises(codec, s, items);
        return Raised;
      }
      CommitVault(was, before);
      BatchReturns(codec, s, items, working.store, results);
      return Returned(results);
    }

    method AcknowledgeWrite(item: Item) returns (r: Result<Ack>)
      requires Valid()
      modifies this`working, this`durable, this`observed
      ensures Valid()
      ensures match AckOne(codec, old(working.store), item)
              case Some(a) => r == Returned(a.ack) && working.store == a.store
              case None => r.Raised?
      ensures WriteOutcome(codec, old(working.store), item, r, working.store)
      ensures Snapshot(working, durable) == AfterCall(codec, old(Snapshot(working, durable)), Runs.Acknowledge([item]))
      ensures CrashSafe(codec, old(observed), observed, old(durable), durable)
      ensures VaultOnly(old(observed), observed, old(durable))
    {
      AckAllOfOne(codec, working.store, item);
      WriteComesTo(codec, working.store, item);
      var acks := AcknowledgeWritesBatch([item]);
      match acks {
        case Returned(a) => r := Returned(a[0]);
        case Raised => r := Raised;
      }
    }

    /** The default batch of the interface: item by item, each in its own transaction. On the batches that
      * succeed it does the same; when an item raises, the items before it stay.
      */
    method AcknowledgeEach(items: seq<Item>) returns (r: Result<seq<Ack>>, ghost written: nat)
      requires Valid()
      modifies this`working, this`durable, this`observed
      ensures Valid() && written <= |items|
      ensures AckAll(codec, old(working.store), items[..written]).Done?
      ensures working.store == durable.store == AckAll(codec, old(working.store), items[..written]).store
      ensures match r
              case Returned(acks) => written == |items| && acks == AckAll(codec, old(working.store), items[..written]).acks
              case Raised => written < |items| && AckAll(codec, old(working.store), items[..written + 1]).Failed?
    {
      var results: seq<Ack> := [];
      written := 0;
      for i := 0 to |items|
        invariant Valid() && written == i
        invariant AckAll(codec, old(working.store), items[..i]).Done?
        invariant working.store == AckAll(codec, old(working.store), items[..i]).store
        invariant results == AckAll(codec, old(working.store), items[..i]).acks
      {
        AckAllNext(codec, old(working.store), items, i);
        var one := AcknowledgeWrite(items[i]);
        if one.Raised? {
          return Raised, i;
        }
        results := results + [one.value];
        written := i + 1;
      }
      return Returned(results), |items|;
    }

    // ---------------------------------------------------------------- recovery

    /** One turn of the recovery loop. False when decoding, encoding or the insert raises. */
    method RecoverOne(row: Staged, ghost was: seq<Snapshot>, ghost before: Db) returns (ok: bool, counted: nat)
      requires VaultCall(was, before)
      modifies this`working, this`observed
      ensures VaultCall(was, before)
      ensures match RecoverRow(codec, old(working.store), row)
              case Stuck => !ok
              case Recovered(t, n) => ok && counted == n && working == old(working).(store := t)
    {
      counted := 0;
      if codec.loads(row.text).None? {
        return false, 0;
      }
      var payload := codec.loads(row.text).value;
      if row.eventId in LedgerIds(working.store.ledger) {
        MarkCommitted(row.eventId, was, before);
        return true, 0;
      }
      ok := AppendLedger(row.eventId, payload, was, before);
      if ok {
        MarkCommitted(row.eventId, was, before);
        counted := 1;
      }
    }

    /** The loop of a recovery over the rows selected before it. */
    method RecoverEach(rows: seq<Staged>, ghost was: seq<Snapshot>, ghost before: Db) returns (ok: bool, count: nat)
      requires VaultCall(was, before)
      modifies this`working, this`observed
      ensures VaultCall(was, before)
      ensures match RecoverRows(codec, old(working.store), rows)
              case Recovered(t, n) => ok && count == n && working == old(working).(store := t)
              case Stuck => !ok
    {
      ghost var start := working;
      count := 0;
      for i := 0 to |rows|
        invariant VaultCall(was, before)
        invariant RecoverRows(codec, start.store, rows[..i]).Recovered?
        invariant working == start.(store := RecoverRows(codec, start.store, rows[..i]).store)
        invariant count == RecoverRows(codec, start.store, rows[..i]).count
      {
        RecoverRowsNext(codec, start.store, rows, i);
        var counted;
        ok, counted := RecoverOne(rows[i], was, before);
        if !ok {
          StuckStays(codec, start.store, rows, i + 1);
          return;
        }
        count := count + counted;
      }
      assert rows[..|rows|] == rows;
      ok := true;
    }

    /** Module VaultLaws shows that on a valid store this never raises and appends every pending row. */
    method RecoverUncommitted() returns (r: Result<nat>)
      requires Valid()
      modifies this`working, this`durable, this`observed
      ensures Valid()
      ensures match Recover(codec, old(working.store))
              case Recovered(t, n) => r == Returned(n) && working.store == t
              case Stuck => r.Raised?
      ensures r.Returned? ==> durable == working && RecoveryMeans(codec, old(working.store), working.store, r.value)
      ensures Snapshot(working, durable) == AfterCall(codec, old(Snapshot(working, durable)), Runs.RecoverUncommitted)
      ensures CrashSafe(codec, old(observed), observed, old(durable), durable)
      ensures VaultOnly(old(observed), observed, old(durable))
    {
      ghost var was, before, s := observed, durable, Snapshot(working, durable);
      var rows := ById(working.store.pending);
      var ok, count := RecoverEach(rows, was, before);
      if !ok {
        AfterRaise(codec, s, Runs.RecoverUncommitted);
        RollbackVault(was, before);
        return Raised;
      }
      AfterRecovery(codec, s);
      CommitVault(was, before);
      RecoveryIsMeant(codec, s.working.store);
      return Returned(count);
    }

    /** The process dies and a new one opens the file: uncommitted work is gone, the cache is loaded again. */
    method CrashAndReopen()
      requires Valid()
      modifies this
      ensures Valid()
      ensures working == durable == old(durable)
      ensures observed == old(observed) + [Snapshot(durable, durable)]
    {
      Rollback(observed, durable);
      LoadGraphCache();
    }

    method LoadGraphCache()
      modifies this`graph
      ensures graph == EdgePairs(working.edges)
    {
      graph := {};
      var rows := working.edges;
      for i := 0 to |rows|
        invariant graph == EdgePairs(rows[..i])
      {
        EdgePairsSnoc(rows[..i], rows[i]);
        assert rows[..i + 1] == rows[..i] + [rows[i]];
        graph := graph + {(rows[i].src, rows[i].dst)};
      }
      assert rows[..|rows|] == rows;
    }

    // ---------------------------------------------------------------- reading the ledger

    method VerifyIntegrityNow() returns (ok: bool)
      requires Valid()
      ensures ok
    {
      ok := VerifyIntegrity(codec.hash, working.store.ledger);
      assert observed[|observed| - 1].working == working;
    }

    method CountAcknowledged() returns (n: nat)
      requires Valid()
      ensures n == |durable.store.ledger|
    {
      n := |working.store.ledger|;
    }

    // ---------------------------------------------------------------- lineage

    /** There is no rollback here: what an earlier call left uncommitted is committed with the edge. */
    method AddDatasetEdge(edge: Edge) returns (r: Result<()>)
      requires Valid()
      modifies this
      ensures Valid()
      ensures r.Returned? <==> codec.dumps(edge.payload).Some?
      ensures r.Returned? ==>
        && durable == working
        && working == old(working).(edges := old(working.edges) + [edge])
      ensures r.Raised? ==> working == old(working) && durable == old(durable) && observed == old(observed)
      ensures CrashSafe(codec, old(observed), observed, old(durable), durable)
      ensures r.Returned? ==> observed == old(observed) + [Snapshot(working, old(durable)), Snapshot(working, working)]
    {
      if codec.dumps(edge.payload).None? {
        return Raised;
      }
      ghost var was, before := observed, durable;
      var w := working.(edges := working.edges + [edge]);
      EdgePairsSnoc(working.edges, edge);
      Execute(w, was, before);
      CommitTables(was, before);
      TwoMore(was, Snapshot(w, before), Snapshot(w, w));
      graph := graph + {(edge.src, edge.dst)};
      return Returned(());
    }

    /** One insert per field. A value the column refuses (None) raises. */
    method InsertMappings(runId: string, outputDataset: string, inputDataset: string,
                          fieldMap: seq<(string, Option<string>)>, ghost was: seq<Snapshot>, ghost before: Db)
      returns (ok: bool, ghost inserted: seq<FieldImpact.Mapping>)
      requires Underway(was, before) && was == observed
      modifies this`working, this`observed
      ensures Underway(was, before)
      ensures inserted == MappingRows(runId, outputDataset, inputDataset, fieldMap)
      ensures working == old(working).(mappings := old(working.mappings) + inserted)
      ensures ok <==> forall i :: 0 <= i < |fieldMap| ==> fieldMap[i].1.Some?
      ensures OnlyMappings(old(working), inserted, observed, |was|)
    {
      ghost var start := working;
      inserted := [];
      for i := 0 to |fieldMap|
        invariant Underway(was, before)
        invariant Inserting(start, runId, outputDataset, inputDataset, fieldMap, i, working, inserted, observed, |was|)
      {
        if fieldMap[i].1.None? {
          MappingRowsStop(runId, outputDataset, inputDataset, fieldMap, i);
          return false, inserted;
        }
        var row := FieldImpact.Mapping(runId, outputDataset, inputDataset, fieldMap[i].0, fieldMap[i].1.value);
        InsertingNext(start, runId, outputDataset, inputDataset, fieldMap, i, working, inserted, observed, |was|, durable);
        assert ReaderSafe(codec, before, working.(mappings := working.mappings + [row]));
        Execute(working.(mappings := working.mappings + [row]), was, before);
        inserted := inserted + [row];
      }
      assert fieldMap[..|fieldMap|] == fieldMap;
      ok := true;
    }

    /** The inserts, then the commit. When one raises, the rows before it are inserted and neither
      * committed nor rolled back.
      */
    method RecordFieldMapping(runId: string, outputDataset: string, inputDataset: string,
                              fieldMap: seq<(string, Option<string>)>)
      returns (r: Result<()>, ghost inserted: seq<FieldImpact.Mapping>)
      requires Valid()
      modifies this`working, this`durable, this`observed
      ensures Valid()
      ensures inserted == MappingRows(runId, outputDataset, inputDataset, fieldMap)
      ensures RowsOfMap(runId, outputDataset, inputDataset, fieldMap, inserted)
      ensures working == old(working).(mappings := old(working.mappings) + inserted)
      ensures durable == if r.Returned? then working else old(durable)
      ensures r.Returned? <==> forall i :: 0 <= i < |fieldMap| ==> fieldMap[i].1.Some?
      ensures CrashSafe(codec, old(observed), observed, old(durable), durable)
      ensures OnlyMappings(old(working), inserted, observed, |old(observed)|)
    {
      ghost var was, before, start := observed, durable, working;
      var ok;
      ok, inserted := InsertMappings(runId, outputDataset, inputDataset, fieldMap, was, before);
      MappingRowsExactly(runId, outputDataset, inputDataset, fieldMap);
      if !ok {
        return Raised, inserted;
      }
      OnlyMappingsEnd(start, inserted, observed, |was|, working);
      Commit(was, before);
      return Returned(()), inserted;
    }

    /** The other datasets from which rows of dataset_edges lead to `d`, in order. */
    method UpstreamDatasets(d: string) returns (r: seq<string>)
      requires Valid()
      ensures forall x :: x in r <==> x != d && EdgesLead(durable.edges, x, d)
      ensures forall i, j :: 0 <= i < j < |r| ==> InOrder(r[i], r[j])
    {
      var found := Descendants(Reverse(graph), d);
      forall x ensures Reaches(Reverse(graph), d, x) <==> EdgesLead(durable.edges, x, d) {
        ReachesReverses(graph, x, d);
        EdgesLeadExactly(durable.edges, x, d);
      }
      r := SortedList(found);
    }

    /** The other datasets to which they lead from `d`. */
    method DownstreamDatasets(d: string) returns (r: seq<string>)
      requires Valid()
      ensures forall x :: x in r <==> x != d && EdgesLead(durable.edges, d, x)
      ensures forall i, j :: 0 <= i < j < |r| ==> InOrder(r[i], r[j])
    {
      var found := Descendants(graph, d);
      forall x ensures Reaches(graph, d, x) <==> EdgesLead(durable.edges, d, x) {
        EdgesLeadExactly(durable.edges, d, x);
      }
      r := SortedList(found);
    }

    /** The fields behind `start`, and every dataset downstream of its dataset. */
    method FieldImpactOf(start: FieldImpact.Field)
      returns (impacted: seq<FieldImpact.Field>, downstream: seq<string>, ghost reachable: set<FieldImpact.Field>)
      requires Valid()
      ensures forall f :: f in reachable <==> Reaches(FieldImpact.FieldEdges(working.mappings), start, f)
      ensures multiset(impacted) == FieldImpact.OutputsOf(working.mappings, reachable)
      ensures FieldImpact.NearestFirst(FieldImpact.FieldEdges(working.mappings), start, impacted)
      ensures forall f :: f in impacted <==> FieldImpact.RowsLead(working.mappings, start, f)
      ensures forall x :: x in downstream <==> x != start.dataset && EdgesLead(durable.edges, start.dataset, x)
      ensures forall i, j :: 0 <= i < j < |downstream| ==> InOrder(downstream[i], downstream[j])
    {
      impacted, reachable := FieldImpact.Search(working.mappings, start);
      downstream := DownstreamDatasets(start.dataset);
    }

    method StoreRunEvent(runId: string, eventType: string, payload: Value) returns (r: Result<()>)
      requires Valid()
      modifies this`working, this`durable, this`observed
      ensures Valid()
      ensures r.Returned? <==> codec.dumps(payload).Some?
      ensures r.Returned? ==>
        && durable == working
        && working == old(working).(runEvents := old(working.runEvents)[(runId, eventType) := codec.dumps(payload).value])
      ensures r.Raised? ==> working == old(working) && durable == old(durable) && observed == old(observed)
      ensures CrashSafe(codec, old(observed), observed, old(durable), durable)
      ensures r.Returned? ==> observed == old(observed) + [Snapshot(working, old(durable)), Snapshot(working, working)]
    {
      if codec.dumps(payload).None? {
        return Raised;
      }
      ghost var was, before := observed, durable;
      Execute(working.(runEvents := working.runEvents[(runId, eventType) := codec.dumps(payload).value]), was, before);
      Commit(was, before);
      return Returned(());
    }
  }

  // ------------------------------------------------------------------ lemmas of the loops

  lemma EdgePairsSnoc(edges: seq<Edge>, e: Edge)
    ensures EdgePairs(edges + [e]) == EdgePairs(edges) + {(e.src, e.dst)}
  {
  }

  /** The rows of a field map up to the first value that is refused. */
  function MappingRows(runId: string, outputDataset: string, inputDataset: string,
                       fieldMap: seq<(string, Option<string>)>): seq<FieldImpact.Mapping> {
    if fieldMap == [] then []
    else
      var before, last := fieldMap[..|fieldMap| - 1], fieldMap[|fieldMap| - 1];
      var rows := MappingRows(runId, outputDataset, inputDataset, before);
      if last.1.None? || exists j :: 0 <= j < |before| && before[j].1.None? then rows
      else rows + [FieldImpact.Mapping(runId, outputDataset, inputDataset, last.0, last.1.value)]
  }

  /** Column by column: one row for each entry, up to the first whose value is refused. */
  predicate RowsOfMap(runId: string, outputDataset: string, inputDataset: string,
                      fieldMap: seq<(string, Option<string>)>, rows: seq<FieldImpact.Mapping>)
  {
    && |rows| <= |fieldMap|
    && (|rows| < |fieldMap| ==> fieldMap[|rows|].1.None?)
    && forall i :: 0 <= i < |rows| ==>
         && rows[i].runId == runId && rows[i].outputDataset == outputDataset && rows[i].inputDataset == inputDataset
         && rows[i].outputField == fieldMap[i].0 && Some(rows[i].inputField) == fieldMap[i].1
  }

  lemma {:induction false} MappingRowsExactly(runId: string, outputDataset: string, inputDataset: string,
                                              fieldMap: seq<(string, Option<string>)>)
    ensures RowsOfMap(runId, outputDataset, inputDataset, fieldMap, MappingRows(runId, outputDataset, inputDataset, fieldMap))
  {
    if fieldMap != [] {
      var before := fieldMap[..|fieldMap| - 1];
      MappingRowsExactly(runId, outputDataset, inputDataset, before);
      var rows := MappingRows(runId, outputDataset, inputDataset, before);
      if |rows| < |before| {
        assert before[|rows|].1.None?;
      } else if j :| 0 <= j < |before| && before[j].1.None? {
        assert before[j].1 == Some(rows[j].inputField);
      }
    }
  }

  lemma {:induction false} MappingRowsStop(runId: string, outputDataset: string, inputDataset: string,
                                           fieldMap: seq<(string, Option<string>)>, n: nat)
    requires n < |fieldMap| && fieldMap[n].1.None?
    ensures MappingRows(runId, outputDataset, inputDataset, fieldMap) ==
            MappingRows(runId, outputDataset, inputDataset, fieldMap[..n])
  {
    var before := fieldMap[..|fieldMap| - 1];
    if n < |before| {
      assert before[n].1.None? && before[..n] == fieldMap[..n];
      MappingRowsStop(runId, outputDataset, inputDataset, before, n);
    } else {
      assert before == fieldMap[..n];
    }
  }

  lemma MappingRowsNext(runId: string, outputDataset: string, inputDataset: string,
                        fieldMap: seq<(string, Option<string>)>, i: nat)
    requires i < |fieldMap| && forall j :: 0 <= j < i ==> fieldMap[j].1.Some?
    ensures fieldMap[i].1.Some? ==>
      MappingRows(runId, outputDataset, inputDataset, fieldMap[..i + 1]) ==
      MappingRows(runId, outputDataset, inputDataset, fieldMap[..i]) +
      [FieldImpact.Mapping(runId, outputDataset, inputDataset, fieldMap[i].0, fieldMap[i].1.value)]
  {
    assert fieldMap[..i + 1][..i] == fieldMap[..i];
  }

  /** Behind index `n`, the working tables are `start` with the first few of `rows` added to the mappings. */
  ghost predicate OnlyMappings(start: Db, rows: seq<FieldImpact.Mapping>, seen: seq<Snapshot>, n: nat) {
    forall i :: n <= i < |seen| ==> SomeOf(start, rows, seen[i].working)
  }

  predicate SomeOf(start: Db, rows: seq<FieldImpact.Mapping>, w: Db) {
    && w == start.(mappings := w.mappings)
    && start.mappings <= w.mappings && w.mappings <= start.mappings + rows
  }

  lemma OnlyMappingsGrow(start: Db, rows: seq<FieldImpact.Mapping>, row: FieldImpact.Mapping, seen: seq<Snapshot>, n: nat, d: Db)
    requires OnlyMappings(start, rows, seen, n)
    ensures start.mappings + rows + [row] == start.mappings + (rows + [row])
    ensures OnlyMappings(start, rows + [row], seen + [Snapshot(start.(mappings := start.mappings + rows + [row]), d)], n)
  {
    assert start.mappings + rows + [row] == start.mappings + (rows + [row]);
    forall i | n <= i < |seen| ensures SomeOf(start, rows + [row], seen[i].working) {
      assert SomeOf(start, rows, seen[i].working);
    }
  }

  /** Where the loop over a field map is after `i` fields, none of which was refused. */
  ghost predicate Inserting(start: Db, runId: string, outputDataset: string, inputDataset: string,
                            fieldMap: seq<(string, Option<string>)>, i: nat, w: Db,
                            inserted: seq<FieldImpact.Mapping>, seen: seq<Snapshot>, n: nat)
    requires i <= |fieldMap|
  {
    match w
    case Db(_, _, _, _, _) =>
      && inserted == MappingRows(runId, outputDataset, inputDataset, fieldMap[..i])
      && (forall j :: 0 <= j < i ==> fieldMap[j].1.Some?)
      && w == start.(mappings := start.mappings + inserted)
      && OnlyMappings(start, inserted, seen, n)
  }

  lemma InsertingNext(start: Db, runId: string, outputDataset: string, inputDataset: string,
                      fieldMap: seq<(string, Option<string>)>, i: nat, w: Db,
                      inserted: seq<FieldImpact.Mapping>, seen: seq<Snapshot>, n: nat, d: Db)
    requires i < |fieldMap| && fieldMap[i].1.Some?
    requires Inserting(start, runId, outputDataset, inputDataset, fieldMap, i, w, inserted, seen, n)
    ensures var row := FieldImpact.Mapping(runId, outputDataset, inputDataset, fieldMap[i].0, fieldMap[i].1.value);
            var next := w.(mappings := w.mappings + [row]);
            Inserting(start, runId, outputDataset, inputDataset, fieldMap, i + 1, next, inserted + [row],
                      seen + [Snapshot(next, d)], n)
  {
    var row := FieldImpact.Mapping(runId, outputDataset, inputDataset, fieldMap[i].0, fieldMap[i].1.value);
    MappingRowsNext(runId, outputDataset, inputDataset, fieldMap, i);
    OnlyMappingsGrow(start, inserted, row, seen, n, d);
  }

  lemma OnlyMappingsEnd(start: Db, rows: seq<FieldImpact.Mapping>, seen: seq<Snapshot>, n: nat, w: Db)
    requires OnlyMappings(start, rows, seen, n) && w == start.(mappings := start.mappings + rows)
    ensures OnlyMappings(start, rows, seen + [Snapshot(w, w)], n)
  {
    assert SomeOf(start, rows, w);
  }
}
