/** Every action of the machine of module Postgres keeps the invariant. */
module PostgresSteps {
  import opened Wrappers
  import opened HashChain
  import opened Vault
  import opened VaultLaws
  import opened Postgres
  import opened SerialLog
  import opened PostgresInvariant
  import opened PostgresBatch
  import opened PostgresRecovery
  import opened PostgresCommit

  // ------------------------------------------------------------------ the serial log of a run

  function CallOf(job: Job): Call {
    match job
    case StageJob(e, payload, drawn, _) => Call.Stage(if drawn.Some? then drawn.value else 0, e, payload)
    case BatchJob(items, _, _, _, _) => Call.Acknowledge(items)
    case RecoverJob(_, _, _, _) => Call.RecoverUncommitted
  }

  /** A staging that inserted its row counts from when the row's id was drawn, anything else from its commit. */
  function StampOf(s: System, txn: Txn): int {
    if txn.job.StageJob? && txn.own.staged != [] then 2 * txn.own.staged[0].id else 2 * s.nextWal - 1
  }

  function EntryOf(s: System, t: Tid, reply: Reply, began: nat, now: nat): Entry
    requires t in s.txns
  {
    Entry(CallOf(s.txns[t].job), reply, StampOf(s, s.txns[t]), began, now)
  }

  /** Where a finished transaction goes in serial order: a recovery behind what it saw, before what it did
    * not see; anything else by its stamp.
    */
  function Logged(g: Logs, x: Entry): Logs {
    match x.call
    case Stage(_, _, _) => Logs(g.closed, InsertStamp(g.open, x), g.seen, InsertStamp(g.late, x))
    case Acknowledge(_) => g.(open := InsertStamp(g.open, x))
    case RecoverUncommitted => Logs(g.closed + g.seen + [x], g.late, [], [])
  }

  /** A recovery selects its rows: it has seen what is committed by now. */
  function Split(g: Logs): Logs { g.(seen := g.open, late := []) }

  predicate Selects(job: Job) { job.RecoverJob? && job.rphase.Selecting? }

  // ------------------------------------------------------------------ steps that commit nothing

  lemma HolderFitsLater(c: Codec, g: Logs, db: Db, nextWal: nat, later: nat, txn: Txn)
    requires HolderFits(c, g, db, nextWal, txn) && nextWal <= later
    ensures HolderFits(c, g, db, later, txn)
  {
  }

  lemma BeginKeeps(c: Codec, s: System, g: Logs, t: Tid, req: Request)
    requires Inv(c, s, g) && t !in s.txns && Opened(c, req).Some?
    ensures Inv(c, With(s, t, Txn(Opened(c, req).value, NOTHING)), g)
  {
    var txn := Txn(Opened(c, req).value, NOTHING);
    var n := With(s, t, txn);
    assert WaiterFits(c, s.db, s.nextWal, txn);
    assert Apart(n.txns);
    assert HolderRows(n) == HolderRows(s);
  }

  lemma GoneKeeps(c: Codec, s: System, g: Logs, t: Tid, nextSeq: nat)
    requires Inv(c, s, g) && s.nextSeq <= nextSeq
    ensures Inv(c, Gone(s, t).(nextSeq := nextSeq), g)
  {
    RolesAfterGone(c, s, t);
    IncreasingBelow(s.db.ledger + HolderRows(s), s.nextSeq, nextSeq);
    IncreasingPrefix(s.db.ledger, HolderRows(s), nextSeq);
    assert s.db.ledger + [] == s.db.ledger;
  }

  /** Taking the free lock. */
  lemma LockKeeps(c: Codec, s: System, g: Logs, t: Tid, txn: Txn)
    requires Inv(c, s, g) && t in s.txns && s.lock.None? && txn.own == NOTHING == s.txns[t].own
    requires !Unlocked(txn.job) && HolderFits(c, g, s.db, s.nextWal, txn)
    ensures Inv(c, With(s, t, txn).(lock := Some(t)), g)
  {
    var n := With(s, t, txn).(lock := Some(t));
    forall u, v | u in n.txns && v in n.txns && u != v
      ensures PendingIds(n.txns[u].own.staged) !! PendingIds(n.txns[v].own.staged)
    {
      assert n.txns[u].own == s.txns[u].own && n.txns[v].own == s.txns[v].own;
    }
    assert HolderRows(n) == HolderRows(s);
  }

  lemma RolesAfterWaiter(c: Codec, s: System, t: Tid, txn: Txn, nextWal: nat)
    requires Roles(c, s) && t in s.txns && s.lock != Some(t) && s.nextWal <= nextWal && WaiterFits(c, s.db, nextWal, txn)
    requires forall u :: u in s.txns && u != t ==> PendingIds(s.txns[u].own.staged) !! PendingIds(txn.own.staged)
    ensures Roles(c, With(s, t, txn).(nextWal := nextWal))
  {
    assert Apart(With(s, t, txn).(nextWal := nextWal).txns);
  }

  /** A statement of a transaction without the lock that writes only its own staged row. */
  lemma WaiterMoves(c: Codec, s: System, g: Logs, t: Tid, txn: Txn, nextWal: nat)
    requires Inv(c, s, g) && t in s.txns && s.lock != Some(t) && s.nextWal <= nextWal
    requires WaiterFits(c, s.db, nextWal, txn)
    requires forall u :: u in s.txns && u != t ==> PendingIds(s.txns[u].own.staged) !! PendingIds(txn.own.staged)
    ensures Inv(c, With(s, t, txn).(nextWal := nextWal), g)
  {
    var n := With(s, t, txn).(nextWal := nextWal);
    RolesAfterWaiter(c, s, t, txn, nextWal);
    assert HolderRows(n) == HolderRows(s);
    if s.lock.Some? {
      HolderFitsLater(c, g, s.db, s.nextWal, nextWal, s.txns[s.lock.value]);
    }
  }

  lemma RolesAfterMove(c: Codec, s: System, t: Tid, n: System)
    requires Roles(c, s) && s.lock == Some(t) && OnlyMoves(s, t, n)
    ensures Roles(c, n)
  {
    assert Apart(n.txns);
  }

  lemma LogFitsAgain(c: Codec, g: Logs, h: Logs, db: Db, nextWal: nat, later: nat)
    requires LogFits(c, g, db, nextWal) && h.closed == g.closed && h.open == g.open && nextWal <= later
    ensures LogFits(c, h, db, later)
  {
    assert Base(c, h) == Base(c, g);
  }

  lemma HolderMoves(c: Codec, s: System, g: Logs, t: Tid, n: System, h: Logs)
    requires Inv(c, s, g) && s.lock == Some(t) && OnlyMoves(s, t, n)
    requires h.closed == g.closed && h.open == g.open && HolderFits(c, h, s.db, n.nextWal, n.txns[t])
    ensures Inv(c, n, h)
  {
    RolesAfterMove(c, s, t, n);
    LogFitsAgain(c, g, h, s.db, s.nextWal, n.nextWal);
    assert HolderRows(n) == n.txns[t].own.rows;
  }

  lemma {:induction false} WithoutEvery(p: seq<Staged>, es: set<string>)
    requires PendingIds(p) <= es
    ensures Without(p, es) == []
  {
    if p != [] {
      PendingIdsCons(p);
      WithoutEvery(p[1..], es);
    }
  }

  /** The tables when a recovery has just selected all pending rows. */
  lemma AllSelected(c: Codec, db: Db)
    requires Consistent(c, Tables(db))
    ensures Selected(db, db.pending) == Tables(db) && After(c, db, db.pending) == Left(c, db, db.pending)
    ensures RowFits(c, db, NOTHING, Checking, db.pending, 0)
  {
    var rows := db.pending;
    assert Selected(db, rows) == Tables(db);
    AfterIs(c, db, rows);
    WithoutEvery(rows, PendingIds(rows));
    assert rows[..0] == [] && PendingIds([]) == {};
  }

  lemma SelectFits(c: Codec, s: System, g: Logs, t: Tid, txn: Txn)
    requires Inv(c, s, g) && s.lock == Some(t) && Selects(s.txns[t].job)
    requires txn == Txn(s.txns[t].job.(rphase := Checking, rows := ById(s.db.pending)), s.txns[t].own)
    ensures HolderFits(c, Split(g), s.db, s.nextWal, txn)
  {
    SortedIsById(s.db.pending);
    AllSelected(c, s.db);
    assert Base(c, Split(g)) == Base(c, g);
  }

  // ------------------------------------------------------------------ a staging commits

  /** New rows of wal_staging do not bear on what a batch has written, as long as they are not its own. */
  lemma WritesStay(db: Db, next: Db, own: Own, keys: map<string, string>,
                   settled: map<string, string>, marks: set<string>, ledger: seq<Row>)
    requires Writes(db, own, keys, settled, marks, ledger)
    requires next == db.(pending := next.pending) && WalIds(db) <= WalIds(next)
    requires PendingIds(own.staged) !! WalIds(next) - WalIds(db)
    ensures Writes(next, own, keys, settled, marks, ledger)
  {
    assert settled.Keys - WalIds(db) == settled.Keys - WalIds(next);
  }

  lemma ItemStaysFit(c: Codec, db: Db, next: Db, own: Own, phase: BatchPhase, item: Item, t: Store)
    requires ItemFits(c, db, own, phase, item, t)
    requires next == db.(pending := next.pending) && WalIds(db) <= WalIds(next)
    requires PendingIds(own.staged) !! WalIds(next) - WalIds(db)
    ensures ItemFits(c, next, own, phase, item, t)
  {
    var keys := t.keys[item.idempotencyKey := item.eventId];
    var settled := SettleWith(t, item.eventId, c.dumps(item.payload).value).settled;
    match phase
    case InsertingKey => WritesStay(db, next, own, t.keys, t.settled, t.settled.Keys, t.ledger);
    case DrawingId => WritesStay(db, next, own, keys, t.settled, t.settled.Keys, t.ledger);
    case Staging(_) => WritesStay(db, next, own, keys, t.settled, t.settled.Keys, t.ledger);
    case Marking => WritesStay(db, next, own, keys, settled, t.settled.Keys, t.ledger);
    case _ => WritesStay(db, next, own, keys, settled, settled.Keys, t.ledger);
  }

  /** A staging's commit does not move a batch off its specification. */
  lemma BatchStaysFit(c: Codec, db: Db, next: Db, txn: Txn)
    requires txn.job.BatchJob? && BatchFits(c, db, txn)
    requires next == db.(pending := next.pending) && WalIds(db) <= WalIds(next)
    requires PendingIds(txn.own.staged) !! WalIds(next) - WalIds(db)
    ensures BatchFits(c, next, txn)
  {
    var job, own := txn.job, txn.own;
    assert Bare(Tables(next)) == Bare(Tables(db));
    var t := Upto(c, db, job.items, job.i).store;
    if job.bphase.Deciding? {
      WritesStay(db, next, own, t.keys, t.settled, t.settled.Keys, t.ledger);
    } else if !job.bphase.Prefetching? {
      ItemStaysFit(c, db, next, own, job.bphase, job.items[job.i], t);
    }
  }

  /** Nor a recovery: the new row is for the next one. */
  lemma RecoveryStaysFit(c: Codec, db: Db, next: Db, txn: Txn)
    requires txn.job.RecoverJob? && RecoveryFits(c, db, txn)
    requires next == db.(pending := next.pending) && forall r :: r in db.pending ==> r in next.pending
    ensures RecoveryFits(c, next, txn)
  {
    assert Selected(next, txn.job.rows) == Selected(db, txn.job.rows);
  }

  /** The tables that a recovery leaves, with one more row staged meanwhile. */
  lemma LeftWithRow(c: Codec, db: Db, rows: seq<Staged>, row: Staged)
    requires Consistent(c, Selected(db, rows)) && (forall r :: r in rows ==> r in db.pending)
    requires Sorted(db.pending) && row.eventId !in WalIds(db)
    ensures Left(c, db.(pending := InsertById(db.pending, row)), rows) == WithRow(Left(c, db, rows), row)
    ensures !InWal(Left(c, db, rows), row.eventId)
  {
    RowIdsWithin(db.pending, rows);
    WithoutInsert(db.pending, PendingIds(rows), row);
    LeftWalIds(c, db, rows);
  }

  lemma SplitStaysFit(c: Codec, b: Store, g: Logs, db: Db, nextWal: nat, rows: seq<Staged>, x: Entry, row: Staged)
    requires SplitFits(c, b, g, db, nextWal, rows) && row.id < nextWal
    requires Consistent(c, Selected(db, rows)) && (forall r :: r in rows ==> r in db.pending)
    requires Sorted(db.pending) && StagesRow(c, x, row) && row.eventId !in WalIds(db)
    ensures SplitFits(c, b, Logged(g, x), db.(pending := InsertById(db.pending, row)), nextWal, rows)
  {
    var next := db.(pending := InsertById(db.pending, row));
    assert Selected(next, rows) == Selected(db, rows);
    AfterIs(c, db, rows);
    LeftWithRow(c, db, rows, row);
    InsertEntry(c, After(c, db, rows), g.late, x, row);
    LastStaysBefore(g.late, x, nextWal);
  }

  lemma SplitStaysIgnored(c: Codec, b: Store, g: Logs, db: Db, nextWal: nat, rows: seq<Staged>, x: Entry)
    requires SplitFits(c, b, g, db, nextWal, rows)
    requires Consistent(c, Selected(db, rows)) && (forall r :: r in rows ==> r in db.pending)
    requires x.call.Stage? && x.reply == StageReply && c.dumps(x.call.payload).Some?
    requires x.stamp == 2 * nextWal - 1 && x.call.eventId in WalIds(db)
    ensures SplitFits(c, b, Logged(g, x), db, nextWal, rows)
  {
    LeftWalIds(c, db, rows);
    AfterIs(c, db, rows);
    ShapeBounded(c, After(c, db, rows), g.late);
    IgnoredEntry(c, After(c, db, rows), g.late, x, nextWal);
  }

  lemma ConsistentWithRow(c: Codec, db: Db, row: Staged)
    requires Consistent(c, Tables(db)) && row.eventId !in WalIds(db) && Rewrite(c, row.text).Some?
    ensures var next := db.(pending := InsertById(db.pending, row));
            && Consistent(c, Tables(next)) && WalIds(next) == WalIds(db) + {row.eventId}
            && forall r :: r in db.pending ==> r in next.pending
  {
    InsertByIdElements(db.pending, row);
    InsertByIdDistinct(db.pending, row);
    InsertByIdSorted(db.pending, row);
  }

  /** The lock holder, whatever it is doing, is not disturbed by a staging that inserted a row. */
  lemma HolderStaysFit(c: Codec, g: Logs, db: Db, nextWal: nat, txn: Txn, x: Entry, row: Staged)
    requires HolderFits(c, g, db, nextWal, txn) && LogFits(c, g, db, nextWal)
    requires StagesRow(c, x, row) && row.id < nextWal && Rewrite(c, row.text).Some?
    requires row.eventId !in WalIds(db) && row.eventId !in PendingIds(txn.own.staged)
    ensures HolderFits(c, Logged(g, x), db.(pending := InsertById(db.pending, row)), nextWal, txn)
  {
    var next := db.(pending := InsertById(db.pending, row));
    ConsistentWithRow(c, db, row);
    match txn.job
    case BatchJob(_, _, _, _, _) => BatchStaysFit(c, db, next, txn);
    case RecoverJob(phase, rows, _, _) =>
      if !phase.Selecting? {
        ShapeBounded(c, Base(c, g), g.open);
        RecoveryStaysFit(c, db, next, txn);
        SplitStaysFit(c, Base(c, g), g, db, nextWal, rows, x, row);
      }
  }

  lemma HolderStaysIgnored(c: Codec, g: Logs, db: Db, nextWal: nat, txn: Txn, x: Entry)
    requires HolderFits(c, g, db, nextWal, txn)
    requires x.call.Stage? && x.reply == StageReply && c.dumps(x.call.payload).Some?
    requires x.stamp == 2 * nextWal - 1 && x.call.eventId in WalIds(db)
    ensures HolderFits(c, Logged(g, x), db, nextWal, txn)
  {
    if txn.job.RecoverJob? && !txn.job.rphase.Selecting? {
      SplitStaysIgnored(c, Base(c, g), g, db, nextWal, txn.job.rows, x);
    }
  }

  lemma LogWithRow(c: Codec, g: Logs, db: Db, nextWal: nat, x: Entry, row: Staged)
    requires LogFits(c, g, db, nextWal) && StagesRow(c, x, row) && row.id < nextWal
    requires row.eventId !in WalIds(db) && Rewrite(c, row.text).Some?
    ensures LogFits(c, Logged(g, x), db.(pending := InsertById(db.pending, row)), nextWal)
  {
    ConsistentWithRow(c, db, row);
    InsertEntry(c, Base(c, g), g.open, x, row);
    LastStaysBefore(g.open, x, nextWal);
  }

  /** A transaction whose commit leaves the lock and the ledger alone. */
  lemma StageCommitted(s: System, t: Tid)
    requires t in s.txns && s.lock != Some(t) && Increasing(s.db.ledger + HolderRows(s), s.nextSeq)
    requires Apply(s.db, s.txns[t].own).ledger == s.db.ledger
    ensures Increasing(Committed(s, t).db.ledger + HolderRows(Committed(s, t)), s.nextSeq)
  {
    assert HolderRows(Committed(s, t)) == HolderRows(s);
  }

  /** What a staging's commit does to the tables. */
  lemma FreshStageTables(c: Codec, s: System, t: Tid, row: Staged)
    requires Roles(c, s) && Consistent(c, Tables(s.db)) && t in s.txns && s.lock != Some(t)
    requires Increasing(s.db.ledger + HolderRows(s), s.nextSeq)
    requires s.txns[t].own == NOTHING.(staged := [row]) && row.eventId !in WalIds(s.db) && Rewrite(c, row.text).Some?
    ensures Committed(s, t).db == s.db.(pending := InsertById(s.db.pending, row))
    ensures Roles(c, Committed(s, t))
    ensures Increasing(Committed(s, t).db.ledger + HolderRows(Committed(s, t)), s.nextSeq)
  {
    ApplyStaged(s.db, row);
    ConsistentWithRow(c, s.db, row);
    assert PendingIds([row]) == {row.eventId} by { assert row in [row]; }
    RolesAfterCommit(c, s, t);
    StageCommitted(s, t);
  }

  lemma FreshStageHolder(c: Codec, s: System, g: Logs, t: Tid, x: Entry, row: Staged)
    requires Inv(c, s, g) && t in s.txns && s.lock.Some? && s.lock != Some(t)
    requires s.txns[t].own == NOTHING.(staged := [row]) && row.eventId !in WalIds(s.db)
    requires StagesRow(c, x, row) && row.id < s.nextWal && Rewrite(c, row.text).Some?
    ensures HolderFits(c, Logged(g, x), s.db.(pending := InsertById(s.db.pending, row)), s.nextWal, s.txns[s.lock.value])
  {
    var holder := s.lock.value;
    assert row.eventId in PendingIds(s.txns[t].own.staged) by { assert row in [row]; }
    assert row.eventId !in PendingIds(s.txns[holder].own.staged) by { assert Apart(s.txns) && holder != t; }
    HolderStaysFit(c, g, s.db, s.nextWal, s.txns[s.lock.value], x, row);
  }

  lemma FreshStageKeeps(c: Codec, s: System, g: Logs, t: Tid, x: Entry, row: Staged)
    requires Inv(c, s, g) && t in s.txns && s.lock != Some(t)
    requires s.txns[t].own == NOTHING.(staged := [row]) && row.eventId !in WalIds(s.db)
    requires StagesRow(c, x, row) && row.id < s.nextWal && Rewrite(c, row.text).Some?
    ensures Inv(c, Committed(s, t), Logged(g, x))
  {
    FreshStageTables(c, s, t, row);
    LogWithRow(c, g, s.db, s.nextWal, x, row);
    if s.lock.Some? {
      FreshStageHolder(c, s, g, t, x, row);
    }
  }

  lemma IgnoredStageKeeps(c: Codec, s: System, g: Logs, t: Tid, x: Entry)
    requires Inv(c, s, g) && t in s.txns && s.lock != Some(t) && s.txns[t].own == NOTHING
    requires x.call.Stage? && x.reply == StageReply && c.dumps(x.call.payload).Some?
    requires x.stamp == 2 * s.nextWal - 1 && x.call.eventId in WalIds(s.db)
    ensures Inv(c, Committed(s, t), Logged(g, x))
  {
    ApplyNothing(s.db);
    RolesAfterCommit(c, s, t);
    StageCommitted(s, t);
    IgnoredEntry(c, Base(c, g), g.open, x, s.nextWal);
    if s.lock.Some? {
      HolderStaysIgnored(c, g, s.db, s.nextWal, s.txns[s.lock.value], x);
    }
  }

  // ------------------------------------------------------------------ a lock holder commits

  lemma HolderCommitted(s: System, t: Tid)
    requires t in s.txns && s.lock == Some(t) && Increasing(s.db.ledger + s.txns[t].own.rows, s.nextSeq)
    ensures Increasing(Committed(s, t).db.ledger + HolderRows(Committed(s, t)), s.nextSeq)
  {
    var l := s.db.ledger + s.txns[t].own.rows;
    assert l + [] == l;
  }

  lemma BatchKeeps(c: Codec, s: System, g: Logs, t: Tid, x: Entry)
    requires Inv(c, s, g) && s.lock == Some(t) && s.txns[t].job.BatchJob?
    requires BatchOutcome(c, s, t, Commits(Committed(s, t), x.reply))
    requires x.call == CallOf(s.txns[t].job) && x.stamp == 2 * s.nextWal - 1
    ensures Inv(c, Committed(s, t), Logged(g, x))
  {
    var items, own := s.txns[t].job.items, s.txns[t].own;
    var b := AckAll(c, Bare(Tables(s.db)), items);
    AckAllAbsorb(c, Tables(s.db), items);
    ApplyBatch(s.db, own, b.store);
    BatchEntry(c, Base(c, g), g.open, x, s.nextWal, b.store);
    AckAllKeeps(c, Tables(s.db), items);
    RolesAfterCommit(c, s, t);
    HolderCommitted(s, t);
  }

  lemma RecoveryKeeps(c: Codec, s: System, g: Logs, t: Tid, x: Entry)
    requires Inv(c, s, g) && s.lock == Some(t) && s.txns[t].job.RecoverJob? && !Selects(s.txns[t].job)
    requires RecoveryOutcome(c, s, t, Commits(Committed(s, t), x.reply))
    requires x.call == CallOf(s.txns[t].job)
    ensures Inv(c, Committed(s, t), Logged(g, x))
  {
    var rows, own := s.txns[t].job.rows, s.txns[t].own;
    var n, h := Committed(s, t), Logged(g, x);
    RecoveryLog(c, s.db, g, rows, x);
    ApplyRecovery(c, s.db, own, rows);
    RolesAfterCommit(c, s, t);
    HolderCommitted(s, t);
    LeftConsistent(c, s.db, rows);
  }

  lemma RecoveryLog(c: Codec, db: Db, g: Logs, rows: seq<Staged>, x: Entry)
    requires Serial(c, EMPTY, g.closed) == Some(Base(c, g)) && Serial(c, Base(c, g), g.seen) == Some(Selected(db, rows))
    requires Consistent(c, Selected(db, rows))
    requires x.call.RecoverUncommitted? && x.reply == RecoverReply(|rows|)
    ensures Serial(c, EMPTY, g.closed + g.seen + [x]) == Some(After(c, db, rows))
    ensures After(c, db, rows).pending == []
  {
    AfterIs(c, db, rows);
    SerialConcat(c, EMPTY, g.closed, g.seen);
    SerialSnoc(c, EMPTY, g.closed + g.seen, x);
  }

  lemma {:induction false} WithoutDistinct(p: seq<Staged>, es: set<string>)
    requires DistinctPending(p)
    ensures DistinctPending(Without(p, es))
  {
    if p != [] {
      DistinctTail(p);
      WithoutDistinct(p[1..], es);
      WithoutElements(p[1..], es);
      if p[0].eventId !in es {
        DistinctCons(p[0], Without(p[1..], es));
      }
    }
  }

  lemma LeftConsistent(c: Codec, db: Db, rows: seq<Staged>)
    requires Consistent(c, Tables(db)) && Consistent(c, Selected(db, rows)) && (forall r :: r in rows ==> r in db.pending)
    ensures Consistent(c, Left(c, db, rows))
  {
    AfterIs(c, db, rows);
    MarkedRows(db.settled, rows);
    WithoutElements(db.pending, PendingIds(rows));
    WithoutDistinct(db.pending, PendingIds(rows));
    WithoutSorted(db.pending, PendingIds(rows));
  }
}
