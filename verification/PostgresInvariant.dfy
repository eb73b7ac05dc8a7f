/** What holds between any two statements of the machine of module Postgres. */
module PostgresInvariant {
  import opened Wrappers
  import opened HashChain
  import opened Vault
  import opened VaultLaws
  import opened Loops
  import opened Postgres
  import opened SerialLog

  /** The committed tables as module Vault has them. */
  function Tables(db: Db): Store { Store(db.keys, db.pending, db.settled, Rows(db.ledger)) }

  function WalIds(db: Db): set<string> { db.settled.Keys + PendingIds(db.pending) }

  /** The finished transactions in serial order: `closed` up to the last committed recovery, `open` after it.
    * While a recovery runs that has selected its rows, `open` is also kept as the entries it saw and the
    * later ones.
    */
  datatype Logs = Logs(closed: seq<Entry>, open: seq<Entry>, seen: seq<Entry>, late: seq<Entry>)

  const NO_LOGS := Logs([], [], [], [])

  // ------------------------------------------------------------------ ledger numbers

  /** Numbers go up along the ledger and stay below `n`. */
  predicate Increasing(l: seq<Numbered>, n: nat) {
    l == [] || (l[|l| - 1].number < n && Increasing(l[..|l| - 1], l[|l| - 1].number))
  }

  lemma IncreasingBelow(l: seq<Numbered>, n: nat, m: nat)
    requires Increasing(l, n) && n <= m
    ensures Increasing(l, m)
  {
  }

  lemma {:induction false} IncreasingPrefix(l: seq<Numbered>, more: seq<Numbered>, n: nat)
    requires Increasing(l + more, n)
    ensures Increasing(l, n)
  {
    if more == [] {
      assert l + more == l;
    } else {
      var all := l + more;
      assert all[..|all| - 1] == l + more[..|more| - 1];
      IncreasingPrefix(l, more[..|more| - 1], all[|all| - 1].number);
      IncreasingBelow(l, all[|all| - 1].number, n);
    }
  }

  lemma IncreasingSnoc(l: seq<Numbered>, n: nat, row: Row)
    requires Increasing(l, n)
    ensures Increasing(l + [Numbered(n, row)], n + 1)
  {
    assert (l + [Numbered(n, row)])[..|l|] == l;
  }

  lemma {:induction false} TopIsLast(l: seq<Numbered>, n: nat)
    requires Increasing(l, n) && l != []
    ensures Top(l) == l[|l| - 1]
  {
    if |l| > 1 {
      TopIsLast(l[..|l| - 1], l[|l| - 1].number);
    }
  }

  lemma {:induction false} RowsLength(l: seq<Numbered>)
    ensures |Rows(l)| == |l|
    ensures l != [] ==> Rows(l)[|l| - 1] == l[|l| - 1].row
  {
    if l != [] {
      RowsLength(l[..|l| - 1]);
    }
  }

  /** The row with the greatest number is the last of the chain. */
  lemma TopHashIsHead(l: seq<Numbered>, n: nat)
    requires Increasing(l, n)
    ensures TopHash(l) == Head(Rows(l))
  {
    RowsLength(l);
    if l != [] {
      TopIsLast(l, n);
    }
  }

  lemma {:induction false} RowsConcat(l: seq<Numbered>, more: seq<Numbered>)
    ensures Rows(l + more) == Rows(l) + Rows(more)
  {
    if more == [] {
      assert l + more == l;
    } else {
      assert (l + more)[..|l + more| - 1] == l + more[..|more| - 1];
      RowsConcat(l, more[..|more| - 1]);
    }
  }

  lemma RowsSnoc(l: seq<Numbered>, x: Numbered)
    ensures Rows(l + [x]) == Rows(l) + [x.row]
  {
    assert (l + [x])[..|l|] == l;
  }

  // ------------------------------------------------------------------ transactions without the lock

  predicate Unlocked(job: Job) {
    match job
    case StageJob(_, _, _, _) => true
    case BatchJob(_, phase, _, _, _) => phase.Locking?
    case RecoverJob(phase, _, _, _) => phase.Locking?
  }

  predicate StagingFits(c: Codec, db: Db, nextWal: nat, job: Job, own: Own)
    requires job.StageJob?
  {
    && own == NOTHING.(staged := own.staged)
    && c.dumps(job.payload).Some?
    && (job.drawn.Some? ==> job.drawn.value < nextWal)
    && (job.inserted ==> job.drawn.Some?)
    && (job.inserted && own.staged == [] ==> job.eventId in WalIds(db))
    && (own.staged != [] ==>
          && job.inserted
          && own.staged == [Staged(job.drawn.value, job.eventId, c.dumps(job.payload).value)]
          && job.eventId !in WalIds(db))
  }

  predicate WaiterFits(c: Codec, db: Db, nextWal: nat, txn: Txn) {
    && Unlocked(txn.job)
    && match txn.job
       case StageJob(_, _, _, _) => StagingFits(c, db, nextWal, txn.job, txn.own)
       case BatchJob(_, _, i, _, acks) => txn.own == NOTHING && i == 0 && acks == []
       case RecoverJob(_, _, j, count) => txn.own == NOTHING && j == 0 && count == 0
  }

  /** No two open transactions have inserted wal_staging rows for one event id. */
  predicate Apart(txns: map<Tid, Txn>) {
    forall t, u :: t in txns && u in txns && t != u ==>
      PendingIds(txns[t].own.staged) !! PendingIds(txns[u].own.staged)
  }

  predicate Roles(c: Codec, s: System) {
    && (s.lock.Some? ==> s.lock.value in s.txns && !Unlocked(s.txns[s.lock.value].job))
    && (forall t :: t in s.txns && s.lock != Some(t) ==> WaiterFits(c, s.db, s.nextWal, s.txns[t]))
    && Apart(s.txns)
  }

  // ------------------------------------------------------------------ a batch under the lock

  /** What a transaction has written is what leads from the committed tables to these. */
  predicate Writes(db: Db, own: Own, keys: map<string, string>, settled: map<string, string>, marks: set<string>, ledger: seq<Row>) {
    match own
    case Own(ownKeys, staged, ownMarks, rows) =>
      && db.keys + ownKeys == keys
      && Rows(db.ledger) + Rows(rows) == ledger
      && ownMarks == marks
      && PendingIds(staged) == settled.Keys - WalIds(db)
      && forall e :: e in PendingIds(staged) && e in settled ==> TextOf(staged, e) == settled[e]
  }

  /** The tables `t` after the statements of `item` that come before `phase`. */
  predicate ItemFits(c: Codec, db: Db, own: Own, phase: BatchPhase, item: Item, t: Store) {
    var key, e := item.idempotencyKey, item.eventId;
    && key !in t.keys
    && c.dumps(item.payload).Some?
    && var settled := SettleWith(t, e, c.dumps(item.payload).value).settled;
    match phase
    case InsertingKey => Writes(db, own, t.keys, t.settled, t.settled.Keys, t.ledger)
    case DrawingId => e !in t.keys.Values && Writes(db, own, t.keys[key := e], t.settled, t.settled.Keys, t.ledger)
    case Staging(_) => e !in t.keys.Values && Writes(db, own, t.keys[key := e], t.settled, t.settled.Keys, t.ledger)
    case Marking => e !in t.keys.Values && Writes(db, own, t.keys[key := e], settled, t.settled.Keys, t.ledger)
    case ReadingHead => e !in t.keys.Values && Writes(db, own, t.keys[key := e], settled, settled.Keys, t.ledger)
    case Appending(prev) =>
      e !in t.keys.Values && Writes(db, own, t.keys[key := e], settled, settled.Keys, t.ledger) && prev == Head(t.ledger)
    case _ => false
  }

  /** A batch that holds the lock is where the item-by-item specification is after `i` items. */
  predicate BatchFits(c: Codec, db: Db, txn: Txn)
    requires txn.job.BatchJob?
  {
    var job, own := txn.job, txn.own;
    && job.i <= |job.items|
    && var b := AckAll(c, Bare(Tables(db)), job.items[..job.i]);
    && b.Done? && b.acks == job.acks
    && match job.bphase
       case Locking => false
       case Prefetching => job.i == 0 && own == NOTHING
       case Deciding =>
         Prefetched(job.existing, job.items, b.store.keys) &&
         Writes(db, own, b.store.keys, b.store.settled, b.store.settled.Keys, b.store.ledger)
       case _ =>
         && Prefetched(job.existing, job.items, b.store.keys)
         && job.i < |job.items|
         && ItemFits(c, db, own, job.bphase, job.items[job.i], b.store)
  }

  // ------------------------------------------------------------------ a recovery under the lock

  /** The tables a recovery saw when it selected `rows`. */
  function Selected(db: Db, rows: seq<Staged>): Store { Store(db.keys, rows, db.settled, Rows(db.ledger)) }

  function After(c: Codec, db: Db, rows: seq<Staged>): Store {
    var r := Recover(c, Selected(db, rows));
    if r.Stuck? then EMPTY else r.store
  }

  /** What the recovery leaves when it commits now: the rows staged since stay pending. */
  function Left(c: Codec, db: Db, rows: seq<Staged>): Store {
    After(c, db, rows).(pending := Without(db.pending, PendingIds(rows)))
  }

  predicate RowFits(c: Codec, db: Db, own: Own, phase: RecoverPhase, rows: seq<Staged>, j: nat)
    requires TextsFit(c, rows) && j <= |rows|
  {
    var written := Rows(db.ledger) + Rows(own.rows);
    && own == NOTHING.(marks := PendingIds(rows[..j]), rows := own.rows)
    && match phase
       case Checking => written == Replayed(c, Rows(db.ledger), rows[..j])
       case ReadingHead(text) =>
         written == Replayed(c, Rows(db.ledger), rows[..j]) && j < |rows| && Some(text) == Rewrite(c, rows[j].text)
       case Appending(text, prev) =>
         && written == Replayed(c, Rows(db.ledger), rows[..j]) && prev == Head(written)
         && j < |rows| && Some(text) == Rewrite(c, rows[j].text)
       case Marking => j < |rows| && written == Replayed(c, Rows(db.ledger), rows[..j + 1])
       case _ => false
  }

  /** A recovery that has selected is where its loop is after `j` rows. */
  predicate RecoveryFits(c: Codec, db: Db, txn: Txn)
    requires txn.job.RecoverJob?
  {
    var job := txn.job;
    && Consistent(c, Selected(db, job.rows))
    && (forall r :: r in job.rows ==> r in db.pending)
    && job.j <= |job.rows| && job.count == job.j
    && RowFits(c, db, txn.own, job.rphase, job.rows, job.j)
  }

  /** The last stamp lies before the next id. */
  predicate LastBefore(log: seq<Entry>, nextWal: nat) { log != [] ==> log[|log| - 1].stamp < 2 * nextWal }

  /** The entries a recovery saw lead to what it selected, and the later ones on from what it leaves. */
  predicate SplitFits(c: Codec, b: Store, g: Logs, db: Db, nextWal: nat, rows: seq<Staged>) {
    && Serial(c, b, g.seen) == Some(Selected(db, rows))
    && Shape(c, After(c, db, rows), g.late)
    && Serial(c, After(c, db, rows), g.late) == Some(Left(c, db, rows))
    && LastBefore(g.late, nextWal)
  }

  // ------------------------------------------------------------------ the invariant

  function Base(c: Codec, g: Logs): Store {
    match Serial(c, EMPTY, g.closed)
    case None => EMPTY
    case Some(b) => b
  }

  predicate HolderFits(c: Codec, g: Logs, db: Db, nextWal: nat, txn: Txn) {
    match txn.job
    case StageJob(_, _, _, _) => false
    case BatchJob(_, _, _, _, _) => BatchFits(c, db, txn)
    case RecoverJob(phase, rows, j, count) =>
      if phase.Selecting? then txn.own == NOTHING && j == 0 && count == 0
      else RecoveryFits(c, db, txn) && SplitFits(c, Base(c, g), g, db, nextWal, rows)
  }

  predicate LogFits(c: Codec, g: Logs, db: Db, nextWal: nat) {
    && Serial(c, EMPTY, g.closed) == Some(Base(c, g))
    && Base(c, g).pending == []
    && Shape(c, Base(c, g), g.open)
    && Serial(c, Base(c, g), g.open) == Some(Tables(db))
    && LastBefore(g.open, nextWal)
    && Consistent(c, Tables(db))
  }

  function HolderRows(s: System): seq<Numbered> {
    if s.lock.Some? && s.lock.value in s.txns then s.txns[s.lock.value].own.rows else []
  }

  predicate Inv(c: Codec, s: System, g: Logs) {
    && Roles(c, s)
    && (s.lock.Some? ==> HolderFits(c, g, s.db, s.nextWal, s.txns[s.lock.value]))
    && Increasing(s.db.ledger + HolderRows(s), s.nextSeq)
    && LogFits(c, g, s.db, s.nextWal)
  }

  lemma StartInv(c: Codec)
    ensures Inv(c, START, NO_LOGS)
  {
    assert Serial(c, EMPTY, []) == Some(EMPTY);
    assert START.db.ledger + HolderRows(START) == [];
    assert Tables(START.db) == EMPTY;
  }
}
