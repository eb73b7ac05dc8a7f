/** `PostgresStorageBackend` as a machine of interleaved transactions, one SQL statement at a time.
  *
  * Isolation is READ COMMITTED: a statement sees what is committed when it runs, and its own
  * transaction's writes. A conflicting insert waits for the other transaction to end. Batch writers and
  * recoverers take the advisory lock before they read anything; `stage_partial` does not. Sequence
  * numbers are drawn when a statement starts, before it may have to wait, and are never given back.
  */
module Postgres {
  import opened Wrappers
  import opened Json
  import opened HashChain
  import opened Vault

  type Tid = nat

  /** A ledger row with its SERIAL number. */
  datatype Numbered = Numbered(number: nat, row: Row)

  /** The committed tables; wal_staging is split by its flag, and its committed=0 part is kept by id. */
  datatype Db = Db(keys: map<string, string>, pending: seq<Staged>, settled: map<string, string>, ledger: seq<Numbered>)

  /** What one open transaction has written. */
  datatype Own = Own(keys: map<string, string>, staged: seq<Staged>, marks: set<string>, rows: seq<Numbered>)

  const NOTHING := Own(map[], [], {}, [])

  datatype BatchPhase =
    | Locking | Prefetching | Deciding | InsertingKey | DrawingId | Staging(id: nat) | Marking | ReadingHead | Appending(prev: string)

  datatype RecoverPhase =
    | Locking | Selecting | Checking | MarkingDuplicate | ReadingHead(text: string) | Appending(text: string, prev: string) | Marking

  /** What a transaction is doing, and its local variables. */
  datatype Job =
    | StageJob(eventId: string, payload: Payload, drawn: Option<nat>, inserted: bool)
    | BatchJob(items: seq<Item>, bphase: BatchPhase, i: nat, existing: map<string, string>, acks: seq<Ack>)
    | RecoverJob(rphase: RecoverPhase, rows: seq<Staged>, j: nat, count: nat)

  datatype Txn = Txn(job: Job, own: Own)

  datatype System = System(db: Db, lock: Option<Tid>, txns: map<Tid, Txn>, nextWal: nat, nextSeq: nat)

  const START := System(Db(map[], [], map[], []), None, map[], 1, 1)

  // ------------------------------------------------------------------ what a statement sees

  function Rows(l: seq<Numbered>): seq<Row> {
    if l == [] then [] else Rows(l[..|l| - 1]) + [l[|l| - 1].row]
  }

  function SeenKeys(db: Db, own: Own): map<string, string> { db.keys + own.keys }

  function SeenRows(db: Db, own: Own): seq<Numbered> { db.ledger + own.rows }

  predicate SeenInWal(db: Db, own: Own, e: string) {
    e in db.settled || e in PendingIds(db.pending) || e in PendingIds(own.staged)
  }

  /** The row with the greatest number, wherever it stands. */
  function Top(l: seq<Numbered>): Numbered
    requires l != []
  {
    if |l| == 1 then l[0]
    else
      var t, last := Top(l[..|l| - 1]), l[|l| - 1];
      if t.number < last.number then last else t
  }

  /** SELECT entry_hash FROM ledger ORDER BY seq DESC LIMIT 1, or the genesis value. */
  function TopHash(l: seq<Numbered>): string { if l == [] then GENESIS_HASH else Top(l).row.entryHash }

  // ------------------------------------------------------------------ waiting

  /** Another open transaction has inserted a wal_staging row for `e`. */
  predicate WalConflict(s: System, t: Tid, e: string) {
    exists u :: u in s.txns && u != t && e in PendingIds(s.txns[u].own.staged)
  }

  /** Another open transaction has inserted an idempotency row with this key or event id. */
  predicate KeyConflict(s: System, t: Tid, key: string, e: string) {
    exists u :: u in s.txns && u != t && (key in s.txns[u].own.keys || e in s.txns[u].own.keys.Values)
  }

  /** Another open transaction has inserted a ledger row for `e`. */
  predicate LedgerConflict(s: System, t: Tid, e: string) {
    exists u :: u in s.txns && u != t && e in LedgerIds(Rows(s.txns[u].own.rows))
  }

  /** Another open transaction holds the row lock on the wal_staging row of `e`. */
  predicate MarkConflict(s: System, t: Tid, e: string) {
    exists u :: u in s.txns && u != t && e in s.txns[u].own.marks
  }

  // ------------------------------------------------------------------ commit

  function InsertAllById(p: seq<Staged>, rows: seq<Staged>): seq<Staged> {
    if rows == [] then p else InsertById(InsertAllById(p, rows[..|rows| - 1]), rows[|rows| - 1])
  }

  function Without(p: seq<Staged>, es: set<string>): seq<Staged> {
    if p == [] then []
    else if p[0].eventId in es then Without(p[1..], es)
    else [p[0]] + Without(p[1..], es)
  }

  function MarkedTexts(p: seq<Staged>, es: set<string>): map<string, string> {
    map e | e in es && e in PendingIds(p) :: TextOf(p, e)
  }

  /** The tables after a commit: the transaction's writes on top of what is committed by then. */
  function Apply(db: Db, own: Own): Db {
    Db(db.keys + own.keys,
       Without(InsertAllById(db.pending, own.staged), own.marks),
       db.settled + MarkedTexts(db.pending, own.marks) + MarkedTexts(own.staged, own.marks),
       db.ledger + own.rows)
  }

  // ------------------------------------------------------------------ steps

  datatype Reply = StageReply | BatchReply(acks: seq<Ack>) | RecoverReply(count: nat)

  /** What running a transaction's next statement comes to. */
  datatype Outcome = Waits | Moves(next: System) | Commits(after: System, reply: Reply) | Fails(without: System)

  function With(s: System, t: Tid, txn: Txn): System { s.(txns := s.txns[t := txn]) }

  /** The transaction is over; its lock, if any, is free. */
  function Gone(s: System, t: Tid): System {
    s.(txns := s.txns - {t}, lock := if s.lock == Some(t) then None else s.lock)
  }

  function Committed(s: System, t: Tid): System
    requires t in s.txns
  {
    Gone(s, t).(db := Apply(s.db, s.txns[t].own))
  }

  function StageStep(c: Codec, s: System, t: Tid): Outcome
    requires t in s.txns && s.txns[t].job.StageJob?
  {
    var own, job := s.txns[t].own, s.txns[t].job;
    if job.inserted then Commits(Committed(s, t), StageReply)
    else if c.dumps(job.payload).None? then Fails(Gone(s, t))
    else
      match job.drawn
      case None => Moves(With(s, t, Txn(job.(drawn := Some(s.nextWal)), own)).(nextWal := s.nextWal + 1))
      case Some(id) =>
        if WalConflict(s, t, job.eventId) then Waits
        else
          var row := Staged(id, job.eventId, c.dumps(job.payload).value);
          var staged := if SeenInWal(s.db, own, job.eventId) then [] else [row];
          Moves(With(s, t, Txn(job.(inserted := true), own.(staged := staged))))
  }

  function TakeLock(s: System, t: Tid, txn: Txn): Outcome {
    if s.lock.Some? then Waits else Moves(With(s, t, txn).(lock := Some(t)))
  }

  /** SELECT idempotency_key, event_id FROM idempotency WHERE idempotency_key = ANY(keys of the items). */
  function Prefetch(items: seq<Item>, keys: map<string, string>): map<string, string> {
    map item | item in items && item.idempotencyKey in keys :: item.idempotencyKey := keys[item.idempotencyKey]
  }

  function BatchStep(c: Codec, s: System, t: Tid): Outcome
    requires t in s.txns && s.txns[t].job.BatchJob?
  {
    var own, job := s.txns[t].own, s.txns[t].job;
    match job.bphase
    case Locking => TakeLock(s, t, Txn(job.(bphase := Prefetching), own))
    case Prefetching =>
      Moves(With(s, t, Txn(job.(bphase := Deciding, existing := Prefetch(job.items, SeenKeys(s.db, own))), own)))
    case Deciding =>
      if job.i >= |job.items| then Commits(Committed(s, t), BatchReply(job.acks))
      else
        var item := job.items[job.i];
        if item.idempotencyKey in job.existing then
          var ack := AcknowledgedWrite(job.existing[item.idempotencyKey], item.idempotencyKey, true, true);
          Moves(With(s, t, Txn(job.(i := job.i + 1, acks := job.acks + [ack]), own)))
        else if c.dumps(item.payload).None? then Fails(Gone(s, t))
        else Moves(With(s, t, Txn(job.(bphase := InsertingKey), own)))
    case _ =>
      if job.i >= |job.items| then Fails(Gone(s, t)) else ItemStep(c, s, t, job.items[job.i])
  }

  /** The statements of one item whose key was not found. */
  function ItemStep(c: Codec, s: System, t: Tid, item: Item): Outcome
    requires t in s.txns && s.txns[t].job.BatchJob?
  {
    var own, job := s.txns[t].own, s.txns[t].job;
    var key, e := item.idempotencyKey, item.eventId;
    match job.bphase
    case InsertingKey =>
      if KeyConflict(s, t, key, e) then Waits
      else if key in SeenKeys(s.db, own) || e in SeenKeys(s.db, own).Values then Fails(Gone(s, t))
      else Moves(With(s, t, Txn(job.(bphase := DrawingId), own.(keys := own.keys[key := e]))))
    case DrawingId => Moves(With(s, t, Txn(job.(bphase := Staging(s.nextWal)), own)).(nextWal := s.nextWal + 1))
    case Staging(id) =>
      if c.dumps(item.payload).None? then Fails(Gone(s, t))
      else if WalConflict(s, t, e) then Waits
      else
        var row := Staged(id, e, c.dumps(item.payload).value);
        var staged := if SeenInWal(s.db, own, e) then own.staged else own.staged + [row];
        Moves(With(s, t, Txn(job.(bphase := BatchPhase.Marking), own.(staged := staged))))
    case Marking =>
      if MarkConflict(s, t, e) then Waits
      else Moves(With(s, t, Txn(job.(bphase := BatchPhase.ReadingHead), own.(marks := own.marks + {e}))))
    case ReadingHead =>
      Moves(With(s, t, Txn(job.(bphase := BatchPhase.Appending(TopHash(SeenRows(s.db, own)))), own)))
    case Appending(prev) =>
      if c.dumps(item.payload).None? then Fails(Gone(s, t))
      else if LedgerConflict(s, t, e) then Waits
      else if e in LedgerIds(Rows(SeenRows(s.db, own))) then Fails(Gone(s, t).(nextSeq := s.nextSeq + 1))
      else
        var row := Numbered(s.nextSeq, NextRow(c.hash, prev, e, c.dumps(item.payload).value));
        var ack := AcknowledgedWrite(e, key, true, false);
        Moves(With(s, t, Txn(job.(bphase := Deciding, i := job.i + 1, existing := job.existing[key := e], acks := job.acks + [ack]),
                             own.(rows := own.rows + [row]))).(nextSeq := s.nextSeq + 1))
    case _ => Fails(Gone(s, t))
  }

  function RecoverStep(c: Codec, s: System, t: Tid): Outcome
    requires t in s.txns && s.txns[t].job.RecoverJob?
  {
    var own, job := s.txns[t].own, s.txns[t].job;
    match job.rphase
    case Locking => TakeLock(s, t, Txn(job.(rphase := Selecting), own))
    case Selecting => Moves(With(s, t, Txn(job.(rphase := Checking, rows := ById(s.db.pending)), own)))
    case _ =>
      if job.j >= |job.rows| then
        if job.rphase == Checking then Commits(Committed(s, t), RecoverReply(job.count)) else Fails(Gone(s, t))
      else RowStep(c, s, t, job.rows[job.j])
  }

  /** The statements for one selected row. */
  function RowStep(c: Codec, s: System, t: Tid, r: Staged): Outcome
    requires t in s.txns && s.txns[t].job.RecoverJob?
  {
    var own, job := s.txns[t].own, s.txns[t].job;
    var e := r.eventId;
    match job.rphase
    case Checking =>
      if c.loads(r.text).None? then Fails(Gone(s, t))
      else if e in LedgerIds(Rows(SeenRows(s.db, own))) then Moves(With(s, t, Txn(job.(rphase := MarkingDuplicate), own)))
      else if Rewrite(c, r.text).None? then Fails(Gone(s, t))
      else Moves(With(s, t, Txn(job.(rphase := RecoverPhase.ReadingHead(Rewrite(c, r.text).value)), own)))
    case MarkingDuplicate =>
      if MarkConflict(s, t, e) then Waits
      else Moves(With(s, t, Txn(job.(rphase := Checking, j := job.j + 1), own.(marks := own.marks + {e}))))
    case ReadingHead(text) =>
      Moves(With(s, t, Txn(job.(rphase := RecoverPhase.Appending(text, TopHash(SeenRows(s.db, own)))), own)))
    case Appending(text, prev) =>
      if LedgerConflict(s, t, e) then Waits
      else if e in LedgerIds(Rows(SeenRows(s.db, own))) then Fails(Gone(s, t).(nextSeq := s.nextSeq + 1))
      else
        var row := Numbered(s.nextSeq, NextRow(c.hash, prev, e, text));
        Moves(With(s, t, Txn(job.(rphase := RecoverPhase.Marking), own.(rows := own.rows + [row]))).(nextSeq := s.nextSeq + 1))
    case Marking =>
      if MarkConflict(s, t, e) then Waits
      else Moves(With(s, t, Txn(job.(rphase := Checking, j := job.j + 1, count := job.count + 1), own.(marks := own.marks + {e}))))
    case _ => Fails(Gone(s, t))
  }

  /** The next statement of transaction `t`. */
  function StepOf(c: Codec, s: System, t: Tid): Outcome
    requires t in s.txns
  {
    match s.txns[t].job
    case StageJob(_, _, _, _) => StageStep(c, s, t)
    case BatchJob(_, _, _, _, _) => BatchStep(c, s, t)
    case RecoverJob(_, _, _, _) => RecoverStep(c, s, t)
  }

  // ------------------------------------------------------------------ the machine

  datatype Request = StagePartial(eventId: string, payload: Payload) | Acknowledge(items: seq<Item>) | RecoverUncommitted

  /** A client sends a request, a transaction runs one statement, or a connection is lost. */
  datatype Action = Begin(t: Tid, req: Request) | Run(t: Tid) | Lose(t: Tid)

  /** The transaction a request opens; none for a payload that does not encode or for an empty batch. */
  function Opened(c: Codec, req: Request): Option<Job> {
    match req
    case StagePartial(e, payload) =>
      if c.dumps(payload).None? then None else Some(StageJob(e, payload, None, false))
    case Acknowledge(items) => if items == [] then None else Some(BatchJob(items, BatchPhase.Locking, 0, map[], []))
    case RecoverUncommitted => Some(RecoverJob(RecoverPhase.Locking, [], 0, 0))
  }

  /** One step of the machine; an action that is not possible changes nothing. */
  function Act(c: Codec, s: System, a: Action): System {
    match a
    case Begin(t, req) =>
      if t in s.txns || Opened(c, req).None? then s else With(s, t, Txn(Opened(c, req).value, NOTHING))
    case Lose(t) => Gone(s, t)
    case Run(t) =>
      if t !in s.txns then s
      else
        match StepOf(c, s, t)
        case Waits => s
        case Moves(s') => s'
        case Commits(s', _) => s'
        case Fails(s') => s'
  }
}
