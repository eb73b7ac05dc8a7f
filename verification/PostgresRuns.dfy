/** Strict serializability: whatever way statements interleave, connections are lost and requests fail,
  * the finished transactions, run one after the other, give the same answers and the same tables.
  */
module PostgresRuns {
  import opened Wrappers
  import opened Vault
  import opened Codecs
  import opened Postgres
  import opened SerialLog
  import opened PostgresInvariant
  import opened PostgresBatch
  import opened PostgresRecovery
  import opened PostgresSteps

  /** What an observer notes: the finished transactions in serial order and as they finished, when each
    * open one began, and the number of actions so far.
    */
  datatype History = History(logs: Logs, done: seq<Entry>, began: map<Tid, nat>, now: nat)

  datatype World = World(system: System, history: History)

  const OPENING := World(START, History(NO_LOGS, [], map[], 0))

  function BeganAt(h: History, t: Tid): nat { if t in h.began then h.began[t] else 0 }

  function Finished(h: History, s: System, t: Tid, reply: Reply): History
    requires t in s.txns
  {
    var x := EntryOf(s, t, reply, BeganAt(h, t), h.now);
    h.(logs := Logged(h.logs, x), done := h.done + [x])
  }

  function Noted(c: Codec, s: System, h: History, a: Action): History {
    match a
    case Begin(t, req) => if t in s.txns || Opened(c, req).None? then h else h.(began := h.began[t := h.now])
    case Lose(_) => h
    case Run(t) =>
      if t !in s.txns then h
      else
        match StepOf(c, s, t)
        case Commits(_, reply) => Finished(h, s, t, reply)
        case Moves(_) => if Selects(s.txns[t].job) then h.(logs := Split(h.logs)) else h
        case _ => h
  }

  function Next(c: Codec, w: World, a: Action): World {
    World(Act(c, w.system, a), Noted(c, w.system, w.history, a).(now := w.history.now + 1))
  }

  function Play(c: Codec, actions: seq<Action>): World {
    if actions == [] then OPENING else Next(c, Play(c, actions[..|actions| - 1]), actions[|actions| - 1])
  }

  // ------------------------------------------------------------------ the tables

  predicate IsAnOpenStaging(s: System, t: Tid) {
    t in s.txns && s.lock != Some(t) && s.txns[t].job.StageJob? && !s.txns[t].job.inserted
  }

  lemma StagingIsReady(c: Codec, s: System, t: Tid)
    requires Roles(c, s) && IsAnOpenStaging(s, t)
    ensures StagingFits(c, s.db, s.nextWal, s.txns[t].job, s.txns[t].own) && s.txns[t].own == NOTHING
  {
    assert WaiterFits(c, s.db, s.nextWal, s.txns[t]);
  }

  lemma DrawnFits(c: Codec, db: Db, nextWal: nat, job: Job)
    requires job.StageJob? && !job.inserted && StagingFits(c, db, nextWal, job, NOTHING)
    ensures WaiterFits(c, db, nextWal + 1, Txn(job.(drawn := Some(nextWal)), NOTHING))
  {
  }

  lemma StageDraws(c: Codec, s: System, g: Logs, t: Tid)
    requires Inv(c, s, g) && IsAnOpenStaging(s, t) && s.txns[t].job.drawn.None?
    ensures StepOf(c, s, t).Moves? && Inv(c, StepOf(c, s, t).next, g)
  {
    var job := s.txns[t].job;
    StagingIsReady(c, s, t);
    DrawnFits(c, s.db, s.nextWal, job);
    assert PendingIds(NOTHING.staged) == {};
    WaiterMoves(c, s, g, t, Txn(job.(drawn := Some(s.nextWal)), NOTHING), s.nextWal + 1);
  }

  lemma InsertedFits(c: Codec, db: Db, nextWal: nat, job: Job, row: Staged)
    requires job.StageJob? && !job.inserted && job.drawn.Some? && StagingFits(c, db, nextWal, job, NOTHING)
    requires row == Staged(job.drawn.value, job.eventId, c.dumps(job.payload).value)
    ensures var staged := if SeenInWal(db, NOTHING, job.eventId) then [] else [row];
            && WaiterFits(c, db, nextWal, Txn(job.(inserted := true), NOTHING.(staged := staged)))
            && PendingIds(staged) <= {job.eventId}
  {
    assert PendingIds(NOTHING.staged) == {};
    assert PendingIds([row]) == {job.eventId} by { assert [row][0] == row; }
  }

  lemma StageInserts(c: Codec, s: System, g: Logs, t: Tid)
    requires Inv(c, s, g) && IsAnOpenStaging(s, t) && s.txns[t].job.drawn.Some?
    ensures StepOf(c, s, t).Waits? || (StepOf(c, s, t).Moves? && Inv(c, StepOf(c, s, t).next, g))
  {
    var job := s.txns[t].job;
    StagingIsReady(c, s, t);
    if !WalConflict(s, t, job.eventId) {
      var row := Staged(job.drawn.value, job.eventId, c.dumps(job.payload).value);
      var staged := if SeenInWal(s.db, NOTHING, job.eventId) then [] else [row];
      InsertedFits(c, s.db, s.nextWal, job, row);
      WaiterMoves(c, s, g, t, Txn(job.(inserted := true), NOTHING.(staged := staged)), s.nextWal);
    }
  }

  lemma StageEnds(c: Codec, s: System, g: Logs, t: Tid, began: nat, now: nat)
    requires Sound(c) && Inv(c, s, g) && t in s.txns && s.lock != Some(t)
    requires s.txns[t].job.StageJob? && s.txns[t].job.inserted
    ensures Inv(c, Committed(s, t), Logged(g, EntryOf(s, t, StageReply, began, now)))
  {
    var x := EntryOf(s, t, StageReply, began, now);
    assert WaiterFits(c, s.db, s.nextWal, s.txns[t]);
    if s.txns[t].own.staged == [] {
      IgnoredStageKeeps(c, s, g, t, x);
    } else {
      assert Rereadable(c, s.txns[t].job.payload);
      FreshStageKeeps(c, s, g, t, x, s.txns[t].own.staged[0]);
    }
  }

  lemma LockRun(c: Codec, s: System, g: Logs, t: Tid)
    requires Inv(c, s, g) && t in s.txns && s.lock != Some(t) && !s.txns[t].job.StageJob?
    ensures StepOf(c, s, t).Waits? || (StepOf(c, s, t).Moves? && Inv(c, StepOf(c, s, t).next, g))
  {
    var job := s.txns[t].job;
    assert WaiterFits(c, s.db, s.nextWal, s.txns[t]);
    if s.lock.None? {
      match job
      case BatchJob(items, _, _, _, _) =>
        assert items[..0] == [];
        LockKeeps(c, s, g, t, Txn(job.(bphase := Prefetching), NOTHING));
      case RecoverJob(_, _, _, _) =>
        LockKeeps(c, s, g, t, Txn(job.(rphase := Selecting), NOTHING));
    }
  }

  lemma BatchRun(c: Codec, s: System, g: Logs, t: Tid, began: nat, now: nat)
    requires Inv(c, s, g) && s.lock == Some(t) && s.txns[t].job.BatchJob?
    ensures match StepOf(c, s, t)
            case Waits => true
            case Moves(n) => Inv(c, n, g)
            case Commits(n, reply) => Inv(c, n, Logged(g, EntryOf(s, t, reply, began, now)))
            case Fails(n) => Inv(c, n, g)
  {
    BatchStepFits(c, s, t);
    match StepOf(c, s, t)
    case Waits =>
    case Moves(n) => HolderMoves(c, s, g, t, n, g);
    case Commits(n, reply) => BatchKeeps(c, s, g, t, EntryOf(s, t, reply, began, now));
    case Fails(n) => GoneKeeps(c, s, g, t, n.nextSeq);
  }

  lemma SelectRun(c: Codec, s: System, g: Logs, t: Tid)
    requires Inv(c, s, g) && s.lock == Some(t) && Selects(s.txns[t].job)
    ensures StepOf(c, s, t).Moves? && Inv(c, StepOf(c, s, t).next, Split(g))
  {
    var txn := Txn(s.txns[t].job.(rphase := Checking, rows := ById(s.db.pending)), s.txns[t].own);
    SelectFits(c, s, g, t, txn);
    HolderMoves(c, s, g, t, With(s, t, txn), Split(g));
  }

  lemma RecoveryRun(c: Codec, s: System, g: Logs, t: Tid, began: nat, now: nat)
    requires Inv(c, s, g) && s.lock == Some(t) && s.txns[t].job.RecoverJob? && !Selects(s.txns[t].job)
    ensures match StepOf(c, s, t)
            case Waits => true
            case Moves(n) => Inv(c, n, g)
            case Commits(n, reply) => Inv(c, n, Logged(g, EntryOf(s, t, reply, began, now)))
            case Fails(n) => false
  {
    RecoveryStepFits(c, s, t);
    match StepOf(c, s, t)
    case Waits =>
    case Moves(n) => HolderMoves(c, s, g, t, n, g);
    case Commits(n, reply) => RecoveryKeeps(c, s, g, t, EntryOf(s, t, reply, began, now));
  }

  /** The invariant after an outcome of transaction `t`, with the logs that go with it. */
  predicate Keeps(c: Codec, s: System, h: History, t: Tid, o: Outcome)
    requires t in s.txns
  {
    match o
    case Waits => true
    case Moves(n) => Inv(c, n, if Selects(s.txns[t].job) then Split(h.logs) else h.logs)
    case Commits(n, reply) => Inv(c, n, Finished(h, s, t, reply).logs)
    case Fails(n) => Inv(c, n, h.logs)
  }

  lemma HolderKeeps(c: Codec, s: System, h: History, t: Tid)
    requires Inv(c, s, h.logs) && s.lock == Some(t)
    ensures Keeps(c, s, h, t, StepOf(c, s, t))
  {
    var job := s.txns[t].job;
    if job.BatchJob? {
      BatchRun(c, s, h.logs, t, BeganAt(h, t), h.now);
    } else if Selects(job) {
      SelectRun(c, s, h.logs, t);
    } else {
      RecoveryRun(c, s, h.logs, t, BeganAt(h, t), h.now);
    }
  }

  lemma WaiterKeeps(c: Codec, s: System, h: History, t: Tid)
    requires Sound(c) && Inv(c, s, h.logs) && t in s.txns && s.lock != Some(t)
    ensures Keeps(c, s, h, t, StepOf(c, s, t))
  {
    var job := s.txns[t].job;
    WaiterSelectsNothing(c, s, t);
    if !job.StageJob? {
      LockRun(c, s, h.logs, t);
    } else if job.inserted {
      StageEnds(c, s, h.logs, t, BeganAt(h, t), h.now);
    } else if job.drawn.None? {
      StageDraws(c, s, h.logs, t);
    } else {
      StageInserts(c, s, h.logs, t);
    }
  }

  lemma WaiterSelectsNothing(c: Codec, s: System, t: Tid)
    requires Roles(c, s) && t in s.txns && s.lock != Some(t)
    ensures !Selects(s.txns[t].job)
  {
    assert WaiterFits(c, s.db, s.nextWal, s.txns[t]);
  }

  lemma RunKeeps(c: Codec, s: System, h: History, t: Tid)
    requires Sound(c) && Inv(c, s, h.logs)
    ensures Inv(c, Act(c, s, Run(t)), Noted(c, s, h, Run(t)).logs)
  {
    if t in s.txns {
      if s.lock == Some(t) {
        HolderKeeps(c, s, h, t);
      } else {
        WaiterKeeps(c, s, h, t);
      }
    }
  }

  lemma ActKeeps(c: Codec, s: System, h: History, a: Action)
    requires Sound(c) && Inv(c, s, h.logs)
    ensures Inv(c, Act(c, s, a), Noted(c, s, h, a).logs)
  {
    match a
    case Begin(t, req) =>
      if t !in s.txns && Opened(c, req).Some? {
        BeginKeeps(c, s, h.logs, t, req);
      }
    case Lose(t) => GoneKeeps(c, s, h.logs, t, s.nextSeq);
    case Run(t) => RunKeeps(c, s, h, t);
  }

  lemma {:induction false} EveryStateFits(c: Codec, actions: seq<Action>)
    requires Sound(c)
    ensures Inv(c, Play(c, actions).system, Play(c, actions).history.logs)
  {
    if actions == [] {
      StartInv(c);
    } else {
      var init, a := actions[..|actions| - 1], actions[|actions| - 1];
      EveryStateFits(c, init);
      ActKeeps(c, Play(c, init).system, Play(c, init).history, a);
    }
  }

  // ------------------------------------------------------------------ failing and waiting

  lemma WaiterNeverFails(c: Codec, s: System, g: Logs, t: Tid)
    requires Inv(c, s, g) && t in s.txns && s.lock != Some(t)
    ensures !StepOf(c, s, t).Fails?
  {
    assert WaiterFits(c, s.db, s.nextWal, s.txns[t]);
  }

  lemma RecoveryNeverFails(c: Codec, s: System, g: Logs, t: Tid)
    requires Inv(c, s, g) && s.lock == Some(t) && s.txns[t].job.RecoverJob?
    ensures !StepOf(c, s, t).Fails?
  {
    if !Selects(s.txns[t].job) {
      RecoveryStepFits(c, s, t);
    }
  }

  /** Interleaving makes nothing fail: only a batch ever raises, and only one that raises when it runs alone
    * on the tables of that moment. All a failed transaction leaves are gaps in the numbers.
    */
  lemma FailsAsSpecified(c: Codec, s: System, g: Logs, t: Tid)
    requires Inv(c, s, g) && t in s.txns && StepOf(c, s, t).Fails?
    ensures s.lock == Some(t) && s.txns[t].job.BatchJob?
    ensures AckAll(c, Tables(s.db), s.txns[t].job.items).Failed?
    ensures var n := StepOf(c, s, t).without; n == Gone(s, t).(nextSeq := n.nextSeq) && s.nextSeq <= n.nextSeq
  {
    if s.lock != Some(t) {
      WaiterNeverFails(c, s, g, t);
    }
    if s.txns[t].job.RecoverJob? {
      RecoveryNeverFails(c, s, g, t);
    }
    BatchStepFits(c, s, t);
    AckAllAbsorb(c, Tables(s.db), s.txns[t].job.items);
  }

  /** Nobody else writes keys, marks or ledger rows while `t` holds the lock. */
  lemma OnlyTheHolderWrites(c: Codec, s: System, t: Tid, key: string, e: string)
    requires Roles(c, s) && s.lock == Some(t)
    ensures !KeyConflict(s, t, key, e) && !MarkConflict(s, t, e) && !LedgerConflict(s, t, e)
  {
    forall u | u in s.txns && u != t ensures s.txns[u].own == NOTHING.(staged := s.txns[u].own.staged) {
      assert WaiterFits(c, s.db, s.nextWal, s.txns[u]);
    }
    assert Rows([]) == [];
  }

  lemma ItemWaits(c: Codec, s: System, t: Tid, item: Item)
    requires Roles(c, s) && s.lock == Some(t) && s.txns[t].job.BatchJob? && ItemStep(c, s, t, item).Waits?
    ensures WalConflict(s, t, item.eventId)
  {
    OnlyTheHolderWrites(c, s, t, item.idempotencyKey, item.eventId);
  }

  lemma RowRuns(c: Codec, s: System, t: Tid, r: Staged)
    requires Roles(c, s) && s.lock == Some(t) && s.txns[t].job.RecoverJob?
    ensures !RowStep(c, s, t, r).Waits?
  {
    OnlyTheHolderWrites(c, s, t, "", r.eventId);
  }

  /** Under the lock, and in a staging, the only thing to wait for is another transaction's staged row. */
  lemma WaitsForStaging(c: Codec, s: System, t: Tid)
    requires Roles(c, s) && t in s.txns && StepOf(c, s, t).Waits? && (s.lock == Some(t) || s.txns[t].job.StageJob?)
    ensures exists e :: WalConflict(s, t, e)
  {
    var job := s.txns[t].job;
    match job
    case StageJob(e, _, _, _) => assert WalConflict(s, t, e);
    case BatchJob(items, _, i, _, _) => ItemWaits(c, s, t, items[i]);
    case RecoverJob(_, rows, j, _) =>
      if j < |rows| {
        RowRuns(c, s, t, rows[j]);
      }
  }

  /** There is no deadlock: as long as transactions are open, one of them can run its next statement. */
  lemma SomeoneCanRun(c: Codec, s: System)
    requires Roles(c, s) && s.txns != map[]
    ensures exists t :: t in s.txns && !StepOf(c, s, t).Waits?
  {
    if t :| t in s.txns && s.lock != Some(t) && s.txns[t].own.staged != [] {
      assert WaiterFits(c, s.db, s.nextWal, s.txns[t]);
      assert StepOf(c, s, t).Commits?;
    } else {
      var t := if s.lock.Some? then s.lock.value else var u :| u in s.txns; u;
      if StepOf(c, s, t).Waits? {
        assert s.lock.None? ==> WaiterFits(c, s.db, s.nextWal, s.txns[t]);
        WaitsForStaging(c, s, t);
        var e :| WalConflict(s, t, e);
      }
    }
  }
}
