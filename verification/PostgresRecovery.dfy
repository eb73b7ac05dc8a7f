/** Every statement of a recovery that holds the lock keeps it where the specification is; it never fails
  * and never finds one of its rows in the ledger.
  */
module PostgresRecovery {
  import opened Wrappers
  import opened HashChain
  import opened Vault
  import opened VaultLaws
  import opened Postgres
  import opened PostgresInvariant
  import opened PostgresBatch

  /** A selected row is not in the ledger when its turn comes. */
  lemma NotYet(c: Codec, db: Db, rows: seq<Staged>, j: nat)
    requires Consistent(c, Selected(db, rows)) && j < |rows|
    ensures rows[j].eventId !in LedgerIds(Replayed(c, Rows(db.ledger), rows[..j]))
  {
    var s := Selected(db, rows);
    RecoverPrefix(c, s, j);
    var t := RecoverRows(c, s, rows[..j]).store;
    assert t.pending[0] == rows[j];
    assert rows[j].eventId in PendingIds(t.pending);
  }

  lemma CheckFits(c: Codec, db: Db, own: Own, rows: seq<Staged>, j: nat)
    requires Consistent(c, Selected(db, rows)) && j < |rows| && RowFits(c, db, own, Checking, rows, j)
    ensures Rewrite(c, rows[j].text).Some? && c.loads(rows[j].text).Some?
    ensures rows[j].eventId !in LedgerIds(Rows(SeenRows(db, own)))
    ensures RowFits(c, db, own, RecoverPhase.ReadingHead(Rewrite(c, rows[j].text).value), rows, j)
  {
    NotYet(c, db, rows, j);
    RowsConcat(db.ledger, own.rows);
    assert rows[j] in rows;
  }

  lemma HeadFits(c: Codec, db: Db, own: Own, text: string, rows: seq<Staged>, j: nat, n: nat)
    requires TextsFit(c, rows) && j <= |rows| && RowFits(c, db, own, RecoverPhase.ReadingHead(text), rows, j)
    requires Increasing(db.ledger + own.rows, n)
    ensures RowFits(c, db, own, RecoverPhase.Appending(text, TopHash(SeenRows(db, own))), rows, j)
  {
    TopHashIsHead(db.ledger + own.rows, n);
    RowsConcat(db.ledger, own.rows);
  }

  lemma RowIsNew(c: Codec, db: Db, own: Own, text: string, prev: string, rows: seq<Staged>, j: nat)
    requires Consistent(c, Selected(db, rows)) && j < |rows|
    requires RowFits(c, db, own, RecoverPhase.Appending(text, prev), rows, j)
    ensures rows[j].eventId !in LedgerIds(Rows(SeenRows(db, own)))
  {
    NotYet(c, db, rows, j);
    RowsConcat(db.ledger, own.rows);
  }

  lemma RowAppendFits(c: Codec, db: Db, own: Own, text: string, prev: string, rows: seq<Staged>, j: nat, x: Numbered)
    requires TextsFit(c, rows) && j < |rows|
    requires RowFits(c, db, own, RecoverPhase.Appending(text, prev), rows, j)
    requires x.row == NextRow(c.hash, prev, rows[j].eventId, text)
    ensures RowFits(c, db, own.(rows := own.rows + [x]), RecoverPhase.Marking, rows, j)
  {
    RowsSnoc(own.rows, x);
    ReplayedNext(c, Rows(db.ledger), rows, j);
  }

  lemma RowMarkFits(c: Codec, db: Db, own: Own, rows: seq<Staged>, j: nat)
    requires TextsFit(c, rows) && j < |rows| && RowFits(c, db, own, RecoverPhase.Marking, rows, j)
    ensures RowFits(c, db, own.(marks := own.marks + {rows[j].eventId}), Checking, rows, j + 1)
  {
    IdsNext(rows, j);
  }

  predicate RecoveryOutcome(c: Codec, s: System, t: Tid, o: Outcome)
    requires t in s.txns && s.txns[t].job.RecoverJob?
  {
    var job, own := s.txns[t].job, s.txns[t].own;
    match o
    case Waits => true
    case Moves(n) =>
      && OnlyMoves(s, t, n) && n.txns[t].job.RecoverJob? && n.txns[t].job.rows == job.rows && !n.txns[t].job.rphase.Selecting?
      && RecoveryFits(c, s.db, n.txns[t])
    case Commits(n, reply) =>
      && n == Committed(s, t) && reply == RecoverReply(|job.rows|)
      && Consistent(c, Selected(s.db, job.rows))
      && own == NOTHING.(marks := PendingIds(job.rows), rows := own.rows)
      && Rows(s.db.ledger) + Rows(own.rows) == Replayed(c, Rows(s.db.ledger), job.rows)
    case Fails(n) => false
  }

  lemma RecoveryMoves(c: Codec, s: System, t: Tid, txn: Txn, nextSeq: nat)
    requires t in s.txns && s.txns[t].job.RecoverJob? && txn.job.RecoverJob? && RecoveryFits(c, s.db, txn)
    requires txn.job.rows == s.txns[t].job.rows && txn.own.staged == s.txns[t].own.staged
    requires !txn.job.rphase.Selecting? && Increasing(s.db.ledger + txn.own.rows, nextSeq)
    ensures RecoveryOutcome(c, s, t, Moves(With(s, t, txn).(nextSeq := nextSeq)))
  {
    var n := With(s, t, txn).(nextSeq := nextSeq);
    assert n.txns[t] == txn;
    assert OnlyMoves(s, t, n);
  }

  lemma RecoveryCommits(c: Codec, s: System, t: Tid)
    requires t in s.txns && s.txns[t].job.RecoverJob? && RecoveryFits(c, s.db, s.txns[t])
    requires s.txns[t].job.rphase.Checking? && s.txns[t].job.j == |s.txns[t].job.rows|
    ensures RecoveryOutcome(c, s, t, Commits(Committed(s, t), RecoverReply(s.txns[t].job.count)))
  {
    var rows := s.txns[t].job.rows;
    assert rows[..|rows|] == rows;
  }

  lemma RecoveryChecks(c: Codec, s: System, t: Tid, r: Staged)
    requires t in s.txns && s.txns[t].job.RecoverJob? && RecoveryFits(c, s.db, s.txns[t])
    requires Increasing(s.db.ledger + s.txns[t].own.rows, s.nextSeq)
    requires s.txns[t].job.j < |s.txns[t].job.rows| && r == s.txns[t].job.rows[s.txns[t].job.j]
    requires s.txns[t].job.rphase.Checking? || s.txns[t].job.rphase.ReadingHead?
    ensures RecoveryOutcome(c, s, t, RowStep(c, s, t, r))
  {
    var job, own := s.txns[t].job, s.txns[t].own;
    match job.rphase
    case Checking => CheckFits(c, s.db, own, job.rows, job.j);
    case ReadingHead(text) => HeadFits(c, s.db, own, text, job.rows, job.j, s.nextSeq);
  }

  lemma AppendedFits(c: Codec, db: Db, txn: Txn, x: Numbered)
    requires txn.job.RecoverJob? && RecoveryFits(c, db, txn) && txn.job.rphase.Appending? && txn.job.j < |txn.job.rows|
    requires x.row == NextRow(c.hash, txn.job.rphase.prev, txn.job.rows[txn.job.j].eventId, txn.job.rphase.text)
    ensures txn.job.rows[txn.job.j].eventId !in LedgerIds(Rows(SeenRows(db, txn.own)))
    ensures RecoveryFits(c, db, Txn(txn.job.(rphase := RecoverPhase.Marking), txn.own.(rows := txn.own.rows + [x])))
  {
    var job := txn.job;
    RowIsNew(c, db, txn.own, job.rphase.text, job.rphase.prev, job.rows, job.j);
    RowAppendFits(c, db, txn.own, job.rphase.text, job.rphase.prev, job.rows, job.j, x);
  }

  lemma RecoveryAppends(c: Codec, s: System, t: Tid, r: Staged)
    requires t in s.txns && s.txns[t].job.RecoverJob? && RecoveryFits(c, s.db, s.txns[t])
    requires Increasing(s.db.ledger + s.txns[t].own.rows, s.nextSeq)
    requires s.txns[t].job.j < |s.txns[t].job.rows| && r == s.txns[t].job.rows[s.txns[t].job.j]
    requires s.txns[t].job.rphase.Appending?
    ensures RecoveryOutcome(c, s, t, RowStep(c, s, t, r))
  {
    var job, own := s.txns[t].job, s.txns[t].own;
    var row := NextRow(c.hash, job.rphase.prev, r.eventId, job.rphase.text);
    AppendedFits(c, s.db, s.txns[t], Numbered(s.nextSeq, row));
    RowsGrow(s, own, row);
    if !LedgerConflict(s, t, r.eventId) {
      var txn := Txn(job.(rphase := RecoverPhase.Marking), own.(rows := own.rows + [Numbered(s.nextSeq, row)]));
      RecoveryMoves(c, s, t, txn, s.nextSeq + 1);
      assert RowStep(c, s, t, r) == Moves(With(s, t, txn).(nextSeq := s.nextSeq + 1));
    }
  }

  lemma MarkedFits(c: Codec, db: Db, txn: Txn)
    requires txn.job.RecoverJob? && RecoveryFits(c, db, txn) && txn.job.rphase.Marking? && txn.job.j < |txn.job.rows|
    ensures var job := txn.job;
            RecoveryFits(c, db, Txn(job.(rphase := Checking, j := job.j + 1, count := job.count + 1),
                                    txn.own.(marks := txn.own.marks + {job.rows[job.j].eventId})))
  {
    RowMarkFits(c, db, txn.own, txn.job.rows, txn.job.j);
  }

  lemma RecoveryMarks(c: Codec, s: System, t: Tid, r: Staged)
    requires t in s.txns && s.txns[t].job.RecoverJob? && RecoveryFits(c, s.db, s.txns[t])
    requires Increasing(s.db.ledger + s.txns[t].own.rows, s.nextSeq)
    requires s.txns[t].job.j < |s.txns[t].job.rows| && r == s.txns[t].job.rows[s.txns[t].job.j]
    requires s.txns[t].job.rphase.Marking?
    ensures RecoveryOutcome(c, s, t, RowStep(c, s, t, r))
  {
    var job, own := s.txns[t].job, s.txns[t].own;
    MarkedFits(c, s.db, s.txns[t]);
    if !MarkConflict(s, t, r.eventId) {
      var txn := Txn(job.(rphase := Checking, j := job.j + 1, count := job.count + 1), own.(marks := own.marks + {r.eventId}));
      RecoveryMoves(c, s, t, txn, s.nextSeq);
      assert RowStep(c, s, t, r) == Moves(With(s, t, txn).(nextSeq := s.nextSeq));
    }
  }

  /** Every statement of a recovery that has selected its rows. */
  lemma RecoveryStepFits(c: Codec, s: System, t: Tid)
    requires t in s.txns && s.txns[t].job.RecoverJob? && RecoveryFits(c, s.db, s.txns[t])
    requires Increasing(s.db.ledger + s.txns[t].own.rows, s.nextSeq)
    ensures RecoveryOutcome(c, s, t, RecoverStep(c, s, t))
  {
    var job := s.txns[t].job;
    if job.j >= |job.rows| {
      RecoveryCommits(c, s, t);
    } else {
      var r := job.rows[job.j];
      match job.rphase
      case Checking => RecoveryChecks(c, s, t, r);
      case ReadingHead(_) => RecoveryChecks(c, s, t, r);
      case Appending(_, _) => RecoveryAppends(c, s, t, r);
      case Marking => RecoveryMarks(c, s, t, r);
    }
  }
}
