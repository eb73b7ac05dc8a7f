/** What each kind of commit does to the tables, to the serial log and to the transactions still open. */
module PostgresCommit {
  import opened Wrappers
  import opened Vault
  import opened VaultLaws
  import opened Postgres
  import opened SerialLog
  import opened PostgresInvariant

  // ------------------------------------------------------------------ tables

  lemma ApplyNothing(db: Db)
    ensures Apply(db, NOTHING) == db
  {
    WithoutNone(db.pending, {});
    assert MarkedTexts(db.pending, {}) == map[] && MarkedTexts([], {}) == map[];
  }

  lemma ApplyStaged(db: Db, row: Staged)
    ensures Apply(db, NOTHING.(staged := [row])) == db.(pending := InsertById(db.pending, row))
  {
    assert InsertAllById(db.pending, [row]) == InsertById(db.pending, row) by {
      assert [row][..0] == [] && InsertAllById(db.pending, []) == db.pending;
    }
    WithoutNone(InsertById(db.pending, row), {});
    assert MarkedTexts(db.pending, {}) == map[] && MarkedTexts([row], {}) == map[];
    assert db.settled + map[] + map[] == db.settled;
  }

  lemma {:induction false} WithoutAllInserted(p: seq<Staged>, rows: seq<Staged>, es: set<string>)
    requires PendingIds(rows) <= es
    ensures Without(InsertAllById(p, rows), es) == Without(p, es)
  {
    if rows != [] {
      var init, row := rows[..|rows| - 1], rows[|rows| - 1];
      assert rows == init + [row] && row in rows;
      PendingIdsConcat(init, [row]);
      WithoutAllInserted(p, init, es);
      WithoutInserted(InsertAllById(p, init), es, row);
    }
  }

  lemma SettledByBatch(db: Db, own: Own, t: Store)
    requires PendingIds(db.pending) !! db.settled.Keys
    requires Writes(db, own, t.keys, t.settled, t.settled.Keys, t.ledger)
    ensures db.settled + MarkedTexts(db.pending, own.marks) + MarkedTexts(own.staged, own.marks) == Absorbed(Tables(db), t.settled)
  {
    var m := db.settled + MarkedTexts(db.pending, own.marks) + MarkedTexts(own.staged, own.marks);
    assert m.Keys == db.settled.Keys + t.settled.Keys;
  }

  /** What a batch commits is what the specification comes to on the tables at that moment. */
  lemma ApplyBatch(db: Db, own: Own, t: Store)
    requires PendingIds(db.pending) !! db.settled.Keys
    requires Writes(db, own, t.keys, t.settled, t.settled.Keys, t.ledger)
    ensures Tables(Apply(db, own)) == Absorb(Tables(db), t)
    ensures WalIds(Apply(db, own)) == WalIds(db) + PendingIds(own.staged)
  {
    WithoutAllInserted(db.pending, own.staged, own.marks);
    SettledByBatch(db, own, t);
    RowsConcat(db.ledger, own.rows);
    WithoutElements(db.pending, t.settled.Keys);
  }

  lemma {:induction false} MarkedTextOf(m: map<string, string>, rows: seq<Staged>, r: Staged)
    requires DistinctPending(rows) && r in rows
    ensures r.eventId in Marked(m, rows) && Marked(m, rows)[r.eventId] == r.text
  {
    var init, last := rows[..|rows| - 1], rows[|rows| - 1];
    if r != last {
      assert r in init;
      var i :| 0 <= i < |init| && init[i] == r;
      assert rows[i] == r;
      MarkedTextOf(m, init, r);
    }
  }

  lemma {:induction false} MarkedOld(m: map<string, string>, rows: seq<Staged>, e: string)
    requires e in m && e !in PendingIds(rows)
    ensures e in Marked(m, rows) && Marked(m, rows)[e] == m[e]
  {
    if rows != [] {
      var init, last := rows[..|rows| - 1], rows[|rows| - 1];
      assert last in rows && forall r :: r in init ==> r in rows;
      MarkedOld(m, init, e);
    }
  }

  lemma SettledByRecovery(p: seq<Staged>, settled: map<string, string>, rows: seq<Staged>)
    requires DistinctPending(p) && DistinctPending(rows) && (forall r :: r in rows ==> r in p)
    requires PendingIds(rows) !! settled.Keys
    ensures settled + MarkedTexts(p, PendingIds(rows)) == Marked(settled, rows)
  {
    var ids := PendingIds(rows);
    var m := settled + MarkedTexts(p, ids);
    MarkedRows(settled, rows);
    forall e | e in ids ensures e in PendingIds(p) && TextOf(p, e) == Marked(settled, rows)[e] {
      var r :| r in rows && r.eventId == e;
      TextOfRow(p, r);
      MarkedTextOf(settled, rows, r);
    }
    forall e | e in settled ensures Marked(settled, rows)[e] == settled[e] {
      MarkedOld(settled, rows, e);
    }
    assert m.Keys == settled.Keys + ids;
  }

  /** The tables after the recovery alone, in closed form. */
  lemma AfterIs(c: Codec, db: Db, rows: seq<Staged>)
    requires Consistent(c, Selected(db, rows))
    ensures Recover(c, Selected(db, rows)) == Recovered(After(c, db, rows), |rows|)
    ensures After(c, db, rows) == Store(db.keys, [], Marked(db.settled, rows), Replayed(c, Rows(db.ledger), rows))
    ensures Consistent(c, After(c, db, rows))
  {
    RecoverExactly(c, Selected(db, rows));
  }

  lemma LeftWalIds(c: Codec, db: Db, rows: seq<Staged>)
    requires Consistent(c, Selected(db, rows)) && (forall r :: r in rows ==> r in db.pending)
    ensures PendingIds(Left(c, db, rows).pending) + Left(c, db, rows).settled.Keys == WalIds(db)
  {
    AfterIs(c, db, rows);
    MarkedRows(db.settled, rows);
    RowIdsWithin(db.pending, rows);
    WithoutElements(db.pending, PendingIds(rows));
  }

  lemma ApplyMarks(db: Db, own: Own)
    requires own == NOTHING.(marks := own.marks, rows := own.rows)
    ensures Apply(db, own) ==
            Db(db.keys, Without(db.pending, own.marks), db.settled + MarkedTexts(db.pending, own.marks), db.ledger + own.rows)
  {
    var m := db.settled + MarkedTexts(db.pending, own.marks);
    assert MarkedTexts([], own.marks) == map[];
    assert m + map[] == m && db.keys + map[] == db.keys;
  }

  /** What a recovery commits: its rows are settled and appended, the rows staged since stay. */
  lemma ApplyRecovery(c: Codec, db: Db, own: Own, rows: seq<Staged>)
    requires Consistent(c, Tables(db)) && Consistent(c, Selected(db, rows)) && (forall r :: r in rows ==> r in db.pending)
    requires own == NOTHING.(marks := PendingIds(rows), rows := own.rows)
    requires Rows(db.ledger) + Rows(own.rows) == Replayed(c, Rows(db.ledger), rows)
    ensures Tables(Apply(db, own)) == Left(c, db, rows)
    ensures WalIds(Apply(db, own)) == WalIds(db)
  {
    AfterIs(c, db, rows);
    SettledByRecovery(db.pending, db.settled, rows);
    ApplyMarks(db, own);
    RowsConcat(db.ledger, own.rows);
    LeftWalIds(c, db, rows);
  }

  lemma RowIdsWithin(p: seq<Staged>, rows: seq<Staged>)
    requires forall r :: r in rows ==> r in p
    ensures PendingIds(rows) <= PendingIds(p)
  {
  }

  // ------------------------------------------------------------------ the log

  lemma LastStaysBefore(log: seq<Entry>, x: Entry, nextWal: nat)
    requires LastBefore(log, nextWal) && x.stamp < 2 * nextWal
    ensures LastBefore(InsertStamp(log, x), nextWal)
  {
    InsertStampLast(log, x);
  }

  /** An entry stamped at its commit goes to the end. */
  lemma EntryAtEnd(log: seq<Entry>, x: Entry, nextWal: nat)
    requires LastBefore(log, nextWal) && x.stamp == 2 * nextWal - 1
    ensures InsertStamp(log, x) == log + [x]
  {
  }

  /** A staging that was ignored, run again at the end of the log, is ignored again. */
  lemma IgnoredEntry(c: Codec, s: Store, log: seq<Entry>, x: Entry, nextWal: nat)
    requires Shape(c, s, log) && Serial(c, s, log).Some? && LastBefore(log, nextWal)
    requires Sorted(Serial(c, s, log).value.pending)
    requires x.call.Stage? && x.reply == StageReply && c.dumps(x.call.payload).Some?
    requires x.stamp == 2 * nextWal - 1 && InWal(Serial(c, s, log).value, x.call.eventId)
    ensures Shape(c, s, InsertStamp(log, x)) && Serial(c, s, InsertStamp(log, x)) == Serial(c, s, log)
    ensures LastBefore(InsertStamp(log, x), nextWal)
  {
    EntryAtEnd(log, x, nextWal);
    ShapeSnoc(c, s, log, x);
  }

  lemma BatchEntry(c: Codec, s: Store, log: seq<Entry>, x: Entry, nextWal: nat, t: Store)
    requires Shape(c, s, log) && Serial(c, s, log).Some? && LastBefore(log, nextWal)
    requires Sorted(Serial(c, s, log).value.pending)
    requires x.call.Acknowledge? && x.stamp == 2 * nextWal - 1
    requires AckAll(c, Serial(c, s, log).value, x.call.items).Done?
    requires x.reply == BatchReply(AckAll(c, Serial(c, s, log).value, x.call.items).acks)
    ensures Shape(c, s, InsertStamp(log, x))
    ensures Serial(c, s, InsertStamp(log, x)) == Some(AckAll(c, Serial(c, s, log).value, x.call.items).store)
    ensures LastBefore(InsertStamp(log, x), nextWal)
  {
    EntryAtEnd(log, x, nextWal);
    AckAllShrinks(c, Serial(c, s, log).value, x.call.items);
    ShapeSnoc(c, s, log, x);
  }

  // ------------------------------------------------------------------ the transactions still open

  lemma WaiterStays(c: Codec, db: Db, next: Db, nextWal: nat, txn: Txn)
    requires WaiterFits(c, db, nextWal, txn) && WalIds(db) <= WalIds(next)
    requires PendingIds(txn.own.staged) !! WalIds(next) - WalIds(db)
    ensures WaiterFits(c, next, nextWal, txn)
  {
    if txn.own.staged != [] {
      assert txn.own.staged[0].eventId in PendingIds(txn.own.staged);
    }
  }

  /** A commit that adds only its own rows to wal_staging leaves every other transaction as it should be. */
  lemma RolesAfterCommit(c: Codec, s: System, t: Tid)
    requires Roles(c, s) && t in s.txns
    requires var after := WalIds(Apply(s.db, s.txns[t].own));
             WalIds(s.db) <= after <= WalIds(s.db) + PendingIds(s.txns[t].own.staged)
    ensures Roles(c, Committed(s, t))
  {
    var n := Committed(s, t);
    forall u | u in n.txns && n.lock != Some(u) ensures WaiterFits(c, n.db, n.nextWal, n.txns[u]) {
      assert s.lock != Some(u);
      WaiterStays(c, s.db, n.db, n.nextWal, s.txns[u]);
    }
  }

  lemma RolesAfterGone(c: Codec, s: System, t: Tid)
    requires Roles(c, s)
    ensures Roles(c, Gone(s, t))
  {
  }
}
