/** Every statement of a batch writer that holds the lock keeps it where the specification is. */
module PostgresBatch {
  import opened Wrappers
  import opened HashChain
  import opened Vault
  import opened VaultLaws
  import opened Loops
  import opened Postgres
  import opened SerialLog
  import opened PostgresInvariant

  /** The specification after the first `i` items, on what the batch can see. */
  function Upto(c: Codec, db: Db, items: seq<Item>, i: nat): Batch
    requires i <= |items|
  {
    AckAll(c, Bare(Tables(db)), items[..i])
  }

  lemma BareStaysBare(c: Codec, db: Db, items: seq<Item>, i: nat)
    requires PendingIds(db.pending) !! db.settled.Keys && i <= |items| && Upto(c, db, items, i).Done?
    ensures Upto(c, db, items, i).store.pending == []
  {
    AckAllAbsorb(c, Tables(db), items[..i]);
  }

  lemma PrefetchAnswers(items: seq<Item>, keys: map<string, string>)
    ensures Prefetched(Prefetch(items, keys), items, keys)
  {
    forall it | it in items ensures SameAnswer(Prefetch(items, keys), keys, it.idempotencyKey) {
    }
  }

  lemma PrefetchFits(c: Codec, db: Db, txn: Txn)
    requires txn.job.BatchJob? && txn.job.bphase.Prefetching? && BatchFits(c, db, txn)
    ensures BatchFits(c, db, Txn(txn.job.(bphase := Deciding, existing := Prefetch(txn.job.items, SeenKeys(db, txn.own))), txn.own))
  {
    assert txn.job.items[..0] == [];
    assert SeenKeys(db, txn.own) == db.keys;
    PrefetchAnswers(txn.job.items, db.keys);
  }

  lemma DuplicateFits(c: Codec, db: Db, txn: Txn, item: Item)
    requires txn.job.BatchJob? && txn.job.bphase.Deciding? && BatchFits(c, db, txn)
    requires txn.job.i < |txn.job.items| && item == txn.job.items[txn.job.i]
    requires item.idempotencyKey in txn.job.existing
    ensures var job := txn.job;
            var ack := AcknowledgedWrite(job.existing[item.idempotencyKey], item.idempotencyKey, true, true);
            BatchFits(c, db, Txn(job.(i := job.i + 1, acks := job.acks + [ack]), txn.own))
  {
    var t := Upto(c, db, txn.job.items, txn.job.i).store;
    assert SameAnswer(txn.job.existing, t.keys, item.idempotencyKey);
    AckAllNext(c, Bare(Tables(db)), txn.job.items, txn.job.i);
  }

  lemma NewItemFits(c: Codec, db: Db, txn: Txn, item: Item)
    requires txn.job.BatchJob? && txn.job.bphase.Deciding? && BatchFits(c, db, txn)
    requires txn.job.i < |txn.job.items| && item == txn.job.items[txn.job.i]
    requires item.idempotencyKey !in txn.job.existing && c.dumps(item.payload).Some?
    ensures BatchFits(c, db, Txn(txn.job.(bphase := InsertingKey), txn.own))
  {
    var t := Upto(c, db, txn.job.items, txn.job.i).store;
    assert SameAnswer(txn.job.existing, t.keys, item.idempotencyKey);
  }

  lemma KeyInsertFits(c: Codec, db: Db, own: Own, item: Item, t: Store)
    requires ItemFits(c, db, own, InsertingKey, item, t)
    requires item.eventId !in SeenKeys(db, own).Values
    ensures ItemFits(c, db, own.(keys := own.keys[item.idempotencyKey := item.eventId]), DrawingId, item, t)
  {
    var key, e := item.idempotencyKey, item.eventId;
    assert db.keys + own.keys[key := e] == (db.keys + own.keys)[key := e];
  }

  /** The staging insert: ignored when the row is there, else the batch's own. */
  lemma StageInsertFits(c: Codec, db: Db, own: Own, id: nat, item: Item, t: Store)
    requires t.pending == [] && ItemFits(c, db, own, Staging(id), item, t)
    ensures var e, text := item.eventId, c.dumps(item.payload).value;
            var staged := if SeenInWal(db, own, e) then own.staged else own.staged + [Staged(id, e, text)];
            ItemFits(c, db, own.(staged := staged), BatchPhase.Marking, item, t)
  {
    var e, text := item.eventId, c.dumps(item.payload).value;
    var row := Staged(id, e, text);
    if !SeenInWal(db, own, e) {
      PendingIdsConcat(own.staged, [row]);
      assert row in [row];
      assert PendingIds([row]) == {e};
      forall x | x in PendingIds(own.staged + [row]) && x in t.settled[e := text]
        ensures TextOf(own.staged + [row], x) == t.settled[e := text][x]
      {
        TextOfConcat(own.staged, [row], x);
      }
    }
  }

  lemma MarkFits(c: Codec, db: Db, own: Own, item: Item, t: Store)
    requires t.pending == [] && ItemFits(c, db, own, BatchPhase.Marking, item, t)
    ensures ItemFits(c, db, own.(marks := own.marks + {item.eventId}), BatchPhase.ReadingHead, item, t)
  {
    SettleWithIds(t, item.eventId, c.dumps(item.payload).value);
  }

  lemma ReadHeadFits(c: Codec, db: Db, own: Own, item: Item, t: Store, n: nat)
    requires ItemFits(c, db, own, BatchPhase.ReadingHead, item, t) && Increasing(db.ledger + own.rows, n)
    ensures ItemFits(c, db, own, BatchPhase.Appending(TopHash(SeenRows(db, own))), item, t)
  {
    TopHashIsHead(db.ledger + own.rows, n);
    RowsConcat(db.ledger, own.rows);
  }

  /** With its ledger row, the batch has written what the specification writes for the item. */
  lemma AppendWrites(c: Codec, db: Db, own: Own, prev: string, item: Item, t: Store, row: Numbered)
    requires t.pending == [] && ItemFits(c, db, own, BatchPhase.Appending(prev), item, t)
    requires item.eventId !in LedgerIds(Rows(SeenRows(db, own)))
    requires row.row == NextRow(c.hash, prev, item.eventId, c.dumps(item.payload).value)
    ensures AckOne(c, t, item).Some?
    ensures var a := AckOne(c, t, item).value;
            && a.ack == AcknowledgedWrite(item.eventId, item.idempotencyKey, true, false)
            && a.store.keys == t.keys[item.idempotencyKey := item.eventId]
            && Writes(db, own.(rows := own.rows + [row]), a.store.keys, a.store.settled, a.store.settled.Keys, a.store.ledger)
  {
    AppendSucceeds(c, db, own, prev, item, t);
    FreshAck(c, t, item);
    var settled := SettleWith(t, item.eventId, c.dumps(item.payload).value).settled;
    WritesRow(db, own, t.keys[item.idempotencyKey := item.eventId], settled, settled.Keys, t.ledger, row);
  }

  lemma AppendSucceeds(c: Codec, db: Db, own: Own, prev: string, item: Item, t: Store)
    requires ItemFits(c, db, own, BatchPhase.Appending(prev), item, t)
    requires item.eventId !in LedgerIds(Rows(SeenRows(db, own)))
    ensures AckOne(c, t, item).Some? && prev == Head(t.ledger)
  {
    RowsConcat(db.ledger, own.rows);
  }

  /** One more ledger row. */
  lemma WritesRow(db: Db, own: Own, keys: map<string, string>, settled: map<string, string>, marks: set<string>,
                  ledger: seq<Row>, row: Numbered)
    requires Writes(db, own, keys, settled, marks, ledger)
    ensures Writes(db, own.(rows := own.rows + [row]), keys, settled, marks, ledger + [row.row])
  {
    RowsSnoc(own.rows, row);
  }

  /** The ledger insert completes the item: the specification takes one more step. */
  lemma AppendFits(c: Codec, db: Db, txn: Txn, item: Item, prev: string, row: Numbered)
    requires PendingIds(db.pending) !! db.settled.Keys
    requires txn.job.BatchJob? && txn.job.bphase == BatchPhase.Appending(prev) && BatchFits(c, db, txn)
    requires txn.job.i < |txn.job.items| && item == txn.job.items[txn.job.i]
    requires item.eventId !in LedgerIds(Rows(SeenRows(db, txn.own)))
    requires c.dumps(item.payload).Some?
    requires row.row == NextRow(c.hash, prev, item.eventId, c.dumps(item.payload).value)
    ensures var job := txn.job;
            var ack := AcknowledgedWrite(item.eventId, item.idempotencyKey, true, false);
            var existing := job.existing[item.idempotencyKey := item.eventId];
            BatchFits(c, db, Txn(job.(bphase := Deciding, i := job.i + 1, existing := existing, acks := job.acks + [ack]),
                                 txn.own.(rows := txn.own.rows + [row])))
  {
    var t := Upto(c, db, txn.job.items, txn.job.i).store;
    BareStaysBare(c, db, txn.job.items, txn.job.i);
    AppendWrites(c, db, txn.own, prev, item, t, row);
    AckAllNext(c, Bare(Tables(db)), txn.job.items, txn.job.i);
    PrefetchedGrows(txn.job.existing, txn.job.items, t.keys, item);
  }

  // ------------------------------------------------------------------ failures are the specification's

  lemma DecidingFails(c: Codec, db: Db, txn: Txn, item: Item)
    requires txn.job.BatchJob? && txn.job.bphase.Deciding? && BatchFits(c, db, txn)
    requires txn.job.i < |txn.job.items| && item == txn.job.items[txn.job.i]
    requires item.idempotencyKey !in txn.job.existing && c.dumps(item.payload).None?
    ensures AckAll(c, Bare(Tables(db)), txn.job.items).Failed?
  {
    var t := Upto(c, db, txn.job.items, txn.job.i).store;
    assert SameAnswer(txn.job.existing, t.keys, item.idempotencyKey);
    ItemFails(c, db, txn.job.items, txn.job.i);
  }

  lemma KeyInsertFails(c: Codec, db: Db, own: Own, item: Item, t: Store)
    requires ItemFits(c, db, own, InsertingKey, item, t) && item.eventId in SeenKeys(db, own).Values
    ensures AckOne(c, t, item).None?
  {
  }

  lemma AppendFails(c: Codec, db: Db, own: Own, prev: string, item: Item, t: Store)
    requires ItemFits(c, db, own, BatchPhase.Appending(prev), item, t)
    requires item.eventId in LedgerIds(Rows(SeenRows(db, own)))
    ensures AckOne(c, t, item).None?
  {
    RowsConcat(db.ledger, own.rows);
  }

  lemma ItemFails(c: Codec, db: Db, items: seq<Item>, i: nat)
    requires i < |items| && Upto(c, db, items, i).Done? && AckOne(c, Upto(c, db, items, i).store, items[i]).None?
    ensures AckAll(c, Bare(Tables(db)), items).Failed?
  {
    AckAllNext(c, Bare(Tables(db)), items, i);
    FailureStays(c, Bare(Tables(db)), items, i + 1);
  }

  // ------------------------------------------------------------------ the step as a whole

  /** Everything a step of the lock holder `t` leaves alone. */
  predicate OnlyMoves(s: System, t: Tid, n: System)
    requires t in s.txns
  {
    && t in n.txns && n == s.(txns := s.txns[t := n.txns[t]], nextWal := n.nextWal, nextSeq := n.nextSeq)
    && s.nextWal <= n.nextWal
    && !Unlocked(n.txns[t].job)
    && Increasing(s.db.ledger + n.txns[t].own.rows, n.nextSeq)
    && (forall u :: u in s.txns && u != t && PendingIds(s.txns[u].own.staged) !! PendingIds(s.txns[t].own.staged) ==>
          PendingIds(s.txns[u].own.staged) !! PendingIds(n.txns[t].own.staged))
  }

  /** What one more statement of the batch of `t` comes to. */
  predicate BatchOutcome(c: Codec, s: System, t: Tid, o: Outcome)
    requires t in s.txns && s.txns[t].job.BatchJob?
  {
    var spec := AckAll(c, Bare(Tables(s.db)), s.txns[t].job.items);
    match o
    case Waits => true
    case Moves(n) =>
      && OnlyMoves(s, t, n)
      && n.txns[t].job.BatchJob? && n.txns[t].job.items == s.txns[t].job.items && BatchFits(c, s.db, n.txns[t])
    case Commits(n, reply) =>
      && n == Committed(s, t) && spec.Done? && reply == BatchReply(spec.acks)
      && Writes(s.db, s.txns[t].own, spec.store.keys, spec.store.settled, spec.store.settled.Keys, spec.store.ledger)
    case Fails(n) => spec.Failed? && n == Gone(s, t).(nextSeq := n.nextSeq) && s.nextSeq <= n.nextSeq
  }

  lemma RowsGrow(s: System, own: Own, row: Row)
    requires Increasing(s.db.ledger + own.rows, s.nextSeq)
    ensures Increasing(s.db.ledger + (own.rows + [Numbered(s.nextSeq, row)]), s.nextSeq + 1)
  {
    IncreasingSnoc(s.db.ledger + own.rows, s.nextSeq, row);
    assert s.db.ledger + (own.rows + [Numbered(s.nextSeq, row)]) == s.db.ledger + own.rows + [Numbered(s.nextSeq, row)];
  }

  lemma PrefetchStep(c: Codec, s: System, t: Tid)
    requires t in s.txns && s.txns[t].job.BatchJob? && BatchFits(c, s.db, s.txns[t])
    requires Increasing(s.db.ledger + s.txns[t].own.rows, s.nextSeq)
    requires s.txns[t].job.bphase.Prefetching?
    ensures BatchOutcome(c, s, t, BatchStep(c, s, t))
  {
    var txn := s.txns[t];
    PrefetchFits(c, s.db, txn);
  }

  lemma CommitStep(c: Codec, s: System, t: Tid)
    requires t in s.txns && s.txns[t].job.BatchJob? && BatchFits(c, s.db, s.txns[t])
    requires Increasing(s.db.ledger + s.txns[t].own.rows, s.nextSeq)
    requires s.txns[t].job.bphase.Deciding? && s.txns[t].job.i == |s.txns[t].job.items|
    ensures BatchOutcome(c, s, t, Commits(Committed(s, t), BatchReply(s.txns[t].job.acks)))
  {
    assert s.txns[t].job.items[..s.txns[t].job.i] == s.txns[t].job.items;
  }

  lemma DecidingStep(c: Codec, s: System, t: Tid, item: Item)
    requires t in s.txns && s.txns[t].job.BatchJob? && BatchFits(c, s.db, s.txns[t])
    requires Increasing(s.db.ledger + s.txns[t].own.rows, s.nextSeq)
    requires s.txns[t].job.bphase.Deciding?
    requires s.txns[t].job.i < |s.txns[t].job.items| && item == s.txns[t].job.items[s.txns[t].job.i]
    ensures BatchOutcome(c, s, t, BatchStep(c, s, t))
  {
    var txn := s.txns[t];
    if item.idempotencyKey in txn.job.existing {
      DuplicateFits(c, s.db, txn, item);
    } else if c.dumps(item.payload).None? {
      DecidingFails(c, s.db, txn, item);
    } else {
      NewItemFits(c, s.db, txn, item);
    }
  }

  lemma StagingStep(c: Codec, s: System, t: Tid, item: Item)
    requires t in s.txns && s.txns[t].job.BatchJob? && BatchFits(c, s.db, s.txns[t])
    requires Increasing(s.db.ledger + s.txns[t].own.rows, s.nextSeq) && PendingIds(s.db.pending) !! s.db.settled.Keys
    requires s.txns[t].job.bphase.Staging? && s.txns[t].job.i < |s.txns[t].job.items|
    requires item == s.txns[t].job.items[s.txns[t].job.i]
    ensures BatchOutcome(c, s, t, ItemStep(c, s, t, item))
  {
    var job, own := s.txns[t].job, s.txns[t].own;
    var b := Upto(c, s.db, job.items, job.i).store;
    BareStaysBare(c, s.db, job.items, job.i);
    StageInsertFits(c, s.db, own, job.bphase.id, item, b);
    var row := Staged(job.bphase.id, item.eventId, c.dumps(item.payload).value);
    PendingIdsConcat(own.staged, [row]);
    assert PendingIds([row]) == {item.eventId};
  }

  lemma AppendingStep(c: Codec, s: System, t: Tid, item: Item)
    requires t in s.txns && s.txns[t].job.BatchJob? && BatchFits(c, s.db, s.txns[t])
    requires Increasing(s.db.ledger + s.txns[t].own.rows, s.nextSeq) && PendingIds(s.db.pending) !! s.db.settled.Keys
    requires s.txns[t].job.bphase.Appending? && s.txns[t].job.i < |s.txns[t].job.items|
    requires item == s.txns[t].job.items[s.txns[t].job.i]
    ensures BatchOutcome(c, s, t, ItemStep(c, s, t, item))
  {
    var txn := s.txns[t];
    var e, prev := item.eventId, txn.job.bphase.prev;
    if e in LedgerIds(Rows(SeenRows(s.db, txn.own))) {
      AppendFails(c, s.db, txn.own, prev, item, Upto(c, s.db, txn.job.items, txn.job.i).store);
      ItemFails(c, s.db, txn.job.items, txn.job.i);
    } else {
      var row := NextRow(c.hash, prev, e, c.dumps(item.payload).value);
      AppendFits(c, s.db, txn, item, prev, Numbered(s.nextSeq, row));
      RowsGrow(s, txn.own, row);
    }
  }

  lemma MarkingStep(c: Codec, s: System, t: Tid, item: Item)
    requires t in s.txns && s.txns[t].job.BatchJob? && BatchFits(c, s.db, s.txns[t])
    requires Increasing(s.db.ledger + s.txns[t].own.rows, s.nextSeq) && PendingIds(s.db.pending) !! s.db.settled.Keys
    requires s.txns[t].job.bphase.Marking?
    requires s.txns[t].job.i < |s.txns[t].job.items| && item == s.txns[t].job.items[s.txns[t].job.i]
    ensures BatchOutcome(c, s, t, ItemStep(c, s, t, item))
  {
    var job := s.txns[t].job;
    BareStaysBare(c, s.db, job.items, job.i);
    MarkFits(c, s.db, s.txns[t].own, item, Upto(c, s.db, job.items, job.i).store);
  }

  lemma ReadingHeadStep(c: Codec, s: System, t: Tid, item: Item)
    requires t in s.txns && s.txns[t].job.BatchJob? && BatchFits(c, s.db, s.txns[t])
    requires Increasing(s.db.ledger + s.txns[t].own.rows, s.nextSeq)
    requires s.txns[t].job.bphase.ReadingHead?
    requires s.txns[t].job.i < |s.txns[t].job.items| && item == s.txns[t].job.items[s.txns[t].job.i]
    ensures BatchOutcome(c, s, t, ItemStep(c, s, t, item))
  {
    var job := s.txns[t].job;
    ReadHeadFits(c, s.db, s.txns[t].own, item, Upto(c, s.db, job.items, job.i).store, s.nextSeq);
  }

  lemma KeyStep(c: Codec, s: System, t: Tid, item: Item)
    requires t in s.txns && s.txns[t].job.BatchJob? && BatchFits(c, s.db, s.txns[t])
    requires Increasing(s.db.ledger + s.txns[t].own.rows, s.nextSeq)
    requires s.txns[t].job.bphase.InsertingKey? && s.txns[t].job.i < |s.txns[t].job.items|
    requires item == s.txns[t].job.items[s.txns[t].job.i]
    ensures BatchOutcome(c, s, t, ItemStep(c, s, t, item))
  {
    var txn := s.txns[t];
    var b := Upto(c, s.db, txn.job.items, txn.job.i).store;
    if item.eventId in SeenKeys(s.db, txn.own).Values {
      KeyInsertFails(c, s.db, txn.own, item, b);
      ItemFails(c, s.db, txn.job.items, txn.job.i);
    } else {
      KeyInsertFits(c, s.db, txn.own, item, b);
    }
  }

  lemma DrawStep(c: Codec, s: System, t: Tid, item: Item)
    requires t in s.txns && s.txns[t].job.BatchJob? && BatchFits(c, s.db, s.txns[t])
    requires Increasing(s.db.ledger + s.txns[t].own.rows, s.nextSeq)
    requires s.txns[t].job.bphase.DrawingId? && s.txns[t].job.i < |s.txns[t].job.items|
    requires item == s.txns[t].job.items[s.txns[t].job.i]
    ensures BatchOutcome(c, s, t, ItemStep(c, s, t, item))
  {
  }

  /** Every statement of a batch under the lock: it goes on as the specification does, it commits what the
    * specification comes to, and it fails only where the specification fails.
    */
  lemma BatchStepFits(c: Codec, s: System, t: Tid)
    requires t in s.txns && s.txns[t].job.BatchJob? && BatchFits(c, s.db, s.txns[t])
    requires Increasing(s.db.ledger + s.txns[t].own.rows, s.nextSeq) && PendingIds(s.db.pending) !! s.db.settled.Keys
    ensures BatchOutcome(c, s, t, BatchStep(c, s, t))
  {
    var job := s.txns[t].job;
    match job.bphase
    case Prefetching => PrefetchStep(c, s, t);
    case Deciding =>
      if job.i < |job.items| {
        DecidingStep(c, s, t, job.items[job.i]);
      } else {
        CommitStep(c, s, t);
      }
    case InsertingKey => KeyStep(c, s, t, job.items[job.i]);
    case DrawingId => DrawStep(c, s, t, job.items[job.i]);
    case Staging(_) => StagingStep(c, s, t, job.items[job.i]);
    case Marking => MarkingStep(c, s, t, job.items[job.i]);
    case ReadingHead => ReadingHeadStep(c, s, t, job.items[job.i]);
    case Appending(_) => AppendingStep(c, s, t, job.items[job.i]);
  }
}
