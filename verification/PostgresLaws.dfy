/** What strict serializability buys: the laws of module VaultRuns hold of the concurrent backend. */
module PostgresLaws {
  import opened Wrappers
  import opened HashChain
  import opened Framing
  import opened AuditTrail
  import opened Vault
  import opened VaultLaws
  import opened Codecs
  import opened Renumbering
  import opened Postgres
  import opened SerialLog
  import opened PostgresInvariant
  import opened PostgresRuns
  import opened PostgresOrder
  import Runs = VaultRuns

  /** The entry as a call of a run, which draws its own ids, and which is answered. */
  function EventOf(x: Entry): Runs.Event {
    Runs.Event(
      match x.call
      case Stage(_, e, payload) => Runs.Stage(e, payload)
      case Acknowledge(items) => Runs.Acknowledge(items)
      case RecoverUncommitted => Runs.RecoverUncommitted,
      Runs.Answered)
  }

  /** A serial log as a run of the vault in which every call is answered. */
  function Events(log: seq<Entry>): seq<Runs.Event> {
    if log == [] then [] else Events(log[..|log| - 1]) + [EventOf(log[|log| - 1])]
  }

  function AcksIn(reply: Reply): seq<Ack> { if reply.BatchReply? then reply.acks else [] }

  function CountIn(reply: Reply): nat { if reply.RecoverReply? then reply.count else 0 }

  /** All acknowledgements, in the order of the transactions that gave them. */
  function AcksOf(log: seq<Entry>): seq<Ack> {
    if log == [] then [] else AcksOf(log[..|log| - 1]) + AcksIn(log[|log| - 1].reply)
  }

  /** The sum of the counts recoveries returned. */
  function Recoveries(log: seq<Entry>): nat {
    if log == [] then 0 else Recoveries(log[..|log| - 1]) + CountIn(log[|log| - 1].reply)
  }

  /** Entries of stagings answer nothing. */
  predicate StagesSilent(log: seq<Entry>) { forall x :: x in log && x.call.Stage? ==> x.reply == StageReply }

  lemma SilentSnoc(log: seq<Entry>, x: Entry)
    requires StagesSilent(log) && (x.call.Stage? ==> x.reply == StageReply)
    ensures StagesSilent(log + [x])
  {
  }

  lemma RedoIsSilent(c: Codec, s: Store, x: Entry)
    requires Redo(c, s, x).Some? && x.call.Stage?
    ensures x.reply == StageReply
  {
  }

  lemma AnswersSnoc(log: seq<Entry>, x: Entry)
    ensures AcksOf(log + [x]) == AcksOf(log) + AcksIn(x.reply)
    ensures Recoveries(log + [x]) == Recoveries(log) + CountIn(x.reply)
  {
    assert (log + [x])[..|log|] == log;
  }

  /** A run's state stands where a serial log has come to, with ids of its own. */
  predicate Follows(s: Store, r: Runs.Run, log: seq<Entry>) {
    Alike(s, r.store) && r.acks == AcksOf(log) && r.replayed == Recoveries(log)
  }

  lemma RedoStageIsNext(c: Codec, s: Store, r: Runs.Run, log: seq<Entry>, x: Entry)
    requires Follows(s, r, log) && Redo(c, s, x).Some? && x.call.Stage?
    ensures Follows(Redo(c, s, x).value, Runs.Next(c, r, EventOf(x)), log + [x])
  {
    var text := c.dumps(x.call.payload).value;
    AlikeStage(s, x.call.id, r.store, r.nextId, x.call.eventId, text);
    AnswersSnoc(log, x);
  }

  lemma RedoBatchIsNext(c: Codec, s: Store, r: Runs.Run, log: seq<Entry>, x: Entry)
    requires Follows(s, r, log) && Redo(c, s, x).Some? && x.call.Acknowledge?
    ensures Follows(Redo(c, s, x).value, Runs.Next(c, r, EventOf(x)), log + [x])
  {
    AlikeAckAll(c, s, r.store, x.call.items);
    AnswersSnoc(log, x);
  }

  lemma RedoRecoveryIsNext(c: Codec, s: Store, r: Runs.Run, log: seq<Entry>, x: Entry)
    requires Follows(s, r, log) && Redo(c, s, x).Some? && x.call.RecoverUncommitted?
    requires Sorted(s.pending) && Sorted(r.store.pending)
    ensures Follows(Redo(c, s, x).value, Runs.Next(c, r, EventOf(x)), log + [x])
  {
    AlikeRecover(c, s, r.store);
    AnswersSnoc(log, x);
  }

  lemma PlaySnoc(c: Codec, events: seq<Runs.Event>, ev: Runs.Event)
    ensures Runs.Play(c, events + [ev]) == Runs.Next(c, Runs.Play(c, events), ev)
  {
    assert (events + [ev])[..|events|] == events;
  }

  lemma {:induction false} SerialSorted(c: Codec, log: seq<Entry>)
    requires Serial(c, EMPTY, log).Some?
    ensures Sorted(Serial(c, EMPTY, log).value.pending)
  {
  }

  /** Running a log serially is a run of the vault, with the log's answers: the tables are the same but for
    * the ids of pending rows, which stand in the same order.
    */
  lemma {:induction false} SerialIsRun(c: Codec, log: seq<Entry>)
    requires Sound(c) && Serial(c, EMPTY, log).Some?
    ensures Follows(Serial(c, EMPTY, log).value, Runs.Play(c, Events(log)), log)
  {
    if log != [] {
      var init, x := log[..|log| - 1], log[|log| - 1];
      var s, r := Serial(c, EMPTY, init).value, Runs.Play(c, Events(init));
      SerialIsRun(c, init);
      SerialSorted(c, init);
      Runs.EveryStateConsistent(c, Events(init));
      match x.call {
        case Stage(_, _, _) => RedoStageIsNext(c, s, r, init, x);
        case Acknowledge(_) => RedoBatchIsNext(c, s, r, init, x);
        case RecoverUncommitted => RedoRecoveryIsNext(c, s, r, init, x);
      }
      PlaySnoc(c, Events(init), EventOf(x));
      assert log == init + [x];
    }
  }

  lemma {:induction false} SerialIsSilent(c: Codec, log: seq<Entry>)
    requires Serial(c, EMPTY, log).Some?
    ensures StagesSilent(log)
  {
    if log != [] {
      var init, x := log[..|log| - 1], log[|log| - 1];
      SerialIsSilent(c, init);
      if x.call.Stage? {
        RedoIsSilent(c, Serial(c, EMPTY, init).value, x);
      }
      SilentSnoc(init, x);
      assert log == init + [x];
    }
  }

  lemma {:induction false} AnswersInLockOrder(log: seq<Entry>)
    requires StagesSilent(log)
    ensures AcksOf(log) == AcksOf(LockOrder(log)) && Recoveries(log) == Recoveries(LockOrder(log))
  {
    if log != [] {
      var init, x := log[..|log| - 1], log[|log| - 1];
      assert log == init + [x];
      AnswersInLockOrder(init);
      if !x.call.Stage? {
        AnswersSnoc(LockOrder(init), x);
      }
    }
  }

  /** The answers read in the order in which they were given are those of the serial run. */
  lemma AnswersOfRun(c: Codec, actions: seq<Action>)
    requires Sound(c)
    ensures var w := Play(c, actions);
            var r := Runs.Play(c, Events(SerialOrder(w)));
            && Alike(Tables(w.system.db), r.store)
            && r.store.keys == w.system.db.keys && r.store.ledger == Rows(w.system.db.ledger)
            && r.acks == AcksOf(w.history.done)
            && r.replayed == Recoveries(w.history.done)
  {
    var w := Play(c, actions);
    var log, done := SerialOrder(w), w.history.done;
    Serializable(c, actions);
    SerialIsRun(c, log);
    SerialIsSilent(c, log);
    ReordersElements(log, done);
    AnswersInLockOrder(log);
    AnswersInLockOrder(done);
  }

  /** Every answer of the transaction that is not a duplicate has its row: the item's own text, under the
    * event id that was answered.
    */
  predicate FreshWritten(c: Codec, x: Entry, ledger: seq<Row>) {
    x.call.Acknowledge? && x.reply.BatchReply? ==>
      && |x.reply.acks| == |x.call.items|
      && forall i :: 0 <= i < |x.reply.acks| && !x.reply.acks[i].duplicate ==>
           AnswerWritten(c, x.call.items[i], x.reply.acks[i], ledger)
  }

  predicate AnswerWritten(c: Codec, item: Item, ack: Ack, ledger: seq<Row>) {
    c.dumps(item.payload).Some? && Runs.HasRow(ledger, ack.eventId, c.dumps(item.payload).value)
  }

  predicate AllFreshWritten(c: Codec, log: seq<Entry>, ledger: seq<Row>) { forall x :: x in log ==> FreshWritten(c, x, ledger) }

  lemma FreshStaysWritten(c: Codec, x: Entry, ledger: seq<Row>, longer: seq<Row>)
    requires FreshWritten(c, x, ledger) && ledger <= longer
    ensures FreshWritten(c, x, longer)
  {
    if x.call.Acknowledge? && x.reply.BatchReply? {
      forall i | 0 <= i < |x.reply.acks| && !x.reply.acks[i].duplicate
        ensures AnswerWritten(c, x.call.items[i], x.reply.acks[i], longer)
      {
        assert AnswerWritten(c, x.call.items[i], x.reply.acks[i], ledger);
        Runs.HasRowExtends(ledger, longer, x.reply.acks[i].eventId, c.dumps(x.call.items[i].payload).value);
      }
    }
  }

  /** A batch of a run writes what it answers. */
  lemma BatchFreshWritten(c: Codec, events: seq<Runs.Event>, items: seq<Item>, i: nat)
    requires Sound(c)
    requires var b := AckAll(c, Runs.Play(c, events).store, items);
             b.Done? && i < |b.acks| && !b.acks[i].duplicate
    ensures var b := AckAll(c, Runs.Play(c, events).store, items);
            |b.acks| == |items| && AnswerWritten(c, items[i], b.acks[i], b.store.ledger)
  {
    var r := Runs.Play(c, events);
    var ev := Runs.Event(Runs.Acknowledge(items), Runs.Answered);
    BatchAnswers(c, r.store, items);
    assert AnswerFits(r.store, AckAll(c, r.store, items).store, items, i, AckAll(c, r.store, items).acks[i]);
    Runs.FreshAnswerIsFirst(c, r, items, i);
    PlaySnoc(c, events, ev);
    Runs.ExactlyOnce(c, events + [ev]);
  }

  lemma {:induction false} SerialFreshWritten(c: Codec, log: seq<Entry>)
    requires Sound(c) && Serial(c, EMPTY, log).Some?
    ensures AllFreshWritten(c, log, Runs.Play(c, Events(log)).store.ledger)
  {
    if log != [] {
      var init, x := log[..|log| - 1], log[|log| - 1];
      var before, after := Runs.Play(c, Events(init)).store.ledger, Runs.Play(c, Events(log)).store.ledger;
      assert log == init + [x];
      SerialFreshWritten(c, init);
      Runs.CommittedStays(c, Events(init), [EventOf(x)]);
      forall y | y in init ensures FreshWritten(c, y, after) {
        FreshStaysWritten(c, y, before, after);
      }
      SerialIsRun(c, init);
      LastFreshWritten(c, init, x);
    }
  }

  lemma LastFreshWritten(c: Codec, init: seq<Entry>, x: Entry)
    requires Sound(c) && Serial(c, EMPTY, init).Some? && Redo(c, Serial(c, EMPTY, init).value, x).Some?
    requires Follows(Serial(c, EMPTY, init).value, Runs.Play(c, Events(init)), init)
    ensures FreshWritten(c, x, Runs.Next(c, Runs.Play(c, Events(init)), EventOf(x)).store.ledger)
  {
    if x.call.Acknowledge? {
      var r, items := Runs.Play(c, Events(init)), x.call.items;
      AlikeAckAll(c, Serial(c, EMPTY, init).value, r.store, items);
      BatchAnswers(c, r.store, items);
      forall i | 0 <= i < |x.reply.acks| && !x.reply.acks[i].duplicate
        ensures AnswerWritten(c, items[i], x.reply.acks[i], AckAll(c, r.store, items).store.ledger)
      {
        BatchFreshWritten(c, Events(init), items, i);
      }
    }
  }

  /** Exactly once per key under any interleaving: all acknowledgements given for a key name the event id the
    * key has in the table, only the first one given can be fresh, that id has exactly one ledger row, and the
    * row holds the text of the item that was answered fresh.
    */
  lemma ConcurrentExactlyOnce(c: Codec, actions: seq<Action>)
    requires Sound(c)
    ensures var w := Play(c, actions);
            && Runs.AcksFit(AcksOf(w.history.done), w.system.db.keys)
            && DistinctRows(Rows(w.system.db.ledger))
            && (forall k :: k in w.system.db.keys ==> w.system.db.keys[k] in LedgerIds(Rows(w.system.db.ledger)))
            && AllFreshWritten(c, w.history.done, Rows(w.system.db.ledger))
  {
    var w := Play(c, actions);
    AnswersOfRun(c, actions);
    Runs.ExactlyOnce(c, Events(SerialOrder(w)));
    EveryStateFits(c, actions);
    assert Consistent(c, Tables(w.system.db));
    Serializable(c, actions);
    SerialFreshWritten(c, SerialOrder(w));
    ReordersElements(SerialOrder(w), w.history.done);
  }

  /** A ledger of JSON text that verifies and ends in the digest of the committed ledger, after any actions, is
    * that ledger row by row; otherwise two texts with one digest, or a preimage of the genesis value, are at
    * hand.
    */
  lemma ConcurrentHeadPins(h: Hash, actions: seq<Action>, rows: seq<Row>)
    requires Verified(h, rows) && Head(rows) == Head(Rows(Play(PythonCodec(h), actions).system.db.ledger))
    ensures var ledger := Rows(Play(PythonCodec(h), actions).system.db.ledger);
            Holds(h, ledger, rows, Compare(ledger, rows))
  {
    PythonIsSound(h);
    AnswersOfRun(PythonCodec(h), actions);
    HeadPinsRun(h, Events(SerialOrder(Play(PythonCodec(h), actions))), rows);
  }

  /** The committed ledger is always one verifying chain, in the order of its numbers, and it accounts for
    * every acknowledgement and every recovered row.
    */
  lemma ConcurrentLedger(c: Codec, actions: seq<Action>)
    requires Sound(c)
    ensures var w := Play(c, actions);
            && Chained(c.hash, Rows(w.system.db.ledger))
            && Increasing(w.system.db.ledger, w.system.nextSeq)
            && |w.system.db.ledger| == |w.system.db.keys| + Recoveries(w.history.done)
  {
    var w := Play(c, actions);
    var db := w.system.db;
    EveryStateFits(c, actions);
    IncreasingPrefix(db.ledger, HolderRows(w.system), w.system.nextSeq);
    AnswersOfRun(c, actions);
    Runs.Conservation(c, Events(SerialOrder(w)));
    RowsLength(db.ledger);
  }

  lemma StepLedgerGrows(c: Codec, s: System, a: Action)
    ensures s.db.ledger <= Act(c, s, a).db.ledger
  {
    if a.Run? && a.t in s.txns && StepOf(c, s, a.t).Moves? {
      StepKeepsLedger(c, s, a.t);
    }
  }

  lemma StepKeepsLedger(c: Codec, s: System, t: Tid)
    requires t in s.txns && StepOf(c, s, t).Moves?
    ensures StepOf(c, s, t).next.db == s.db
  {
  }

  /** Nothing that is committed is ever changed or taken back: the ledger only grows at its end. */
  lemma {:induction false} ConcurrentLedgerGrows(c: Codec, actions: seq<Action>, more: seq<Action>)
    ensures Play(c, actions).system.db.ledger <= Play(c, actions + more).system.db.ledger
  {
    if more == [] {
      assert actions + more == actions;
    } else {
      var init := more[..|more| - 1];
      assert (actions + more)[..|actions + more| - 1] == actions + init;
      ConcurrentLedgerGrows(c, actions, init);
      StepLedgerGrows(c, Play(c, actions + init).system, more[|more| - 1]);
    }
  }
}
