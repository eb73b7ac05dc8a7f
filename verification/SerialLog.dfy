/** A log of finished transactions, run again one after the other on the tables of module Vault.
  *
  * Entries carry stamps: a staging that inserted row `id` has 2 * id, any other entry an odd number that
  * lies between the ids drawn before and after its commit.
  */
module SerialLog {
  import opened Wrappers
  import opened Json
  import opened Vault
  import opened VaultLaws
  import opened Postgres

  /** A request with the id that its staged row has drawn. */
  datatype Call =
    | Stage(id: nat, eventId: string, payload: Payload)
    | Acknowledge(items: seq<Item>)
    | RecoverUncommitted

  /** The tables a call commits: None when it raises and rolls back. */
  function Commit(c: Codec, s: Store, call: Call): Option<Store> {
    match call
    case Stage(id, e, payload) =>
      if c.dumps(payload).None? then None else Some(StageRow(s, id, e, c.dumps(payload).value))
    case Acknowledge(items) =>
      var b := AckAll(c, s, items);
      if b.Failed? then None else Some(b.store)
    case RecoverUncommitted =>
      var r := Recover(c, s);
      if r.Stuck? then None else Some(r.store)
  }

  /** A finished transaction: what it was asked, what it answered, and when it began and ended. */
  datatype Entry = Entry(call: Call, reply: Reply, stamp: int, began: nat, ended: nat)

  /** What the call answers when it runs alone. */
  function Answer(c: Codec, s: Store, call: Call): Reply {
    match call
    case Stage(_, _, _) => StageReply
    case Acknowledge(items) =>
      var b := AckAll(c, s, items);
      if b.Failed? then StageReply else BatchReply(b.acks)
    case RecoverUncommitted =>
      var r := Recover(c, s);
      if r.Stuck? then StageReply else RecoverReply(r.count)
  }

  /** One entry run again: None when it raises, when it answers differently, or when it would leave the
    * pending rows out of the order of their ids.
    */
  function Redo(c: Codec, s: Store, x: Entry): Option<Store> {
    var t := Commit(c, s, x.call);
    if t.None? || Answer(c, s, x.call) != x.reply || !Sorted(t.value.pending) then None else t
  }

  /** The whole log run again. */
  function Serial(c: Codec, s: Store, log: seq<Entry>): Option<Store> {
    if log == [] then Some(s)
    else
      match Serial(c, s, log[..|log| - 1])
      case None => None
      case Some(t) => Redo(c, t, log[|log| - 1])
  }

  lemma SerialSnoc(c: Codec, s: Store, log: seq<Entry>, x: Entry)
    ensures Serial(c, s, log + [x]) ==
            match Serial(c, s, log) { case None => None case Some(t) => Redo(c, t, x) }
  {
    assert (log + [x])[..|log|] == log;
  }

  lemma {:induction false} SerialConcat(c: Codec, s: Store, log: seq<Entry>, more: seq<Entry>)
    requires Serial(c, s, log).Some?
    ensures Serial(c, s, log + more) == Serial(c, Serial(c, s, log).value, more)
  {
    if more == [] {
      assert log + more == log;
    } else {
      assert (log + more)[..|log + more| - 1] == log + more[..|more| - 1];
      SerialConcat(c, s, log, more[..|more| - 1]);
    }
  }

  // ------------------------------------------------------------------ rows by id

  lemma InsertByIdFirst(p: seq<Staged>, row: Staged)
    requires p == [] || row.id < p[0].id
    ensures InsertById(p, row) == [row] + p
  {
  }

  lemma {:induction false} InsertByIdSnoc(p: seq<Staged>, row: Staged, last: Staged)
    requires row.id < last.id
    ensures InsertById(p + [last], row) == InsertById(p, row) + [last]
  {
    if p == [] || row.id < p[0].id {
      assert (p + [last])[0] == if p == [] then last else p[0];
      assert [row] + (p + [last]) == [row] + p + [last];
    } else {
      assert (p + [last])[1..] == p[1..] + [last];
      InsertByIdSnoc(p[1..], row, last);
    }
  }

  lemma {:induction false} InsertByIdText(p: seq<Staged>, row: Staged, e: string)
    requires e in PendingIds(p) && e != row.eventId
    ensures e in PendingIds(InsertById(p, row)) && TextOf(InsertById(p, row), e) == TextOf(p, e)
  {
    InsertByIdElements(p, row);
    PendingIdsCons(p);
    if row.id < p[0].id {
      assert ([row] + p)[1..] == p;
    } else if p[0].eventId != e {
      InsertByIdText(p[1..], row, e);
      assert InsertById(p, row)[1..] == InsertById(p[1..], row);
    }
  }

  lemma {:induction false} InsertByIdDistinct(p: seq<Staged>, row: Staged)
    requires DistinctPending(p) && row.eventId !in PendingIds(p)
    ensures DistinctPending(InsertById(p, row))
  {
    if p == [] || row.id < p[0].id {
      DistinctCons(row, p);
    } else {
      PendingIdsCons(p);
      DistinctTail(p);
      InsertByIdDistinct(p[1..], row);
      InsertByIdElements(p[1..], row);
      DistinctCons(p[0], InsertById(p[1..], row));
    }
  }

  lemma {:induction false} WithoutElements(p: seq<Staged>, es: set<string>)
    ensures forall r :: r in Without(p, es) <==> r in p && r.eventId !in es
    ensures PendingIds(Without(p, es)) == PendingIds(p) - es
  {
    if p != [] {
      WithoutElements(p[1..], es);
      assert p == [p[0]] + p[1..];
    }
  }

  lemma {:induction false} WithoutSorted(p: seq<Staged>, es: set<string>)
    requires Sorted(p)
    ensures Sorted(Without(p, es))
  {
    if p != [] {
      WithoutSorted(p[1..], es);
      WithoutElements(p[1..], es);
      if p[0].eventId !in es {
        assert Without(p, es)[1..] == Without(p[1..], es);
      }
    }
  }

  lemma {:induction false} WithoutOne(p: seq<Staged>, es: set<string>, e: string)
    ensures WithoutId(Without(p, es), e) == Without(p, es + {e})
  {
    if p != [] {
      WithoutOne(p[1..], es, e);
      if p[0].eventId !in es {
        assert Without(p, es)[1..] == Without(p[1..], es);
      }
    }
  }

  lemma {:induction false} WithoutNone(p: seq<Staged>, es: set<string>)
    requires PendingIds(p) !! es
    ensures Without(p, es) == p
  {
    if p != [] {
      PendingIdsCons(p);
      WithoutNone(p[1..], es);
      assert p == [p[0]] + p[1..];
    }
  }

  lemma {:induction false} WithoutText(p: seq<Staged>, es: set<string>, e: string)
    requires e in PendingIds(p) && e !in es
    ensures e in PendingIds(Without(p, es)) && TextOf(Without(p, es), e) == TextOf(p, e)
  {
    WithoutElements(p, es);
    PendingIdsCons(p);
    if p[0].eventId != e {
      WithoutText(p[1..], es, e);
      if p[0].eventId !in es {
        assert Without(p, es)[1..] == Without(p[1..], es);
      }
    }
  }

  /** Rows that stay keep their order when another row comes in. */
  lemma {:induction false} WithoutInsert(p: seq<Staged>, es: set<string>, row: Staged)
    requires Sorted(p) && row.eventId !in es
    ensures Without(InsertById(p, row), es) == InsertById(Without(p, es), row)
  {
    if p == [] {
      assert Without([row], es) == [row] + Without([], es) by { assert [row][1..] == []; }
    } else if row.id < p[0].id {
      assert ([row] + p)[1..] == p;
      WithoutElements(p, es);
      var q := Without(p, es);
      if q != [] {
        assert q[0] in p && p == [p[0]] + p[1..];
      }
      InsertByIdFirst(q, row);
    } else {
      WithoutInsert(p[1..], es, row);
      assert InsertById(p, row)[1..] == InsertById(p[1..], row);
      if p[0].eventId !in es {
        assert Without(p, es)[1..] == Without(p[1..], es);
      }
    }
  }

  /** Rows that go take nothing of another row that comes in. */
  lemma {:induction false} WithoutInserted(p: seq<Staged>, es: set<string>, row: Staged)
    requires row.eventId in es
    ensures Without(InsertById(p, row), es) == Without(p, es)
  {
    if p == [] {
      assert [row][1..] == [];
    } else if row.id < p[0].id {
      assert ([row] + p)[1..] == p;
    } else {
      WithoutInserted(p[1..], es, row);
      assert InsertById(p, row)[1..] == InsertById(p[1..], row);
    }
  }

  lemma WithoutIdIsWithout(p: seq<Staged>, e: string)
    ensures WithoutId(p, e) == Without(p, {e})
  {
    WithoutNone(p, {});
    WithoutOne(p, {}, e);
    assert {} + {e} == {e};
  }

  // ------------------------------------------------------------------ a staged row does not disturb a batch

  function WithRow(s: Store, row: Staged): Store { s.(pending := InsertById(s.pending, row)) }

  lemma SettleWithRow(s: Store, row: Staged, e: string, text: string)
    requires Sorted(s.pending) && e != row.eventId
    ensures SettleWith(WithRow(s, row), e, text) == WithRow(SettleWith(s, e, text), row)
  {
    InsertByIdElements(s.pending, row);
    if e in PendingIds(s.pending) {
      InsertByIdText(s.pending, row, e);
      WithoutIdIsWithout(s.pending, e);
      WithoutIdIsWithout(InsertById(s.pending, row), e);
      WithoutInsert(s.pending, {e}, row);
    }
  }

  lemma AckOneWithRow(c: Codec, s: Store, row: Staged, item: Item)
    requires Sorted(s.pending) && AckOne(c, s, item).Some?
    requires row.eventId !in AckOne(c, s, item).value.store.settled
    ensures var a := AckOne(c, s, item).value;
            AckOne(c, WithRow(s, row), item) == Some(Acked(WithRow(a.store, row), a.ack))
  {
    if item.idempotencyKey !in s.keys {
      FreshAck(c, s, item);
      SettleWithIds(s, item.eventId, c.dumps(item.payload).value);
      SettleWithRow(s, row, item.eventId, c.dumps(item.payload).value);
    }
  }

  lemma {:induction false} AckAllWithRow(c: Codec, s: Store, row: Staged, items: seq<Item>)
    requires Sorted(s.pending) && AckAll(c, s, items).Done?
    requires row.eventId !in AckAll(c, s, items).store.settled
    ensures var b := AckAll(c, s, items); AckAll(c, WithRow(s, row), items) == Done(WithRow(b.store, row), b.acks)
  {
    if items != [] {
      var init, last := items[..|items| - 1], items[|items| - 1];
      var t := AckAll(c, s, init).store;
      AckAllShrinks(c, s, init);
      AckOneShrinks(c, t, last);
      AckAllWithRow(c, s, row, init);
      AckOneWithRow(c, t, row, last);
    }
  }

  // ------------------------------------------------------------------ stagings in stamp order

  /** The entries since the last recovery: stamps in order, and every staging that inserted its row
    * stamped with the row's id.
    */
  predicate Shape(c: Codec, s: Store, log: seq<Entry>) {
    log == [] ||
    (var init, x := log[..|log| - 1], log[|log| - 1];
     && Shape(c, s, init)
     && (init != [] ==> init[|init| - 1].stamp <= x.stamp)
     && !x.call.RecoverUncommitted?
     && Serial(c, s, log).Some?
     && Serial(c, s, init).Some?
     && (x.call.Stage? && !InWal(Serial(c, s, init).value, x.call.eventId) ==> x.stamp == 2 * x.call.id))
  }

  function InsertStamp(log: seq<Entry>, x: Entry): seq<Entry> {
    if log == [] || log[|log| - 1].stamp <= x.stamp then log + [x]
    else InsertStamp(log[..|log| - 1], x) + [log[|log| - 1]]
  }

  /** Ids of pending rows stay below the last stamp. */
  predicate Bounded(p: seq<Staged>, log: seq<Entry>) {
    Sorted(p) && forall r :: r in p ==> log != [] && 2 * r.id <= log[|log| - 1].stamp
  }

  lemma RedoBounded(c: Codec, s: Store, x: Entry, n: int)
    requires Sorted(s.pending) && (forall r :: r in s.pending ==> 2 * r.id <= n) && n <= x.stamp
    requires Redo(c, s, x).Some? && !x.call.RecoverUncommitted?
    requires x.call.Stage? && !InWal(s, x.call.eventId) ==> x.stamp == 2 * x.call.id
    ensures var t := Redo(c, s, x).value;
            Sorted(t.pending) && forall r :: r in t.pending ==> 2 * r.id <= x.stamp
  {
    match x.call
    case Stage(id, e, payload) =>
      if !InWal(s, e) {
        SortedSnoc(s.pending, Staged(id, e, c.dumps(payload).value));
      }
    case Acknowledge(items) => AckAllShrinks(c, s, items);
  }

  lemma {:induction false} ShapeBounded(c: Codec, s: Store, log: seq<Entry>)
    requires Shape(c, s, log) && s.pending == []
    ensures Serial(c, s, log).Some? && Bounded(Serial(c, s, log).value.pending, log)
  {
    if log != [] {
      var init, x := log[..|log| - 1], log[|log| - 1];
      ShapeBounded(c, s, init);
      var n := if init == [] then x.stamp else init[|init| - 1].stamp;
      RedoBounded(c, Serial(c, s, init).value, x, n);
    }
  }

  /** Ids known to wal_staging stay known. */
  lemma RedoGrows(c: Codec, s: Store, x: Entry)
    requires Redo(c, s, x).Some? && !x.call.RecoverUncommitted?
    ensures var t := Redo(c, s, x).value;
            PendingIds(s.pending) + s.settled.Keys <= PendingIds(t.pending) + t.settled.Keys
  {
    match x.call
    case Stage(id, e, payload) =>
      if !InWal(s, e) {
        PendingIdsConcat(s.pending, [Staged(id, e, c.dumps(payload).value)]);
      }
    case Acknowledge(items) => AckAllShrinks(c, s, items);
  }

  lemma StageWithRow(s: Store, row: Staged, id: nat, e: string, text: string)
    requires Sorted(s.pending) && Sorted(StageRow(s, id, e, text).pending)
    requires !InWal(StageRow(s, id, e, text), row.eventId)
    requires !InWal(s, e) ==> row.id < id
    ensures StageRow(WithRow(s, row), id, e, text) == WithRow(StageRow(s, id, e, text), row)
    ensures Sorted(WithRow(StageRow(s, id, e, text), row).pending)
  {
    InsertByIdElements(s.pending, row);
    InsertByIdSorted(StageRow(s, id, e, text).pending, row);
    if !InWal(s, e) {
      var last := Staged(id, e, text);
      PendingIdsConcat(s.pending, [last]);
      assert last in [last];
      InsertByIdSnoc(s.pending, row, last);
    }
  }

  lemma BatchWithRow(c: Codec, s: Store, row: Staged, items: seq<Item>)
    requires Sorted(s.pending) && AckAll(c, s, items).Done?
    requires row.eventId !in AckAll(c, s, items).store.settled
    ensures var b := AckAll(c, s, items);
            && AckAll(c, WithRow(s, row), items) == Done(WithRow(b.store, row), b.acks)
            && Sorted(WithRow(b.store, row).pending)
  {
    AckAllWithRow(c, s, row, items);
    AckAllShrinks(c, s, items);
    InsertByIdSorted(AckAll(c, s, items).store.pending, row);
  }

  /** An entry that comes after the row's id was drawn does not notice the row. */
  lemma RedoWithRow(c: Codec, s: Store, row: Staged, x: Entry)
    requires Redo(c, s, x).Some? && !x.call.RecoverUncommitted? && Sorted(s.pending)
    requires !InWal(Redo(c, s, x).value, row.eventId)
    requires x.call.Stage? && !InWal(s, x.call.eventId) ==> 2 * row.id < 2 * x.call.id
    ensures Redo(c, WithRow(s, row), x) == Some(WithRow(Redo(c, s, x).value, row))
  {
    match x.call
    case Stage(id, e, payload) => StageWithRow(s, row, id, e, c.dumps(payload).value);
    case Acknowledge(items) => BatchWithRow(c, s, row, items);
  }

  /** The last entry of a log, taken apart. */
  lemma ShapeLast(c: Codec, s: Store, log: seq<Entry>)
    requires Shape(c, s, log) && log != []
    ensures var init, x := log[..|log| - 1], log[|log| - 1];
            && Shape(c, s, init) && Serial(c, s, init).Some? && !x.call.RecoverUncommitted?
            && Redo(c, Serial(c, s, init).value, x) == Serial(c, s, log)
            && (init != [] ==> init[|init| - 1].stamp <= x.stamp)
            && (x.call.Stage? && !InWal(Serial(c, s, init).value, x.call.eventId) ==> x.stamp == 2 * x.call.id)
  {
  }

  lemma ShapeSnoc(c: Codec, s: Store, log: seq<Entry>, x: Entry)
    requires Shape(c, s, log) && !x.call.RecoverUncommitted?
    requires log != [] ==> log[|log| - 1].stamp <= x.stamp
    requires Serial(c, s, log).Some? && Redo(c, Serial(c, s, log).value, x).Some?
    requires x.call.Stage? && !InWal(Serial(c, s, log).value, x.call.eventId) ==> x.stamp == 2 * x.call.id
    ensures Shape(c, s, log + [x]) && Serial(c, s, log + [x]) == Redo(c, Serial(c, s, log).value, x)
  {
    var all := log + [x];
    SerialSnoc(c, s, log, x);
    assert all[..|all| - 1] == log && all[|all| - 1] == x;
  }

  /** `x` stages a row with its own id as its stamp. */
  predicate StagesRow(c: Codec, x: Entry, row: Staged) {
    && x.call.Stage? && x.reply == StageReply && x.stamp == 2 * row.id
    && x.call.id == row.id && x.call.eventId == row.eventId && c.dumps(x.call.payload) == Some(row.text)
  }

  lemma RedoStages(c: Codec, s: Store, x: Entry, row: Staged)
    requires StagesRow(c, x, row) && !InWal(s, row.eventId) && AllUpTo(s.pending, row.id) && Sorted(s.pending)
    ensures Redo(c, s, x) == Some(WithRow(s, row))
  {
    InsertByIdSorted(s.pending, row);
    InsertByIdLast(s.pending, row);
  }

  /** The last entry runs again behind a log into which the staging has been put. */
  lemma InsertBefore(c: Codec, s: Store, moved: seq<Entry>, last: Entry, row: Staged, t: Store)
    requires Shape(c, s, moved) && Serial(c, s, moved) == Some(WithRow(t, row))
    requires moved != [] && moved[|moved| - 1].stamp <= last.stamp && 2 * row.id < last.stamp
    requires !last.call.RecoverUncommitted? && Sorted(t.pending)
    requires Redo(c, t, last).Some? && !InWal(Redo(c, t, last).value, row.eventId)
    requires last.call.Stage? && !InWal(t, last.call.eventId) ==> last.stamp == 2 * last.call.id
    ensures Shape(c, s, moved + [last])
    ensures Serial(c, s, moved + [last]) == Some(WithRow(Redo(c, t, last).value, row))
  {
    RedoWithRow(c, t, row, last);
    InsertByIdElements(t.pending, row);
    ShapeSnoc(c, s, moved, last);
  }

  /** The tables before the last entry of a log that no row of the event has got into. */
  lemma BeforeLast(c: Codec, s: Store, log: seq<Entry>, row: Staged)
    requires Shape(c, s, log) && s.pending == [] && log != []
    requires Serial(c, s, log).Some? && !InWal(Serial(c, s, log).value, row.eventId)
    ensures var init, last := log[..|log| - 1], log[|log| - 1];
            && Shape(c, s, init) && Serial(c, s, init).Some? && !last.call.RecoverUncommitted?
            && (init != [] ==> init[|init| - 1].stamp <= last.stamp)
            && var t := Serial(c, s, init).value;
            && Redo(c, t, last) == Serial(c, s, log)
            && Sorted(t.pending) && !InWal(t, row.eventId)
            && (last.call.Stage? && !InWal(t, last.call.eventId) ==> last.stamp == 2 * last.call.id)
  {
    var init, last := log[..|log| - 1], log[|log| - 1];
    ShapeLast(c, s, log);
    ShapeBounded(c, s, init);
    RedoGrows(c, Serial(c, s, init).value, last);
  }

  lemma InsertBehind(c: Codec, s: Store, log: seq<Entry>, x: Entry, row: Staged)
    requires Shape(c, s, log) && s.pending == [] && Serial(c, s, log).Some?
    requires StagesRow(c, x, row) && !InWal(Serial(c, s, log).value, row.eventId)
    requires log == [] || log[|log| - 1].stamp <= x.stamp
    ensures Shape(c, s, log + [x])
    ensures Serial(c, s, log + [x]) == Some(WithRow(Serial(c, s, log).value, row))
  {
    ShapeBounded(c, s, log);
    RedoStages(c, Serial(c, s, log).value, x, row);
    ShapeSnoc(c, s, log, x);
  }

  lemma InsertInFront(c: Codec, s: Store, log: seq<Entry>, x: Entry, row: Staged, t: Store)
    requires Shape(c, s, log) && s.pending == [] && log != [] && x.stamp < log[|log| - 1].stamp
    requires Serial(c, s, log).Some? && x.stamp == 2 * row.id && !InWal(Serial(c, s, log).value, row.eventId)
    requires Serial(c, s, log[..|log| - 1]) == Some(t)
    requires Shape(c, s, InsertStamp(log[..|log| - 1], x))
    requires Serial(c, s, InsertStamp(log[..|log| - 1], x)) == Some(WithRow(t, row))
    ensures Shape(c, s, InsertStamp(log, x))
    ensures Serial(c, s, InsertStamp(log, x)) == Some(WithRow(Serial(c, s, log).value, row))
  {
    var init, last := log[..|log| - 1], log[|log| - 1];
    BeforeLast(c, s, log, row);
    InsertStampLast(init, x);
    InsertBefore(c, s, InsertStamp(init, x), last, row, t);
  }

  /** A staging whose event no entry touched can be put where its id was drawn: every entry still answers
    * the same, and the tables have one more pending row.
    */
  lemma {:induction false} InsertEntry(c: Codec, s: Store, log: seq<Entry>, x: Entry, row: Staged)
    requires Shape(c, s, log) && s.pending == [] && Serial(c, s, log).Some?
    requires StagesRow(c, x, row) && !InWal(Serial(c, s, log).value, row.eventId)
    ensures Shape(c, s, InsertStamp(log, x))
    ensures Serial(c, s, InsertStamp(log, x)) == Some(WithRow(Serial(c, s, log).value, row))
  {
    if log == [] || log[|log| - 1].stamp <= x.stamp {
      InsertBehind(c, s, log, x, row);
    } else {
      var init := log[..|log| - 1];
      BeforeLast(c, s, log, row);
      InsertEntry(c, s, init, x, row);
      InsertInFront(c, s, log, x, row, Serial(c, s, init).value);
    }
  }

  lemma InsertStampLast(log: seq<Entry>, x: Entry)
    ensures InsertStamp(log, x) != []
    ensures var y := InsertStamp(log, x)[|InsertStamp(log, x)| - 1]; y == x || (log != [] && y == log[|log| - 1])
  {
  }

  // ------------------------------------------------------------------ a batch does not depend on wal_staging

  /** The tables with wal_staging left out. */
  function Bare(s: Store): Store { Store(s.keys, [], map[], s.ledger) }

  function Absorbed(s: Store, m: map<string, string>): map<string, string> {
    map e | e in s.settled.Keys + m.Keys ::
      if e in s.settled then s.settled[e] else if e in PendingIds(s.pending) then TextOf(s.pending, e) else m[e]
  }

  /** `s` after a batch that came to `t` on the bare tables. */
  function Absorb(s: Store, t: Store): Store {
    Store(t.keys, Without(s.pending, t.settled.Keys), Absorbed(s, t.settled), t.ledger)
  }

  lemma AbsorbedGrows(s: Store, m: map<string, string>, n: map<string, string>, e: string, text: string)
    requires e !in s.settled && n == m[e := text]
    ensures Absorbed(s, n) ==
            Absorbed(s, m)[e := if e in PendingIds(s.pending) then TextOf(s.pending, e) else text]
  {
  }

  lemma SettleWithAbsorb(s: Store, t: Store, e: string, text: string)
    requires t.pending == [] && PendingIds(s.pending) !! s.settled.Keys
    ensures SettleWith(Absorb(s, t), e, text) == Absorb(s, SettleWith(t, e, text))
  {
    var es := t.settled.Keys;
    WithoutElements(s.pending, es);
    WithoutOne(s.pending, es, e);
    if e in es {
    } else if e in s.settled {
      WithoutAbsent(Without(s.pending, es), e);
      assert t.settled[e := text].Keys == es + {e};
      assert Absorbed(s, t.settled[e := text]) == Absorbed(s, t.settled);
    } else {
      assert t.settled[e := text].Keys == es + {e};
      AbsorbedGrows(s, t.settled, t.settled[e := text], e, text);
      if e in PendingIds(s.pending) {
        WithoutText(s.pending, es, e);
      } else {
        WithoutAbsent(Without(s.pending, es), e);
      }
    }
  }

  lemma AckOneAbsorb(c: Codec, s: Store, t: Store, item: Item)
    requires t.pending == [] && PendingIds(s.pending) !! s.settled.Keys
    ensures AckOne(c, Absorb(s, t), item) ==
            match AckOne(c, t, item) { case None => None case Some(a) => Some(Acked(Absorb(s, a.store), a.ack)) }
    ensures AckOne(c, t, item).Some? ==> AckOne(c, t, item).value.store.pending == []
  {
    if item.idempotencyKey !in t.keys && c.dumps(item.payload).Some? {
      SettleWithAbsorb(s, t, item.eventId, c.dumps(item.payload).value);
    }
  }

  /** A batch decides and answers from idempotency and the ledger alone, and settles what it wrote. */
  lemma {:induction false} AckAllAbsorb(c: Codec, s: Store, items: seq<Item>)
    requires PendingIds(s.pending) !! s.settled.Keys
    ensures AckAll(c, s, items) ==
            match AckAll(c, Bare(s), items) { case Failed => Failed case Done(t, acks) => Done(Absorb(s, t), acks) }
    ensures AckAll(c, Bare(s), items).Done? ==> AckAll(c, Bare(s), items).store.pending == []
  {
    if items == [] {
      WithoutNone(s.pending, Bare(s).settled.Keys);
      assert Absorbed(s, Bare(s).settled) == s.settled;
    } else {
      var init := items[..|items| - 1];
      AckAllAbsorb(c, s, init);
      if AckAll(c, Bare(s), init).Done? {
        AckOneAbsorb(c, s, AckAll(c, Bare(s), init).store, items[|items| - 1]);
      }
    }
  }
}
