/** The three tables of the vault and what one call does to them, as values.
  *
  * `wal_staging` is kept split by its flag: the rows with committed=0 in id order, and the rows with
  * committed=1 by event id. Every function is a plain left-to-right reading of the source; the class
  * of module SQLiteBackend is proved against them, and so is the machine of module Postgres.
  */
module Vault {
  import opened Wrappers
  import opened Json
  import opened HashChain

  /** The library functions the tables rest on. Module Codecs gives the ones of module Json; the laws here
    * and in the modules built on it hold for any.
    */
  datatype Codec = Codec(hash: Hash, dumps: Value -> Option<string>, loads: string -> Option<Value>)

  /** Decode, then encode again: what recovery writes to the ledger for a staged text. */
  function Rewrite(c: Codec, text: string): Option<string> {
    match c.loads(text)
    case None => None
    case Some(v) => c.dumps(v)
  }

  /** A row of wal_staging with committed=0. */
  datatype Staged = Staged(id: nat, eventId: string, text: string)

  datatype Item = BatchWriteItem(idempotencyKey: string, eventId: string, payload: Payload)

  datatype Ack = AcknowledgedWrite(eventId: string, idempotencyKey: string, acknowledged: bool, duplicate: bool)

  datatype Store = Store(
    keys: map<string, string>,     // idempotency: key to event id, both UNIQUE
    pending: seq<Staged>,          // wal_staging where committed=0, by id
    settled: map<string, string>,  // wal_staging where committed=1: event id to payload
    ledger: seq<Row>)              // ledger, by seq

  const EMPTY := Store(map[], [], map[], [])

  // ------------------------------------------------------------------ reading the tables

  function PendingIds(p: seq<Staged>): set<string> { set r | r in p :: r.eventId }

  function LedgerIds(rows: seq<Row>): set<string> { set r | r in rows :: r.eventId }

  predicate InWal(s: Store, e: string) { e in s.settled || e in PendingIds(s.pending) }

  /** The payload of the staged row of `e`. */
  function TextOf(p: seq<Staged>, e: string): string
    requires e in PendingIds(p)
  {
    if p[0].eventId == e then p[0].text else TextOf(p[1..], e)
  }

  function WithoutId(p: seq<Staged>, e: string): seq<Staged> {
    if p == [] then []
    else if p[0].eventId == e then WithoutId(p[1..], e)
    else [p[0]] + WithoutId(p[1..], e)
  }

  function InsertById(p: seq<Staged>, row: Staged): seq<Staged> {
    if p == [] || row.id < p[0].id then [row] + p else [p[0]] + InsertById(p[1..], row)
  }

  /** ORDER BY id. */
  function ById(p: seq<Staged>): seq<Staged> {
    if p == [] then [] else InsertById(ById(p[..|p| - 1]), p[|p| - 1])
  }

  predicate AllFrom(p: seq<Staged>, n: nat) { forall r :: r in p ==> n <= r.id }

  predicate AllUpTo(p: seq<Staged>, n: nat) { forall r :: r in p ==> r.id <= n }

  /** All ids have been drawn from a counter that stands at `n`. */
  predicate AllBelow(p: seq<Staged>, n: nat) { forall r :: r in p ==> r.id < n }

  predicate Sorted(p: seq<Staged>) { p == [] || (AllFrom(p[1..], p[0].id) && Sorted(p[1..])) }

  // ------------------------------------------------------------------ statements

  /** INSERT INTO idempotency: None when the key or the event id is taken. */
  function InsertKey(s: Store, key: string, e: string): Option<Store> {
    if key in s.keys || e in s.keys.Values then None else Some(s.(keys := s.keys[key := e]))
  }

  /** INSERT OR IGNORE INTO wal_staging with committed=0. */
  function StageRow(s: Store, id: nat, e: string, text: string): Store {
    if InWal(s, e) then s else s.(pending := s.pending + [Staged(id, e, text)])
  }

  /** UPDATE wal_staging SET committed=1 WHERE event_id=e. */
  function Settle(s: Store, e: string): Store {
    if e in PendingIds(s.pending)
    then s.(pending := WithoutId(s.pending, e), settled := s.settled[e := TextOf(s.pending, e)])
    else s
  }

  /** `_append_ledger` for encoded text: None when the event id is in the ledger already. */
  function AppendRow(c: Codec, s: Store, e: string, text: string): Option<Store> {
    if e in LedgerIds(s.ledger) then None
    else Some(s.(ledger := s.ledger + [NextRow(c.hash, Head(s.ledger), e, text)]))
  }

  // ------------------------------------------------------------------ calls

  /** What the staging insert and the update after it leave behind: the first staged text stays. */
  function SettleWith(s: Store, e: string, text: string): Store {
    if e in PendingIds(s.pending) then Settle(s, e)
    else if e in s.settled then s
    else s.(settled := s.settled[e := text])
  }

  datatype Acked = Acked(store: Store, ack: Ack)

  /** One acknowledged write: None when it raises. */
  function AckOne(c: Codec, s: Store, item: Item): Option<Acked> {
    var key, e := item.idempotencyKey, item.eventId;
    if key in s.keys then Some(Acked(s, AcknowledgedWrite(s.keys[key], key, true, true)))
    else if c.dumps(item.payload).None? then None
    else
      var text := c.dumps(item.payload).value;
      match InsertKey(s, key, e)
      case None => None
      case Some(s1) =>
        match AppendRow(c, SettleWith(s1, e, text), e, text)
        case None => None
        case Some(s2) => Some(Acked(s2, AcknowledgedWrite(e, key, true, false)))
  }

  datatype Batch = Failed | Done(store: Store, acks: seq<Ack>)

  /** The item-by-item specification of a batch, on one state. */
  function AckAll(c: Codec, s: Store, items: seq<Item>): Batch {
    if items == [] then Done(s, [])
    else
      match AckAll(c, s, items[..|items| - 1])
      case Failed => Failed
      case Done(t, acks) =>
        match AckOne(c, t, items[|items| - 1])
        case None => Failed
        case Some(r) => Done(r.store, acks + [r.ack])
  }

  datatype Recovery = Stuck | Recovered(store: Store, count: nat)

  /** One turn of the recovery loop, for a row that was selected before the loop. */
  function RecoverRow(c: Codec, s: Store, r: Staged): Recovery {
    if c.loads(r.text).None? then Stuck
    else if r.eventId in LedgerIds(s.ledger) then Recovered(Settle(s, r.eventId), 0)
    else if Rewrite(c, r.text).None? then Stuck
    else
      match AppendRow(c, s, r.eventId, Rewrite(c, r.text).value)
      case None => Stuck
      case Some(t) => Recovered(Settle(t, r.eventId), 1)
  }

  function RecoverRows(c: Codec, s: Store, rows: seq<Staged>): Recovery {
    if rows == [] then Recovered(s, 0)
    else
      match RecoverRows(c, s, rows[..|rows| - 1])
      case Stuck => Stuck
      case Recovered(t, n) =>
        match RecoverRow(c, t, rows[|rows| - 1])
        case Stuck => Stuck
        case Recovered(u, m) => Recovered(u, n + m)
  }

  /** `recover_uncommitted`. */
  function Recover(c: Codec, s: Store): Recovery { RecoverRows(c, s, ById(s.pending)) }

  // ------------------------------------------------------------------ ids

  /** How many ids AUTOINCREMENT gives out for a write: one for a row that is inserted. */
  function AckDraws(c: Codec, s: Store, item: Item): nat {
    if item.idempotencyKey in s.keys || AckOne(c, s, item).None? || InWal(s, item.eventId) then 0 else 1
  }

  function BatchDraws(c: Codec, s: Store, items: seq<Item>): nat {
    if items == [] then 0
    else
      var before := AckAll(c, s, items[..|items| - 1]);
      BatchDraws(c, s, items[..|items| - 1]) +
      if before.Failed? then 0 else AckDraws(c, before.store, items[|items| - 1])
  }

  // ------------------------------------------------------------------ the invariant

  predicate DistinctRows(rows: seq<Row>) {
    forall i, j :: 0 <= i < j < |rows| ==> rows[i].eventId != rows[j].eventId
  }

  predicate DistinctPending(p: seq<Staged>) {
    forall i, j :: 0 <= i < j < |p| ==> p[i].eventId != p[j].eventId
  }

  predicate KeysFit(s: Store) {
    && (forall k :: k in s.keys ==> s.keys[k] in s.settled)
    && (forall k, l :: k in s.keys && l in s.keys && s.keys[k] == s.keys[l] ==> k == l)
  }

  predicate TextsFit(c: Codec, p: seq<Staged>) {
    forall r :: r in p ==> Rewrite(c, r.text).Some?
  }

  /** What every state between calls satisfies. */
  predicate Consistent(c: Codec, s: Store) {
    && Chained(c.hash, s.ledger)
    && DistinctRows(s.ledger)
    && LedgerIds(s.ledger) == s.settled.Keys
    && DistinctPending(s.pending)
    && PendingIds(s.pending) !! s.settled.Keys
    && KeysFit(s)
    && TextsFit(c, s.pending)
    && Sorted(s.pending)
  }

  // ------------------------------------------------------------------ rows of wal_staging

  lemma PendingIdsCons(p: seq<Staged>)
    requires p != []
    ensures PendingIds(p) == {p[0].eventId} + PendingIds(p[1..])
  {
    assert p == [p[0]] + p[1..];
  }

  lemma PendingIdsConcat(p: seq<Staged>, q: seq<Staged>)
    ensures PendingIds(p + q) == PendingIds(p) + PendingIds(q)
  {
  }

  lemma {:induction false} WithoutIdElements(p: seq<Staged>, e: string)
    ensures forall r :: r in WithoutId(p, e) <==> r in p && r.eventId != e
    ensures PendingIds(WithoutId(p, e)) == PendingIds(p) - {e}
  {
    if p != [] {
      WithoutIdElements(p[1..], e);
      assert p == [p[0]] + p[1..];
    }
  }

  lemma DistinctTail(p: seq<Staged>)
    requires DistinctPending(p) && p != []
    ensures DistinctPending(p[1..]) && p[0].eventId !in PendingIds(p[1..])
  {
    assert forall i :: 0 <= i < |p[1..]| ==> p[1..][i] == p[i + 1];
  }

  lemma DistinctCons(r: Staged, p: seq<Staged>)
    requires DistinctPending(p) && r.eventId !in PendingIds(p)
    ensures DistinctPending([r] + p)
  {
    forall i | 0 <= i < |p| ensures p[i].eventId != r.eventId {
      assert p[i].eventId in PendingIds(p);
    }
  }

  lemma {:induction false} WithoutIdDistinct(p: seq<Staged>, e: string)
    requires DistinctPending(p)
    ensures DistinctPending(WithoutId(p, e))
  {
    if p != [] {
      DistinctTail(p);
      WithoutIdDistinct(p[1..], e);
      WithoutIdElements(p[1..], e);
      DistinctCons(p[0], WithoutId(p[1..], e));
    }
  }

  lemma {:induction false} WithoutAbsent(p: seq<Staged>, e: string)
    requires e !in PendingIds(p)
    ensures WithoutId(p, e) == p
  {
    if p != [] {
      PendingIdsCons(p);
      WithoutAbsent(p[1..], e);
    }
  }

  lemma {:induction false} WithoutIdConcat(p: seq<Staged>, q: seq<Staged>, e: string)
    ensures WithoutId(p + q, e) == WithoutId(p, e) + WithoutId(q, e)
  {
    if p == [] {
      assert p + q == q;
    } else {
      assert (p + q)[1..] == p[1..] + q;
      WithoutIdConcat(p[1..], q, e);
    }
  }

  lemma {:induction false} TextOfConcat(p: seq<Staged>, q: seq<Staged>, e: string)
    requires e in PendingIds(p + q)
    ensures e in PendingIds(p) ==> TextOf(p + q, e) == TextOf(p, e)
    ensures e !in PendingIds(p) ==> e in PendingIds(q) && TextOf(p + q, e) == TextOf(q, e)
  {
    PendingIdsConcat(p, q);
    if p == [] {
      assert p + q == q;
    } else {
      PendingIdsCons(p);
      assert (p + q)[1..] == p[1..] + q;
      PendingIdsConcat(p[1..], q);
      if p[0].eventId != e {
        TextOfConcat(p[1..], q, e);
      }
    }
  }

  lemma {:induction false} TextOfRow(p: seq<Staged>, r: Staged)
    requires DistinctPending(p) && r in p
    ensures r.eventId in PendingIds(p) && TextOf(p, r.eventId) == r.text
  {
    if p[0] != r {
      assert p == [p[0]] + p[1..];
      var i :| 0 <= i < |p[1..]| && p[1..][i] == r;
      assert p[i + 1] == r && p[0].eventId != r.eventId;
      assert forall i :: 0 < i < |p| ==> p[i] == p[1..][i - 1];
      TextOfRow(p[1..], r);
    }
  }

  // ------------------------------------------------------------------ rows by id

  lemma {:induction false} InsertByIdElements(p: seq<Staged>, row: Staged)
    ensures forall r :: r in InsertById(p, row) <==> r in p || r == row
    ensures PendingIds(InsertById(p, row)) == PendingIds(p) + {row.eventId}
  {
    if p == [] || row.id < p[0].id {
    } else {
      InsertByIdElements(p[1..], row);
      assert p == [p[0]] + p[1..];
    }
  }

  lemma {:induction false} InsertByIdSorted(p: seq<Staged>, row: Staged)
    requires Sorted(p)
    ensures Sorted(InsertById(p, row))
  {
    if p == [] {
      assert InsertById(p, row)[1..] == [];
    } else if row.id < p[0].id {
      assert InsertById(p, row)[1..] == p && p == [p[0]] + p[1..];
    } else {
      InsertByIdSorted(p[1..], row);
      InsertByIdElements(p[1..], row);
      assert InsertById(p, row)[1..] == InsertById(p[1..], row);
    }
  }

  /** A row with the greatest id goes to the end. */
  lemma {:induction false} InsertByIdLast(p: seq<Staged>, row: Staged)
    requires AllUpTo(p, row.id)
    ensures InsertById(p, row) == p + [row]
  {
    if p != [] {
      assert p == [p[0]] + p[1..];
      InsertByIdLast(p[1..], row);
    }
  }

  lemma {:induction false} SortedSnoc(p: seq<Staged>, row: Staged)
    requires Sorted(p) && AllUpTo(p, row.id)
    ensures Sorted(p + [row])
  {
    InsertByIdLast(p, row);
    InsertByIdSorted(p, row);
  }

  /** Sorting leaves rows alone that are in order already. */
  lemma {:induction false} SortedIsById(p: seq<Staged>)
    requires Sorted(p)
    ensures ById(p) == p
  {
    if p != [] {
      var init, last := p[..|p| - 1], p[|p| - 1];
      SortedInit(p);
      SortedIsById(init);
      InsertByIdLast(init, last);
    }
  }

  /** The rows before the last one are in order too, and their ids are no greater. */
  lemma {:induction false} SortedInit(p: seq<Staged>)
    requires Sorted(p) && p != []
    ensures Sorted(p[..|p| - 1]) && AllUpTo(p[..|p| - 1], p[|p| - 1].id)
  {
    if |p| > 1 {
      SortedInit(p[1..]);
      assert p[1..][..|p| - 2] == p[..|p| - 1][1..];
      assert p[..|p| - 1] == [p[0]] + p[..|p| - 1][1..];
      assert p[|p| - 1] in p[1..];
    }
  }

  /** Index by index: ids never go down. */
  lemma {:induction false} SortedPairs(p: seq<Staged>, i: nat, j: nat)
    requires Sorted(p) && i <= j < |p|
    ensures p[i].id <= p[j].id
  {
    if i > 0 {
      SortedPairs(p[1..], i - 1, j - 1);
    } else if j > 0 {
      assert p[j] == p[1..][j - 1];
    }
  }

  lemma {:induction false} WithoutIdSorted(p: seq<Staged>, e: string)
    requires Sorted(p)
    ensures Sorted(WithoutId(p, e))
  {
    if p != [] {
      WithoutIdSorted(p[1..], e);
      WithoutIdElements(p[1..], e);
      if p[0].eventId != e {
        assert WithoutId(p, e)[1..] == WithoutId(p[1..], e);
      }
    }
  }

  /** The two statements of a write and the one step of the specification agree. */
  lemma StageThenSettle(s: Store, id: nat, e: string, text: string)
    ensures Settle(StageRow(s, id, e, text), e) == SettleWith(s, e, text)
  {
    if !InWal(s, e) {
      var row := Staged(id, e, text);
      assert row in s.pending + [row];
      TextOfConcat(s.pending, [row], e);
      WithoutIdConcat(s.pending, [row], e);
      WithoutAbsent(s.pending, e);
      assert [row][1..] == [];
    }
  }

  // ------------------------------------------------------------------ every call keeps the invariant

  lemma SettleKeeps(c: Codec, s: Store, e: string)
    requires DistinctPending(s.pending) && PendingIds(s.pending) !! s.settled.Keys && TextsFit(c, s.pending)
    requires Sorted(s.pending)
    ensures var t := Settle(s, e);
            && DistinctPending(t.pending) && PendingIds(t.pending) !! t.settled.Keys && TextsFit(c, t.pending)
            && Sorted(t.pending)
            && (e in PendingIds(s.pending) ==> t.settled.Keys == s.settled.Keys + {e})
            && t.keys == s.keys && t.ledger == s.ledger
  {
    WithoutIdElements(s.pending, e);
    WithoutIdDistinct(s.pending, e);
    WithoutIdSorted(s.pending, e);
  }

  lemma AppendKeeps(c: Codec, s: Store, e: string, text: string)
    requires Chained(c.hash, s.ledger) && DistinctRows(s.ledger)
    requires AppendRow(c, s, e, text).Some?
    ensures var t := AppendRow(c, s, e, text).value;
            && Chained(c.hash, t.ledger) && DistinctRows(t.ledger)
            && LedgerIds(t.ledger) == LedgerIds(s.ledger) + {e}
  {
    var row := NextRow(c.hash, Head(s.ledger), e, text);
    AppendChained(c.hash, s.ledger, row);
    assert (s.ledger + [row])[..|s.ledger|] == s.ledger;
    forall i | 0 <= i < |s.ledger| ensures s.ledger[i].eventId != e {
      assert s.ledger[i].eventId in LedgerIds(s.ledger);
    }
    assert row in s.ledger + [row];
  }

  lemma StageKeeps(c: Codec, s: Store, id: nat, e: string, text: string)
    requires Consistent(c, s) && Rewrite(c, text).Some? && AllUpTo(s.pending, id)
    ensures Consistent(c, StageRow(s, id, e, text))
  {
    if !InWal(s, e) {
      var row := Staged(id, e, text);
      PendingIdsConcat(s.pending, [row]);
      SortedSnoc(s.pending, row);
      forall i | 0 <= i < |s.pending| ensures s.pending[i].eventId != e {
        assert s.pending[i].eventId in PendingIds(s.pending);
      }
    }
  }

  lemma SettleWithKeeps(c: Codec, s: Store, e: string, text: string)
    requires DistinctPending(s.pending) && PendingIds(s.pending) !! s.settled.Keys && TextsFit(c, s.pending)
    requires Sorted(s.pending)
    ensures var t := SettleWith(s, e, text);
            && DistinctPending(t.pending) && PendingIds(t.pending) !! t.settled.Keys && TextsFit(c, t.pending)
            && Sorted(t.pending)
            && t.settled.Keys == s.settled.Keys + {e}
            && t.keys == s.keys && t.ledger == s.ledger
  {
    SettleKeeps(c, s, e);
  }

  lemma InsertKeyKeeps(s: Store, key: string, e: string, t: Store)
    requires KeysFit(s) && key !in s.keys && e !in s.keys.Values
    requires t.keys == s.keys[key := e] && t.settled.Keys == s.settled.Keys + {e}
    ensures KeysFit(t)
  {
  }

  /** The parts of a write that is not a duplicate. */
  lemma FreshAck(c: Codec, s: Store, item: Item)
    requires item.idempotencyKey !in s.keys && AckOne(c, s, item).Some?
    ensures var key, e, t := item.idempotencyKey, item.eventId, AckOne(c, s, item).value.store;
            && c.dumps(item.payload).Some? && e !in s.keys.Values && e !in LedgerIds(s.ledger)
            && var text := c.dumps(item.payload).value;
            && t.keys == s.keys[key := e]
            && t.pending == SettleWith(s, e, text).pending
            && t.settled == SettleWith(s, e, text).settled
            && t.ledger == s.ledger + [NextRow(c.hash, Head(s.ledger), e, text)]
            && AckOne(c, s, item).value.ack == AcknowledgedWrite(e, key, true, false)
  {
  }

  lemma AckOneKeeps(c: Codec, s: Store, item: Item)
    requires Consistent(c, s) && AckOne(c, s, item).Some?
    ensures Consistent(c, AckOne(c, s, item).value.store)
  {
    var key, e, t := item.idempotencyKey, item.eventId, AckOne(c, s, item).value.store;
    if key !in s.keys {
      FreshAck(c, s, item);
      var text := c.dumps(item.payload).value;
      SettleWithKeeps(c, s, e, text);
      AppendKeeps(c, s, e, text);
      InsertKeyKeeps(s, key, e, t);
    }
  }

  lemma {:induction false} AckAllKeeps(c: Codec, s: Store, items: seq<Item>)
    requires Consistent(c, s) && AckAll(c, s, items).Done?
    ensures Consistent(c, AckAll(c, s, items).store)
    ensures |AckAll(c, s, items).acks| == |items|
  {
    if items != [] {
      var init := items[..|items| - 1];
      AckAllKeeps(c, s, init);
      AckOneKeeps(c, AckAll(c, s, init).store, items[|items| - 1]);
    }
  }
}
