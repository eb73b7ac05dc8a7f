/** What a batch and a recovery do, in closed form: when they succeed, and what changes. */
module VaultLaws {
  import opened Wrappers
  import opened HashChain
  import opened Vault
  import opened Loops

  // ------------------------------------------------------------------ recovery

  /** The `committed` part of wal_staging after marking `rows`. */
  function Marked(m: map<string, string>, rows: seq<Staged>): map<string, string> {
    if rows == [] then m
    else Marked(m, rows[..|rows| - 1])[rows[|rows| - 1].eventId := rows[|rows| - 1].text]
  }

  /** The ledger after appending `rows` with their texts decoded and encoded again. */
  function Replayed(c: Codec, ledger: seq<Row>, rows: seq<Staged>): seq<Row>
    requires TextsFit(c, rows)
  {
    if rows == [] then ledger
    else
      var before := Replayed(c, ledger, rows[..|rows| - 1]);
      var r := rows[|rows| - 1];
      before + [NextRow(c.hash, Head(before), r.eventId, Rewrite(c, r.text).value)]
  }

  /** The ids of the first rows, one row on. */
  lemma IdsNext(rows: seq<Staged>, j: nat)
    requires j < |rows|
    ensures PendingIds(rows[..j + 1]) == PendingIds(rows[..j]) + {rows[j].eventId}
  {
    assert rows[..j + 1] == rows[..j] + [rows[j]];
    PendingIdsConcat(rows[..j], [rows[j]]);
    assert [rows[j]][0] == rows[j];
  }

  lemma ReplayedNext(c: Codec, ledger: seq<Row>, rows: seq<Staged>, j: nat)
    requires TextsFit(c, rows) && j < |rows|
    ensures Rewrite(c, rows[j].text).Some?
    ensures var before := Replayed(c, ledger, rows[..j]);
            Replayed(c, ledger, rows[..j + 1]) ==
            before + [NextRow(c.hash, Head(before), rows[j].eventId, Rewrite(c, rows[j].text).value)]
  {
    assert rows[j] in rows;
    assert rows[..j + 1][..j] == rows[..j] && rows[..j + 1][j] == rows[j];
  }

  /** A pending row of a consistent store is appended and marked, never skipped. */
  lemma RecoverRowAppends(c: Codec, s: Store)
    requires Consistent(c, s) && s.pending != []
    ensures var r := s.pending[0];
            && r in s.pending && Rewrite(c, r.text).Some?
            && RecoverRow(c, s, r) == Recovered(
                 Store(s.keys, s.pending[1..], s.settled[r.eventId := r.text],
                       s.ledger + [NextRow(c.hash, Head(s.ledger), r.eventId, Rewrite(c, r.text).value)]), 1)
            && Consistent(c, RecoverRow(c, s, r).store)
  {
    var r := s.pending[0];
    var e, text := r.eventId, Rewrite(c, r.text).value;
    PendingIdsCons(s.pending);
    DistinctTail(s.pending);
    WithoutAbsent(s.pending[1..], e);
    assert e !in LedgerIds(s.ledger);
    AppendKeeps(c, s, e, text);
    SettleKeeps(c, AppendRow(c, s, e, text).value, e);
  }

  /** One more turn of the loop, from where the rows before have brought it. */
  lemma RecoverNext(c: Codec, s: Store, n: nat, t: Store)
    requires n < |s.pending| && RecoverRows(c, s, s.pending[..n]) == Recovered(t, n)
    requires Consistent(c, t) && t.pending == s.pending[n..]
    ensures var r := s.pending[n];
            && Rewrite(c, r.text).Some?
            && RecoverRow(c, t, r) == Recovered(
                 Store(t.keys, t.pending[1..], t.settled[r.eventId := r.text],
                       t.ledger + [NextRow(c.hash, Head(t.ledger), r.eventId, Rewrite(c, r.text).value)]), 1)
            && RecoverRows(c, s, s.pending[..n + 1]) == Recovered(RecoverRow(c, t, r).store, n + 1)
  {
    RecoverRowsNext(c, s, s.pending, n);
    assert t.pending[0] == s.pending[n];
    RecoverRowAppends(c, t);
  }

  lemma RecoverNextKeeps(c: Codec, s: Store, n: nat, t: Store)
    requires n < |s.pending| && Consistent(c, t) && t.pending == s.pending[n..]
    ensures RecoverRow(c, t, s.pending[n]).Recovered? && Consistent(c, RecoverRow(c, t, s.pending[n]).store)
  {
    assert t.pending[0] == s.pending[n];
    RecoverRowAppends(c, t);
  }

  /** The tables when the first `n` pending rows are recovered. */
  function RecoveredTo(c: Codec, s: Store, n: nat): Store
    requires TextsFit(c, s.pending) && n <= |s.pending|
  {
    Store(s.keys, s.pending[n..], Marked(s.settled, s.pending[..n]), Replayed(c, s.ledger, s.pending[..n]))
  }

  lemma RecoveredToNext(c: Codec, s: Store, n: nat)
    requires TextsFit(c, s.pending) && n < |s.pending|
    ensures var t, r := RecoveredTo(c, s, n), s.pending[n];
            && Rewrite(c, r.text).Some?
            && RecoveredTo(c, s, n + 1) ==
               Store(t.keys, t.pending[1..], t.settled[r.eventId := r.text],
                     t.ledger + [NextRow(c.hash, Head(t.ledger), r.eventId, Rewrite(c, r.text).value)])
  {
    ReplayedNext(c, s.ledger, s.pending, n);
    assert s.pending[..n + 1][..n] == s.pending[..n] && s.pending[..n + 1][n] == s.pending[n];
  }

  lemma RecoverOneMore(c: Codec, s: Store, n: nat)
    requires TextsFit(c, s.pending) && n < |s.pending| && Consistent(c, RecoveredTo(c, s, n))
    requires RecoverRows(c, s, s.pending[..n]) == Recovered(RecoveredTo(c, s, n), n)
    ensures RecoverRows(c, s, s.pending[..n + 1]) == Recovered(RecoveredTo(c, s, n + 1), n + 1)
    ensures Consistent(c, RecoveredTo(c, s, n + 1))
  {
    RecoverNext(c, s, n, RecoveredTo(c, s, n));
    RecoverNextKeeps(c, s, n, RecoveredTo(c, s, n));
    RecoveredToNext(c, s, n);
  }

  lemma {:induction false} RecoverPrefix(c: Codec, s: Store, n: nat)
    requires Consistent(c, s) && n <= |s.pending|
    ensures RecoverRows(c, s, s.pending[..n]) == Recovered(RecoveredTo(c, s, n), n)
    ensures Consistent(c, RecoveredTo(c, s, n))
  {
    if n > 0 {
      RecoverPrefix(c, s, n - 1);
      RecoverOneMore(c, s, n - 1);
    }
  }

  /** Recovery of a consistent store appends exactly the pending rows, in id order, and returns their
    * number; it never raises and never takes its duplicate branch. Nothing is left for a second call.
    */
  lemma RecoverExactly(c: Codec, s: Store)
    requires Consistent(c, s)
    ensures ById(s.pending) == s.pending
    ensures Recover(c, s) == Recovered(
              Store(s.keys, [], Marked(s.settled, s.pending), Replayed(c, s.ledger, s.pending)), |s.pending|)
    ensures Consistent(c, Recover(c, s).store)
    ensures Recover(c, Recover(c, s).store) == Recovered(Recover(c, s).store, 0)
  {
    RecoverPrefix(c, s, |s.pending|);
    assert s.pending[..|s.pending|] == s.pending;
    SortedIsById(s.pending);
    assert ById([]) == [];
  }

  lemma {:induction false} ReplayedExtends(c: Codec, ledger: seq<Row>, rows: seq<Staged>)
    requires TextsFit(c, rows)
    ensures |Replayed(c, ledger, rows)| == |ledger| + |rows|
    ensures Replayed(c, ledger, rows)[..|ledger|] == ledger
  {
    if rows != [] {
      ReplayedExtends(c, ledger, rows[..|rows| - 1]);
    }
  }

  /** Row by row: the recovered suffix names the staged events in order, with their texts decoded and
    * encoded again.
    */
  lemma {:induction false} ReplayedRow(c: Codec, ledger: seq<Row>, rows: seq<Staged>, i: nat)
    requires TextsFit(c, rows) && i < |rows|
    ensures |Replayed(c, ledger, rows)| == |ledger| + |rows|
    ensures var row := Replayed(c, ledger, rows)[|ledger| + i];
            row.eventId == rows[i].eventId && Some(row.payload) == Rewrite(c, rows[i].text)
  {
    var init := rows[..|rows| - 1];
    ReplayedExtends(c, ledger, init);
    if i < |init| {
      ReplayedRow(c, ledger, init, i);
    }
  }

  lemma RecoveredLedger(c: Codec, s: Store)
    requires Consistent(c, s)
    ensures TextsFit(c, s.pending)
    ensures Recover(c, s).Recovered? && Recover(c, s).store.ledger == Replayed(c, s.ledger, s.pending)
  {
    RecoverExactly(c, s);
  }

  lemma {:induction false} ReplayedAt(c: Codec, ledger: seq<Row>, rows: seq<Staged>, i: nat)
    requires TextsFit(c, rows) && i < |rows|
    ensures var l := Replayed(c, ledger, rows);
            && |l| == |ledger| + |rows| && l[..|ledger|] == ledger
            && l[|ledger| + i].eventId == rows[i].eventId && Some(l[|ledger| + i].payload) == Rewrite(c, rows[i].text)
  {
    ReplayedExtends(c, ledger, rows);
    ReplayedRow(c, ledger, rows, i);
  }

  /** Recovery keeps the ledger it found and adds the i-th pending row as the i-th new row. */
  lemma {:induction false} RecoveredRow(c: Codec, s: Store, i: nat)
    requires Consistent(c, s) && i < |s.pending|
    ensures Recover(c, s).Recovered?
    ensures var l := Recover(c, s).store.ledger;
            && |l| == |s.ledger| + |s.pending| && l[..|s.ledger|] == s.ledger
            && l[|s.ledger| + i].eventId == s.pending[i].eventId
            && Some(l[|s.ledger| + i].payload) == Rewrite(c, s.pending[i].text)
  {
    RecoveredLedger(c, s);
    ReplayedAt(c, s.ledger, s.pending, i);
  }

  /** ... and of two recovered rows the one that stands first had the smaller id. */
  lemma RecoveredInIdOrder(c: Codec, s: Store, i: nat, j: nat)
    requires Consistent(c, s) && i <= j < |s.pending|
    ensures var r := Recover(c, s);
            && r.Recovered? && |s.ledger| + j < |r.store.ledger|
            && r.store.ledger[|s.ledger| + i].eventId == s.pending[i].eventId
            && r.store.ledger[|s.ledger| + j].eventId == s.pending[j].eventId
            && s.pending[i].id <= s.pending[j].id
  {
    RecoveredRow(c, s, i);
    RecoveredRow(c, s, j);
    SortedPairs(s.pending, i, j);
  }

  lemma {:induction false} MarkedRows(m: map<string, string>, rows: seq<Staged>)
    ensures Marked(m, rows).Keys == m.Keys + PendingIds(rows)
  {
    if rows != [] {
      MarkedRows(m, rows[..|rows| - 1]);
      assert rows == rows[..|rows| - 1] + [rows[|rows| - 1]];
      PendingIdsConcat(rows[..|rows| - 1], [rows[|rows| - 1]]);
    }
  }

  // ------------------------------------------------------------------ batches

  function ItemKeys(items: seq<Item>): set<string> { set it | it in items :: it.idempotencyKey }

  /** The items a batch writes: new key, and the first in the batch with it. */
  function FreshItems(known: set<string>, items: seq<Item>): seq<Item> {
    if items == [] then []
    else
      var init, last := items[..|items| - 1], items[|items| - 1];
      var before := FreshItems(known, init);
      if last.idempotencyKey in known || last.idempotencyKey in ItemKeys(init) then before else before + [last]
  }

  function KeysAfter(m: map<string, string>, items: seq<Item>): map<string, string> {
    if items == [] then m
    else KeysAfter(m, items[..|items| - 1])[items[|items| - 1].idempotencyKey := items[|items| - 1].eventId]
  }

  predicate AllEncodable(c: Codec, items: seq<Item>) {
    forall it :: it in items ==> c.dumps(it.payload).Some?
  }

  /** The ledger after writing `items`. */
  function Written(c: Codec, ledger: seq<Row>, items: seq<Item>): seq<Row>
    requires AllEncodable(c, items)
  {
    if items == [] then ledger
    else
      var before := Written(c, ledger, items[..|items| - 1]);
      var it := items[|items| - 1];
      before + [NextRow(c.hash, Head(before), it.eventId, c.dumps(it.payload).value)]
  }

  lemma ItemKeysSnoc(items: seq<Item>)
    requires items != []
    ensures ItemKeys(items) == ItemKeys(items[..|items| - 1]) + {items[|items| - 1].idempotencyKey}
  {
    assert items == items[..|items| - 1] + [items[|items| - 1]];
  }

  lemma AckAllStep(c: Codec, s: Store, items: seq<Item>)
    requires items != [] && AckAll(c, s, items).Done?
    ensures var before, last := AckAll(c, s, items[..|items| - 1]), items[|items| - 1];
            && before.Done? && AckOne(c, before.store, last).Some?
            && var r := AckOne(c, before.store, last).value;
            AckAll(c, s, items) == Done(r.store, before.acks + [r.ack])
  {
  }

  /** The fresh items of `items` are written, and nothing else. */
  predicate WritesFresh(c: Codec, s: Store, items: seq<Item>, t: Store) {
    match t
    case Store(keys, _, _, ledger) =>
      var written := FreshItems(s.keys.Keys, items);
      && AllEncodable(c, written)
      && keys == KeysAfter(s.keys, written)
      && keys.Keys == s.keys.Keys + ItemKeys(items)
      && ledger == Written(c, s.ledger, written)
  }

  lemma WriteSnoc(c: Codec, m: map<string, string>, ledger: seq<Row>, items: seq<Item>, it: Item)
    requires AllEncodable(c, items) && c.dumps(it.payload).Some?
    ensures AllEncodable(c, items + [it])
    ensures KeysAfter(m, items + [it]) == KeysAfter(m, items)[it.idempotencyKey := it.eventId]
    ensures Written(c, ledger, items + [it]) ==
            Written(c, ledger, items) +
            [NextRow(c.hash, Head(Written(c, ledger, items)), it.eventId, c.dumps(it.payload).value)]
  {
    assert (items + [it])[..|items|] == items;
  }

  lemma WritesDuplicate(c: Codec, s: Store, items: seq<Item>, t: Store)
    requires items != [] && WritesFresh(c, s, items[..|items| - 1], t)
    requires items[|items| - 1].idempotencyKey in t.keys
    ensures WritesFresh(c, s, items, t)
  {
    ItemKeysSnoc(items);
    FreshItemsSkip(s.keys.Keys, items);
  }

  lemma FreshItemsSkip(known: set<string>, items: seq<Item>)
    requires items != []
    requires var key := items[|items| - 1].idempotencyKey; key in known || key in ItemKeys(items[..|items| - 1])
    ensures FreshItems(known, items) == FreshItems(known, items[..|items| - 1])
  {
  }

  lemma WritesOneMore(c: Codec, s: Store, items: seq<Item>, t: Store, u: Store)
    requires items != [] && WritesFresh(c, s, items[..|items| - 1], t)
    requires var it := items[|items| - 1];
             && it.idempotencyKey !in t.keys && c.dumps(it.payload).Some?
             && u.keys == t.keys[it.idempotencyKey := it.eventId]
             && u.ledger == t.ledger + [NextRow(c.hash, Head(t.ledger), it.eventId, c.dumps(it.payload).value)]
    ensures WritesFresh(c, s, items, u)
  {
    var it := items[|items| - 1];
    var before := FreshItems(s.keys.Keys, items[..|items| - 1]);
    ItemKeysSnoc(items);
    assert FreshItems(s.keys.Keys, items) == before + [it];
    WriteSnoc(c, s.keys, s.ledger, before, it);
  }

  /** A batch that succeeds writes exactly its fresh items, in order. */
  lemma {:induction false} BatchWritesFresh(c: Codec, s: Store, items: seq<Item>)
    requires AckAll(c, s, items).Done?
    ensures WritesFresh(c, s, items, AckAll(c, s, items).store)
  {
    if items != [] {
      var last := items[|items| - 1];
      AckAllStep(c, s, items);
      var t := AckAll(c, s, items[..|items| - 1]).store;
      BatchWritesFresh(c, s, items[..|items| - 1]);
      if last.idempotencyKey in t.keys {
        WritesDuplicate(c, s, items, t);
      } else {
        FreshAck(c, t, last);
        WritesOneMore(c, s, items, t, AckOne(c, t, last).value.store);
      }
    }
  }

  predicate AnswerFits(s: Store, t: Store, items: seq<Item>, i: nat, a: Ack)
    requires i < |items|
  {
    var k := items[i].idempotencyKey;
    k in t.keys && a == AcknowledgedWrite(t.keys[k], k, true, k in s.keys || k in ItemKeys(items[..i]))
  }

  predicate AnswersFit(s: Store, t: Store, items: seq<Item>, acks: seq<Ack>) {
    && |acks| == |items|
    && (forall k :: k in s.keys ==> k in t.keys && t.keys[k] == s.keys[k])
    && forall i :: 0 <= i < |items| ==> AnswerFits(s, t, items, i, acks[i])
  }

  lemma AnswersExtend(s: Store, items: seq<Item>, t: Store, acks: seq<Ack>, u: Store, a: Ack)
    requires items != [] && AnswersFit(s, t, items[..|items| - 1], acks)
    requires forall k :: k in t.keys ==> k in u.keys && u.keys[k] == t.keys[k]
    requires AnswerFits(s, u, items, |items| - 1, a)
    ensures AnswersFit(s, u, items, acks + [a])
  {
    var n := |items| - 1;
    forall i | 0 <= i < n ensures AnswerFits(s, u, items, i, (acks + [a])[i]) {
      assert AnswerFits(s, t, items[..n], i, acks[i]);
      assert items[..n][..i] == items[..i];
    }
  }

  /** Its answers: every item is acknowledged under the event id its key now has, and is a duplicate
    * exactly when the key was known or came earlier in the batch.
    */
  lemma {:induction false} BatchAnswers(c: Codec, s: Store, items: seq<Item>)
    requires AckAll(c, s, items).Done?
    ensures AnswersFit(s, AckAll(c, s, items).store, items, AckAll(c, s, items).acks)
  {
    if items != [] {
      var n := |items| - 1;
      var last := items[n];
      AckAllStep(c, s, items);
      var before := AckAll(c, s, items[..n]);
      BatchAnswers(c, s, items[..n]);
      BatchWritesFresh(c, s, items[..n]);
      if last.idempotencyKey !in before.store.keys {
        FreshAck(c, before.store, last);
      }
      var r := AckOne(c, before.store, last).value;
      AnswersExtend(s, items, before.store, before.acks, r.store, r.ack);
    }
  }

  // ------------------------------------------------------------------ what a batch does to the pending rows

  lemma SettleWithIds(s: Store, e: string, text: string)
    ensures SettleWith(s, e, text).settled.Keys == s.settled.Keys + {e}
    ensures SettleWith(s, e, text).pending == WithoutId(s.pending, e)
  {
    if e !in PendingIds(s.pending) {
      WithoutAbsent(s.pending, e);
    }
  }

  /** A write only takes rows out of the pending ones, and only adds to the settled ones. */
  predicate Shrinks(s: Store, t: Store) {
    && (forall r :: r in t.pending ==> r in s.pending)
    && (Sorted(s.pending) ==> Sorted(t.pending))
    && s.settled.Keys <= t.settled.Keys
    && PendingIds(s.pending) + s.settled.Keys <= PendingIds(t.pending) + t.settled.Keys
  }

  lemma AckOneShrinks(c: Codec, s: Store, item: Item)
    requires AckOne(c, s, item).Some?
    ensures Shrinks(s, AckOne(c, s, item).value.store)
  {
    if item.idempotencyKey !in s.keys {
      FreshAck(c, s, item);
      SettleWithIds(s, item.eventId, c.dumps(item.payload).value);
      WithoutIdElements(s.pending, item.eventId);
      if Sorted(s.pending) {
        WithoutIdSorted(s.pending, item.eventId);
      }
    }
  }

  lemma {:induction false} AckAllShrinks(c: Codec, s: Store, items: seq<Item>)
    requires AckAll(c, s, items).Done?
    ensures Shrinks(s, AckAll(c, s, items).store)
  {
    if items != [] {
      var init := items[..|items| - 1];
      AckAllShrinks(c, s, init);
      AckOneShrinks(c, AckAll(c, s, init).store, items[|items| - 1]);
    }
  }

  // ------------------------------------------------------------------ when a batch succeeds

  function EventIds(items: seq<Item>): set<string> { set it | it in items :: it.eventId }

  /** Every fresh item can be written: it encodes, and its event id is not settled and not named twice. */
  predicate Admissible(c: Codec, s: Store, items: seq<Item>) {
    var written := FreshItems(s.keys.Keys, items);
    && AllEncodable(c, written)
    && EventIds(written) !! s.settled.Keys
    && DistinctEvents(written)
  }

  lemma EventIdsSnoc(items: seq<Item>, it: Item)
    ensures EventIds(items + [it]) == EventIds(items) + {it.eventId}
  {
    assert forall x :: x in items + [it] <==> x in items || x == it;
  }

  lemma {:induction false} EventIdsBound(items: seq<Item>)
    ensures |EventIds(items)| <= |items|
  {
    if items != [] {
      var n := |items| - 1;
      EventIdsBound(items[..n]);
      EventIdsSnoc(items[..n], items[n]);
      assert items == items[..n] + [items[n]];
    }
  }

  predicate DistinctEvents(items: seq<Item>) { |EventIds(items)| == |items| }

  lemma DistinctEventsSnoc(items: seq<Item>, it: Item)
    ensures DistinctEvents(items + [it]) <==> DistinctEvents(items) && it.eventId !in EventIds(items)
  {
    EventIdsSnoc(items, it);
    EventIdsBound(items);
    if it.eventId in EventIds(items) {
      assert EventIds(items) + {it.eventId} == EventIds(items);
    }
  }

  lemma {:induction false} SettledAfterBatch(c: Codec, s: Store, items: seq<Item>)
    requires AckAll(c, s, items).Done?
    ensures AckAll(c, s, items).store.settled.Keys == s.settled.Keys + EventIds(FreshItems(s.keys.Keys, items))
  {
    if items != [] {
      var last := items[|items| - 1];
      AckAllStep(c, s, items);
      SettledAfterBatch(c, s, items[..|items| - 1]);
      BatchWritesFresh(c, s, items[..|items| - 1]);
      var t := AckAll(c, s, items[..|items| - 1]).store;
      EventIdsSnoc(FreshItems(s.keys.Keys, items[..|items| - 1]), last);
      if last.idempotencyKey !in t.keys {
        FreshAck(c, t, last);
        SettleWithIds(t, last.eventId, c.dumps(last.payload).value);
      }
    }
  }

  lemma AdmissibleSnoc(c: Codec, s: Store, items: seq<Item>)
    requires items != []
    ensures var init, last := items[..|items| - 1], items[|items| - 1];
            Admissible(c, s, items) <==>
            && Admissible(c, s, init)
            && (last.idempotencyKey in s.keys || last.idempotencyKey in ItemKeys(init) ||
                (c.dumps(last.payload).Some? && last.eventId !in s.settled &&
                 last.eventId !in EventIds(FreshItems(s.keys.Keys, init))))
  {
    var init, last := items[..|items| - 1], items[|items| - 1];
    var before := FreshItems(s.keys.Keys, init);
    if last.idempotencyKey in s.keys || last.idempotencyKey in ItemKeys(init) {
      assert FreshItems(s.keys.Keys, items) == before;
    } else {
      assert FreshItems(s.keys.Keys, items) == before + [last];
      EventIdsSnoc(before, last);
      DistinctEventsSnoc(before, last);
      assert forall x :: x in before + [last] <==> x in before || x == last;
    }
  }

  /** What the last item adds to the condition. */
  lemma AckAllSucceedsSnoc(c: Codec, s: Store, items: seq<Item>)
    requires Consistent(c, s) && items != [] && AckAll(c, s, items[..|items| - 1]).Done?
    ensures var init, last := items[..|items| - 1], items[|items| - 1];
            AckAll(c, s, items).Done? <==>
            (last.idempotencyKey in s.keys || last.idempotencyKey in ItemKeys(init) ||
             (c.dumps(last.payload).Some? && last.eventId !in s.settled &&
              last.eventId !in EventIds(FreshItems(s.keys.Keys, init))))
  {
    var init, last := items[..|items| - 1], items[|items| - 1];
    BatchWritesFresh(c, s, init);
    SettledAfterBatch(c, s, init);
    AckAllKeeps(c, s, init);
    AckOneSucceeds(c, AckAll(c, s, init).store, last);
  }

  /** On a consistent store a batch succeeds exactly when it is admissible. In particular an event that
    * was recovered from the WAL can never be acknowledged under a new key.
    */
  lemma {:induction false} BatchSucceedsExactly(c: Codec, s: Store, items: seq<Item>)
    requires Consistent(c, s)
    ensures AckAll(c, s, items).Done? <==> Admissible(c, s, items)
  {
    if items != [] {
      var init := items[..|items| - 1];
      BatchSucceedsExactly(c, s, init);
      AdmissibleSnoc(c, s, items);
      if AckAll(c, s, init).Done? {
        AckAllSucceedsSnoc(c, s, items);
      }
    }
  }

  lemma AckOneSucceeds(c: Codec, s: Store, item: Item)
    requires Consistent(c, s)
    ensures AckOne(c, s, item).Some? <==>
            item.idempotencyKey in s.keys || (c.dumps(item.payload).Some? && item.eventId !in s.settled)
  {
    if item.eventId !in s.settled {
      assert item.eventId !in LedgerIds(s.ledger);
    } else {
      assert item.eventId in LedgerIds(s.ledger);
    }
  }

  // ------------------------------------------------------------------ the same, item by item

  /** Item `i` is the first of the batch with its key, and the key is not known. */
  predicate IsNewItem(known: set<string>, items: seq<Item>, i: int) {
    0 <= i < |items| && items[i].idempotencyKey !in known &&
    forall j :: 0 <= j < i ==> items[j].idempotencyKey != items[i].idempotencyKey
  }

  lemma IsNewItemSnoc(known: set<string>, items: seq<Item>, i: int)
    requires items != []
    ensures i < |items| - 1 ==> (IsNewItem(known, items, i) <==> IsNewItem(known, items[..|items| - 1], i))
    ensures var init, last := items[..|items| - 1], items[|items| - 1];
            IsNewItem(known, items, |items| - 1) <==> last.idempotencyKey !in known && last.idempotencyKey !in ItemKeys(init)
  {
    var init, last := items[..|items| - 1], items[|items| - 1];
    if last.idempotencyKey in ItemKeys(init) {
      var it :| it in init && it.idempotencyKey == last.idempotencyKey;
      var j :| 0 <= j < |init| && init[j] == it;
      assert items[j].idempotencyKey == last.idempotencyKey;
    }
    forall j | 0 <= j < |init| ensures items[j].idempotencyKey in ItemKeys(init) {
      assert init[j] in init;
    }
  }

  ghost predicate NewItemNames(known: set<string>, items: seq<Item>, e: string) {
    exists i :: IsNewItem(known, items, i) && items[i].eventId == e
  }

  lemma NewItemNamesSnoc(known: set<string>, items: seq<Item>, e: string)
    requires items != []
    ensures var n := |items| - 1;
            NewItemNames(known, items, e) <==>
            NewItemNames(known, items[..n], e) || (IsNewItem(known, items, n) && items[n].eventId == e)
  {
    var n := |items| - 1;
    if i :| IsNewItem(known, items[..n], i) && items[..n][i].eventId == e {
      IsNewItemSnoc(known, items, i);
      assert IsNewItem(known, items, i) && items[i].eventId == e;
    }
    if i :| IsNewItem(known, items, i) && items[i].eventId == e && i < n {
      IsNewItemSnoc(known, items, i);
      assert IsNewItem(known, items[..n], i) && items[..n][i].eventId == e;
    }
  }

  lemma {:induction false} FreshIdsExactly(known: set<string>, items: seq<Item>, e: string)
    ensures e in EventIds(FreshItems(known, items)) <==> NewItemNames(known, items, e)
  {
    if items != [] {
      var n := |items| - 1;
      FreshIdsExactly(known, items[..n], e);
      NewItemNamesSnoc(known, items, e);
      IsNewItemSnoc(known, items, n);
      EventIdsSnoc(FreshItems(known, items[..n]), items[n]);
    }
  }

  /** Every new item encodes, and its event is not in the ledger and not that of another new item. */
  ghost predicate EachCanBeWritten(c: Codec, s: Store, items: seq<Item>) {
    && (forall i :: IsNewItem(s.keys.Keys, items, i) ==> c.dumps(items[i].payload).Some? && items[i].eventId !in s.settled)
    && (forall i, j :: i < j && IsNewItem(s.keys.Keys, items, i) && IsNewItem(s.keys.Keys, items, j) ==>
          items[i].eventId != items[j].eventId)
  }

  lemma EachCanBeWrittenSnoc(c: Codec, s: Store, items: seq<Item>)
    requires items != []
    ensures var n := |items| - 1;
            EachCanBeWritten(c, s, items) <==>
            && EachCanBeWritten(c, s, items[..n])
            && (IsNewItem(s.keys.Keys, items, n) ==>
                  && c.dumps(items[n].payload).Some? && items[n].eventId !in s.settled
                  && !NewItemNames(s.keys.Keys, items[..n], items[n].eventId))
  {
    var n, known := |items| - 1, s.keys.Keys;
    forall i | i < n ensures IsNewItem(known, items, i) <==> IsNewItem(known, items[..n], i) {
      IsNewItemSnoc(known, items, i);
    }
  }

  /** A batch on a consistent store returns exactly when each new item can be written. */
  lemma {:induction false} BatchReturnsExactly(c: Codec, s: Store, items: seq<Item>)
    requires Consistent(c, s)
    ensures AckAll(c, s, items).Done? <==> EachCanBeWritten(c, s, items)
  {
    if items != [] {
      var n := |items| - 1;
      BatchReturnsExactly(c, s, items[..n]);
      EachCanBeWrittenSnoc(c, s, items);
      if AckAll(c, s, items[..n]).Done? {
        AckAllSucceedsSnoc(c, s, items);
        IsNewItemSnoc(s.keys.Keys, items, n);
        FreshIdsExactly(s.keys.Keys, items[..n], items[n].eventId);
      }
    }
  }
}
