/** What the calls of the vault do, said of the rows of the three tables before and after the call. */
module VaultEffects {
  import opened Wrappers
  import opened HashChain
  import opened Vault
  import opened VaultLaws

  // ------------------------------------------------------------------ the conditions

  /** wal_staging has a row for the event id. */
  predicate IsStaged(s: Store, e: string) { e in s.settled || exists row :: row in s.pending && row.eventId == e }

  /** `result` is what decoding `text` and encoding it again gives. */
  predicate Reencoded(c: Codec, text: string, result: string) {
    c.loads(text).Some? && c.dumps(c.loads(text).value) == Some(result)
  }

  /** A key that is known changes nothing; a new one leaves its row in idempotency and at the end of the ledger,
    * with the payload's text, and no pending row: the text staged first, if any, is the one that stays marked.
    */
  ghost predicate WriteMeans(c: Codec, s: Store, item: Item, t: Store, ack: Ack) {
    var key, e := item.idempotencyKey, item.eventId;
    if key in s.keys then t == s && ack == AcknowledgedWrite(s.keys[key], key, true, true)
    else
      && ack == AcknowledgedWrite(e, key, true, false) && t.keys == s.keys[key := e]
      && |t.ledger| == |s.ledger| + 1 && s.ledger <= t.ledger && Stands(c.hash, t.ledger, |s.ledger|)
      && t.ledger[|s.ledger|].eventId == e && Some(t.ledger[|s.ledger|].payload) == c.dumps(item.payload)
      && (forall row :: row in t.pending <==> row in s.pending && row.eventId != e)
      && t.settled.Keys == s.settled.Keys + {e}
      && (forall x :: x in s.settled ==> t.settled[x] == s.settled[x])
      && (forall row :: row in s.pending && row.eventId == e ==> t.settled[e] == row.text)
      && (!IsStaged(s, e) ==> Some(t.settled[e]) == c.dumps(item.payload))
  }

  predicate CanBeWritten(c: Codec, s: Store, item: Item) {
    item.idempotencyKey in s.keys || (c.dumps(item.payload).Some? && item.eventId !in s.settled)
  }

  /** How many of the first `n` items are new. */
  function NewBefore(known: set<string>, items: seq<Item>, n: nat): nat
    requires n <= |items|
  {
    if n == 0 then 0 else NewBefore(known, items, n - 1) + if IsNewItem(known, items, n - 1) then 1 else 0
  }

  ghost predicate NewKey(known: set<string>, items: seq<Item>, key: string) {
    exists i :: IsNewItem(known, items, i) && items[i].idempotencyKey == key
  }

  /** The keys of the new items come on top, with their events. */
  ghost predicate KeysMean(before: map<string, string>, items: seq<Item>, after: map<string, string>) {
    && (forall key :: key in before ==> key in after && after[key] == before[key])
    && (forall key :: key in after && key !in before ==> NewKey(before.Keys, items, key))
    && (forall i :: IsNewItem(before.Keys, items, i) ==>
          items[i].idempotencyKey in after && after[items[i].idempotencyKey] == items[i].eventId)
  }

  /** The new items stand at the end of the ledger in their order, and nothing else is added. */
  ghost predicate LedgerMeans(c: Codec, known: set<string>, before: seq<Row>, items: seq<Item>, after: seq<Row>) {
    && before <= after && |after| == |before| + NewBefore(known, items, |items|)
    && (forall i :: IsNewItem(known, items, i) ==> HasRowFor(c, after, |before| + NewBefore(known, items, i), items[i]))
  }

  /** Every answer names the event its key has now, and is a duplicate unless the item is new. */
  ghost predicate WritesMean(c: Codec, s: Store, items: seq<Item>, t: Store, acks: seq<Ack>) {
    && KeysMean(s.keys, items, t.keys)
    && |acks| == |items| && (forall i :: 0 <= i < |items| ==> AnswerMeans(s, items, t, acks[i], i))
    && LedgerMeans(c, s.keys.Keys, s.ledger, items, t.ledger) && AllStand(c.hash, t.ledger)
  }

  predicate AnswerMeans(s: Store, items: seq<Item>, t: Store, ack: Ack, i: nat)
    requires i < |items|
  {
    && items[i].idempotencyKey in t.keys
    && ack == AcknowledgedWrite(t.keys[items[i].idempotencyKey], items[i].idempotencyKey, true, !IsNewItem(s.keys.Keys, items, i))
  }

  predicate HasRowFor(c: Codec, ledger: seq<Row>, k: nat, item: Item) {
    k < |ledger| && ledger[k].eventId == item.eventId && Some(ledger[k].payload) == c.dumps(item.payload)
  }

  /** The staged rows come into the ledger in their order, decoded and encoded again. */
  ghost predicate RowsRecovered(c: Codec, before: seq<Row>, staged: seq<Staged>, after: seq<Row>) {
    && before <= after && |after| == |before| + |staged|
    && (forall i :: 0 <= i < |staged| ==> IsRecoveredRow(c, staged[i], after[|before| + i]))
  }

  /** They are marked and keep their texts. */
  ghost predicate TextsMarked(before: map<string, string>, staged: seq<Staged>, after: map<string, string>) {
    && (forall e :: e in after <==> e in before || exists row :: row in staged && row.eventId == e)
    && (forall e :: e in before ==> after[e] == before[e])
    && (forall row :: row in staged ==> after[row.eventId] == row.text)
  }

  /** A recovery takes every pending row, in id order, and changes nothing else. */
  ghost predicate RecoveryMeans(c: Codec, s: Store, t: Store, count: nat) {
    && count == |s.pending| && t.pending == [] && t.keys == s.keys
    && RowsRecovered(c, s.ledger, s.pending, t.ledger) && AllStand(c.hash, t.ledger)
    && TextsMarked(s.settled, s.pending, t.settled)
  }

  predicate IsRecoveredRow(c: Codec, staged: Staged, row: Row) {
    row.eventId == staged.eventId && Reencoded(c, staged.text, row.payload)
  }

  /** A batch returns exactly when each new item can be written, and changes nothing otherwise. */
  ghost predicate BatchOutcome(c: Codec, s: Store, items: seq<Item>, r: Result<seq<Ack>>, t: Store) {
    match r
    case Returned(acks) => EachCanBeWritten(c, s, items) && WritesMean(c, s, items, t, acks)
    case Raised => !EachCanBeWritten(c, s, items) && t == s
  }

  ghost predicate WriteOutcome(c: Codec, s: Store, item: Item, r: Result<Ack>, t: Store) {
    match r
    case Returned(ack) => CanBeWritten(c, s, item) && WriteMeans(c, s, item, t, ack)
    case Raised => !CanBeWritten(c, s, item) && t == s
  }

  // ------------------------------------------------------------------ staging

  lemma StagedExactly(s: Store, e: string)
    ensures InWal(s, e) <==> IsStaged(s, e)
  {
  }

  lemma StageIsMeant(s: Store, id: nat, e: string, text: string)
    ensures StageRow(s, id, e, text) == if IsStaged(s, e) then s else s.(pending := s.pending + [Staged(id, e, text)])
  {
    StagedExactly(s, e);
  }

  // ------------------------------------------------------------------ writing

  lemma WriteIsMeant(c: Codec, s: Store, item: Item)
    requires Consistent(c, s)
    ensures AckOne(c, s, item).Some? <==> CanBeWritten(c, s, item)
    ensures AckOne(c, s, item).Some? ==> WriteMeans(c, s, item, AckOne(c, s, item).value.store, AckOne(c, s, item).value.ack)
  {
    AckOneSucceeds(c, s, item);
    if item.idempotencyKey !in s.keys && AckOne(c, s, item).Some? {
      FreshAck(c, s, item);
      var t := AckOne(c, s, item).value.store;
      AckOneKeeps(c, s, item);
      ChainedExactly(c.hash, t.ledger);
      assert Stands(c.hash, t.ledger, |s.ledger|);
      SettledTexts(s, item.eventId, c.dumps(item.payload).value);
    }
  }

  lemma SettledTexts(s: Store, e: string, text: string)
    requires DistinctPending(s.pending) && PendingIds(s.pending) !! s.settled.Keys && e !in s.settled
    ensures var t := SettleWith(s, e, text);
            && (forall row :: row in t.pending <==> row in s.pending && row.eventId != e)
            && t.settled.Keys == s.settled.Keys + {e}
            && (forall x :: x in s.settled ==> t.settled[x] == s.settled[x])
            && (forall row :: row in s.pending && row.eventId == e ==> t.settled[e] == row.text)
            && (!IsStaged(s, e) ==> t.settled[e] == text)
  {
    WithoutIdElements(s.pending, e);
    forall row | row in s.pending && row.eventId == e ensures TextOf(s.pending, e) == row.text {
      TextOfRow(s.pending, row);
    }
  }

  lemma {:induction false} NewBeforePrefix(known: set<string>, items: seq<Item>, n: nat)
    requires items != [] && n < |items|
    ensures NewBefore(known, items, n) == NewBefore(known, items[..|items| - 1], n)
  {
    if n > 0 {
      NewBeforePrefix(known, items, n - 1);
      IsNewItemSnoc(known, items, n - 1);
    }
  }

  lemma RowForItem(c: Codec, t: Store, item: Item)
    requires item.idempotencyKey !in t.keys && AckOne(c, t, item).Some?
    ensures HasRowFor(c, AckOne(c, t, item).value.store.ledger, |t.ledger|, item)
  {
    FreshAck(c, t, item);
  }

  /** Where the row of the last item stands, when that is new. */
  lemma LastIsNew(c: Codec, s: Store, items: seq<Item>)
    requires AckAll(c, s, items).Done? && items != [] && IsNewItem(s.keys.Keys, items, |items| - 1)
    ensures var n, before := |items| - 1, AckAll(c, s, items[..|items| - 1]);
            && before.Done? && items[n].idempotencyKey !in before.store.keys
            && |before.store.ledger| == |s.ledger| + NewBefore(s.keys.Keys, items, n)
  {
    var n := |items| - 1;
    BatchWritesFresh(c, s, items[..n]);
    LedgerGrows(c, s, items[..n]);
    IsNewItemSnoc(s.keys.Keys, items, n);
    NewBeforePrefix(s.keys.Keys, items, n);
  }

  lemma OneMoreItem(c: Codec, s: Store, items: seq<Item>)
    requires items != [] && AckAll(c, s, items).Done?
    ensures AckAll(c, s, items[..|items| - 1]).Done?
    ensures AckAll(c, s, items[..|items| - 1]).store.ledger <= AckAll(c, s, items).store.ledger
  {
    AckAllStep(c, s, items);
    var before := AckAll(c, s, items[..|items| - 1]).store;
    if items[|items| - 1].idempotencyKey !in before.keys {
      FreshAck(c, before, items[|items| - 1]);
    }
  }

  /** The row of item `i` stands where it should. */
  ghost predicate NewRowThere(c: Codec, s: Store, items: seq<Item>, i: nat)
    requires i < |items|
  {
    match AckAll(c, s, items)
    case Failed => false
    case Done(t, _) => HasRowFor(c, t.ledger, |s.ledger| + NewBefore(s.keys.Keys, items, i), items[i])
  }

  lemma {:induction false} LastNewRow(c: Codec, s: Store, items: seq<Item>)
    requires AckAll(c, s, items).Done? && items != [] && IsNewItem(s.keys.Keys, items, |items| - 1)
    ensures NewRowThere(c, s, items, |items| - 1)
  {
    LastIsNew(c, s, items);
    AckAllStep(c, s, items);
    RowForItem(c, AckAll(c, s, items[..|items| - 1]).store, items[|items| - 1]);
  }

  lemma RowStays(c: Codec, ledger: seq<Row>, longer: seq<Row>, k: nat, item: Item)
    requires HasRowFor(c, ledger, k, item) && ledger <= longer
    ensures HasRowFor(c, longer, k, item)
  {
  }

  lemma {:induction false} EarlierNewRow(c: Codec, s: Store, items: seq<Item>, i: nat)
    requires AckAll(c, s, items).Done? && i < |items| - 1 && NewRowThere(c, s, items[..|items| - 1], i)
    ensures NewRowThere(c, s, items, i)
  {
    NewBeforePrefix(s.keys.Keys, items, i);
    OneMoreItem(c, s, items);
    RowStays(c, AckAll(c, s, items[..|items| - 1]).store.ledger, AckAll(c, s, items).store.ledger,
             |s.ledger| + NewBefore(s.keys.Keys, items, i), items[i]);
  }

  lemma {:induction false} NewRows(c: Codec, s: Store, items: seq<Item>, i: nat)
    requires AckAll(c, s, items).Done? && i < |items| && IsNewItem(s.keys.Keys, items, i)
    ensures NewRowThere(c, s, items, i)
    decreases |items|
  {
    if i == |items| - 1 {
      LastNewRow(c, s, items);
    } else {
      IsNewItemSnoc(s.keys.Keys, items, i);
      OneMoreItem(c, s, items);
      NewRows(c, s, items[..|items| - 1], i);
      EarlierNewRow(c, s, items, i);
    }
  }

  lemma {:induction false} LedgerGrows(c: Codec, s: Store, items: seq<Item>)
    requires AckAll(c, s, items).Done?
    ensures s.ledger <= AckAll(c, s, items).store.ledger
    ensures |AckAll(c, s, items).store.ledger| == |s.ledger| + NewBefore(s.keys.Keys, items, |items|)
  {
    if items != [] {
      var n := |items| - 1;
      AckAllStep(c, s, items);
      LedgerGrows(c, s, items[..n]);
      BatchWritesFresh(c, s, items[..n]);
      IsNewItemSnoc(s.keys.Keys, items, n);
      NewBeforePrefix(s.keys.Keys, items, n);
      var before := AckAll(c, s, items[..n]).store;
      if items[n].idempotencyKey !in before.keys {
        FreshAck(c, before, items[n]);
      }
    }
  }

  lemma CameBeforeExactly(known: set<string>, items: seq<Item>, i: nat)
    requires i < |items|
    ensures IsNewItem(known, items, i) <==> items[i].idempotencyKey !in known && items[i].idempotencyKey !in ItemKeys(items[..i])
  {
    IsNewItemSnoc(known, items[..i + 1], i);
    assert items[..i + 1][..i] == items[..i];
  }

  lemma {:induction false} KeysAreMeant(c: Codec, s: Store, items: seq<Item>)
    requires AckAll(c, s, items).Done?
    ensures KeysMean(s.keys, items, AckAll(c, s, items).store.keys)
  {
    if items != [] {
      var n := |items| - 1;
      AckAllStep(c, s, items);
      var before, after := AckAll(c, s, items[..n]).store, AckAll(c, s, items).store;
      KeysAreMeant(c, s, items[..n]);
      BatchWritesFresh(c, s, items[..n]);
      if items[n].idempotencyKey !in before.keys {
        FreshAck(c, before, items[n]);
      }
      KeysNext(s.keys, items, before.keys, after.keys);
    }
  }

  lemma KeysNext(known: map<string, string>, items: seq<Item>, before: map<string, string>, after: map<string, string>)
    requires items != [] && KeysMean(known, items[..|items| - 1], before)
    requires before.Keys == known.Keys + ItemKeys(items[..|items| - 1])
    requires var it := items[|items| - 1];
             after == if it.idempotencyKey in before then before else before[it.idempotencyKey := it.eventId]
    ensures KeysMean(known, items, after)
  {
    var n := |items| - 1;
    IsNewItemSnoc(known.Keys, items, n);
    forall i | IsNewItem(known.Keys, items, i)
      ensures items[i].idempotencyKey in after && after[items[i].idempotencyKey] == items[i].eventId
    {
      IsNewItemSnoc(known.Keys, items, i);
      if i < n {
        assert items[..n][i] == items[i];
      }
    }
    forall key | key in after && key !in known ensures NewKey(known.Keys, items, key) {
      if key in before {
        var i :| IsNewItem(known.Keys, items[..n], i) && items[..n][i].idempotencyKey == key;
        IsNewItemSnoc(known.Keys, items, i);
        assert items[i].idempotencyKey == key;
      } else {
        assert items[n].idempotencyKey == key;
      }
    }
  }

  lemma AnswersAreMeant(c: Codec, s: Store, items: seq<Item>)
    requires AckAll(c, s, items).Done?
    ensures var b := AckAll(c, s, items);
            |b.acks| == |items| && forall i :: 0 <= i < |items| ==> AnswerMeans(s, items, b.store, b.acks[i], i)
  {
    var b := AckAll(c, s, items);
    BatchAnswers(c, s, items);
    forall i | 0 <= i < |items| ensures AnswerMeans(s, items, b.store, b.acks[i], i) {
      assert AnswerFits(s, b.store, items, i, b.acks[i]);
      CameBeforeExactly(s.keys.Keys, items, i);
    }
  }

  lemma LedgerIsMeant(c: Codec, s: Store, items: seq<Item>)
    requires AckAll(c, s, items).Done?
    ensures LedgerMeans(c, s.keys.Keys, s.ledger, items, AckAll(c, s, items).store.ledger)
  {
    LedgerGrows(c, s, items);
    forall i | IsNewItem(s.keys.Keys, items, i)
      ensures HasRowFor(c, AckAll(c, s, items).store.ledger, |s.ledger| + NewBefore(s.keys.Keys, items, i), items[i])
    {
      NewRows(c, s, items, i);
    }
  }

  lemma ConsistentStands(c: Codec, s: Store)
    requires Consistent(c, s)
    ensures AllStand(c.hash, s.ledger)
  {
    ChainedExactly(c.hash, s.ledger);
  }

  lemma WritesAreMeant(c: Codec, s: Store, items: seq<Item>)
    requires Consistent(c, s) && AckAll(c, s, items).Done?
    ensures WritesMean(c, s, items, AckAll(c, s, items).store, AckAll(c, s, items).acks)
  {
    KeysAreMeant(c, s, items);
    AnswersAreMeant(c, s, items);
    LedgerIsMeant(c, s, items);
    AckAllKeeps(c, s, items);
    ConsistentStands(c, AckAll(c, s, items).store);
  }

  lemma BatchReturns(c: Codec, s: Store, items: seq<Item>, t: Store, acks: seq<Ack>)
    requires Consistent(c, s) && AckAll(c, s, items) == Done(t, acks)
    ensures BatchOutcome(c, s, items, Returned(acks), t)
  {
    BatchReturnsExactly(c, s, items);
    WritesAreMeant(c, s, items);
  }

  lemma BatchRaises(c: Codec, s: Store, items: seq<Item>)
    requires Consistent(c, s) && AckAll(c, s, items).Failed?
    ensures BatchOutcome(c, s, items, Raised, s)
  {
    BatchReturnsExactly(c, s, items);
  }

  lemma WriteComesTo(c: Codec, s: Store, item: Item)
    requires Consistent(c, s)
    ensures match AckOne(c, s, item)
            case Some(a) => WriteOutcome(c, s, item, Returned(a.ack), a.store)
            case None => WriteOutcome(c, s, item, Raised, s)
  {
    WriteIsMeant(c, s, item);
  }

  // ------------------------------------------------------------------ recovering

  lemma MarkedBefore(m: map<string, string>, rows: seq<Staged>)
    requires DistinctPending(rows) && PendingIds(rows) !! m.Keys && rows != []
    ensures var n := |rows| - 1;
            && PendingIds(rows) == PendingIds(rows[..n]) + {rows[n].eventId}
            && rows[n].eventId !in m && rows[n].eventId !in PendingIds(rows[..n])
            && DistinctPending(rows[..n])
  {
    var n := |rows| - 1;
    assert rows == rows[..n] + [rows[n]];
    PendingIdsConcat(rows[..n], [rows[n]]);
    assert rows[n].eventId in PendingIds(rows);
  }

  lemma {:induction false} MarkedTexts(m: map<string, string>, rows: seq<Staged>)
    requires DistinctPending(rows) && PendingIds(rows) !! m.Keys
    ensures TextsMarked(m, rows, Marked(m, rows))
  {
    MarkedRows(m, rows);
    if rows != [] {
      var n := |rows| - 1;
      MarkedBefore(m, rows);
      MarkedTexts(m, rows[..n]);
      forall row | row in rows ensures Marked(m, rows)[row.eventId] == row.text {
        if row != rows[n] {
          assert row in rows[..n] && row.eventId in PendingIds(rows[..n]);
        }
      }
    }
  }

  lemma RowsAreRecovered(c: Codec, ledger: seq<Row>, rows: seq<Staged>)
    requires TextsFit(c, rows)
    ensures RowsRecovered(c, ledger, rows, Replayed(c, ledger, rows))
  {
    ReplayedExtends(c, ledger, rows);
    forall i | 0 <= i < |rows| ensures IsRecoveredRow(c, rows[i], Replayed(c, ledger, rows)[|ledger| + i]) {
      ReplayedRow(c, ledger, rows, i);
    }
  }

  lemma RecoveryIsMeant(c: Codec, s: Store)
    requires Consistent(c, s)
    ensures Recover(c, s).Recovered? && RecoveryMeans(c, s, Recover(c, s).store, Recover(c, s).count)
  {
    RecoverExactly(c, s);
    ConsistentStands(c, Recover(c, s).store);
    MarkedTexts(s.settled, s.pending);
    RowsAreRecovered(c, s.ledger, s.pending);
  }
}
