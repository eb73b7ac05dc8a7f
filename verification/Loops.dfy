/** The loops of both backends, one turn at a time. */
module Loops {
  import opened Wrappers
  import opened Vault

  /** What the prefetch and the loop keep in `existing`: the table's answer for every key of the batch. */
  predicate Prefetched(existing: map<string, string>, items: seq<Item>, keys: map<string, string>) {
    forall item :: item in items ==> SameAnswer(existing, keys, item.idempotencyKey)
  }

  predicate SameAnswer(existing: map<string, string>, keys: map<string, string>, k: string) {
    (k in existing <==> k in keys) && (k in existing ==> existing[k] == keys[k])
  }

  lemma PrefetchedGrows(existing: map<string, string>, items: seq<Item>, keys: map<string, string>, item: Item)
    requires Prefetched(existing, items, keys)
    ensures Prefetched(existing[item.idempotencyKey := item.eventId], items, keys[item.idempotencyKey := item.eventId])
  {
    forall it | it in items
      ensures SameAnswer(existing[item.idempotencyKey := item.eventId], keys[item.idempotencyKey := item.eventId], it.idempotencyKey)
    {
      assert SameAnswer(existing, keys, it.idempotencyKey);
    }
  }

  lemma {:induction false} FailureStays(c: Codec, s: Store, items: seq<Item>, n: nat)
    requires n <= |items| && AckAll(c, s, items[..n]).Failed?
    ensures AckAll(c, s, items).Failed?
    decreases |items|
  {
    if n == |items| {
      assert items[..n] == items;
    } else {
      assert items[..|items| - 1][..n] == items[..n];
      FailureStays(c, s, items[..|items| - 1], n);
    }
  }

  lemma {:induction false} StuckStays(c: Codec, s: Store, rows: seq<Staged>, n: nat)
    requires n <= |rows| && RecoverRows(c, s, rows[..n]).Stuck?
    ensures RecoverRows(c, s, rows).Stuck?
    decreases |rows|
  {
    if n == |rows| {
      assert rows[..n] == rows;
    } else {
      assert rows[..|rows| - 1][..n] == rows[..n];
      StuckStays(c, s, rows[..|rows| - 1], n);
    }
  }

  lemma AckAllNext(c: Codec, s: Store, items: seq<Item>, i: nat)
    requires i < |items| && AckAll(c, s, items[..i]).Done?
    ensures var before := AckAll(c, s, items[..i]);
            AckAll(c, s, items[..i + 1]) ==
            match AckOne(c, before.store, items[i])
            case None => Failed
            case Some(r) => Done(r.store, before.acks + [r.ack])
  {
    assert items[..i + 1][..i] == items[..i] && items[..i + 1][i] == items[i];
  }

  lemma BatchDrawsNext(c: Codec, s: Store, items: seq<Item>, i: nat)
    requires i < |items| && AckAll(c, s, items[..i]).Done?
    ensures BatchDraws(c, s, items[..i + 1]) ==
            BatchDraws(c, s, items[..i]) + AckDraws(c, AckAll(c, s, items[..i]).store, items[i])
  {
    assert items[..i + 1][..i] == items[..i] && items[..i + 1][i] == items[i];
  }

  lemma RecoverRowsNext(c: Codec, s: Store, rows: seq<Staged>, i: nat)
    requires i < |rows| && RecoverRows(c, s, rows[..i]).Recovered?
    ensures var before := RecoverRows(c, s, rows[..i]);
            RecoverRows(c, s, rows[..i + 1]) ==
            match RecoverRow(c, before.store, rows[i])
            case Stuck => Stuck
            case Recovered(t, n) => Recovered(t, before.count + n)
  {
    assert rows[..i + 1][..i] == rows[..i] && rows[..i + 1][i] == rows[i];
  }

  lemma AckAllOfOne(c: Codec, s: Store, item: Item)
    ensures AckAll(c, s, [item]) ==
            match AckOne(c, s, item) case None => Failed case Some(a) => Done(a.store, [a.ack])
  {
    assert [item][..0] == [];
  }
}
