/** What calls do does not depend on the ids of pending rows beyond their order: with other ids in the same
  * order every call answers the same and leaves the same tables.
  */
module Renumbering {
  import opened Wrappers
  import opened Vault

  /** The rows without their ids. */
  function PlainRows(p: seq<Staged>): seq<Staged> {
    if p == [] then [] else [Staged(0, p[0].eventId, p[0].text)] + PlainRows(p[1..])
  }

  function Plain(s: Store): Store { s.(pending := PlainRows(s.pending)) }

  /** The same tables, but for the ids of pending rows. */
  predicate Alike(s: Store, t: Store) { Plain(s) == Plain(t) }

  lemma {:induction false} PlainIds(p: seq<Staged>)
    ensures PendingIds(PlainRows(p)) == PendingIds(p)
    ensures AllUpTo(PlainRows(p), 0)
  {
    if p != [] {
      PlainIds(p[1..]);
      PendingIdsCons(p);
      PendingIdsCons(PlainRows(p));
      assert PlainRows(p)[1..] == PlainRows(p[1..]);
    }
  }

  lemma {:induction false} PlainText(p: seq<Staged>, e: string)
    requires e in PendingIds(p)
    ensures e in PendingIds(PlainRows(p)) && TextOf(PlainRows(p), e) == TextOf(p, e)
  {
    PlainIds(p);
    PendingIdsCons(p);
    assert PlainRows(p)[1..] == PlainRows(p[1..]);
    if p[0].eventId != e {
      PlainText(p[1..], e);
    }
  }

  lemma {:induction false} PlainWithoutId(p: seq<Staged>, e: string)
    ensures WithoutId(PlainRows(p), e) == PlainRows(WithoutId(p, e))
  {
    if p != [] {
      PlainWithoutId(p[1..], e);
      assert PlainRows(p)[1..] == PlainRows(p[1..]);
      if p[0].eventId != e {
        assert WithoutId(p, e)[1..] == WithoutId(p[1..], e);
      }
    }
  }

  lemma {:induction false} PlainConcat(p: seq<Staged>, q: seq<Staged>)
    ensures PlainRows(p + q) == PlainRows(p) + PlainRows(q)
  {
    if p == [] {
      assert p + q == q;
    } else {
      assert (p + q)[1..] == p[1..] + q;
      PlainConcat(p[1..], q);
    }
  }

  /** Rows without ids are in order. */
  lemma {:induction false} PlainById(p: seq<Staged>)
    requires AllUpTo(p, 0)
    ensures ById(p) == p
  {
    if p != [] {
      PlainById(p[..|p| - 1]);
      InsertByIdLast(p[..|p| - 1], p[|p| - 1]);
    }
  }

  // ------------------------------------------------------------------ calls

  lemma PlainStage(s: Store, id: nat, e: string, text: string)
    ensures Plain(StageRow(s, id, e, text)) == StageRow(Plain(s), 0, e, text)
  {
    PlainIds(s.pending);
    PlainConcat(s.pending, [Staged(id, e, text)]);
    assert [Staged(id, e, text)][1..] == [];
  }

  lemma PlainSettle(s: Store, e: string)
    ensures Plain(Settle(s, e)) == Settle(Plain(s), e)
  {
    PlainIds(s.pending);
    PlainWithoutId(s.pending, e);
    if e in PendingIds(s.pending) {
      PlainText(s.pending, e);
    }
  }

  lemma PlainAckOne(c: Codec, s: Store, item: Item)
    ensures AckOne(c, Plain(s), item) ==
            match AckOne(c, s, item) { case None => None case Some(a) => Some(Acked(Plain(a.store), a.ack)) }
  {
    PlainSettle(s, item.eventId);
    PlainIds(s.pending);
  }

  lemma {:induction false} PlainAckAll(c: Codec, s: Store, items: seq<Item>)
    ensures AckAll(c, Plain(s), items) ==
            match AckAll(c, s, items) { case Failed => Failed case Done(t, acks) => Done(Plain(t), acks) }
  {
    if items != [] {
      var init := items[..|items| - 1];
      PlainAckAll(c, s, init);
      if AckAll(c, s, init).Done? {
        PlainAckOne(c, AckAll(c, s, init).store, items[|items| - 1]);
      }
    }
  }

  /** The recovery of the same rows, on tables without ids. */
  function PlainRecovery(r: Recovery): Recovery {
    match r
    case Stuck => Stuck
    case Recovered(t, n) => Recovered(Plain(t), n)
  }

  lemma PlainRecoverRow(c: Codec, s: Store, r: Staged)
    ensures RecoverRow(c, Plain(s), Staged(0, r.eventId, r.text)) == PlainRecovery(RecoverRow(c, s, r))
  {
    PlainSettle(s, r.eventId);
    if Rewrite(c, r.text).Some? && AppendRow(c, s, r.eventId, Rewrite(c, r.text).value).Some? {
      PlainSettle(AppendRow(c, s, r.eventId, Rewrite(c, r.text).value).value, r.eventId);
    }
  }

  lemma {:induction false} PlainRecoverRows(c: Codec, s: Store, rows: seq<Staged>)
    ensures RecoverRows(c, Plain(s), PlainRows(rows)) == PlainRecovery(RecoverRows(c, s, rows))
  {
    if rows != [] {
      var init, last := rows[..|rows| - 1], rows[|rows| - 1];
      PlainRecoverRows(c, s, init);
      assert rows == init + [last] && [last][1..] == [];
      PlainConcat(init, [last]);
      assert PlainRows(rows) == PlainRows(init) + [Staged(0, last.eventId, last.text)];
      if RecoverRows(c, s, init).Recovered? {
        PlainRecoverRow(c, RecoverRows(c, s, init).store, last);
      }
    }
  }

  lemma PlainRecover(c: Codec, s: Store)
    requires Sorted(s.pending)
    ensures Recover(c, Plain(s)) == PlainRecovery(Recover(c, s))
  {
    SortedIsById(s.pending);
    PlainIds(s.pending);
    PlainById(PlainRows(s.pending));
    PlainRecoverRows(c, s, s.pending);
  }

  // ------------------------------------------------------------------ alike in, alike out

  lemma AlikeAckAll(c: Codec, s: Store, t: Store, items: seq<Item>)
    requires Alike(s, t)
    ensures match AckAll(c, s, items)
            case Failed => AckAll(c, t, items).Failed?
            case Done(u, acks) => AckAll(c, t, items).Done? && AckAll(c, t, items).acks == acks && Alike(u, AckAll(c, t, items).store)
  {
    PlainAckAll(c, s, items);
    PlainAckAll(c, t, items);
  }

  lemma AlikeStage(s: Store, id: nat, t: Store, number: nat, e: string, text: string)
    requires Alike(s, t)
    ensures Alike(StageRow(s, id, e, text), StageRow(t, number, e, text))
  {
    PlainStage(s, id, e, text);
    PlainStage(t, number, e, text);
  }

  lemma AlikeRecover(c: Codec, s: Store, t: Store)
    requires Alike(s, t) && Sorted(s.pending) && Sorted(t.pending)
    ensures match Recover(c, s)
            case Stuck => Recover(c, t).Stuck?
            case Recovered(u, n) => Recover(c, t).Recovered? && Recover(c, t).count == n && Alike(u, Recover(c, t).store)
  {
    PlainRecover(c, s);
    PlainRecover(c, t);
  }
}
