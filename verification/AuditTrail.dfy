/** What a reader of the ledger can conclude, for the real printer and reader and any digest function. */
module AuditTrail {
  import opened Wrappers
  import opened Json
  import opened JsonFidelity
  import opened HashChain
  import opened Framing
  import opened Vault
  import opened VaultLaws
  import opened VaultRuns
  import opened Codecs

  lemma VerifiedSnoc(h: Hash, ledger: seq<Row>, e: string, text: string)
    requires Verified(h, ledger) && JsonText(text)
    ensures Verified(h, ledger + [NextRow(h, Head(ledger), e, text)])
  {
    var row := NextRow(h, Head(ledger), e, text);
    AppendChained(h, ledger, row);
    assert (ledger + [row])[..|ledger|] == ledger;
  }

  lemma PrintedIsJson(h: Hash, v: Value, text: string)
    requires PythonCodec(h).dumps(v) == Some(text)
    ensures JsonText(text)
  {
    StagedTextRedumps(v);
  }

  lemma {:induction false} WrittenIsVerified(h: Hash, ledger: seq<Row>, items: seq<Item>)
    requires Verified(h, ledger) && AllEncodable(PythonCodec(h), items)
    ensures Verified(h, Written(PythonCodec(h), ledger, items))
  {
    if items != [] {
      var init, it := items[..|items| - 1], items[|items| - 1];
      WrittenIsVerified(h, ledger, init);
      var text := PythonCodec(h).dumps(it.payload).value;
      PrintedIsJson(h, it.payload, text);
      VerifiedSnoc(h, Written(PythonCodec(h), ledger, init), it.eventId, text);
    }
  }

  lemma {:induction false} ReplayedIsVerified(h: Hash, ledger: seq<Row>, rows: seq<Staged>)
    requires Verified(h, ledger) && TextsFit(PythonCodec(h), rows)
    ensures Verified(h, Replayed(PythonCodec(h), ledger, rows))
  {
    if rows != [] {
      var init, r := rows[..|rows| - 1], rows[|rows| - 1];
      ReplayedIsVerified(h, ledger, init);
      var text := Rewrite(PythonCodec(h), r.text).value;
      PrintedIsJson(h, PythonCodec(h).loads(r.text).value, text);
      VerifiedSnoc(h, Replayed(PythonCodec(h), ledger, init), r.eventId, text);
    }
  }

  /** Over every run the durable ledger verifies and holds JSON text only. */
  lemma {:induction false} EveryLedgerVerified(h: Hash, events: seq<Event>)
    ensures Verified(h, Play(PythonCodec(h), events).store.ledger)
  {
    var c := PythonCodec(h);
    PythonIsSound(h);
    if events != [] {
      var init, ev := events[..|events| - 1], events[|events| - 1];
      var s, nextId := Play(c, init).store, Play(c, init).nextId;
      EveryLedgerVerified(h, init);
      EveryStateConsistent(c, init);
      if Commit(c, s, nextId, ev.call).Some? {
        match ev.call
        case Stage(_, _) =>
        case Acknowledge(items) =>
          BatchWritesFresh(c, s, items);
          WrittenIsVerified(h, s.ledger, FreshItems(s.keys.Keys, items));
        case RecoverUncommitted =>
          RecoverExactly(c, s);
          ReplayedIsVerified(h, s.ledger, s.pending);
      }
    }
  }

  /** A ledger that verifies, holds JSON text and ends in the digest of some run's ledger is that ledger,
    * row by row; otherwise the comparison hands back two texts with one digest, or a text whose digest is
    * the genesis value.
    */
  lemma HeadPinsRun(h: Hash, events: seq<Event>, rows: seq<Row>)
    requires Verified(h, rows) && Head(rows) == Head(Play(PythonCodec(h), events).store.ledger)
    ensures Holds(h, Play(PythonCodec(h), events).store.ledger, rows,
                  Compare(Play(PythonCodec(h), events).store.ledger, rows))
  {
    EveryLedgerVerified(h, events);
    HeadPinsHistory(h, Play(PythonCodec(h), events).store.ledger, rows);
  }

  /** The text of a payload that was itself decoded from JSON text. */
  ghost predicate CameInAsJson(text: string) {
    exists origin, v :: Loads(origin) == Some(v) && Dumps(v) == Some(text)
  }

  lemma CameInSurvives(h: Hash, text: string)
    requires CameInAsJson(text)
    ensures Rewrite(PythonCodec(h), text) == Some(text)
  {
    var origin, v :| Loads(origin) == Some(v) && Dumps(v) == Some(text);
    DecodedPayloadSurvives(origin, v);
    PythonRewrites(h, text);
  }

  /** A staged payload that came in as JSON text is recovered with exactly the text it was staged with. */
  lemma RecoveredTextIsStaged(h: Hash, s: Store, i: nat)
    requires Consistent(PythonCodec(h), s) && i < |s.pending| && CameInAsJson(s.pending[i].text)
    ensures var r := Recover(PythonCodec(h), s);
            && r.Recovered? && |s.ledger| + i < |r.store.ledger|
            && r.store.ledger[|s.ledger| + i].eventId == s.pending[i].eventId
            && r.store.ledger[|s.ledger| + i].payload == s.pending[i].text
  {
    RecoveredRow(PythonCodec(h), s, i);
    CameInSurvives(h, s.pending[i].text);
  }
}
