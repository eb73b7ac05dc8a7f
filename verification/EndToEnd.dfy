/** What a caller sees who uses two operations one after the other: each result follows from the contracts of the
  * classes alone.
  */
module EndToEnd {
  import opened Wrappers
  import opened Json
  import opened HashChain
  import opened Vault
  import opened SQLiteBackend
  import opened OpenLineage
  import opened OpenLineageIngest
  import opened EventRows
  import opened IngestEffects
  import opened Ingestor
  import opened FieldImpact
  import VaultEffects
  import TwoFile

  // ------------------------------------------------------------------ ingesting

  lemma HasOneKey(ev: RunEvent, given: Option<string>) returns (key: string)
    ensures forall k :: KeyIs(ev, given, k) <==> k == key
  {
    key := if given.Some? && given.value != "" then given.value else ev.runId + ":" + ev.eventType;
  }

  /** An answered event is fresh exactly when its key was not known and no earlier event of the batch has it. */
  lemma FreshExactly(c: Codec, events: seq<RunEvent>, keys: Option<seq<Option<string>>>, ids: seq<string>,
                     before: Store, after: Store, answers: seq<Answer>, i: nat)
    requires AnswersMean(c, events, keys, ids, before, after, answers) && Consistent(c, after) && i < |events|
    ensures !answers[i].duplicate <==> IsNew(events, keys, before.keys, i)
  {
    assert AnswerMeans(c, events[i], Given(keys, i), ids[i], before, after, answers, i);
    var key := HasOneKey(events[i], Given(keys, i));
    forall j | 0 <= j < i ensures KeyIs(events[j], Given(keys, j), key) <==> answers[j].eventId == answers[i].eventId {
      assert AnswerMeans(c, events[j], Given(keys, j), ids[j], before, after, answers, j);
      var other := HasOneKey(events[j], Given(keys, j));
      OneIdOneKey(c, after, key, other);
    }
    CameBefore(events, keys, before.keys, answers, i, key);
  }

  lemma OneIdOneKey(c: Codec, s: Store, key: string, other: string)
    requires Consistent(c, s) && key in s.keys && other in s.keys
    ensures s.keys[key] == s.keys[other] <==> key == other
  {
  }

  lemma CameBefore(events: seq<RunEvent>, keys: Option<seq<Option<string>>>, known: map<string, string>, answers: seq<Answer>,
                   i: nat, key: string)
    requires |events| == |answers| && i < |events| && forall k :: KeyIs(events[i], Given(keys, i), k) <==> k == key
    requires forall j :: 0 <= j < i ==> (KeyIs(events[j], Given(keys, j), key) <==> answers[j].eventId == answers[i].eventId)
    ensures IsNew(events, keys, known, i) <==> key !in known && !AnsweredBefore(answers, i)
  {
    assert KeyIs(events[i], Given(keys, i), key);
  }

  lemma OtherTypeOtherKey(a: RunEvent, b: RunEvent)
    requires a.runId == b.runId && a.eventType != b.eventType
    ensures a.runId + ":" + a.eventType != b.runId + ":" + b.eventType
  {
    var p := a.runId + ":";
    assert (p + a.eventType)[|p|..] == a.eventType && (p + b.eventType)[|p|..] == b.eventType;
  }

  /** Two events of one run with different types and no keys given: on a store that knows neither key, both are
    * answered fresh, each under its own id, and both bodies are in the ledger.
    */
  method TwoTypesBothFresh(ingestor: OpenLineageIngestor, first: RunEvent, second: RunEvent, ids: seq<string>)
    returns (r: Result<seq<Answer>>)
    requires ingestor.Valid() && |ids| == 2 && first.runId == second.runId && first.eventType != second.eventType
    requires first.runId + ":" + first.eventType !in ingestor.vault.working.store.keys
    requires second.runId + ":" + second.eventType !in ingestor.vault.working.store.keys
    modifies ingestor.vault
    ensures ingestor.Valid()
    ensures r.Returned? ==> BothFresh(ingestor.vault.codec, first, second, ids, ingestor.vault.working.store.ledger, r.value)
  {
    ghost var before := ingestor.vault.working.store;
    r := ingestor.IngestBatch([first, second], None, ids);
    if r.Returned? {
      TwoTypesTwoAnswers(ingestor.vault.codec, first, second, ids, before, ingestor.vault.working.store, r.value);
    }
  }

  predicate BothFresh(c: Codec, first: RunEvent, second: RunEvent, ids: seq<string>, ledger: seq<Row>, answers: seq<Answer>)
    requires |ids| == 2
  {
    && |answers| == 2 && !answers[0].duplicate && !answers[1].duplicate
    && answers[0].eventId == ids[0] && answers[1].eventId == ids[1]
    && HasBody(c, ledger, ids[0], first) && HasBody(c, ledger, ids[1], second)
  }

  lemma TwoTypesTwoAnswers(c: Codec, first: RunEvent, second: RunEvent, ids: seq<string>, before: Store, after: Store,
                           answers: seq<Answer>)
    requires |ids| == 2 && first.runId == second.runId && first.eventType != second.eventType
    requires first.runId + ":" + first.eventType !in before.keys && second.runId + ":" + second.eventType !in before.keys
    requires AnswersMean(c, [first, second], None, ids, before, after, answers) && Consistent(c, after)
    ensures BothFresh(c, first, second, ids, after.ledger, answers)
  {
    var events := [first, second];
    OtherTypeOtherKey(first, second);
    FreshExactly(c, events, None, ids, before, after, answers, 0);
    FreshExactly(c, events, None, ids, before, after, answers, 1);
    assert IsNew(events, None, before.keys, 0) && IsNew(events, None, before.keys, 1);
    assert AnswerMeans(c, events[0], Given(None, 0), ids[0], before, after, answers, 0);
    assert AnswerMeans(c, events[1], Given(None, 1), ids[1], before, after, answers, 1);
  }

  lemma OneRowLeads(table: seq<Mapping>, m: Mapping)
    requires m in table
    ensures RowsLead(table, Field(m.inputDataset, m.inputField), Field(m.outputDataset, m.outputField))
  {
    assert Chain(table, [m]) && FromTo([m], Field(m.inputDataset, m.inputField), Field(m.outputDataset, m.outputField));
  }

  /** Once a complete event is answered fresh, the impact of an input's field lists every column of an output that
    * is made from it.
    */
  method IngestThenImpact(ingestor: OpenLineageIngestor, ev: RunEvent, key: Option<string>, id: string,
                          output: RawDataset, input: RawDataset, column: (string, Column), start: Field)
    returns (r: Result<Answer>, impacted: seq<Field>)
    requires ingestor.Valid() && DictColumns(ev.outputs) && ev.eventType == "COMPLETE"
    requires output in ev.outputs && input in ev.inputs && column in output.columns
    requires NameIs(input, start.dataset) && FirstInputIs(column, start.name)
    modifies ingestor.vault
    ensures ingestor.Valid()
    ensures r.Returned? && !r.value.duplicate ==> exists f :: f in impacted && NameIs(output, f.dataset) && f.name == column.0
  {
    ghost var before := ingestor.vault.working;
    r := ingestor.Ingest(ev, key, id);
    ghost var downstream, reachable;
    impacted, downstream, reachable := ingestor.vault.FieldImpactOf(start);
    if r.Returned? && !r.value.duplicate {
      var f := ColumnLeads(ev, r.value, output, input, column, start, before.mappings, ingestor.vault.working.mappings);
      assert f in impacted;
    }
  }

  lemma ColumnCallsFor(ev: RunEvent, output: RawDataset, input: RawDataset, column: (string, Column), start: Field)
    returns (m: Mapping)
    requires output in ev.outputs && input in ev.inputs && column in output.columns
    requires NameIs(input, start.dataset) && FirstInputIs(column, start.name)
    ensures RowOfEvent(ev, m) && NameIs(output, m.outputDataset) && m.outputField == column.0
    ensures m.inputDataset == start.dataset && m.inputField == start.name
  {
    var name := (if output.namespace.Text? then output.namespace.value else "default") + "." +
                (if output.name.Text? then output.name.value else "unknown");
    m := Mapping(ev.runId, name, start.dataset, column.0, start.name);
    assert ColumnRow(output, m.outputField, m.inputField);
    assert RowBetween(ev, output, input, m);
  }

  lemma CalledForIsThere(ev: RunEvent, answer: Answer, m: Mapping, before: seq<Mapping>, after: seq<Mapping>)
    requires RowsMean([ev], [answer], before, after) && !answer.duplicate && ev.eventType == "COMPLETE" && RowOfEvent(ev, m)
    ensures m in after
  {
    assert IsRecorded([ev], [answer], 0);
    assert m in after[|before|..];
  }

  lemma ColumnLeads(ev: RunEvent, answer: Answer, output: RawDataset, input: RawDataset, column: (string, Column), start: Field,
                    before: seq<Mapping>, after: seq<Mapping>) returns (f: Field)
    requires RowsMean([ev], [answer], before, after) && !answer.duplicate && ev.eventType == "COMPLETE"
    requires output in ev.outputs && input in ev.inputs && column in output.columns
    requires NameIs(input, start.dataset) && FirstInputIs(column, start.name)
    ensures NameIs(output, f.dataset) && f.name == column.0 && RowsLead(after, start, f)
  {
    var m := ColumnCallsFor(ev, output, input, column, start);
    CalledForIsThere(ev, answer, m, before, after);
    OneRowLeads(after, m);
    f := Field(m.outputDataset, m.outputField);
  }

  // ------------------------------------------------------------------ field mappings

  /** Once a field mapping is recorded, the impact of each input field lists the output field made from it. */
  method RecordThenImpact(backend: SQLiteStorageBackend, runId: string, outputDataset: string, inputDataset: string,
                          fieldMap: seq<(string, Option<string>)>, outputField: string, inputField: string)
    returns (r: Result<()>, impacted: seq<Field>)
    requires backend.Valid() && (outputField, Some(inputField)) in fieldMap
    modifies backend
    ensures backend.Valid()
    ensures r.Returned? <==> forall i :: 0 <= i < |fieldMap| ==> fieldMap[i].1.Some?
    ensures r.Returned? ==> Field(outputDataset, outputField) in impacted
  {
    ghost var before, inserted := backend.working.mappings, [];
    r, inserted := backend.RecordFieldMapping(runId, outputDataset, inputDataset, fieldMap);
    ghost var downstream, reachable;
    impacted, downstream, reachable := backend.FieldImpactOf(Field(inputDataset, inputField));
    if r.Returned? {
      var i :| 0 <= i < |fieldMap| && fieldMap[i] == (outputField, Some(inputField));
      assert |inserted| == |fieldMap|;
      assert backend.working.mappings[|before| + i] == inserted[i];
      OneRowLeads(backend.working.mappings, inserted[i]);
    }
  }

  // ------------------------------------------------------------------ staging and recovering

  /** The ledger has a row for the event with the text of the payload decoded and encoded again. */
  predicate HasReplayed(c: Codec, ledger: seq<Row>, e: string, text: string) {
    exists row :: row in ledger && row.eventId == e && VaultEffects.Reencoded(c, text, row.payload)
  }

  lemma RowIsReplayed(c: Codec, before: seq<Row>, staged: seq<Staged>, after: seq<Row>, k: nat)
    requires VaultEffects.RowsRecovered(c, before, staged, after) && k < |staged|
    ensures HasReplayed(c, after, staged[k].eventId, staged[k].text)
  {
    assert VaultEffects.IsRecoveredRow(c, staged[k], after[|before| + k]);
    assert after[|before| + k] in after;
  }

  lemma Recovers(c: Codec, s: Store)
    requires Consistent(c, s)
    ensures Recover(c, s).Recovered?
  {
    VaultEffects.RecoveryIsMeant(c, s);
  }

  /** A partial event staged under a new id outlives a crash, and recovery puts it into the ledger. */
  method StageThenRecover(backend: SQLiteStorageBackend, e: string, payload: Payload) returns (r: Result<nat>)
    requires backend.Valid() && backend.codec.dumps(payload).Some? && !VaultEffects.IsStaged(backend.working.store, e)
    modifies backend
    ensures backend.Valid() && r.Returned?
    ensures HasReplayed(backend.codec, backend.durable.store.ledger, e, backend.codec.dumps(payload).value)
    ensures backend.durable.store.pending == []
  {
    ghost var p := backend.working.store.pending;
    var staged := backend.StagePartial(e, payload);
    backend.CrashAndReopen();
    r := RecoverAll(backend, |p|);
  }

  method RecoverAll(backend: SQLiteStorageBackend, ghost k: nat) returns (r: Result<nat>)
    requires backend.Valid() && k < |backend.working.store.pending|
    modifies backend
    ensures backend.Valid() && r.Returned? && backend.durable.store.pending == []
    ensures var row := old(backend.working.store.pending)[k];
            HasReplayed(backend.codec, backend.durable.store.ledger, row.eventId, row.text)
  {
    ghost var s := backend.working.store;
    Recovers(backend.codec, s);
    r := backend.RecoverUncommitted();
    RowIsReplayed(backend.codec, s.ledger, s.pending, backend.durable.store.ledger, k);
  }

  /** The same with the two files: when the replay returns, the event staged under a new id is in the ledger. */
  method StageThenReplay(wal: TwoFile.WalBuffer, e: string, payload: Payload) returns (r: Result<nat>)
    requires wal.Valid() && wal.ledger.codec.dumps(payload).Some?
    requires e !in wal.working.settled && !TwoFile.IsPending(wal.working, e)
    modifies wal, wal.ledger
    ensures wal.Valid()
    ensures r.Returned? ==>
      HasReplayed(wal.ledger.codec, wal.ledger.rows, e, wal.ledger.codec.dumps(payload).value) && wal.durable.pending == []
  {
    ghost var p := wal.working.pending;
    var staged := wal.Stage(e, payload);
    wal.CrashAndReopen();
    r := ReplayAll(wal, |p|);
  }

  method ReplayAll(wal: TwoFile.WalBuffer, ghost k: nat) returns (r: Result<nat>)
    requires wal.Valid() && k < |wal.working.pending|
    modifies wal, wal.ledger
    ensures wal.Valid()
    ensures r.Returned? ==> wal.durable.pending == []
    ensures var row := old(wal.working.pending)[k];
            r.Returned? ==> HasReplayed(wal.ledger.codec, wal.ledger.rows, row.eventId, row.text)
  {
    ghost var w, l := wal.working, wal.ledger.rows;
    r := wal.ReplayPending();
    if r.Returned? {
      ReplayedToTheEnd(wal.ledger.codec, w, l, wal.working, wal.ledger.rows, k);
    }
  }

  lemma ReplayedToTheEnd(c: Codec, w: TwoFile.Wal, l: seq<Row>, w': TwoFile.Wal, l': seq<Row>, k: nat)
    requires TwoFile.ReplayMeans(c, w, l, |w.pending|, w', l') && k < |w.pending|
    ensures w'.pending == [] && HasReplayed(c, l', w.pending[k].eventId, w.pending[k].text)
  {
    assert w.pending[..|w.pending|] == w.pending;
    RowIsReplayed(c, l, w.pending, l', k);
  }
}
