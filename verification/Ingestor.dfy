/** The class `OpenLineageIngestor`, over the SQLite backend. */
module Ingestor {
  import opened Wrappers
  import opened Vault
  import opened VaultLaws
  import opened Codecs
  import opened SQLiteBackend
  import opened OpenLineage
  import opened LineageCover
  import opened OpenLineageIngest
  import opened FieldImpact
  import opened EventRows
  import opened IngestEffects
  import Runs = VaultRuns

  class OpenLineageIngestor {
    const vault: SQLiteStorageBackend

    /** Every state of the storage so far, also inside calls and after crashes, has its mappings over edges. */
    ghost predicate Valid()
      reads this, vault
    {
      vault.Valid() && AllCovered(vault.observed)
    }

    constructor (vault: SQLiteStorageBackend)
      requires vault.Valid() && AllCovered(vault.observed)
      ensures Valid() && this.vault == vault
    {
      this.vault := vault;
    }

    /** A new process opens the file, as a crash at any statement may have left it. */
    constructor Open(codec: Codec, file: Db)
      requires Sound(codec) && FileFits(codec, file) && Covered(file)
      ensures Valid() && fresh(vault) && vault.codec == codec && vault.working == vault.durable == file
    {
      var backend := new SQLiteStorageBackend.Open(codec, file);
      vault := backend;
      new;
      CoveredSnoc([], Snapshot(file, file));
      assert vault.observed == [] + [Snapshot(file, file)];
    }

    // ---------------------------------------------------------------- one event's lineage

    /** The tables, in the connection and in the file, are `start` with these writes on its lineage, none of
      * which raised.
      */
    ghost predicate Wrote(start: Db, ws: seq<Write>)
      reads this, vault
    {
      && Valid() && AllAccepted(ws)
      && vault.durable == vault.working == WithLineage(start, Applied(LineageOf(start), ws))
    }

    method WriteEdge(edge: Edge, ghost start: Db, ghost ws: seq<Write>)
      requires Wrote(start, ws) && vault.codec.dumps(edge.payload).Some?
      modifies vault
      ensures Wrote(start, ws + [AddEdge(edge)])
    {
      ghost var was := vault.observed;
      CoveredAt(was, |was| - 1);
      EdgeCovers(vault.working, edge);
      AppliedSnoc(LineageOf(start), ws, AddEdge(edge));
      var r := vault.AddDatasetEdge(edge);
      CoveredSnoc(was, vault.observed[|was|]);
      CoveredSnoc(was + [vault.observed[|was|]], vault.observed[|was| + 1]);
      assert vault.observed == was + [vault.observed[|was|]] + [vault.observed[|was| + 1]];
    }

    method WriteMapping(m: FieldMapping, ghost start: Db, ghost ws: seq<Write>) returns (ok: bool)
      requires Wrote(start, ws) && (m.inputDataset, m.outputDataset) in EdgePairs(vault.working.edges)
      modifies vault
      ensures Valid()
      ensures ok <==> Accepted(AddMappings(m))
      ensures vault.working == WithLineage(start, Applied(LineageOf(start), ws + [AddMappings(m)]))
      ensures vault.durable == if ok then vault.working else old(vault.durable)
      ensures vault.working.edges == old(vault.working.edges)
    {
      ghost var was, before := vault.observed, vault.durable;
      ghost var rows := MappingRows(m.runId, m.outputDataset, m.inputDataset, m.fieldMap);
      AppliedSnoc(LineageOf(start), ws, AddMappings(m));
      RowsOverPair(m.runId, m.outputDataset, m.inputDataset, m.fieldMap);
      var r, inserted := vault.RecordFieldMapping(m.runId, m.outputDataset, m.inputDataset, m.fieldMap);
      MappingKeepsCover(vault.codec, was, vault.observed, before, vault.durable, rows, m.inputDataset, m.outputDataset);
      ok := r.Returned?;
    }

    /** The body of the double loop: the edge first, then the fields both datasets have by name. */
    method RecordPair(ev: RunEvent, output: DatasetRef, input: DatasetRef, ghost start: Db, ghost ws: seq<Write>)
      requires Wrote(start, ws) && vault.codec.dumps(ev.body).Some?
      modifies vault
      ensures Wrote(start, ws + PairWrites(ev, output, input))
      ensures vault.working.edges == old(vault.working.edges) + [EdgeOf(ev, output, input)]
    {
      var edge, shared := EdgeOf(ev, output, input), SharedMapping(ev, output, input);
      AppliedSnoc(LineageOf(start), ws, AddEdge(edge));
      WriteEdge(edge, start, ws);
      EdgePairsSnoc(old(vault.working.edges), edge);
      if shared.fieldMap == [] {
        assert PairWrites(ev, output, input) == [AddEdge(edge)];
      } else {
        SharedMapAccepted(output.fields, FieldNames(input.fields));
        AppliedSnoc(LineageOf(start), ws + [AddEdge(edge)], AddMappings(shared));
        var ok := WriteMapping(shared, start, ws + [AddEdge(edge)]);
        assert ws + PairWrites(ev, output, input) == ws + [AddEdge(edge)] + [AddMappings(shared)];
      }
    }

    method RecordOutput(ev: RunEvent, output: DatasetRef, inputs: seq<DatasetRef>, ghost start: Db, ghost ws: seq<Write>)
      requires Wrote(start, ws) && vault.codec.dumps(ev.body).Some?
      modifies vault
      ensures Wrote(start, ws + OutputWrites(ev, output, inputs))
      ensures old(vault.working.edges) <= vault.working.edges && PairsFor(vault.working.edges, output, inputs)
    {
      OutputWritesNone(ev, output, inputs, ws);
      for j := 0 to |inputs|
        invariant Wrote(start, ws + OutputWrites(ev, output, inputs[..j]))
        invariant old(vault.working.edges) <= vault.working.edges
        invariant PairsFor(vault.working.edges, output, inputs[..j])
      {
        ghost var edges, done := vault.working.edges, ws + OutputWrites(ev, output, inputs[..j]);
        RecordPair(ev, output, inputs[j], start, done);
        OutputWritesNext(ev, output, inputs, j, ws);
        PairsForNext(edges, ev, output, inputs, j);
      }
      assert inputs[..|inputs|] == inputs;
    }

    method RecordEdges(ev: RunEvent, outputs: seq<DatasetRef>, inputs: seq<DatasetRef>, ghost start: Db)
      requires Wrote(start, []) && vault.codec.dumps(ev.body).Some?
      modifies vault
      ensures Wrote(start, EdgeWrites(ev, outputs, inputs)) && AllPairs(vault.working.edges, outputs, inputs)
    {
      for i := 0 to |outputs|
        invariant Wrote(start, EdgeWrites(ev, outputs[..i], inputs))
        invariant AllPairs(vault.working.edges, outputs[..i], inputs)
      {
        assert outputs[..i + 1][..i] == outputs[..i] && outputs[..i + 1] == outputs[..i] + [outputs[i]];
        ghost var edges := vault.working.edges;
        RecordOutput(ev, outputs[i], inputs, start, EdgeWrites(ev, outputs[..i], inputs));
        PairsStay(edges, vault.working.edges, outputs[..i], outputs[i], inputs);
      }
      assert outputs[..|outputs|] == outputs;
    }

    /** The column mappings, all of them over edges that are there by now. */
    method RecordMappings(ms: seq<FieldMapping>, ghost start: Db, ghost ws: seq<Write>) returns (ok: bool)
      requires Wrote(start, ws)
      requires forall m :: m in ms ==> (m.inputDataset, m.outputDataset) in EdgePairs(vault.working.edges)
      modifies vault
      ensures WroteUpTo(start, ws + MappingWrites(ms))
      ensures ok <==> AllAccepted(ws + MappingWrites(ms))
    {
      assert ws + [] == ws;
      for i := 0 to |ms|
        invariant Wrote(start, ws + MappingWrites(ms[..i])) && vault.working.edges == old(vault.working.edges)
      {
        ghost var done := ws + MappingWrites(ms[..i]);
        assert ms[..i + 1][..i] == ms[..i];
        assert ws + MappingWrites(ms[..i + 1]) == done + [AddMappings(ms[i])];
        AppliedSnoc(LineageOf(start), done, AddMappings(ms[i]));
        ok := WriteMapping(ms[i], start, done);
        if !ok {
          MappingsStop(LineageOf(start), ws, ms, i);
          return;
        }
      }
      assert ms[..|ms|] == ms;
      ok := true;
    }

    /** The writes are done up to the first that raises; what that one inserted is in the connection only. */
    ghost predicate WroteUpTo(start: Db, ws: seq<Write>)
      reads this, vault
    {
      && Valid()
      && vault.working == WithLineage(start, Applied(LineageOf(start), ws))
      && vault.durable == WithLineage(start, Applied(LineageOf(start), AcceptedPrefix(ws)))
    }

    /** `_record_lineage`. Said of the event as it came in: when recording returns, and which rows both tables
      * have gained then; and which edges they have gained when a column mapping raises behind them.
      */
    method RecordLineage(ev: RunEvent) returns (ok: bool)
      requires Valid() && vault.durable == vault.working && vault.codec.dumps(ev.body).Some?
      modifies vault
      ensures WroteUpTo(old(vault.working), WritesOf(ev))
      ensures ok <==> AllAccepted(WritesOf(ev))
      ensures vault.working.store == old(vault.working.store) && vault.working.runEvents == old(vault.working.runEvents)
      ensures DictColumns(ev.outputs) ==> (ok <==> Recordable(ev))
      ensures ok ==> vault.durable == vault.working
      ensures ok && DictColumns(ev.outputs) ==> RowsAdded(ev, old(vault.working.mappings), vault.working.mappings)
      ensures SomeIllTyped(ev.inputs) || SomeIllTyped(ev.outputs) ==> vault.working == vault.durable == old(vault.working)
      ensures !SomeIllTyped(ev.inputs) && !SomeIllTyped(ev.outputs) ==>
                EdgesAdded(ev, old(vault.working.edges), vault.working.edges) && vault.durable.edges == vault.working.edges
    {
      ghost var start := vault.working;
      ghost var l := LineageOf(start);
      RecordingMeans(start, ev);
      RaiseAddsNothing(l);
      var inputs := ParseDatasets(ev.inputs);
      if inputs.None? {
        return false;
      }
      var outputs := ParseDatasets(ev.outputs);
      if outputs.None? {
        return false;
      }
      if inputs.value == [] || outputs.value == [] {
        return true;
      }
      RecordEdges(ev, outputs.value, inputs.value, start);
      ParsedAreNamed(ev.inputs);
      ParsedAreNamed(ev.outputs);
      var ms := FieldMappings(ev);
      forall m | m in ms ensures (m.inputDataset, m.outputDataset) in EdgePairs(vault.working.edges) {
        MappingOverPairs(ev, ev.outputs, m, vault.working.edges);
      }
      ok := RecordMappings(ms, start, EdgeWrites(ev, outputs.value, inputs.value));
    }

    // ---------------------------------------------------------------- batches

    method BuildItems(events: seq<RunEvent>, keys: seq<Option<string>>, ids: seq<string>) returns (items: seq<Item>)
      requires |events| == |keys| == |ids|
      ensures items == ItemsOf(events, keys, ids)
    {
      items := [];
      for i := 0 to |events|
        invariant items == ItemsOf(events[..i], keys[..i], ids[..i])
      {
        ItemsSnoc(events, keys, ids, i);
        items := items + [BatchWriteItem(KeyOf(events[i], keys[i]), ids[i], events[i].body)];
      }
      assert events[..|events|] == events && keys[..|keys|] == keys && ids[..|ids|] == ids;
    }

    /** The batch of acknowledged writes, with every state in between covered. */
    method Acknowledge(items: seq<Item>) returns (r: Result<seq<Ack>>)
      requires Valid() && items != []
      modifies vault
      ensures Valid()
      ensures match AckAll(vault.codec, old(vault.working.store), items)
              case Done(t, acks) => r == Returned(acks)
              case Failed => r.Raised?
      ensures Snapshot(vault.working, vault.durable) ==
              AfterCall(vault.codec, old(Snapshot(vault.working, vault.durable)), Runs.Acknowledge(items))
    {
      ghost var was, before := vault.observed, vault.durable;
      CoveredAt(was, |was| - 1);
      r := vault.AcknowledgeWritesBatch(items);
      VaultCallKeepsCover(vault.codec, was, vault.observed, before, vault.durable);
    }

    method StoreEvent(ev: RunEvent)
      requires Valid() && vault.codec.dumps(ev.body).Some?
      modifies vault
      ensures Valid() && vault.durable == vault.working
      ensures vault.working == old(vault.working).(
                runEvents := old(vault.working.runEvents)[(ev.runId, ev.eventType) := vault.codec.dumps(ev.body).value])
    {
      ghost var was := vault.observed;
      CoveredAt(was, |was| - 1);
      var r := vault.StoreRunEvent(ev.runId, ev.eventType, ev.body);
      CoveredSnoc(was, vault.observed[|was|]);
      CoveredSnoc(was + [vault.observed[|was|]], vault.observed[|was| + 1]);
      assert vault.observed == was + [vault.observed[|was|]] + [vault.observed[|was| + 1]];
    }

    /** One turn of the loop over the answers. */
    method RecordOne(ev: RunEvent, ack: Ack) returns (ok: bool)
      requires Valid() && vault.durable == vault.working
      requires !ack.duplicate ==> vault.codec.dumps(ev.body).Some?
      modifies vault
      ensures WroteUpTo(Noted(vault.codec, old(vault.working), ev, ack), EventWrites(ev, ack))
      ensures ok <==> AllAccepted(EventWrites(ev, ack))
    {
      ok := true;
      if !ack.duplicate {
        StoreEvent(ev);
        if ev.eventType == "COMPLETE" {
          ok := RecordLineage(ev);
        }
      }
    }

    /** The loop over the answers: run events are stored, and complete events leave their lineage. */
    method RecordBatch(events: seq<RunEvent>, acks: seq<Ack>) returns (r: Result<seq<Answer>>)
      requires Valid() && vault.durable == vault.working && |events| == |acks|
      requires forall i :: 0 <= i < |events| && !acks[i].duplicate ==> vault.codec.dumps(events[i].body).Some?
      modifies vault
      ensures Valid()
      ensures Snapshot(vault.working, vault.durable) == Recorded(vault.codec, old(vault.working), events, acks)
      ensures r == if AllAccepted(BatchWrites(events, acks)) then Returned(Answers(events, acks)) else Raised
    {
      ghost var start := vault.working;
      var out: seq<Answer> := [];
      RecordedNone(vault.codec, start, events, acks);
      for i := 0 to |events|
        invariant Valid() && AllAccepted(BatchWrites(events[..i], acks[..i]))
        invariant vault.durable == vault.working == RecordedTo(vault.codec, start, events, acks, i)
        invariant out == Answers(events[..i], acks[..i])
      {
        var ev, ack := events[i], acks[i];
        AnswersNext(events, acks, i);
        RecordedNext(vault.codec, start, events, acks, i);
        var ok := RecordOne(ev, ack);
        if !ok {
          RecordedStops(vault.codec, start, events, acks, i);
          return Raised;
        }
        out := out + [Answer(ack.eventId, ack.duplicate, ack.acknowledged, ev.runId, ev.eventType)];
      }
      RecordedFully(vault.codec, start, events, acks);
      return Returned(out);
    }

    /** `ingest_batch`; `ids` are the event ids it draws. It returns exactly when the batch is acknowledged and
      * no lineage write raises.
      */
    method IngestBatch(events: seq<RunEvent>, idempotencyKeys: Option<seq<Option<string>>>, ids: seq<string>)
      returns (r: Result<seq<Answer>>)
      requires Valid() && |ids| == |events|
      modifies vault
      ensures Valid()
      ensures Snapshot(vault.working, vault.durable) ==
              AfterIngest(vault.codec, old(Snapshot(vault.working, vault.durable)), events, idempotencyKeys, ids)
      ensures events == [] ==> r == Returned([])
      ensures events != [] && KeyList(|events|, idempotencyKeys).None? ==> r.Raised?
      ensures events != [] && KeyList(|events|, idempotencyKeys).Some? ==>
        match AckAll(vault.codec, old(vault.working.store), ItemsOf(events, KeyList(|events|, idempotencyKeys).value, ids))
        case Failed => r.Raised?
        case Done(_, acks) =>
          && |acks| == |events|
          && r == (if AllAccepted(BatchWrites(events, acks)) then Returned(Answers(events, acks)) else Raised)
      ensures IngestOutcome(vault.codec, events, idempotencyKeys, ids, old(vault.working), vault.working, r)
      ensures r.Returned? && events != [] ==> vault.durable == vault.working
    {
      ghost var before := vault.working;
      NothingMeans(vault.codec, idempotencyKeys, before);
      if events == [] {
        return Returned([]);
      }
      KeyListExactly(events, idempotencyKeys);
      if KeyList(|events|, idempotencyKeys).None? {
        return Raised;
      }
      AcknowledgedExactly(vault.codec, before.store, events, idempotencyKeys, ids);
      var keys := KeyList(|events|, idempotencyKeys).value;
      var items := BuildItems(events, keys, ids);
      ItemsLength(events, keys, ids);
      var results := Acknowledge(items);
      if results.Raised? {
        OutcomeUnacknowledged(vault.codec, events, idempotencyKeys, ids, before, vault.working);
        return Raised;
      }
      BatchAnswers(vault.codec, before.store, items);
      forall i | 0 <= i < |events| && !results.value[i].duplicate ensures vault.codec.dumps(events[i].body).Some? {
        ItemsAt(events, keys, ids, i);
        FreshEncodes(vault.codec, before.store, items, i);
      }
      ghost var mid := vault.working;
      r := RecordBatch(events, results.value);
      OutcomeAcknowledged(vault.codec, events, idempotencyKeys, ids, before, mid);
    }

    /** `ingest`: a batch of one; its one answer. */
    method Ingest(ev: RunEvent, key: Option<string>, id: string) returns (r: Result<Answer>)
      requires Valid()
      modifies vault
      ensures Valid()
      ensures var keys := if key.Some? && key.value != "" then Some([key]) else None;
              Snapshot(vault.working, vault.durable) ==
              AfterIngest(vault.codec, old(Snapshot(vault.working, vault.durable)), [ev], keys, [id])
      ensures match AckAll(vault.codec, old(vault.working.store), [BatchWriteItem(KeyOf(ev, key), id, ev.body)])
              case Failed => r.Raised?
              case Done(_, acks) =>
                && |acks| == 1
                && r == (if AllAccepted(EventWrites(ev, acks[0]))
                         then Returned(Answer(acks[0].eventId, acks[0].duplicate, acks[0].acknowledged, ev.runId, ev.eventType))
                         else Raised)
      ensures IngestOutcome(vault.codec, [ev], Some([key]), [id], old(vault.working), vault.working,
                            match r case Returned(a) => Returned([a]) case Raised => Raised)
      ensures r.Returned? ==> vault.durable == vault.working
    {
      var keys := if key.Some? && key.value != "" then Some([key]) else None;
      SingleItem(ev, key, keys, id);
      ghost var b := AckAll(vault.codec, vault.working.store, [BatchWriteItem(KeyOf(ev, key), id, ev.body)]);
      if b.Done? && |b.acks| == 1 {
        SingleBatch(ev, b.acks);
      }
      ghost var before := vault.working;
      var answers := IngestBatch([ev], keys, [id]);
      OneKeyOutcome(vault.codec, ev, key, id, before, vault.working, answers);
      match answers {
        case Returned(a) =>
          assert a == [a[0]];
          r := Returned(a[0]);
        case Raised => r := Raised;
      }
    }

    /** The process dies between calls and the file is opened again. */
    method CrashAndReopen()
      requires Valid()
      modifies vault
      ensures Valid() && vault.working == vault.durable == old(vault.durable)
    {
      ghost var was := vault.observed;
      CoveredAt(was, |was| - 1);
      vault.CrashAndReopen();
      CoveredSnoc(was, vault.observed[|was|]);
      assert vault.observed == was + [vault.observed[|was|]];
    }

    /** The process dies at any statement so far, inside a call or between calls: the file it leaves can be
      * opened, and another ingestor goes on from there.
      */
    lemma CrashLeavesFile(i: nat)
      requires Valid() && i < |vault.observed|
      ensures FileFits(vault.codec, vault.observed[i].durable) && Covered(vault.observed[i].durable)
    {
      DurableOnlyGrows(vault.codec, vault.observed, i, i);
      CoveredAt(vault.observed, i);
    }

    /** Impact stays inside: every impacted field's dataset is the queried one or downstream of it. */
    method Impact(start: Field) returns (impacted: seq<Field>, downstream: seq<string>)
      requires Valid()
      ensures forall f :: f in impacted ==> f.dataset == start.dataset || f.dataset in downstream
    {
      ghost var reachable;
      impacted, downstream, reachable := vault.FieldImpactOf(start);
      CoveredAt(vault.observed, |vault.observed| - 1);
      ImpactInsideDownstream(vault.working, start, reachable, impacted, downstream);
    }
  }

  /** What the writes of an event come to, said of the event. */
  lemma RecordingMeans(start: Db, ev: RunEvent)
    ensures var l, ws := LineageOf(start), WritesOf(ev);
            && (DictColumns(ev.outputs) ==> (AllAccepted(ws) <==> Recordable(ev)))
            && (AllAccepted(ws) ==> AcceptedPrefix(ws) == ws)
            && (AllAccepted(ws) && DictColumns(ev.outputs) ==> RowsAdded(ev, start.mappings, Applied(l, ws).mappings))
            && Applied(l, AcceptedPrefix(ws)).edges == Applied(l, ws).edges
            && (if SomeIllTyped(ev.inputs) || SomeIllTyped(ev.outputs) then Applied(l, ws) == Applied(l, AcceptedPrefix(ws)) == l
                else EdgesAdded(ev, start.edges, Applied(l, ws).edges))
  {
    var l, ws := LineageOf(start), WritesOf(ev);
    RecordedEdgesOf(l, ev);
    RefusedAddsNoEdge(l, ws);
    if DictColumns(ev.outputs) {
      RecordableExactly(ev);
      if AllAccepted(ws) {
        RecordedRows(l, ev);
      }
    }
    if SomeIllTyped(ev.inputs) || SomeIllTyped(ev.outputs) {
      RaisesAlone(l, ev);
    }
  }

  lemma RaisesAlone(l: Lineage, ev: RunEvent)
    requires SomeIllTyped(ev.inputs) || SomeIllTyped(ev.outputs)
    ensures Applied(l, AcceptedPrefix(WritesOf(ev))) == l
  {
    ParsedAllExactly(ev.inputs);
    ParsedAllExactly(ev.outputs);
    assert WritesOf(ev) == [Raise];
    RaiseAddsNothing(l);
    assert [Raise][..0] == [];
  }

  lemma SingleItem(ev: RunEvent, key: Option<string>, keys: Option<seq<Option<string>>>, id: string)
    requires keys == if key.Some? && key.value != "" then Some([key]) else None
    ensures KeyList(1, keys).Some?
    ensures ItemsOf([ev], KeyList(1, keys).value, [id]) == [BatchWriteItem(KeyOf(ev, key), id, ev.body)]
  {
    var ks := KeyList(1, keys).value;
    assert ItemsOf([ev], ks, [id]) == ItemsOf([], [], []) + [BatchWriteItem(KeyOf(ev, ks[0]), id, ev.body)] by {
      assert [ev][..0] == [] && ks[..0] == [] && [id][..0] == [];
    }
  }

  lemma SingleBatch(ev: RunEvent, acks: seq<Ack>)
    requires |acks| == 1
    ensures BatchWrites([ev], acks) == EventWrites(ev, acks[0])
    ensures Answers([ev], acks) ==
            [Answer(acks[0].eventId, acks[0].duplicate, acks[0].acknowledged, ev.runId, ev.eventType)]
  {
    assert [ev][..0] == [] && acks[..0] == [];
    assert BatchWrites([], []) == [] && Answers([], []) == [];
    assert [] + EventWrites(ev, acks[0]) == EventWrites(ev, acks[0]);
  }

  /** An item whose answer is not a duplicate encodes. */
  lemma FreshEncodes(c: Codec, s: Store, items: seq<Item>, i: nat)
    requires AckAll(c, s, items).Done? && i < |items|
    requires |AckAll(c, s, items).acks| == |items| && !AckAll(c, s, items).acks[i].duplicate
    ensures c.dumps(items[i].payload).Some?
  {
    BatchAnswers(c, s, items);
    BatchWritesFresh(c, s, items);
    assert AnswerFits(s, AckAll(c, s, items).store, items, i, AckAll(c, s, items).acks[i]);
    Runs.FreshAnswerItem(s.keys.Keys, items, i);
  }

  /** The loop over the column mappings stops at mapping `n`. */
  lemma MappingsStop(l: Lineage, ws: seq<Write>, ms: seq<FieldMapping>, n: nat)
    requires n < |ms| && AllAccepted(ws + MappingWrites(ms[..n])) && !Accepted(AddMappings(ms[n]))
    ensures !AllAccepted(ws + MappingWrites(ms))
    ensures AcceptedPrefix(ws + MappingWrites(ms)) == ws + MappingWrites(ms[..n])
    ensures Applied(l, ws + MappingWrites(ms)) == Applied(l, ws + MappingWrites(ms[..n]) + [AddMappings(ms[n])])
  {
    var done, w := ws + MappingWrites(ms[..n]), AddMappings(ms[n]);
    MappingWritesSplit(ms, n);
    var rest := MappingWrites(ms)[n + 1..];
    assert ws + MappingWrites(ms) == done + [w] + rest;
    AcceptedPrefixIs(done, w, rest);
    AppliedSnoc(l, done, w);
    AppliedConcat(l, done + [w], rest);
  }

  lemma {:induction false} MappingWritesSplit(ms: seq<FieldMapping>, n: nat)
    requires n < |ms|
    ensures |MappingWrites(ms)| == |ms| && MappingWrites(ms)[..n] == MappingWrites(ms[..n])
    ensures MappingWrites(ms)[n] == AddMappings(ms[n])
    decreases |ms|
  {
    var init := ms[..|ms| - 1];
    MappingWritesLength(init);
    if n < |init| {
      assert init[..n] == ms[..n];
      MappingWritesSplit(init, n);
    } else {
      assert init == ms[..n];
    }
  }

  lemma {:induction false} MappingWritesLength(ms: seq<FieldMapping>)
    ensures |MappingWrites(ms)| == |ms|
  {
    if ms != [] {
      MappingWritesLength(ms[..|ms| - 1]);
    }
  }

  // ------------------------------------------------------------------ the loop over the answers

  /** The tables with the event's run event stored. */
  function Noted(c: Codec, w: Db, ev: RunEvent, ack: Ack): Db {
    if ack.duplicate || c.dumps(ev.body).None? then w
    else w.(runEvents := w.runEvents[(ev.runId, ev.eventType) := c.dumps(ev.body).value])
  }

  /** The tables after the first `i` answers. */
  function RecordedTo(c: Codec, start: Db, events: seq<RunEvent>, acks: seq<Ack>, i: nat): Db
    requires |events| == |acks| && i <= |events|
  {
    WithLineage(start.(runEvents := RunEventsAfter(c, start.runEvents, events[..i], acks[..i])),
                Applied(LineageOf(start), BatchWrites(events[..i], acks[..i])))
  }

  lemma RecordedNone(c: Codec, start: Db, events: seq<RunEvent>, acks: seq<Ack>)
    requires |events| == |acks|
    ensures RecordedTo(c, start, events, acks, 0) == start && BatchWrites(events[..0], acks[..0]) == []
  {
    assert events[..0] == [] && acks[..0] == [];
  }

  /** One more answer, in terms of the tables before it. */
  lemma RecordedNext(c: Codec, start: Db, events: seq<RunEvent>, acks: seq<Ack>, i: nat)
    requires |events| == |acks| && i < |events| && AllAccepted(BatchWrites(events[..i], acks[..i]))
    ensures var w, ws := Noted(c, RecordedTo(c, start, events, acks, i), events[i], acks[i]), EventWrites(events[i], acks[i]);
            && RecordedTo(c, start, events, acks, i + 1) == WithLineage(w, Applied(LineageOf(w), ws))
            && (AllAccepted(BatchWrites(events[..i + 1], acks[..i + 1])) <==> AllAccepted(ws))
            && Applied(LineageOf(start), AcceptedPrefix(BatchWrites(events[..i + 1], acks[..i + 1]))) ==
               Applied(LineageOf(w), AcceptedPrefix(ws))
  {
    assert events[..i + 1][..i] == events[..i] && acks[..i + 1][..i] == acks[..i];
    var before, more := BatchWrites(events[..i], acks[..i]), EventWrites(events[i], acks[i]);
    AppliedConcat(LineageOf(start), before, more);
    AcceptedPrefixConcat(before, more);
    AppliedConcat(LineageOf(start), before, AcceptedPrefix(more));
  }

  lemma AnswersNext(events: seq<RunEvent>, acks: seq<Ack>, i: nat)
    requires |events| == |acks| && i < |events|
    ensures Answers(events[..i + 1], acks[..i + 1]) == Answers(events[..i], acks[..i]) +
            [Answer(acks[i].eventId, acks[i].duplicate, acks[i].acknowledged, events[i].runId, events[i].eventType)]
  {
    assert events[..i + 1][..i] == events[..i] && acks[..i + 1][..i] == acks[..i];
  }

  /** The loop stops at answer `i`. */
  lemma RecordedStops(c: Codec, start: Db, events: seq<RunEvent>, acks: seq<Ack>, i: nat)
    requires |events| == |acks| && i < |events| && AllAccepted(BatchWrites(events[..i], acks[..i]))
    requires !AllAccepted(BatchWrites(events[..i + 1], acks[..i + 1]))
    ensures !AllAccepted(BatchWrites(events, acks))
    ensures Recorded(c, start, events, acks) ==
            Snapshot(RecordedTo(c, start, events, acks, i + 1),
                     WithLineage(RecordedTo(c, start, events, acks, i + 1),
                                 Applied(LineageOf(start), AcceptedPrefix(BatchWrites(events[..i + 1], acks[..i + 1])))))
  {
    var l, first, all := LineageOf(start), BatchWrites(events[..i + 1], acks[..i + 1]), BatchWrites(events, acks);
    ReachedAt(events, acks, i);
    BatchWritesPrefix(l, events, acks, i + 1);
    BatchWritesGrow(events, acks, i + 1);
    AcceptedPrefixConcat(first, all[|first|..]);
    assert first + all[|first|..] == all;
  }

  /** The loop gets through. */
  lemma RecordedFully(c: Codec, start: Db, events: seq<RunEvent>, acks: seq<Ack>)
    requires |events| == |acks| && AllAccepted(BatchWrites(events[..|events|], acks[..|acks|]))
    ensures AllAccepted(BatchWrites(events, acks)) && Answers(events[..|events|], acks[..|acks|]) == Answers(events, acks)
    ensures Recorded(c, start, events, acks) ==
            Snapshot(RecordedTo(c, start, events, acks, |events|), RecordedTo(c, start, events, acks, |events|))
  {
    assert events[..|events|] == events && acks[..|acks|] == acks;
    ReachedAll(events, acks);
  }
}
