/** `OpenLineageIngestor`: which keys a batch is acknowledged under, whose lineage is recorded, and in what
  * order edges and field mappings are written.
  */
module OpenLineageIngest {
  import opened Wrappers
  import opened Vault
  import opened SQLiteBackend
  import opened OpenLineage
  import opened FieldImpact
  import Runs = VaultRuns

  // ------------------------------------------------------------------ what an event writes, in order

  /** One storage call of `_record_lineage`, or its exception when a dataset cannot be parsed. */
  datatype Write = AddEdge(edge: Edge) | AddMappings(mapping: FieldMapping) | Raise

  datatype Lineage = Lineage(edges: seq<Edge>, mappings: seq<Mapping>)

  function LineageOf(db: Db): Lineage { Lineage(db.edges, db.mappings) }

  predicate Accepted(w: Write) {
    match w
    case AddEdge(_) => true
    case AddMappings(m) => forall i :: 0 <= i < |m.fieldMap| ==> m.fieldMap[i].1.Some?
    case Raise => false
  }

  predicate AllAccepted(ws: seq<Write>) { forall w :: w in ws ==> Accepted(w) }

  function Effect(l: Lineage, w: Write): Lineage {
    match w
    case AddEdge(e) => l.(edges := l.edges + [e])
    case AddMappings(m) =>
      l.(mappings := l.mappings + MappingRows(m.runId, m.outputDataset, m.inputDataset, m.fieldMap))
    case Raise => l
  }

  /** The lineage tables after the writes, up to and including the first that raises. */
  function Applied(l: Lineage, ws: seq<Write>): Lineage {
    if ws == [] then l
    else
      var before := Applied(l, ws[..|ws| - 1]);
      if AllAccepted(ws[..|ws| - 1]) then Effect(before, ws[|ws| - 1]) else before
  }

  lemma AppliedSnoc(l: Lineage, ws: seq<Write>, w: Write)
    requires AllAccepted(ws)
    ensures Applied(l, ws + [w]) == Effect(Applied(l, ws), w)
    ensures AllAccepted(ws + [w]) <==> Accepted(w)
  {
    assert (ws + [w])[..|ws|] == ws;
  }

  lemma AppliedOne(l: Lineage, w: Write)
    ensures Applied(l, [w]) == Effect(l, w)
    ensures AllAccepted([w]) <==> Accepted(w)
  {
    assert [w][..0] == [];
    assert Applied(l, []) == l;
    assert w in [w];
  }

  lemma AppliedTwo(l: Lineage, v: Write, w: Write)
    requires Accepted(v)
    ensures Applied(l, [v, w]) == Effect(Effect(l, v), w)
    ensures AllAccepted([v, w]) <==> Accepted(w)
  {
    AppliedOne(l, v);
    AppliedSnoc(l, [v], w);
    assert [v] + [w] == [v, w];
  }

  lemma {:induction false} AppliedConcat(l: Lineage, ws: seq<Write>, more: seq<Write>)
    ensures Applied(l, ws + more) == if AllAccepted(ws) then Applied(Applied(l, ws), more) else Applied(l, ws)
    ensures AllAccepted(ws + more) <==> AllAccepted(ws) && AllAccepted(more)
  {
    if more == [] {
      assert ws + more == ws;
    } else {
      var init, last := more[..|more| - 1], more[|more| - 1];
      AppliedConcat(l, ws, init);
      assert (ws + more)[..|ws + more| - 1] == ws + init;
      assert more == init + [last];
    }
  }

  function EdgeOf(ev: RunEvent, output: DatasetRef, input: DatasetRef): Edge {
    Edge(input.QualifiedName(), output.QualifiedName(), ev.runId, ev.eventTime, |output.fields|, ev.body)
  }

  function FieldNames(fields: seq<SchemaField>): set<string> { set f | f in fields :: f.name }

  /** The names both datasets have, in the order in which they first come in the output, mapped to themselves. */
  function SharedMap(fields: seq<SchemaField>, known: set<string>): FieldMap {
    if fields == [] then []
    else
      var before, name := fields[..|fields| - 1], fields[|fields| - 1].name;
      var shared := SharedMap(before, known);
      if name in known && name !in FieldNames(before) then shared + [(name, Some(name))] else shared
  }

  lemma {:induction false} SharedMapAccepted(fields: seq<SchemaField>, known: set<string>)
    ensures forall i :: 0 <= i < |SharedMap(fields, known)| ==> SharedMap(fields, known)[i].1.Some?
  {
    if fields != [] {
      SharedMapAccepted(fields[..|fields| - 1], known);
    }
  }

  /** Exactly the names that both have, each once. */
  lemma {:induction false} SharedMapExactly(fields: seq<SchemaField>, known: set<string>)
    ensures forall k, v :: (k, v) in SharedMap(fields, known) <==> k in FieldNames(fields) && k in known && v == Some(k)
    ensures forall i, j :: 0 <= i < j < |SharedMap(fields, known)| ==> SharedMap(fields, known)[i].0 != SharedMap(fields, known)[j].0
  {
    if fields != [] {
      var before, last := fields[..|fields| - 1], fields[|fields| - 1];
      SharedMapExactly(before, known);
      assert fields == before + [last];
      assert FieldNames(fields) == FieldNames(before) + {last.name};
      forall i | 0 <= i < |SharedMap(before, known)| ensures SharedMap(before, known)[i].0 in FieldNames(before) {
        assert SharedMap(before, known)[i] in SharedMap(before, known);
        assert (SharedMap(before, known)[i].0, SharedMap(before, known)[i].1) in SharedMap(before, known);
      }
    }
  }

  function SharedMapping(ev: RunEvent, output: DatasetRef, input: DatasetRef): FieldMapping {
    FieldMapping(output.QualifiedName(), input.QualifiedName(), ev.runId, SharedMap(output.fields, FieldNames(input.fields)))
  }

  function PairWrites(ev: RunEvent, output: DatasetRef, input: DatasetRef): seq<Write> {
    var edge, shared := AddEdge(EdgeOf(ev, output, input)), SharedMapping(ev, output, input);
    if shared.fieldMap == [] then [edge] else [edge, AddMappings(shared)]
  }

  function OutputWrites(ev: RunEvent, output: DatasetRef, inputs: seq<DatasetRef>): seq<Write> {
    if inputs == [] then []
    else OutputWrites(ev, output, inputs[..|inputs| - 1]) + PairWrites(ev, output, inputs[|inputs| - 1])
  }

  function EdgeWrites(ev: RunEvent, outputs: seq<DatasetRef>, inputs: seq<DatasetRef>): seq<Write> {
    if outputs == [] then []
    else EdgeWrites(ev, outputs[..|outputs| - 1], inputs) + OutputWrites(ev, outputs[|outputs| - 1], inputs)
  }

  function MappingWrites(ms: seq<FieldMapping>): seq<Write> {
    if ms == [] then [] else MappingWrites(ms[..|ms| - 1]) + [AddMappings(ms[|ms| - 1])]
  }

  /** Everything `_record_lineage` writes for the event. */
  function WritesOf(ev: RunEvent): seq<Write> {
    var inputs, outputs := ParsedAll(ev.inputs), ParsedAll(ev.outputs);
    if inputs.None? || outputs.None? then [Raise]
    else if inputs.value == [] || outputs.value == [] then []
    else
      EdgeWrites(ev, outputs.value, inputs.value) +
      match MappingsOf(ev.outputs, ev.inputs, ev.runId)
      case None => [Raise]
      case Some(ms) => MappingWrites(ms)
  }

  // ------------------------------------------------------------------ edges of an event

  predicate PairsFor(edges: seq<Edge>, output: DatasetRef, inputs: seq<DatasetRef>) {
    forall input :: input in inputs ==> (input.QualifiedName(), output.QualifiedName()) in EdgePairs(edges)
  }

  predicate AllPairs(edges: seq<Edge>, outputs: seq<DatasetRef>, inputs: seq<DatasetRef>) {
    forall output :: output in outputs ==> PairsFor(edges, output, inputs)
  }

  lemma PairsStay(edges: seq<Edge>, more: seq<Edge>, outputs: seq<DatasetRef>, output: DatasetRef, inputs: seq<DatasetRef>)
    requires edges <= more
    ensures PairsFor(edges, output, inputs) ==> PairsFor(more, output, inputs)
    ensures AllPairs(edges, outputs, inputs) ==> AllPairs(more, outputs, inputs)
  {
    assert forall e :: e in edges ==> e in more;
    forall p | p in EdgePairs(edges) ensures p in EdgePairs(more) {
    }
  }

  lemma OutputWritesNone(ev: RunEvent, output: DatasetRef, inputs: seq<DatasetRef>, ws: seq<Write>)
    ensures ws + OutputWrites(ev, output, inputs[..0]) == ws
  {
  }

  lemma OutputWritesNext(ev: RunEvent, output: DatasetRef, inputs: seq<DatasetRef>, j: nat, ws: seq<Write>)
    requires j < |inputs|
    ensures ws + OutputWrites(ev, output, inputs[..j + 1]) ==
            ws + OutputWrites(ev, output, inputs[..j]) + PairWrites(ev, output, inputs[j])
  {
    assert inputs[..j + 1][..j] == inputs[..j] && inputs[..j + 1][j] == inputs[j];
    var a, b := OutputWrites(ev, output, inputs[..j]), PairWrites(ev, output, inputs[j]);
    assert ws + (a + b) == ws + a + b;
  }

  lemma PairsForNext(edges: seq<Edge>, ev: RunEvent, output: DatasetRef, inputs: seq<DatasetRef>, j: nat)
    requires j < |inputs| && PairsFor(edges, output, inputs[..j])
    ensures PairsFor(edges + [EdgeOf(ev, output, inputs[j])], output, inputs[..j + 1])
  {
    assert inputs[..j + 1] == inputs[..j] + [inputs[j]];
    EdgePairsSnoc(edges, EdgeOf(ev, output, inputs[j]));
  }

  /** The names in a field mapping are those of an output and an input that have their edge. */
  lemma {:induction false} MappingOverPairs(ev: RunEvent, outputs: seq<RawDataset>, m: FieldMapping, edges: seq<Edge>)
    requires ParsedAll(outputs).Some? && ParsedAll(ev.inputs).Some?
    requires AllPairs(edges, ParsedAll(outputs).value, ParsedAll(ev.inputs).value)
    requires MappingsOf(outputs, ev.inputs, ev.runId).Some? && m in MappingsOf(outputs, ev.inputs, ev.runId).value
    ensures (m.inputDataset, m.outputDataset) in EdgePairs(edges)
  {
    var init, last := outputs[..|outputs| - 1], outputs[|outputs| - 1];
    var ds := ParsedAll(outputs).value;
    assert ds == ParsedAll(init).value + [Parsed(last).value];
    NameOfParsed(last);
    if m in MappingsOf(init, ev.inputs, ev.runId).value {
      MappingOverPairs(ev, init, m, edges);
    } else {
      assert PairsFor(edges, Parsed(last).value, ParsedAll(ev.inputs).value);
      MappingFromPairs(ev.inputs, Parsed(last).value, last.columns, ev.runId, m, edges);
    }
  }

  lemma {:induction false} MappingFromPairs(inputs: seq<RawDataset>, output: DatasetRef, columns: seq<(string, Column)>, runId: string,
                                            m: FieldMapping, edges: seq<Edge>)
    requires ParsedAll(inputs).Some? && PairsFor(edges, output, ParsedAll(inputs).value)
    requires MappingsFrom(inputs, output.QualifiedName(), columns, runId).Some?
    requires m in MappingsFrom(inputs, output.QualifiedName(), columns, runId).value
    ensures (m.inputDataset, m.outputDataset) in EdgePairs(edges)
  {
    var init, last := inputs[..|inputs| - 1], inputs[|inputs| - 1];
    var ds := ParsedAll(inputs).value;
    assert ds == ParsedAll(init).value + [Parsed(last).value];
    NameOfParsed(last);
    if m in MappingsFrom(init, output.QualifiedName(), columns, runId).value {
      MappingFromPairs(init, output, columns, runId, m, edges);
    } else {
      assert Parsed(last).value in ds;
    }
  }

  lemma {:induction false} ParsedAreNamed(raws: seq<RawDataset>)
    requires ParsedAll(raws).Some?
    ensures AllNamed(raws)
  {
    if raws != [] {
      ParsedAreNamed(raws[..|raws| - 1]);
      NameOfParsed(raws[|raws| - 1]);
      assert raws == raws[..|raws| - 1] + [raws[|raws| - 1]];
    }
  }

  // ------------------------------------------------------------------ the edges of an event

  function OutputEdgeList(ev: RunEvent, output: DatasetRef, inputs: seq<DatasetRef>): seq<Edge> {
    if inputs == [] then []
    else OutputEdgeList(ev, output, inputs[..|inputs| - 1]) + [EdgeOf(ev, output, inputs[|inputs| - 1])]
  }

  function EdgeList(ev: RunEvent, outputs: seq<DatasetRef>, inputs: seq<DatasetRef>): seq<Edge> {
    if outputs == [] then []
    else EdgeList(ev, outputs[..|outputs| - 1], inputs) + OutputEdgeList(ev, outputs[|outputs| - 1], inputs)
  }

  predicate Parses(ev: RunEvent) { ParsedAll(ev.inputs).Some? && ParsedAll(ev.outputs).Some? }

  /** One edge for every input with every output, by output and then by input. */
  function EdgesOf(ev: RunEvent): seq<Edge> {
    if Parses(ev) then EdgeList(ev, ParsedAll(ev.outputs).value, ParsedAll(ev.inputs).value) else []
  }

  lemma {:induction false} EdgeListEmpty(ev: RunEvent, outputs: seq<DatasetRef>)
    ensures EdgeList(ev, outputs, []) == []
  {
    if outputs != [] {
      EdgeListEmpty(ev, outputs[..|outputs| - 1]);
    }
  }

  lemma {:induction false} PairEdge(l: Lineage, ev: RunEvent, output: DatasetRef, input: DatasetRef)
    ensures AllAccepted(PairWrites(ev, output, input))
    ensures Applied(l, PairWrites(ev, output, input)).edges == l.edges + [EdgeOf(ev, output, input)]
  {
    var edge, shared := AddEdge(EdgeOf(ev, output, input)), AddMappings(SharedMapping(ev, output, input));
    SharedMapAccepted(output.fields, FieldNames(input.fields));
    AppliedOne(l, edge);
    AppliedTwo(l, edge, shared);
  }

  /** Two stretches of writes, the first of which does not raise, add their edges one after the other. */
  lemma EdgesConcat(l: Lineage, ws: seq<Write>, more: seq<Write>, edges: seq<Edge>, rest: seq<Edge>)
    requires AllAccepted(ws)
    requires Applied(l, ws).edges == l.edges + edges
    requires Applied(Applied(l, ws), more).edges == Applied(l, ws).edges + rest
    ensures Applied(l, ws + more).edges == l.edges + (edges + rest)
    ensures AllAccepted(ws + more) <==> AllAccepted(more)
  {
    AppliedConcat(l, ws, more);
    assert l.edges + edges + rest == l.edges + (edges + rest);
  }

  lemma {:induction false} OutputEdges(l: Lineage, ev: RunEvent, output: DatasetRef, inputs: seq<DatasetRef>)
    ensures AllAccepted(OutputWrites(ev, output, inputs))
    ensures Applied(l, OutputWrites(ev, output, inputs)).edges == l.edges + OutputEdgeList(ev, output, inputs)
  {
    if inputs != [] {
      var init, input := inputs[..|inputs| - 1], inputs[|inputs| - 1];
      var before := OutputWrites(ev, output, init);
      OutputEdges(l, ev, output, init);
      PairEdge(Applied(l, before), ev, output, input);
      EdgesConcat(l, before, PairWrites(ev, output, input), OutputEdgeList(ev, output, init), [EdgeOf(ev, output, input)]);
    }
  }

  lemma {:induction false} AllEdges(l: Lineage, ev: RunEvent, outputs: seq<DatasetRef>, inputs: seq<DatasetRef>)
    ensures AllAccepted(EdgeWrites(ev, outputs, inputs))
    ensures Applied(l, EdgeWrites(ev, outputs, inputs)).edges == l.edges + EdgeList(ev, outputs, inputs)
  {
    if outputs != [] {
      var init, output := outputs[..|outputs| - 1], outputs[|outputs| - 1];
      var before := EdgeWrites(ev, init, inputs);
      AllEdges(l, ev, init, inputs);
      OutputEdges(Applied(l, before), ev, output, inputs);
      EdgesConcat(l, before, OutputWrites(ev, output, inputs), EdgeList(ev, init, inputs), OutputEdgeList(ev, output, inputs));
    }
  }

  lemma {:induction false} MappingsAddNoEdge(l: Lineage, ms: seq<FieldMapping>)
    ensures Applied(l, MappingWrites(ms)).edges == l.edges
  {
    if ms != [] {
      MappingsAddNoEdge(l, ms[..|ms| - 1]);
    }
  }

  lemma RaiseAddsNothing(l: Lineage)
    ensures Applied(l, [Raise]) == l && !AllAccepted([Raise])
  {
    AppliedOne(l, Raise);
  }

  /** A recorded event adds exactly its edges, whether or not a mapping of it raises afterwards. */
  lemma EventEdges(l: Lineage, ev: RunEvent)
    ensures Applied(l, WritesOf(ev)).edges == l.edges + EdgesOf(ev)
  {
    if Parses(ev) {
      var inputs, outputs := ParsedAll(ev.inputs).value, ParsedAll(ev.outputs).value;
      if inputs == [] {
        EdgeListEmpty(ev, outputs);
      } else if outputs != [] {
        FullEventEdges(l, ev, outputs, inputs);
      }
    } else {
      RaiseAddsNothing(l);
    }
  }

  lemma FullEventEdges(l: Lineage, ev: RunEvent, outputs: seq<DatasetRef>, inputs: seq<DatasetRef>)
    requires ParsedAll(ev.outputs) == Some(outputs) && ParsedAll(ev.inputs) == Some(inputs)
    requires outputs != [] && inputs != []
    ensures Applied(l, WritesOf(ev)).edges == l.edges + EdgeList(ev, outputs, inputs)
  {
    var first := EdgeWrites(ev, outputs, inputs);
    AllEdges(l, ev, outputs, inputs);
    var ms := MappingsOf(ev.outputs, ev.inputs, ev.runId);
    if ms.None? {
      RaiseAddsNothing(Applied(l, first));
      AppliedConcat(l, first, [Raise]);
    } else {
      MappingsAddNoEdge(Applied(l, first), ms.value);
      AppliedConcat(l, first, MappingWrites(ms.value));
    }
  }

  lemma {:induction false} OutputEdgeListExactly(ev: RunEvent, output: DatasetRef, inputs: seq<DatasetRef>, e: Edge)
    ensures |OutputEdgeList(ev, output, inputs)| == |inputs|
    ensures e in OutputEdgeList(ev, output, inputs) <==> exists input :: input in inputs && e == EdgeOf(ev, output, input)
  {
    if inputs != [] {
      var init, last := inputs[..|inputs| - 1], inputs[|inputs| - 1];
      OutputEdgeListExactly(ev, output, init, e);
      assert inputs == init + [last];
    }
  }

  lemma OneMoreRow(n: nat, m: nat)
    ensures (n + 1) * m == n * m + m
  {
  }

  lemma {:induction false} EdgeListExactly(ev: RunEvent, outputs: seq<DatasetRef>, inputs: seq<DatasetRef>, e: Edge)
    ensures |EdgeList(ev, outputs, inputs)| == |outputs| * |inputs|
    ensures e in EdgeList(ev, outputs, inputs) <==>
            exists output, input :: output in outputs && input in inputs && e == EdgeOf(ev, output, input)
  {
    if outputs != [] {
      var n := |outputs| - 1;
      var init, last := outputs[..n], outputs[n];
      EdgeListExactly(ev, init, inputs, e);
      OutputEdgeListExactly(ev, last, inputs, e);
      OneMoreRow(n, |inputs|);
      assert outputs == init + [last];
    }
  }

  /** The edges of an event: as many as inputs times outputs, and each from an input to an output. */
  lemma EdgesOfExactly(ev: RunEvent, e: Edge)
    ensures |EdgesOf(ev)| == if Parses(ev) then |ev.outputs| * |ev.inputs| else 0
    ensures Parses(ev) ==> (e in EdgesOf(ev) <==>
              exists output, input :: output in ParsedAll(ev.outputs).value && input in ParsedAll(ev.inputs).value &&
                                      e == EdgeOf(ev, output, input))
  {
    if Parses(ev) {
      ParsedAllLength(ev.inputs);
      ParsedAllLength(ev.outputs);
      EdgeListExactly(ev, ParsedAll(ev.outputs).value, ParsedAll(ev.inputs).value, e);
    }
  }

  // ------------------------------------------------------------------ batches

  /** What a caller gets for one event. */
  datatype Answer = Answer(eventId: string, duplicate: bool, acknowledged: bool, runId: string, eventType: string)

  /** `key or f"{run_id}:{eventType}"`: a missing or empty key is replaced. */
  function KeyOf(ev: RunEvent, key: Option<string>): string {
    if key.Some? && key.value != "" then key.value else ev.runId + ":" + ev.eventType
  }

  function ItemsOf(events: seq<RunEvent>, keys: seq<Option<string>>, ids: seq<string>): seq<Item>
    requires |events| == |keys| == |ids|
  {
    if events == [] then []
    else
      var n := |events| - 1;
      ItemsOf(events[..n], keys[..n], ids[..n]) + [BatchWriteItem(KeyOf(events[n], keys[n]), ids[n], events[n].body)]
  }

  lemma {:induction false} ItemsAt(events: seq<RunEvent>, keys: seq<Option<string>>, ids: seq<string>, i: nat)
    requires |events| == |keys| == |ids| && i < |events|
    ensures |ItemsOf(events, keys, ids)| == |events|
    ensures ItemsOf(events, keys, ids)[i] == BatchWriteItem(KeyOf(events[i], keys[i]), ids[i], events[i].body)
    decreases |events|
  {
    var n := |events| - 1;
    ItemsLength(events[..n], keys[..n], ids[..n]);
    if i < n {
      ItemsAt(events[..n], keys[..n], ids[..n], i);
    }
  }

  lemma {:induction false} ItemsLength(events: seq<RunEvent>, keys: seq<Option<string>>, ids: seq<string>)
    requires |events| == |keys| == |ids|
    ensures |ItemsOf(events, keys, ids)| == |events|
    decreases |events|
  {
    if events != [] {
      var n := |events| - 1;
      ItemsLength(events[..n], keys[..n], ids[..n]);
    }
  }

  lemma ItemsSnoc(events: seq<RunEvent>, keys: seq<Option<string>>, ids: seq<string>, i: nat)
    requires |events| == |keys| == |ids| && i < |events|
    ensures ItemsOf(events[..i + 1], keys[..i + 1], ids[..i + 1]) ==
            ItemsOf(events[..i], keys[..i], ids[..i]) + [BatchWriteItem(KeyOf(events[i], keys[i]), ids[i], events[i].body)]
  {
    assert events[..i + 1][..i] == events[..i] && keys[..i + 1][..i] == keys[..i] && ids[..i + 1][..i] == ids[..i];
  }

  /** Whose lineage a batch records: the complete events that are not duplicates. */
  predicate Records(ev: RunEvent, ack: Ack) { !ack.duplicate && ev.eventType == "COMPLETE" }

  function EventWrites(ev: RunEvent, ack: Ack): seq<Write> { if Records(ev, ack) then WritesOf(ev) else [] }

  function BatchWrites(events: seq<RunEvent>, acks: seq<Ack>): seq<Write>
    requires |events| == |acks|
  {
    if events == [] then []
    else
      var n := |events| - 1;
      BatchWrites(events[..n], acks[..n]) + EventWrites(events[n], acks[n])
  }

  lemma {:induction false} BatchWritesGrow(events: seq<RunEvent>, acks: seq<Ack>, i: nat)
    requires |events| == |acks| && i <= |events|
    ensures BatchWrites(events[..i], acks[..i]) <= BatchWrites(events, acks)
    decreases |events|
  {
    if i == |events| {
      assert events[..i] == events && acks[..i] == acks;
    } else {
      var n := |events| - 1;
      assert events[..n][..i] == events[..i] && acks[..n][..i] == acks[..i];
      BatchWritesGrow(events[..n], acks[..n], i);
      PrefixGrows(BatchWrites(events[..i], acks[..i]), BatchWrites(events[..n], acks[..n]), EventWrites(events[n], acks[n]));
    }
  }

  lemma PrefixGrows(ws: seq<Write>, longer: seq<Write>, more: seq<Write>)
    requires ws <= longer
    ensures ws <= longer + more
  {
  }

  lemma PrefixStops(l: Lineage, ws: seq<Write>, longer: seq<Write>)
    requires ws <= longer && !AllAccepted(ws)
    ensures !AllAccepted(longer) && Applied(l, longer) == Applied(l, ws)
  {
    AppliedConcat(l, ws, longer[|ws|..]);
    assert ws + longer[|ws|..] == longer;
  }

  /** Once an event's lineage raises, no later event's is written. */
  lemma BatchWritesPrefix(l: Lineage, events: seq<RunEvent>, acks: seq<Ack>, i: nat)
    requires |events| == |acks| && i <= |events| && !AllAccepted(BatchWrites(events[..i], acks[..i]))
    ensures !AllAccepted(BatchWrites(events, acks))
    ensures Applied(l, BatchWrites(events, acks)) == Applied(l, BatchWrites(events[..i], acks[..i]))
  {
    BatchWritesGrow(events, acks, i);
    PrefixStops(l, BatchWrites(events[..i], acks[..i]), BatchWrites(events, acks));
  }

  function RunEventsAfter(c: Codec, m: map<(string, string), string>, events: seq<RunEvent>,
                          acks: seq<Ack>): map<(string, string), string>
    requires |events| == |acks|
  {
    if events == [] then m
    else
      var n := |events| - 1;
      var before := RunEventsAfter(c, m, events[..n], acks[..n]);
      if acks[n].duplicate || c.dumps(events[n].body).None? then before
      else before[(events[n].runId, events[n].eventType) := c.dumps(events[n].body).value]
  }

  function Answers(events: seq<RunEvent>, acks: seq<Ack>): seq<Answer>
    requires |events| == |acks|
  {
    if events == [] then []
    else
      var n := |events| - 1;
      Answers(events[..n], acks[..n]) +
      [Answer(acks[n].eventId, acks[n].duplicate, acks[n].acknowledged, events[n].runId, events[n].eventType)]
  }

  /** Per number of events, whether none of the first so many raises. */
  function Smooth(events: seq<RunEvent>, acks: seq<Ack>): (oks: seq<bool>)
    requires |events| == |acks|
    ensures |oks| == |events| + 1
  {
    seq(|events| + 1, k requires 0 <= k <= |events| => AllAccepted(BatchWrites(events[..k], acks[..k])))
  }

  /** How many rounds out of `n` a loop makes that is left in the first round behind which `oks` is false. */
  function Rounds(oks: seq<bool>, n: nat): (m: nat)
    requires n <= |oks|
    ensures m <= n
  {
    if n == 0 || oks[n - 1] then n else Rounds(oks, n - 1)
  }

  lemma {:induction false} RoundsAt(oks: seq<bool>, i: nat, n: nat)
    requires i < n <= |oks| && oks[i] && forall k :: i < k < n ==> !oks[k]
    ensures Rounds(oks, n) == i + 1
    decreases n
  {
    if i + 1 < n {
      RoundsAt(oks, i, n - 1);
    }
  }

  lemma {:induction false} RoundsExactly(oks: seq<bool>, n: nat)
    requires n < |oks|
    ensures var m := Rounds(oks, n); (m > 0 ==> oks[m - 1]) && (m < n ==> !oks[m])
  {
    if n > 0 && !oks[n - 1] {
      RoundsExactly(oks, n - 1);
    }
  }

  /** How many events the loop over the answers gets to: up to the first whose lineage raises, that one
    * included.
    */
  function Reached(events: seq<RunEvent>, acks: seq<Ack>): (n: nat)
    requires |events| == |acks|
    ensures n <= |events|
  {
    Rounds(Smooth(events, acks), |events|)
  }

  lemma ReachedAll(events: seq<RunEvent>, acks: seq<Ack>)
    requires |events| == |acks| && AllAccepted(BatchWrites(events, acks))
    ensures Reached(events, acks) == |events|
  {
    if events != [] {
      var n := |events| - 1;
      AppliedConcat(Lineage([], []), BatchWrites(events[..n], acks[..n]), EventWrites(events[n], acks[n]));
      assert Smooth(events, acks)[n];
    }
  }

  /** Once an event's lineage raises, it stays so for longer batches, and they write no more. */
  lemma StaysStopped(l: Lineage, events: seq<RunEvent>, acks: seq<Ack>, i: nat, n: nat)
    requires |events| == |acks| && i <= n <= |events| && !Smooth(events, acks)[i]
    ensures !Smooth(events, acks)[n]
    ensures Applied(l, BatchWrites(events[..n], acks[..n])) == Applied(l, BatchWrites(events[..i], acks[..i]))
  {
    assert events[..n][..i] == events[..i] && acks[..n][..i] == acks[..i];
    BatchWritesPrefix(l, events[..n], acks[..n], i);
  }

  /** The loop stops at event `i`. */
  lemma ReachedAt(events: seq<RunEvent>, acks: seq<Ack>, i: nat)
    requires |events| == |acks| && i < |events| && AllAccepted(BatchWrites(events[..i], acks[..i]))
    requires !AllAccepted(BatchWrites(events[..i + 1], acks[..i + 1]))
    ensures Reached(events, acks) == i + 1
  {
    var oks := Smooth(events, acks);
    assert oks[i] && !oks[i + 1];
    forall k | i < k < |events| ensures !oks[k] {
      StaysStopped(Lineage([], []), events, acks, i + 1, k);
    }
    RoundsAt(oks, i, |events|);
  }

  /** Only the last event reached can raise. */
  lemma ReachedSmoothly(events: seq<RunEvent>, acks: seq<Ack>)
    requires |events| == |acks|
    ensures var n := Reached(events, acks);
            && (n > 0 ==> Smooth(events, acks)[n - 1])
            && (n < |events| ==> !Smooth(events, acks)[n])
  {
    RoundsExactly(Smooth(events, acks), |events|);
  }

  /** Behind it a batch writes nothing. */
  lemma ReachedWrites(l: Lineage, events: seq<RunEvent>, acks: seq<Ack>)
    requires |events| == |acks|
    ensures var n := Reached(events, acks);
            Applied(l, BatchWrites(events, acks)) == Applied(l, BatchWrites(events[..n], acks[..n]))
  {
    var n := Reached(events, acks);
    assert events[..|events|] == events && acks[..|acks|] == acks;
    if n < |events| {
      ReachedSmoothly(events, acks);
      StaysStopped(l, events, acks, n, |events|);
    }
  }

  lemma SmoothBefore(events: seq<RunEvent>, acks: seq<Ack>, n: nat)
    requires |events| == |acks| && 0 < n <= |events| && Smooth(events, acks)[n - 1]
    ensures AllAccepted(BatchWrites(events[..n][..n - 1], acks[..n][..n - 1]))
  {
    assert events[..n][..n - 1] == events[..n - 1] && acks[..n][..n - 1] == acks[..n - 1];
  }

  /** The writes that did not raise. */
  function AcceptedPrefix(ws: seq<Write>): seq<Write> {
    if AllAccepted(ws) then ws else AcceptedPrefix(ws[..|ws| - 1])
  }

  lemma {:induction false} AcceptedPrefixIs(ws: seq<Write>, w: Write, more: seq<Write>)
    requires AllAccepted(ws) && !Accepted(w)
    ensures AcceptedPrefix(ws + [w] + more) == ws && !AllAccepted(ws + [w] + more)
  {
    var all := ws + [w] + more;
    assert w in all;
    if more == [] {
      assert all[..|all| - 1] == ws;
    } else {
      assert all[..|all| - 1] == ws + [w] + more[..|more| - 1];
      AcceptedPrefixIs(ws, w, more[..|more| - 1]);
    }
  }

  /** Appending more writes behind one that raises changes nothing, and before it only what comes first. */
  lemma {:induction false} AcceptedPrefixConcat(ws: seq<Write>, more: seq<Write>)
    ensures !AllAccepted(ws) ==> AcceptedPrefix(ws + more) == AcceptedPrefix(ws)
    ensures AllAccepted(ws) ==> AcceptedPrefix(ws + more) == ws + AcceptedPrefix(more)
    decreases |more|
  {
    AppliedConcat(Lineage([], []), ws, more);
    if more == [] {
      assert ws + more == ws && AcceptedPrefix([]) == [];
    } else {
      var init := more[..|more| - 1];
      assert (ws + more)[..|ws + more| - 1] == ws + init;
      AcceptedPrefixConcat(ws, init);
    }
  }

  /** The write that raises adds no edge. */
  lemma {:induction false} RefusedAddsNoEdge(l: Lineage, ws: seq<Write>)
    ensures Applied(l, ws).edges == Applied(l, AcceptedPrefix(ws)).edges
  {
    if !AllAccepted(ws) {
      var init, last := ws[..|ws| - 1], ws[|ws| - 1];
      assert ws == init + [last];
      RefusedAddsNoEdge(l, init);
      if AllAccepted(init) {
        AppliedSnoc(l, init, last);
      }
    }
  }

  /** Per event: inputs times outputs for a complete event that is not a duplicate. (An event whose datasets
    * cannot be parsed has none.)
    */
  function EdgeCount(ev: RunEvent, ack: Ack): nat {
    if Records(ev, ack) && Parses(ev) then |ev.outputs| * |ev.inputs| else 0
  }

  function EdgeSum(events: seq<RunEvent>, acks: seq<Ack>): nat
    requires |events| == |acks|
  {
    if events == [] then 0
    else
      var n := |events| - 1;
      EdgeSum(events[..n], acks[..n]) + EdgeCount(events[n], acks[n])
  }

  function BatchEdgeList(events: seq<RunEvent>, acks: seq<Ack>): seq<Edge>
    requires |events| == |acks|
  {
    if events == [] then []
    else
      var n := |events| - 1;
      BatchEdgeList(events[..n], acks[..n]) + (if Records(events[n], acks[n]) then EdgesOf(events[n]) else [])
  }

  lemma {:induction false} BatchEdgeListLength(events: seq<RunEvent>, acks: seq<Ack>)
    requires |events| == |acks|
    ensures |BatchEdgeList(events, acks)| == EdgeSum(events, acks)
  {
    if events != [] {
      var n := |events| - 1;
      BatchEdgeListLength(events[..n], acks[..n]);
      if Parses(events[n]) {
        ParsedAllLength(events[n].inputs);
        ParsedAllLength(events[n].outputs);
        EdgeListLength(events[n], ParsedAll(events[n].outputs).value, ParsedAll(events[n].inputs).value);
      }
    }
  }

  lemma EdgeListLength(ev: RunEvent, outputs: seq<DatasetRef>, inputs: seq<DatasetRef>)
    ensures |EdgeList(ev, outputs, inputs)| == |outputs| * |inputs|
  {
    EdgeListExactly(ev, outputs, inputs, Edge("", "", "", "", 0, ev.body));
  }

  lemma EventWritesEdges(l: Lineage, ev: RunEvent, ack: Ack)
    ensures Applied(l, EventWrites(ev, ack)).edges == l.edges + if Records(ev, ack) then EdgesOf(ev) else []
  {
    EventEdges(l, ev);
  }

  /** Events none of which raises, save perhaps the last, add exactly their edges. */
  lemma {:induction false} BatchEdges(l: Lineage, events: seq<RunEvent>, acks: seq<Ack>)
    requires |events| == |acks| && (events != [] ==> AllAccepted(BatchWrites(events[..|events| - 1], acks[..|acks| - 1])))
    ensures Applied(l, BatchWrites(events, acks)).edges == l.edges + BatchEdgeList(events, acks)
    decreases |events|
  {
    if events != [] {
      var n := |events| - 1;
      var before := BatchWrites(events[..n], acks[..n]);
      if n > 0 {
        AppliedConcat(l, BatchWrites(events[..n][..n - 1], acks[..n][..n - 1]), EventWrites(events[..n][n - 1], acks[..n][n - 1]));
      }
      BatchEdges(l, events[..n], acks[..n]);
      EventWritesEdges(Applied(l, before), events[n], acks[n]);
      EdgesConcat(l, before, EventWrites(events[n], acks[n]), BatchEdgeList(events[..n], acks[..n]),
                  if Records(events[n], acks[n]) then EdgesOf(events[n]) else []);
    }
  }

  // ------------------------------------------------------------------ what a batch does to the storage

  /** `idempotency_keys or [None] * len(events)`, zipped strictly. */
  function KeyList(n: nat, keys: Option<seq<Option<string>>>): (r: Option<seq<Option<string>>>)
    ensures r.Some? ==> |r.value| == n
  {
    if keys.None? || keys.value == [] then Some(seq(n, _ => None))
    else if |keys.value| == n then keys
    else None
  }

  /** `start` with other lineage tables. */
  function WithLineage(start: Db, l: Lineage): Db { start.(edges := l.edges, mappings := l.mappings) }

  /** The storage after the loop over the answers, in the connection and in the file: run events and lineage
    * up to the event whose lineage raises, if there is one. The inserts of the call that raised are in the
    * connection only.
    */
  function Recorded(c: Codec, w: Db, events: seq<RunEvent>, acks: seq<Ack>): Snapshot
    requires |events| == |acks|
  {
    var ws, n := BatchWrites(events, acks), Reached(events, acks);
    var noted := w.(runEvents := RunEventsAfter(c, w.runEvents, events[..n], acks[..n]));
    Snapshot(WithLineage(noted, Applied(LineageOf(w), ws)), WithLineage(noted, Applied(LineageOf(w), AcceptedPrefix(ws))))
  }

  /** `ingest_batch`, as a step of the storage. */
  function AfterIngest(c: Codec, s: Snapshot, events: seq<RunEvent>, idempotencyKeys: Option<seq<Option<string>>>,
                       ids: seq<string>): Snapshot
    requires |events| == |ids|
  {
    if events == [] || KeyList(|events|, idempotencyKeys).None? then s
    else
      var items := ItemsOf(events, KeyList(|events|, idempotencyKeys).value, ids);
      var mid := AfterCall(c, s, Runs.Acknowledge(items));
      match AckAll(c, s.working.store, items)
      case Failed => mid
      case Done(_, acks) => if |acks| != |events| then mid else Recorded(c, mid.working, events, acks)
  }

  /** The edges of a batch, in the connection and in the file alike. */
  lemma RecordedEdges(c: Codec, w: Db, events: seq<RunEvent>, acks: seq<Ack>)
    requires |events| == |acks|
    ensures var s, n := Recorded(c, w, events, acks), Reached(events, acks);
            s.durable.edges == s.working.edges == w.edges + BatchEdgeList(events[..n], acks[..n])
  {
    var n := Reached(events, acks);
    ReachedWrites(LineageOf(w), events, acks);
    ReachedSmoothly(events, acks);
    if n > 0 {
      SmoothBefore(events, acks, n);
    }
    BatchEdges(LineageOf(w), events[..n], acks[..n]);
    RefusedAddsNoEdge(LineageOf(w), BatchWrites(events, acks));
  }
}
