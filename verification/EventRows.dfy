/** What recording a run event adds to dataset_edges and field_mappings, in terms of the event as it came in:
  * no function of the modules before is needed to read the conditions, and they hold in both directions.
  */
module EventRows {
  import opened Wrappers
  import opened Vault
  import opened SQLiteBackend
  import opened OpenLineage
  import opened OpenLineageIngest
  import opened FieldImpact

  // ------------------------------------------------------------------ the conditions

  /** `namespace.name`, with the defaults. */
  predicate NameIs(raw: RawDataset, s: string) {
    s == (if raw.namespace.Text? then raw.namespace.value else "default") + "." +
         (if raw.name.Text? then raw.name.value else "unknown")
  }

  /** The field names of a dataset: those of its schema, and its columns. */
  function Names(raw: RawDataset): set<string> {
    (set f | f in raw.schema :: if f.name.Text? then f.name.value else "") + (set c | c in raw.columns :: c.0)
  }

  /** The field that a column's first input field stands for. */
  predicate FirstInputIs(column: (string, Column), k: string) {
    && column.1.inputFields != []
    && match column.1.inputFields[0]
       case Absent => k == column.0
       case Text(s) => k == s
       case Scalar(s) => k == s
       case Other => false
  }

  /** A row for a column of the output that has an input field. */
  predicate ColumnRow(output: RawDataset, outputField: string, inputField: string) {
    exists column :: column in output.columns && column.0 == outputField && FirstInputIs(column, inputField)
  }

  /** A row for a field name that both datasets have. */
  predicate SharedRow(output: RawDataset, input: RawDataset, outputField: string, inputField: string) {
    outputField == inputField && outputField in Names(output) && inputField in Names(input)
  }

  predicate RowBetween(ev: RunEvent, output: RawDataset, input: RawDataset, m: Mapping) {
    && m.runId == ev.runId && NameIs(output, m.outputDataset) && NameIs(input, m.inputDataset)
    && (ColumnRow(output, m.outputField, m.inputField) || SharedRow(output, input, m.outputField, m.inputField))
  }

  /** A row of field_mappings that the event calls for. */
  predicate RowOfEvent(ev: RunEvent, m: Mapping) {
    exists output, input :: output in ev.outputs && input in ev.inputs && RowBetween(ev, output, input, m)
  }

  predicate EdgeBetween(ev: RunEvent, output: RawDataset, input: RawDataset, e: Edge) {
    && NameIs(input, e.src) && NameIs(output, e.dst)
    && e.transformId == ev.runId && e.eventTime == ev.eventTime && e.payload == ev.body
    && e.schemaVersion == |output.schema| + |output.columns|
  }

  /** A row of dataset_edges that the event calls for. */
  predicate EdgeOfEvent(ev: RunEvent, e: Edge) {
    exists output, input :: output in ev.outputs && input in ev.inputs && EdgeBetween(ev, output, input, e)
  }

  /** The columns of each dataset are a dict's: no name comes twice. */
  predicate DictColumns(raws: seq<RawDataset>) { forall raw :: raw in raws ==> DistinctNames(raw.columns) }

  /** Recording raises for a dataset that cannot be parsed, and for a first input field that no column takes. */
  predicate Recordable(ev: RunEvent) {
    && (forall raw :: raw in ev.inputs ==> !IllTyped(raw))
    && (forall raw :: raw in ev.outputs ==> !IllTyped(raw))
    && (ev.inputs != [] ==>
          forall raw, column :: raw in ev.outputs && column in raw.columns && column.1.inputFields != [] ==>
            !column.1.inputFields[0].Other?)
  }

  // ------------------------------------------------------------------ how many rows

  function SharedWith(output: RawDataset, inputs: seq<RawDataset>): nat {
    if inputs == [] then 0
    else SharedWith(output, inputs[..|inputs| - 1]) + |Names(output) * Names(inputs[|inputs| - 1])|
  }

  /** Over all pairs of an output and an input: the names they share. */
  function SharedTotal(outputs: seq<RawDataset>, inputs: seq<RawDataset>): nat {
    if outputs == [] then 0
    else SharedTotal(outputs[..|outputs| - 1], inputs) + SharedWith(outputs[|outputs| - 1], inputs)
  }

  function MappedColumns(columns: seq<(string, Column)>): nat {
    if columns == [] then 0
    else MappedColumns(columns[..|columns| - 1]) + (if columns[|columns| - 1].1.inputFields != [] then 1 else 0)
  }

  /** Over all pairs of an output and one of `n` inputs: the columns that have an input field. */
  function ColumnTotal(outputs: seq<RawDataset>, n: nat): nat {
    if outputs == [] then 0
    else ColumnTotal(outputs[..|outputs| - 1], n) + n * MappedColumns(outputs[|outputs| - 1].columns)
  }

  /** field_mappings has grown by exactly the rows that the event calls for, each as often as it does. */
  ghost predicate RowsAdded(ev: RunEvent, before: seq<Mapping>, after: seq<Mapping>) {
    && before <= after
    && |after| == |before| + SharedTotal(ev.outputs, ev.inputs) + ColumnTotal(ev.outputs, |ev.inputs|)
    && forall m :: m in after[|before|..] <==> RowOfEvent(ev, m)
  }

  /** So has dataset_edges, with one row for every pair of an output and an input. */
  ghost predicate EdgesAdded(ev: RunEvent, before: seq<Edge>, after: seq<Edge>) {
    && before <= after
    && |after| == |before| + |ev.outputs| * |ev.inputs|
    && forall e :: e in after[|before|..] <==> EdgeOfEvent(ev, e)
  }

  // ------------------------------------------------------------------ the rows of a list of writes

  function RowsOf(ws: seq<Write>): seq<Mapping> {
    if ws == [] then []
    else
      var before := RowsOf(ws[..|ws| - 1]);
      match ws[|ws| - 1]
      case AddMappings(m) => before + MappingRows(m.runId, m.outputDataset, m.inputDataset, m.fieldMap)
      case _ => before
  }

  lemma {:induction false} AppliedRows(l: Lineage, ws: seq<Write>)
    requires AllAccepted(ws)
    ensures Applied(l, ws).mappings == l.mappings + RowsOf(ws)
  {
    if ws != [] {
      AppliedRows(l, ws[..|ws| - 1]);
    }
  }

  /** One write more. */
  lemma {:induction false} RowsSnoc(ws: seq<Write>, w: Write)
    ensures RowsOf(ws + [w]) ==
            match w
            case AddMappings(m) => RowsOf(ws) + MappingRows(m.runId, m.outputDataset, m.inputDataset, m.fieldMap)
            case _ => RowsOf(ws)
  {
    assert (ws + [w])[..|ws|] == ws;
  }

  lemma RowsAssociate(a: seq<Mapping>, b: seq<Mapping>, c: seq<Mapping>)
    ensures a + (b + c) == a + b + c
  {
  }

  lemma {:induction false} RowsConcatNext(ws: seq<Write>, more: seq<Write>, w: Write)
    requires RowsOf(ws + more) == RowsOf(ws) + RowsOf(more)
    ensures RowsOf(ws + (more + [w])) == RowsOf(ws) + RowsOf(more + [w])
  {
    assert ws + (more + [w]) == ws + more + [w];
    RowsSnoc(ws + more, w);
    RowsSnoc(more, w);
    if w.AddMappings? {
      var m := w.mapping;
      RowsAssociate(RowsOf(ws), RowsOf(more), MappingRows(m.runId, m.outputDataset, m.inputDataset, m.fieldMap));
    }
  }

  lemma {:induction false} RowsConcat(ws: seq<Write>, more: seq<Write>)
    ensures RowsOf(ws + more) == RowsOf(ws) + RowsOf(more)
  {
    if more == [] {
      assert ws + more == ws;
    } else {
      RowsConcat(ws, more[..|more| - 1]);
      RowsConcatNext(ws, more[..|more| - 1], more[|more| - 1]);
      assert more[..|more| - 1] + [more[|more| - 1]] == more;
    }
  }

  /** The row is one of those of the mapping. */
  predicate RowIn(m: Mapping, fm: FieldMapping) {
    && m.runId == fm.runId && m.outputDataset == fm.outputDataset && m.inputDataset == fm.inputDataset
    && (m.outputField, Some(m.inputField)) in fm.fieldMap
  }

  lemma RowInExactly(m: Mapping, fm: FieldMapping)
    requires Accepted(AddMappings(fm))
    ensures m in MappingRows(fm.runId, fm.outputDataset, fm.inputDataset, fm.fieldMap) <==> RowIn(m, fm)
    ensures |MappingRows(fm.runId, fm.outputDataset, fm.inputDataset, fm.fieldMap)| == |fm.fieldMap|
  {
    var rows := MappingRows(fm.runId, fm.outputDataset, fm.inputDataset, fm.fieldMap);
    MappingRowsExactly(fm.runId, fm.outputDataset, fm.inputDataset, fm.fieldMap);
    assert |rows| == |fm.fieldMap|;
    if m in rows {
      var i :| 0 <= i < |rows| && rows[i] == m;
      assert fm.fieldMap[i] == (m.outputField, Some(m.inputField));
    }
    if RowIn(m, fm) {
      var i :| 0 <= i < |fm.fieldMap| && fm.fieldMap[i] == (m.outputField, Some(m.inputField));
      assert rows[i] == m;
    }
  }

  lemma {:induction false} RowsOfExactly(ws: seq<Write>, m: Mapping)
    requires AllAccepted(ws)
    ensures m in RowsOf(ws) <==> exists fm :: AddMappings(fm) in ws && RowIn(m, fm)
  {
    if ws != [] {
      var init, last := ws[..|ws| - 1], ws[|ws| - 1];
      assert ws == init + [last];
      RowsOfExactly(init, m);
      if last.AddMappings? {
        RowInExactly(m, last.mapping);
      }
    }
  }

  // ------------------------------------------------------------------ which mappings are written

  lemma {:induction false} OutputWritesExactly(ev: RunEvent, output: DatasetRef, inputs: seq<DatasetRef>, fm: FieldMapping)
    ensures AddMappings(fm) in OutputWrites(ev, output, inputs) <==>
            exists input :: input in inputs && fm == SharedMapping(ev, output, input) && fm.fieldMap != []
  {
    if inputs != [] {
      var init, last := inputs[..|inputs| - 1], inputs[|inputs| - 1];
      assert inputs == init + [last];
      OutputWritesExactly(ev, output, init, fm);
    }
  }

  lemma {:induction false} EdgeWritesExactly(ev: RunEvent, outputs: seq<DatasetRef>, inputs: seq<DatasetRef>, fm: FieldMapping)
    ensures AddMappings(fm) in EdgeWrites(ev, outputs, inputs) <==>
            exists output, input ::
              output in outputs && input in inputs && fm == SharedMapping(ev, output, input) && fm.fieldMap != []
  {
    if outputs != [] {
      var init, last := outputs[..|outputs| - 1], outputs[|outputs| - 1];
      assert outputs == init + [last];
      EdgeWritesExactly(ev, init, inputs, fm);
      OutputWritesExactly(ev, last, inputs, fm);
    }
  }

  lemma {:induction false} MappingWritesExactly(ms: seq<FieldMapping>, fm: FieldMapping)
    ensures AddMappings(fm) in MappingWrites(ms) <==> fm in ms
  {
    if ms != [] {
      MappingWritesExactly(ms[..|ms| - 1], fm);
      assert ms == ms[..|ms| - 1] + [ms[|ms| - 1]];
    }
  }

  /** The mapping of one pair that column lineage calls for. */
  predicate ColumnMapping(output: RawDataset, input: RawDataset, runId: string, fm: FieldMapping) {
    && NameIs(output, fm.outputDataset) && NameIs(input, fm.inputDataset) && fm.runId == runId
    && fm.fieldMap == ColumnMap(output.columns) != []
  }

  lemma NameOfIs(raw: RawDataset)
    requires NameOf(raw).Some?
    ensures forall s :: NameIs(raw, s) <==> s == NameOf(raw).value
  {
  }

  /** Column lineage calls for the mapping between the output and some of the inputs. */
  predicate CalledByOutput(output: RawDataset, inputs: seq<RawDataset>, runId: string, fm: FieldMapping) {
    exists input :: input in inputs && ColumnMapping(output, input, runId, fm)
  }

  predicate CalledForByColumns(outputs: seq<RawDataset>, inputs: seq<RawDataset>, runId: string, fm: FieldMapping) {
    exists output :: output in outputs && CalledByOutput(output, inputs, runId, fm)
  }

  lemma CalledByOutputSnoc(output: RawDataset, inputs: seq<RawDataset>, runId: string, fm: FieldMapping)
    requires inputs != []
    ensures CalledByOutput(output, inputs, runId, fm) <==>
            CalledByOutput(output, inputs[..|inputs| - 1], runId, fm) || ColumnMapping(output, inputs[|inputs| - 1], runId, fm)
  {
    assert inputs == inputs[..|inputs| - 1] + [inputs[|inputs| - 1]];
  }

  lemma CalledForByColumnsSnoc(outputs: seq<RawDataset>, inputs: seq<RawDataset>, runId: string, fm: FieldMapping)
    requires outputs != []
    ensures CalledForByColumns(outputs, inputs, runId, fm) <==>
            || CalledForByColumns(outputs[..|outputs| - 1], inputs, runId, fm)
            || CalledByOutput(outputs[|outputs| - 1], inputs, runId, fm)
  {
    assert outputs == outputs[..|outputs| - 1] + [outputs[|outputs| - 1]];
  }

  lemma {:induction false} MappingsFromExactly(inputs: seq<RawDataset>, output: RawDataset, runId: string, fm: FieldMapping)
    requires AllNamed(inputs) && NameOf(output).Some?
    ensures var ms := MappingsFrom(inputs, NameOf(output).value, output.columns, runId);
            ms.Some? && (fm in ms.value <==> CalledByOutput(output, inputs, runId, fm))
  {
    NameOfIs(output);
    if inputs != [] {
      var init, last := inputs[..|inputs| - 1], inputs[|inputs| - 1];
      CalledByOutputSnoc(output, inputs, runId, fm);
      MappingsFromExactly(init, output, runId, fm);
      NameOfIs(last);
    }
  }

  lemma NoColumnsNoMapping(output: RawDataset, inputs: seq<RawDataset>, runId: string, fm: FieldMapping)
    requires output.columns == []
    ensures !CalledByOutput(output, inputs, runId, fm)
  {
    assert ColumnMap(output.columns) == [];
  }

  lemma {:induction false} MappingsOfExactly(outputs: seq<RawDataset>, inputs: seq<RawDataset>, runId: string, fm: FieldMapping)
    requires AllNamed(inputs) && AllNamed(outputs)
    ensures var ms := MappingsOf(outputs, inputs, runId);
            ms.Some? && (fm in ms.value <==> CalledForByColumns(outputs, inputs, runId, fm))
  {
    if outputs != [] {
      var init, last := outputs[..|outputs| - 1], outputs[|outputs| - 1];
      CalledForByColumnsSnoc(outputs, inputs, runId, fm);
      MappingsOfExactly(init, inputs, runId, fm);
      if last.columns == [] {
        NoColumnsNoMapping(last, inputs, runId, fm);
      } else {
        MappingsFromExactly(inputs, last, runId, fm);
      }
    }
  }

  // ------------------------------------------------------------------ rows, pair by pair

  lemma SchemaNames(fields: seq<SchemaField>, schema: seq<RawField>)
    requires ReadsSchema(fields, schema)
    ensures FieldNames(fields) == set f | f in schema :: if f.name.Text? then f.name.value else ""
  {
    forall f | f in schema ensures (if f.name.Text? then f.name.value else "") in FieldNames(fields) {
      var i :| 0 <= i < |schema| && schema[i] == f;
      assert fields[i] in fields;
    }
  }

  lemma ColumnNames(fields: seq<SchemaField>, columns: seq<(string, Column)>)
    requires ReadsColumns(fields, columns)
    ensures FieldNames(fields) == set c | c in columns :: c.0
  {
    forall c | c in columns ensures c.0 in FieldNames(fields) {
      var i :| 0 <= i < |columns| && columns[i] == c;
      assert fields[i] in fields;
    }
  }

  lemma FieldNamesSplit(fields: seq<SchemaField>, n: nat)
    requires n <= |fields|
    ensures FieldNames(fields) == FieldNames(fields[..n]) + FieldNames(fields[n..])
  {
    assert fields == fields[..n] + fields[n..];
  }

  lemma ParsedNames(raw: RawDataset)
    requires Parsed(raw).Some?
    ensures FieldNames(Parsed(raw).value.fields) == Names(raw)
    ensures forall s :: NameIs(raw, s) <==> s == Parsed(raw).value.QualifiedName()
  {
    ParsedExactly(raw);
    var fields, n := Parsed(raw).value.fields, |raw.schema|;
    SchemaNames(fields[..n], raw.schema);
    ColumnNames(fields[n..], raw.columns);
    FieldNamesSplit(fields, n);
  }

  lemma {:induction false} ParsedAllMembers(raws: seq<RawDataset>)
    requires ParsedAll(raws).Some?
    ensures forall raw :: raw in raws ==> Parsed(raw).Some? && Parsed(raw).value in ParsedAll(raws).value
    ensures forall d :: d in ParsedAll(raws).value ==> exists raw :: raw in raws && Parsed(raw) == Some(d)
  {
    if raws != [] {
      var init, last := raws[..|raws| - 1], raws[|raws| - 1];
      assert raws == init + [last];
      ParsedAllMembers(init);
    }
  }

  /** The rows of a pair's shared fields. */
  lemma SharedRowExactly(ev: RunEvent, output: RawDataset, input: RawDataset, m: Mapping)
    requires Parsed(output).Some? && Parsed(input).Some?
    ensures RowIn(m, SharedMapping(ev, Parsed(output).value, Parsed(input).value)) <==>
            && m.runId == ev.runId && NameIs(output, m.outputDataset) && NameIs(input, m.inputDataset)
            && SharedRow(output, input, m.outputField, m.inputField)
  {
    ParsedNames(output);
    ParsedNames(input);
    SharedMapExactly(Parsed(output).value.fields, FieldNames(Parsed(input).value.fields));
  }

  /** The rows of a pair's column lineage. */
  lemma ColumnRowExactly(output: RawDataset, outputField: string, inputField: string)
    requires DistinctNames(output.columns)
    ensures (outputField, Some(inputField)) in ColumnMap(output.columns) <==> ColumnRow(output, outputField, inputField)
  {
    ColumnMapExactly(output.columns, outputField, Some(inputField));
    forall c | c in output.columns
      ensures MapsTo(c, outputField, Some(inputField)) <==> c.0 == outputField && FirstInputIs(c, inputField)
    {
    }
  }

  // ------------------------------------------------------------------ rows of an event

  lemma FullWrites(ev: RunEvent)
    requires Parses(ev) && ev.inputs != [] && ev.outputs != []
    ensures AllNamed(ev.inputs) && AllNamed(ev.outputs)
    ensures MappingsOf(ev.outputs, ev.inputs, ev.runId).Some?
    ensures WritesOf(ev) == EdgeWrites(ev, ParsedAll(ev.outputs).value, ParsedAll(ev.inputs).value) +
                            MappingWrites(MappingsOf(ev.outputs, ev.inputs, ev.runId).value)
  {
    ParsedAreNamed(ev.inputs);
    ParsedAreNamed(ev.outputs);
    ParsedAllLength(ev.inputs);
    ParsedAllLength(ev.outputs);
    MappingsOfExactly(ev.outputs, ev.inputs, ev.runId, FieldMapping("", "", "", []));
  }

  /** One direction: whatever the event calls for is written. */
  lemma SharedRowIsWritten(ev: RunEvent, output: RawDataset, input: RawDataset, m: Mapping)
    requires Parses(ev) && AllAccepted(WritesOf(ev)) && output in ev.outputs && input in ev.inputs
    requires RowBetween(ev, output, input, m) && SharedRow(output, input, m.outputField, m.inputField)
    ensures m in RowsOf(WritesOf(ev))
  {
    FullWrites(ev);
    ParsedAllMembers(ev.inputs);
    ParsedAllMembers(ev.outputs);
    RowsOfExactly(WritesOf(ev), m);
    var fm := SharedMapping(ev, Parsed(output).value, Parsed(input).value);
    SharedRowExactly(ev, output, input, m);
    EdgeWritesExactly(ev, ParsedAll(ev.outputs).value, ParsedAll(ev.inputs).value, fm);
    assert AddMappings(fm) in WritesOf(ev) && RowIn(m, fm);
  }

  lemma ColumnRowIsWritten(ev: RunEvent, output: RawDataset, input: RawDataset, m: Mapping)
    requires Parses(ev) && DictColumns(ev.outputs) && AllAccepted(WritesOf(ev)) && output in ev.outputs && input in ev.inputs
    requires RowBetween(ev, output, input, m) && ColumnRow(output, m.outputField, m.inputField)
    ensures m in RowsOf(WritesOf(ev))
  {
    FullWrites(ev);
    RowsOfExactly(WritesOf(ev), m);
    var fm := FieldMapping(m.outputDataset, m.inputDataset, ev.runId, ColumnMap(output.columns));
    ColumnRowExactly(output, m.outputField, m.inputField);
    assert ColumnMapping(output, input, ev.runId, fm);
    assert CalledByOutput(output, ev.inputs, ev.runId, fm);
    MappingsOfExactly(ev.outputs, ev.inputs, ev.runId, fm);
    MappingWritesExactly(MappingsOf(ev.outputs, ev.inputs, ev.runId).value, fm);
    assert AddMappings(fm) in WritesOf(ev) && RowIn(m, fm);
  }

  lemma RowIsWritten(ev: RunEvent, output: RawDataset, input: RawDataset, m: Mapping)
    requires Parses(ev) && DictColumns(ev.outputs) && AllAccepted(WritesOf(ev))
    requires output in ev.outputs && input in ev.inputs && RowBetween(ev, output, input, m)
    ensures m in RowsOf(WritesOf(ev))
  {
    if SharedRow(output, input, m.outputField, m.inputField) {
      SharedRowIsWritten(ev, output, input, m);
    } else {
      ColumnRowIsWritten(ev, output, input, m);
    }
  }

  lemma SharedRowIsCalledFor(ev: RunEvent, output: DatasetRef, input: DatasetRef, m: Mapping)
    requires Parses(ev) && output in ParsedAll(ev.outputs).value && input in ParsedAll(ev.inputs).value
    requires RowIn(m, SharedMapping(ev, output, input))
    ensures RowOfEvent(ev, m)
  {
    ParsedAllMembers(ev.inputs);
    ParsedAllMembers(ev.outputs);
    var o :| o in ev.outputs && Parsed(o) == Some(output);
    var i :| i in ev.inputs && Parsed(i) == Some(input);
    SharedRowExactly(ev, o, i, m);
    assert RowBetween(ev, o, i, m);
  }

  lemma ColumnRowIsCalledFor(ev: RunEvent, fm: FieldMapping, m: Mapping)
    requires DictColumns(ev.outputs) && CalledForByColumns(ev.outputs, ev.inputs, ev.runId, fm) && RowIn(m, fm)
    ensures RowOfEvent(ev, m)
  {
    var output :| output in ev.outputs && CalledByOutput(output, ev.inputs, ev.runId, fm);
    var input :| input in ev.inputs && ColumnMapping(output, input, ev.runId, fm);
    ColumnRowExactly(output, m.outputField, m.inputField);
    assert RowBetween(ev, output, input, m);
  }

  /** The other direction: the event calls for every row that is written. */
  lemma WrittenRowIsCalledFor(ev: RunEvent, m: Mapping)
    requires Parses(ev) && ev.inputs != [] && ev.outputs != [] && DictColumns(ev.outputs)
    requires AllAccepted(WritesOf(ev)) && m in RowsOf(WritesOf(ev))
    ensures RowOfEvent(ev, m)
  {
    FullWrites(ev);
    RowsOfExactly(WritesOf(ev), m);
    var ms := MappingsOf(ev.outputs, ev.inputs, ev.runId).value;
    var fm :| AddMappings(fm) in WritesOf(ev) && RowIn(m, fm);
    EdgeWritesExactly(ev, ParsedAll(ev.outputs).value, ParsedAll(ev.inputs).value, fm);
    MappingWritesExactly(ms, fm);
    if AddMappings(fm) in MappingWrites(ms) {
      MappingsOfExactly(ev.outputs, ev.inputs, ev.runId, fm);
      ColumnRowIsCalledFor(ev, fm, m);
    } else {
      var output, input :|
        output in ParsedAll(ev.outputs).value && input in ParsedAll(ev.inputs).value && fm == SharedMapping(ev, output, input);
      SharedRowIsCalledFor(ev, output, input, m);
    }
  }

  /** An event whose lineage does not raise writes exactly the rows it calls for. */
  lemma EventRowsExactly(ev: RunEvent, m: Mapping)
    requires AllAccepted(WritesOf(ev)) && DictColumns(ev.outputs)
    ensures m in RowsOf(WritesOf(ev)) <==> RowOfEvent(ev, m)
  {
    RaiseAddsNothing(Lineage([], []));
    if Parses(ev) {
      if ev.inputs != [] && ev.outputs != [] && m in RowsOf(WritesOf(ev)) {
        WrittenRowIsCalledFor(ev, m);
      }
      if RowOfEvent(ev, m) {
        var output, input :| output in ev.outputs && input in ev.inputs && RowBetween(ev, output, input, m);
        RowIsWritten(ev, output, input, m);
      }
      ParsedAllLength(ev.inputs);
      ParsedAllLength(ev.outputs);
    }
  }

  // ------------------------------------------------------------------ how many rows an event adds

  /** The names of a map of shared fields, each once. */
  lemma {:induction false} SharedMapSize(fields: seq<SchemaField>, known: set<string>)
    ensures |SharedMap(fields, known)| == |FieldNames(fields) * known|
  {
    if fields != [] {
      SharedMapSize(fields[..|fields| - 1], known);
      FieldNamesLast(fields);
      OneMoreName(FieldNames(fields[..|fields| - 1]), known, fields[|fields| - 1].name);
    }
  }

  lemma FieldNamesLast(fields: seq<SchemaField>)
    requires fields != []
    ensures FieldNames(fields) == FieldNames(fields[..|fields| - 1]) + {fields[|fields| - 1].name}
  {
    assert fields == fields[..|fields| - 1] + [fields[|fields| - 1]];
  }

  lemma OneMoreName(names: set<string>, known: set<string>, name: string)
    ensures |(names + {name}) * known| == |names * known| + (if name in known && name !in names then 1 else 0)
  {
    if name in known && name !in names {
      assert (names + {name}) * known == names * known + {name};
    } else {
      assert (names + {name}) * known == names * known;
    }
  }

  lemma {:induction false} ColumnMapSize(columns: seq<(string, Column)>)
    requires DistinctNames(columns)
    ensures |ColumnMap(columns)| == MappedColumns(columns)
  {
    if columns != [] {
      ColumnMapSize(columns[..|columns| - 1]);
      if columns[|columns| - 1].1.inputFields != [] {
        ColumnMapNext(columns);
      }
    }
  }

  lemma PairSize(ev: RunEvent, output: RawDataset, input: RawDataset)
    requires Parsed(output).Some? && Parsed(input).Some?
    ensures AllAccepted(PairWrites(ev, Parsed(output).value, Parsed(input).value))
    ensures |RowsOf(PairWrites(ev, Parsed(output).value, Parsed(input).value))| == |Names(output) * Names(input)|
  {
    var o, i := Parsed(output).value, Parsed(input).value;
    var edge, fm := AddEdge(EdgeOf(ev, o, i)), SharedMapping(ev, o, i);
    PairEdge(Lineage([], []), ev, o, i);
    ParsedNames(output);
    ParsedNames(input);
    SharedMapSize(o.fields, FieldNames(i.fields));
    SharedMapAccepted(o.fields, FieldNames(i.fields));
    RowInExactly(Mapping("", "", "", "", ""), fm);
    RowsSnoc([], edge);
    assert [] + [edge] == [edge] && RowsOf([]) == [];
    RowsSnoc([edge], AddMappings(fm));
    assert [edge] + [AddMappings(fm)] == [edge, AddMappings(fm)];
  }

  lemma {:induction false} OutputSize(ev: RunEvent, output: RawDataset, inputs: seq<RawDataset>)
    requires Parsed(output).Some? && ParsedAll(inputs).Some?
    ensures |RowsOf(OutputWrites(ev, Parsed(output).value, ParsedAll(inputs).value))| == SharedWith(output, inputs)
  {
    if inputs != [] {
      var init, last := inputs[..|inputs| - 1], inputs[|inputs| - 1];
      var ds := ParsedAll(init).value;
      assert ParsedAll(inputs).value == ds + [Parsed(last).value];
      assert (ds + [Parsed(last).value])[..|ds|] == ds;
      OutputSize(ev, output, init);
      PairSize(ev, output, last);
      RowsConcat(OutputWrites(ev, Parsed(output).value, ds), PairWrites(ev, Parsed(output).value, Parsed(last).value));
    }
  }

  lemma {:induction false} EdgeWritesSize(ev: RunEvent, outputs: seq<RawDataset>, inputs: seq<RawDataset>)
    requires ParsedAll(outputs).Some? && ParsedAll(inputs).Some?
    ensures |RowsOf(EdgeWrites(ev, ParsedAll(outputs).value, ParsedAll(inputs).value))| == SharedTotal(outputs, inputs)
  {
    if outputs != [] {
      var init, last := outputs[..|outputs| - 1], outputs[|outputs| - 1];
      var ds := ParsedAll(init).value;
      assert ParsedAll(outputs).value == ds + [Parsed(last).value];
      assert (ds + [Parsed(last).value])[..|ds|] == ds;
      EdgeWritesSize(ev, init, inputs);
      OutputSize(ev, last, inputs);
      RowsConcat(EdgeWrites(ev, ds, ParsedAll(inputs).value), OutputWrites(ev, Parsed(last).value, ParsedAll(inputs).value));
    }
  }

  /** The entries of the maps, one after the other. */
  function Entries(ms: seq<FieldMapping>): nat {
    if ms == [] then 0 else Entries(ms[..|ms| - 1]) + |ms[|ms| - 1].fieldMap|
  }

  lemma {:induction false} EntriesConcat(ms: seq<FieldMapping>, more: seq<FieldMapping>)
    ensures Entries(ms + more) == Entries(ms) + Entries(more)
  {
    if more == [] {
      assert ms + more == ms;
    } else {
      assert (ms + more)[..|ms + more| - 1] == ms + more[..|more| - 1];
      EntriesConcat(ms, more[..|more| - 1]);
    }
  }

  lemma {:induction false} MappingWritesSize(ms: seq<FieldMapping>)
    requires AllAccepted(MappingWrites(ms))
    ensures |RowsOf(MappingWrites(ms))| == Entries(ms)
  {
    if ms != [] {
      var before, last := MappingWrites(ms[..|ms| - 1]), ms[|ms| - 1];
      AppliedConcat(Lineage([], []), before, [AddMappings(last)]);
      AppliedOne(Lineage([], []), AddMappings(last));
      MappingWritesSize(ms[..|ms| - 1]);
      RowInExactly(Mapping("", "", "", "", ""), last);
    }
  }

  lemma {:induction false} MappingsFromSize(inputs: seq<RawDataset>, output: string, columns: seq<(string, Column)>, runId: string)
    requires AllNamed(inputs) && DistinctNames(columns)
    ensures MappingsFrom(inputs, output, columns, runId).Some?
    ensures Entries(MappingsFrom(inputs, output, columns, runId).value) == |inputs| * MappedColumns(columns)
  {
    if inputs != [] {
      var n := |inputs| - 1;
      MappingsFromSize(inputs[..n], output, columns, runId);
      ColumnMapSize(columns);
      OneMoreRow(n, MappedColumns(columns));
      assert |inputs| * MappedColumns(columns) == n * MappedColumns(columns) + MappedColumns(columns);
      assert NameOf(inputs[n]).Some?;
      var before := MappingsFrom(inputs[..n], output, columns, runId).value;
      if ColumnMap(columns) != [] {
        EntriesConcat(before, [FieldMapping(output, NameOf(inputs[n]).value, runId, ColumnMap(columns))]);
        OneEntry(FieldMapping(output, NameOf(inputs[n]).value, runId, ColumnMap(columns)));
      }
    }
  }

  lemma OneEntry(fm: FieldMapping)
    ensures Entries([fm]) == |fm.fieldMap|
  {
    assert [fm][..0] == [];
    assert Entries([]) == 0;
  }

  lemma ColumnTotalNext(outputs: seq<RawDataset>, n: nat)
    requires outputs != []
    ensures var last := outputs[|outputs| - 1];
            ColumnTotal(outputs, n) == ColumnTotal(outputs[..|outputs| - 1], n) +
                                       (if last.columns == [] then 0 else n * MappedColumns(last.columns))
  {
  }

  lemma DictColumnsInit(outputs: seq<RawDataset>)
    requires AllNamed(outputs) && DictColumns(outputs) && outputs != []
    ensures var init, last := outputs[..|outputs| - 1], outputs[|outputs| - 1];
            AllNamed(init) && DictColumns(init) && NameOf(last).Some? && DistinctNames(last.columns)
  {
    assert outputs == outputs[..|outputs| - 1] + [outputs[|outputs| - 1]];
  }

  lemma {:induction false} MappingsOfSize(outputs: seq<RawDataset>, inputs: seq<RawDataset>, runId: string)
    requires AllNamed(inputs) && AllNamed(outputs) && DictColumns(outputs)
    ensures MappingsOf(outputs, inputs, runId).Some?
    ensures Entries(MappingsOf(outputs, inputs, runId).value) == ColumnTotal(outputs, |inputs|)
  {
    if outputs != [] {
      var init, last := outputs[..|outputs| - 1], outputs[|outputs| - 1];
      DictColumnsInit(outputs);
      ColumnTotalNext(outputs, |inputs|);
      MappingsOfSize(init, inputs, runId);
      if last.columns != [] {
        MappingsFromSize(inputs, NameOf(last).value, last.columns, runId);
        EntriesConcat(MappingsOf(init, inputs, runId).value, MappingsFrom(inputs, NameOf(last).value, last.columns, runId).value);
      }
    }
  }

  /** Each row it calls for is written as often as it is called for. */
  lemma EventRowsSize(ev: RunEvent)
    requires AllAccepted(WritesOf(ev)) && DictColumns(ev.outputs) && ev.inputs != [] && ev.outputs != []
    ensures |RowsOf(WritesOf(ev))| == SharedTotal(ev.outputs, ev.inputs) + ColumnTotal(ev.outputs, |ev.inputs|)
  {
    RaiseAddsNothing(Lineage([], []));
    FullWrites(ev);
    var first := EdgeWrites(ev, ParsedAll(ev.outputs).value, ParsedAll(ev.inputs).value);
    var ms := MappingsOf(ev.outputs, ev.inputs, ev.runId).value;
    AppliedConcat(Lineage([], []), first, MappingWrites(ms));
    RowsConcat(first, MappingWrites(ms));
    EdgeWritesSize(ev, ev.outputs, ev.inputs);
    MappingWritesSize(ms);
    MappingsOfSize(ev.outputs, ev.inputs, ev.runId);
  }

  // ------------------------------------------------------------------ edges of an event

  lemma EdgeBetweenExactly(ev: RunEvent, output: RawDataset, input: RawDataset, e: Edge)
    requires Parsed(output).Some? && Parsed(input).Some?
    ensures e == EdgeOf(ev, Parsed(output).value, Parsed(input).value) <==> EdgeBetween(ev, output, input, e)
  {
    ParsedNames(output);
    ParsedNames(input);
    ParsedExactly(output);
  }

  lemma EventEdgesExactly(ev: RunEvent, e: Edge)
    requires Parses(ev)
    ensures e in EdgesOf(ev) <==> EdgeOfEvent(ev, e)
    ensures |EdgesOf(ev)| == |ev.outputs| * |ev.inputs|
  {
    EdgesOfExactly(ev, e);
    ParsedAllMembers(ev.inputs);
    ParsedAllMembers(ev.outputs);
    if e in EdgesOf(ev) {
      var output, input :| output in ParsedAll(ev.outputs).value && input in ParsedAll(ev.inputs).value && e == EdgeOf(ev, output, input);
      var o :| o in ev.outputs && Parsed(o) == Some(output);
      var i :| i in ev.inputs && Parsed(i) == Some(input);
      EdgeBetweenExactly(ev, o, i, e);
    }
    if EdgeOfEvent(ev, e) {
      var o, i :| o in ev.outputs && i in ev.inputs && EdgeBetween(ev, o, i, e);
      EdgeBetweenExactly(ev, o, i, e);
    }
  }

  // ------------------------------------------------------------------ when recording raises

  predicate NothingOdd(columns: seq<(string, Column)>) {
    forall column :: column in columns && column.1.inputFields != [] ==> !column.1.inputFields[0].Other?
  }

  lemma ColumnMapAccepted(columns: seq<(string, Column)>)
    requires DistinctNames(columns)
    ensures (forall i :: 0 <= i < |ColumnMap(columns)| ==> ColumnMap(columns)[i].1.Some?) <==> NothingOdd(columns)
  {
    var m := ColumnMap(columns);
    if i :| 0 <= i < |m| && m[i].1.None? {
      assert (m[i].0, None) in m;
      ColumnMapExactly(columns, m[i].0, None);
      var column :| column in columns && MapsTo(column, m[i].0, None);
    }
    if column :| column in columns && column.1.inputFields != [] && column.1.inputFields[0].Other? {
      assert MapsTo(column, column.0, None);
      ColumnMapExactly(columns, column.0, None);
      var i :| 0 <= i < |m| && m[i] == (column.0, None);
    }
  }

  lemma MappingsAccepted(ev: RunEvent)
    requires AllNamed(ev.inputs) && AllNamed(ev.outputs) && DictColumns(ev.outputs) && ev.inputs != []
    ensures MappingsOf(ev.outputs, ev.inputs, ev.runId).Some?
    ensures AllAccepted(MappingWrites(MappingsOf(ev.outputs, ev.inputs, ev.runId).value)) <==>
            forall raw :: raw in ev.outputs ==> NothingOdd(raw.columns)
  {
    MappingsOfExactly(ev.outputs, ev.inputs, ev.runId, FieldMapping("", "", "", []));
    var ms := MappingsOf(ev.outputs, ev.inputs, ev.runId).value;
    if AllAccepted(MappingWrites(ms)) {
      forall raw | raw in ev.outputs ensures NothingOdd(raw.columns) {
        MappingOfOutput(ev, raw, ms);
      }
    }
    if forall raw :: raw in ev.outputs ==> NothingOdd(raw.columns) {
      forall w | w in MappingWrites(ms) ensures Accepted(w) {
        OnlyMappingWrites(ms, w);
        MappingWritesExactly(ms, w.mapping);
        MappingIsAccepted(ev, ms, w.mapping);
      }
    }
  }

  lemma MappingOfOutput(ev: RunEvent, raw: RawDataset, ms: seq<FieldMapping>)
    requires AllNamed(ev.inputs) && AllNamed(ev.outputs) && DictColumns(ev.outputs) && ev.inputs != [] && raw in ev.outputs
    requires MappingsOf(ev.outputs, ev.inputs, ev.runId) == Some(ms) && AllAccepted(MappingWrites(ms))
    ensures NothingOdd(raw.columns)
  {
    var input := ev.inputs[0];
    NameOfIs(raw);
    NameOfIs(input);
    var fm := FieldMapping(NameOf(raw).value, NameOf(input).value, ev.runId, ColumnMap(raw.columns));
    MappingsOfExactly(ev.outputs, ev.inputs, ev.runId, fm);
    MappingWritesExactly(ms, fm);
    ColumnMapAccepted(raw.columns);
    if ColumnMap(raw.columns) != [] {
      assert ColumnMapping(raw, input, ev.runId, fm);
      assert Accepted(AddMappings(fm));
    }
  }

  lemma {:induction false} OnlyMappingWrites(ms: seq<FieldMapping>, w: Write)
    requires w in MappingWrites(ms)
    ensures w.AddMappings?
  {
    var n := |ms| - 1;
    if w in MappingWrites(ms[..n]) {
      OnlyMappingWrites(ms[..n], w);
    } else {
      assert w == AddMappings(ms[n]);
    }
  }

  lemma FieldMapAccepted(fm: FieldMapping, columns: seq<(string, Column)>)
    requires DistinctNames(columns) && NothingOdd(columns) && fm.fieldMap == ColumnMap(columns)
    ensures Accepted(AddMappings(fm))
  {
    ColumnMapAccepted(columns);
  }

  lemma MappingIsAccepted(ev: RunEvent, ms: seq<FieldMapping>, fm: FieldMapping)
    requires AllNamed(ev.inputs) && AllNamed(ev.outputs) && DictColumns(ev.outputs)
    requires MappingsOf(ev.outputs, ev.inputs, ev.runId) == Some(ms) && fm in ms
    requires forall raw :: raw in ev.outputs ==> NothingOdd(raw.columns)
    ensures Accepted(AddMappings(fm))
  {
    MappingsOfExactly(ev.outputs, ev.inputs, ev.runId, fm);
    var output :| output in ev.outputs && CalledByOutput(output, ev.inputs, ev.runId, fm);
    var input :| input in ev.inputs && ColumnMapping(output, input, ev.runId, fm);
    FieldMapAccepted(fm, output.columns);
  }

  /** The writes of an event with inputs and outputs that parse: its edges, then its column mappings. */
  lemma FullAccepted(ev: RunEvent)
    requires Parses(ev) && ev.inputs != [] && ev.outputs != [] && DictColumns(ev.outputs)
    ensures AllAccepted(WritesOf(ev)) <==> forall raw :: raw in ev.outputs ==> NothingOdd(raw.columns)
  {
    FullWrites(ev);
    MappingsAccepted(ev);
    AllEdges(Lineage([], []), ev, ParsedAll(ev.outputs).value, ParsedAll(ev.inputs).value);
    AppliedConcat(Lineage([], []), EdgeWrites(ev, ParsedAll(ev.outputs).value, ParsedAll(ev.inputs).value),
                  MappingWrites(MappingsOf(ev.outputs, ev.inputs, ev.runId).value));
  }

  /** Recording an event's lineage raises exactly when the event says so. */
  lemma RecordableExactly(ev: RunEvent)
    requires DictColumns(ev.outputs)
    ensures AllAccepted(WritesOf(ev)) <==> Recordable(ev)
  {
    ParsedAllExactly(ev.inputs);
    ParsedAllExactly(ev.outputs);
    if !Parses(ev) {
      RaiseAddsNothing(Lineage([], []));
    } else if ev.inputs != [] && ev.outputs != [] {
      FullAccepted(ev);
    } else {
      ParsedAllLength(ev.inputs);
      ParsedAllLength(ev.outputs);
    }
  }

  // ------------------------------------------------------------------ what recording adds

  lemma {:induction false} NoInputsNoRows(outputs: seq<RawDataset>)
    ensures SharedTotal(outputs, []) == 0 && ColumnTotal(outputs, 0) == 0
  {
    if outputs != [] {
      NoInputsNoRows(outputs[..|outputs| - 1]);
    }
  }

  lemma RecordedRows(l: Lineage, ev: RunEvent)
    requires AllAccepted(WritesOf(ev)) && DictColumns(ev.outputs)
    ensures RowsAdded(ev, l.mappings, Applied(l, WritesOf(ev)).mappings)
  {
    AppliedRows(l, WritesOf(ev));
    var rows := RowsOf(WritesOf(ev));
    assert (l.mappings + rows)[|l.mappings|..] == rows;
    forall m ensures m in rows <==> RowOfEvent(ev, m) {
      EventRowsExactly(ev, m);
    }
    if ev.inputs != [] && ev.outputs != [] {
      EventRowsSize(ev);
    } else {
      NoWrites(ev);
      NoInputsNoRows(ev.outputs);
    }
  }

  lemma NoWrites(ev: RunEvent)
    requires AllAccepted(WritesOf(ev)) && (ev.inputs == [] || ev.outputs == [])
    ensures WritesOf(ev) == []
  {
    RaiseAddsNothing(Lineage([], []));
    if Parses(ev) {
      ParsedAllLength(ev.inputs);
      ParsedAllLength(ev.outputs);
    }
  }

  /** Edges are added for any event whose datasets parse, also when a column mapping raises afterwards. */
  lemma RecordedEdgesOf(l: Lineage, ev: RunEvent)
    ensures SomeIllTyped(ev.inputs) || SomeIllTyped(ev.outputs) ==> Applied(l, WritesOf(ev)) == l
    ensures !SomeIllTyped(ev.inputs) && !SomeIllTyped(ev.outputs) ==> EdgesAdded(ev, l.edges, Applied(l, WritesOf(ev)).edges)
  {
    ParsedAllExactly(ev.inputs);
    ParsedAllExactly(ev.outputs);
    RaiseAddsNothing(l);
    if Parses(ev) {
      EventEdges(l, ev);
      assert (l.edges + EdgesOf(ev))[|l.edges|..] == EdgesOf(ev);
      EdgesTotal(ev);
      forall e ensures e in EdgesOf(ev) <==> EdgeOfEvent(ev, e) {
        EventEdgesExactly(ev, e);
      }
    }
  }

  lemma EdgesTotal(ev: RunEvent)
    requires Parses(ev)
    ensures |EdgesOf(ev)| == |ev.outputs| * |ev.inputs|
  {
    EventEdgesExactly(ev, Edge("", "", "", "", 0, ev.body));
  }

  // ------------------------------------------------------------------ batches

  /** Some complete event that was not answered as a duplicate calls for the row. */
  predicate RowOfBatch(events: seq<RunEvent>, acks: seq<Ack>, m: Mapping)
    requires |events| == |acks|
  {
    exists i :: 0 <= i < |events| && !acks[i].duplicate && events[i].eventType == "COMPLETE" && RowOfEvent(events[i], m)
  }

  predicate EdgeOfBatch(events: seq<RunEvent>, acks: seq<Ack>, e: Edge)
    requires |events| == |acks|
  {
    exists i :: 0 <= i < |events| && !acks[i].duplicate && events[i].eventType == "COMPLETE" && EdgeOfEvent(events[i], e)
  }

  lemma RowOfBatchLast(events: seq<RunEvent>, acks: seq<Ack>, m: Mapping)
    requires |events| == |acks| && events != []
    ensures var n := |events| - 1;
            RowOfBatch(events, acks, m) <==>
            RowOfBatch(events[..n], acks[..n], m) || (Records(events[n], acks[n]) && RowOfEvent(events[n], m))
  {
    var n := |events| - 1;
    if i :| 0 <= i < n && !acks[i].duplicate && events[i].eventType == "COMPLETE" && RowOfEvent(events[i], m) {
      assert events[..n][i] == events[i] && acks[..n][i] == acks[i];
    }
  }

  lemma EdgeOfBatchLast(events: seq<RunEvent>, acks: seq<Ack>, e: Edge)
    requires |events| == |acks| && events != []
    ensures var n := |events| - 1;
            EdgeOfBatch(events, acks, e) <==>
            EdgeOfBatch(events[..n], acks[..n], e) || (Records(events[n], acks[n]) && EdgeOfEvent(events[n], e))
  {
    var n := |events| - 1;
    if i :| 0 <= i < n && !acks[i].duplicate && events[i].eventType == "COMPLETE" && EdgeOfEvent(events[i], e) {
      assert events[..n][i] == events[i] && acks[..n][i] == acks[i];
    }
  }

  lemma {:induction false} BatchRowsExactly(events: seq<RunEvent>, acks: seq<Ack>, m: Mapping)
    requires |events| == |acks| && AllAccepted(BatchWrites(events, acks))
    requires forall ev :: ev in events ==> DictColumns(ev.outputs)
    ensures m in RowsOf(BatchWrites(events, acks)) <==> RowOfBatch(events, acks, m)
    decreases |events|
  {
    if events != [] {
      var n := |events| - 1;
      var before, more := BatchWrites(events[..n], acks[..n]), EventWrites(events[n], acks[n]);
      AppliedConcat(Lineage([], []), before, more);
      RowsConcat(before, more);
      RowOfBatchLast(events, acks, m);
      BatchRowsExactly(events[..n], acks[..n], m);
      EventWritesRows(events[n], acks[n], m);
    }
  }

  lemma EventWritesRows(ev: RunEvent, ack: Ack, m: Mapping)
    requires AllAccepted(EventWrites(ev, ack)) && DictColumns(ev.outputs)
    ensures m in RowsOf(EventWrites(ev, ack)) <==> Records(ev, ack) && RowOfEvent(ev, m)
  {
    if Records(ev, ack) {
      EventRowsExactly(ev, m);
    }
  }

  lemma AcceptedParses(ev: RunEvent)
    requires AllAccepted(WritesOf(ev))
    ensures Parses(ev)
  {
    RaiseAddsNothing(Lineage([], []));
  }

  lemma {:induction false} AcceptedLast(events: seq<RunEvent>, acks: seq<Ack>)
    requires |events| == |acks| > 0 && AllAccepted(BatchWrites(events, acks))
    ensures var n := |events| - 1;
            AllAccepted(BatchWrites(events[..n], acks[..n])) && (Records(events[n], acks[n]) ==> Parses(events[n]))
  {
    var n := |events| - 1;
    AppliedConcat(Lineage([], []), BatchWrites(events[..n], acks[..n]), EventWrites(events[n], acks[n]));
    if Records(events[n], acks[n]) {
      AcceptedParses(events[n]);
    }
  }

  lemma {:induction false} BatchParses(events: seq<RunEvent>, acks: seq<Ack>, i: nat)
    requires |events| == |acks| && AllAccepted(BatchWrites(events, acks)) && i < |events| && Records(events[i], acks[i])
    ensures Parses(events[i])
    decreases |events|
  {
    AcceptedLast(events, acks);
    if i < |events| - 1 {
      EarlierParses(events, acks, i);
    }
  }

  lemma {:induction false} EarlierParses(events: seq<RunEvent>, acks: seq<Ack>, i: nat)
    requires |events| == |acks| && i < |events| - 1 && Records(events[i], acks[i])
    requires AllAccepted(BatchWrites(events[..|events| - 1], acks[..|events| - 1]))
    ensures Parses(events[i])
    decreases |events|, 0
  {
    var n := |events| - 1;
    assert events[..n][i] == events[i] && acks[..n][i] == acks[i];
    BatchParses(events[..n], acks[..n], i);
  }

  lemma {:induction false} BatchEdgesExactly(events: seq<RunEvent>, acks: seq<Ack>, e: Edge)
    requires |events| == |acks| && AllAccepted(BatchWrites(events, acks))
    ensures e in BatchEdgeList(events, acks) <==> EdgeOfBatch(events, acks, e)
    decreases |events|
  {
    if events != [] {
      var n := |events| - 1;
      AppliedConcat(Lineage([], []), BatchWrites(events[..n], acks[..n]), EventWrites(events[n], acks[n]));
      BatchEdgesExactly(events[..n], acks[..n], e);
      EdgeOfBatchLast(events, acks, e);
      if Records(events[n], acks[n]) {
        BatchParses(events, acks, n);
        EventEdgesExactly(events[n], e);
      }
    }
  }
}
