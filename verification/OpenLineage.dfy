/** OpenLineage run events: how datasets are read from them, and what lineage they record
  * (`openlineage/models.py`, and the plan of `_record_lineage` in `openlineage/ingest.py`).
  */
module OpenLineage {
  import opened Wrappers
  import opened Json

  /** What `raw.get(key, default)` finds under a key that should hold a string. A number or a boolean is kept
    * as the text that a TEXT column stores for it; Other is null, a list or a dict.
    */
  datatype Attr = Absent | Text(value: string) | Scalar(text: string) | Other

  datatype RawField = RawField(name: Attr, kind: Attr)

  /** An entry of the columnLineage facet: its type, and the "field" of each of its inputFields. */
  datatype Column = Column(kind: Attr, inputFields: seq<Attr>)

  /** A dataset as the event carries it: the parts of it and of its schema and columnLineage facets. */
  datatype RawDataset = RawDataset(namespace: Attr, name: Attr, schema: seq<RawField>, columns: seq<(string, Column)>)

  datatype SchemaField = SchemaField(name: string, kind: string)

  datatype DatasetRef = DatasetRef(namespace: string, name: string, fields: seq<SchemaField>) {
    function QualifiedName(): string { namespace + "." + name }
  }

  datatype RunEvent = RunEvent(
    eventType: string, eventTime: string, runId: string,
    inputs: seq<RawDataset>, outputs: seq<RawDataset>,
    body: Payload)  // `model_dump`

  /** A dict of field names; None is a value that no column takes. */
  type FieldMap = seq<(string, Option<string>)>

  datatype FieldMapping = FieldMapping(outputDataset: string, inputDataset: string, runId: string, fieldMap: FieldMap)

  // ------------------------------------------------------------------ reading datasets

  /** A string field of a model: the default when absent, and no model at all for anything but a string. */
  function TextOr(a: Attr, default: string): Option<string> {
    match a
    case Absent => Some(default)
    case Text(s) => Some(s)
    case _ => None
  }

  predicate NotText(a: Attr) { a.Scalar? || a.Other? }

  /** What a column takes for the value: NOT NULL refuses null, and no column takes a list or a dict. */
  function Stored(a: Attr, default: string): Option<string> {
    match a
    case Absent => Some(default)
    case Text(s) => Some(s)
    case Scalar(s) => Some(s)
    case Other => None
  }

  function FieldOf(name: Attr, kind: Attr): Option<SchemaField> {
    if TextOr(name, "").None? || TextOr(kind, "string").None? then None
    else Some(SchemaField(TextOr(name, "").value, TextOr(kind, "string").value))
  }

  function SchemaFields(schema: seq<RawField>): Option<seq<SchemaField>> {
    if schema == [] then Some([])
    else
      var before, f := SchemaFields(schema[..|schema| - 1]), FieldOf(schema[|schema| - 1].name, schema[|schema| - 1].kind);
      if before.None? || f.None? then None else Some(before.value + [f.value])
  }

  /** `fields` with one more for each column. */
  function ColumnFields(fields: seq<SchemaField>, columns: seq<(string, Column)>): Option<seq<SchemaField>> {
    if columns == [] then Some(fields)
    else
      var before := ColumnFields(fields, columns[..|columns| - 1]);
      var f := FieldOf(Text(columns[|columns| - 1].0), columns[|columns| - 1].1.kind);
      if before.None? || f.None? then None else Some(before.value + [f.value])
  }

  /** The dataset reference of a raw dataset; None when building it raises. */
  function Parsed(raw: RawDataset): Option<DatasetRef> {
    var namespace, name := TextOr(raw.namespace, "default"), TextOr(raw.name, "unknown");
    var schema := SchemaFields(raw.schema);
    var fields := if schema.None? then None else ColumnFields(schema.value, raw.columns);
    if namespace.None? || name.None? || fields.None? then None
    else Some(DatasetRef(namespace.value, name.value, fields.value))
  }

  // ------------------------------------------------------------------ when a dataset can be parsed

  predicate IllTypedSchema(schema: seq<RawField>) {
    exists i :: 0 <= i < |schema| && (NotText(schema[i].name) || NotText(schema[i].kind))
  }

  predicate IllTypedColumns(columns: seq<(string, Column)>) {
    exists i :: 0 <= i < |columns| && NotText(columns[i].1.kind)
  }

  /** Some string field of the dataset holds something else. */
  predicate IllTyped(raw: RawDataset) {
    || NotText(raw.namespace) || NotText(raw.name)
    || IllTypedSchema(raw.schema) || IllTypedColumns(raw.columns)
  }

  predicate IsField(f: SchemaField, name: Attr, kind: Attr) {
    f.name == (if name.Text? then name.value else "") && f.kind == (if kind.Text? then kind.value else "string")
  }

  lemma {:induction false} SchemaFieldsFail(schema: seq<RawField>)
    ensures SchemaFields(schema).None? <==> IllTypedSchema(schema)
  {
    if schema != [] {
      var n := |schema| - 1;
      SchemaFieldsFail(schema[..n]);
      assert forall i :: 0 <= i < n ==> schema[..n][i] == schema[i];
      if NotText(schema[n].name) || NotText(schema[n].kind) {
        assert SchemaFields(schema).None?;
      }
    }
  }

  lemma {:induction false} SchemaFieldsRead(schema: seq<RawField>)
    requires SchemaFields(schema).Some?
    ensures ReadsSchema(SchemaFields(schema).value, schema)
  {
    if schema != [] {
      SchemaFieldsRead(schema[..|schema| - 1]);
    }
  }

  lemma {:induction false} ColumnFieldsFail(fields: seq<SchemaField>, columns: seq<(string, Column)>)
    ensures ColumnFields(fields, columns).None? <==> IllTypedColumns(columns)
  {
    if columns != [] {
      var n := |columns| - 1;
      ColumnFieldsFail(fields, columns[..n]);
      assert forall i :: 0 <= i < n ==> columns[..n][i] == columns[i];
      if NotText(columns[n].1.kind) {
        assert ColumnFields(fields, columns).None?;
      }
    }
  }

  lemma {:induction false} ColumnFieldsRead(fields: seq<SchemaField>, columns: seq<(string, Column)>)
    requires ColumnFields(fields, columns).Some?
    ensures var all := ColumnFields(fields, columns).value;
            |all| == |fields| + |columns| && all[..|fields|] == fields && ReadsColumns(all[|fields|..], columns)
  {
    if columns != [] {
      ColumnFieldsRead(fields, columns[..|columns| - 1]);
    }
  }

  predicate ReadsSchema(fields: seq<SchemaField>, schema: seq<RawField>) {
    |fields| == |schema| && forall i :: 0 <= i < |schema| ==> IsField(fields[i], schema[i].name, schema[i].kind)
  }

  predicate ReadsColumns(fields: seq<SchemaField>, columns: seq<(string, Column)>) {
    |fields| == |columns| && forall i :: 0 <= i < |columns| ==> IsField(fields[i], Text(columns[i].0), columns[i].1.kind)
  }

  /** The reference of a dataset: its names or their defaults, the fields of its schema, then one for each of
    * its columns.
    */
  predicate Reads(d: DatasetRef, raw: RawDataset) {
    && d.namespace == (if raw.namespace.Text? then raw.namespace.value else "default")
    && d.name == (if raw.name.Text? then raw.name.value else "unknown")
    && |d.fields| == |raw.schema| + |raw.columns|
    && ReadsSchema(d.fields[..|raw.schema|], raw.schema)
    && ReadsColumns(d.fields[|raw.schema|..], raw.columns)
  }

  /** Parsing fails exactly for an ill-typed dataset, and else gives its reference. */
  lemma ParsedExactly(raw: RawDataset)
    ensures Parsed(raw).None? <==> IllTyped(raw)
    ensures Parsed(raw).Some? ==> Reads(Parsed(raw).value, raw)
  {
    SchemaFieldsFail(raw.schema);
    if SchemaFields(raw.schema).Some? {
      ColumnFieldsFail(SchemaFields(raw.schema).value, raw.columns);
    }
    if Parsed(raw).Some? {
      ParsedReads(raw);
    }
  }

  lemma ParsedReads(raw: RawDataset)
    requires Parsed(raw).Some?
    ensures Reads(Parsed(raw).value, raw)
  {
    SchemaFieldsRead(raw.schema);
    ColumnFieldsRead(SchemaFields(raw.schema).value, raw.columns);
  }

  lemma {:induction false} SchemaFails(schema: seq<RawField>, n: nat)
    requires n <= |schema| && SchemaFields(schema[..n]).None?
    ensures SchemaFields(schema).None?
    decreases |schema|
  {
    if n == |schema| {
      assert schema[..n] == schema;
    } else {
      assert schema[..|schema| - 1][..n] == schema[..n];
      SchemaFails(schema[..|schema| - 1], n);
    }
  }

  lemma {:induction false} ColumnsFail(fields: seq<SchemaField>, columns: seq<(string, Column)>, n: nat)
    requires n <= |columns| && ColumnFields(fields, columns[..n]).None?
    ensures ColumnFields(fields, columns).None?
    decreases |columns|
  {
    if n == |columns| {
      assert columns[..n] == columns;
    } else {
      assert columns[..|columns| - 1][..n] == columns[..n];
      ColumnsFail(fields, columns[..|columns| - 1], n);
    }
  }

  lemma SchemaFieldsNext(schema: seq<RawField>, i: nat)
    requires i < |schema| && SchemaFields(schema[..i]).Some?
    ensures var f := FieldOf(schema[i].name, schema[i].kind);
            SchemaFields(schema[..i + 1]) == if f.None? then None else Some(SchemaFields(schema[..i]).value + [f.value])
  {
    assert schema[..i + 1][..i] == schema[..i];
  }

  lemma ColumnFieldsNext(fields: seq<SchemaField>, columns: seq<(string, Column)>, i: nat)
    requires i < |columns| && ColumnFields(fields, columns[..i]).Some?
    ensures var f := FieldOf(Text(columns[i].0), columns[i].1.kind);
            ColumnFields(fields, columns[..i + 1]) ==
            if f.None? then None else Some(ColumnFields(fields, columns[..i]).value + [f.value])
  {
    assert columns[..i + 1][..i] == columns[..i];
  }

  /** `_parse_dataset`. */
  method ParseDataset(raw: RawDataset) returns (r: Option<DatasetRef>)
    ensures r == Parsed(raw)
    ensures r.None? <==> IllTyped(raw)
    ensures r.Some? ==> Reads(r.value, raw)
  {
    ParsedExactly(raw);
    var namespace, name := TextOr(raw.namespace, "default"), TextOr(raw.name, "unknown");
    var fields: seq<SchemaField> := [];
    for i := 0 to |raw.schema|
      invariant SchemaFields(raw.schema[..i]) == Some(fields)
    {
      SchemaFieldsNext(raw.schema, i);
      var f := FieldOf(raw.schema[i].name, raw.schema[i].kind);
      if f.None? {
        SchemaFails(raw.schema, i + 1);
        return None;
      }
      fields := fields + [f.value];
    }
    assert raw.schema[..|raw.schema|] == raw.schema;
    ghost var schema := fields;
    for i := 0 to |raw.columns|
      invariant ColumnFields(schema, raw.columns[..i]) == Some(fields)
    {
      ColumnFieldsNext(schema, raw.columns, i);
      var f := FieldOf(Text(raw.columns[i].0), raw.columns[i].1.kind);
      if f.None? {
        ColumnsFail(schema, raw.columns, i + 1);
        return None;
      }
      fields := fields + [f.value];
    }
    assert raw.columns[..|raw.columns|] == raw.columns;
    if namespace.None? || name.None? {
      return None;
    }
    return Some(DatasetRef(namespace.value, name.value, fields));
  }

  function ParsedAll(raws: seq<RawDataset>): Option<seq<DatasetRef>> {
    if raws == [] then Some([])
    else
      var before, d := ParsedAll(raws[..|raws| - 1]), Parsed(raws[|raws| - 1]);
      if before.None? || d.None? then None else Some(before.value + [d.value])
  }

  lemma {:induction false} ParsedAllLength(raws: seq<RawDataset>)
    requires ParsedAll(raws).Some?
    ensures |ParsedAll(raws).value| == |raws|
  {
    if raws != [] {
      ParsedAllLength(raws[..|raws| - 1]);
    }
  }

  lemma {:induction false} ParsedAllFails(raws: seq<RawDataset>, n: nat)
    requires n <= |raws| && ParsedAll(raws[..n]).None?
    ensures ParsedAll(raws).None?
    decreases |raws|
  {
    if n == |raws| {
      assert raws[..n] == raws;
    } else {
      assert raws[..|raws| - 1][..n] == raws[..n];
      ParsedAllFails(raws[..|raws| - 1], n);
    }
  }

  predicate SomeIllTyped(raws: seq<RawDataset>) { exists raw :: raw in raws && IllTyped(raw) }

  lemma SomeIllTypedSnoc(raws: seq<RawDataset>, raw: RawDataset)
    ensures SomeIllTyped(raws + [raw]) <==> SomeIllTyped(raws) || IllTyped(raw)
  {
    if SomeIllTyped(raws) {
      var x :| x in raws && IllTyped(x);
      assert x in raws + [raw];
    }
    assert raw in raws + [raw];
  }

  /** The references of the datasets, in their order. */
  predicate ReadsAll(ds: seq<DatasetRef>, raws: seq<RawDataset>) {
    |ds| == |raws| &&
    (raws == [] || (ReadsAll(ds[..|ds| - 1], raws[..|raws| - 1]) && Reads(ds[|ds| - 1], raws[|raws| - 1])))
  }

  /** Parsing a list fails exactly when one of its datasets is ill-typed. */
  lemma {:induction false} ParsedAllExactly(raws: seq<RawDataset>)
    ensures ParsedAll(raws).None? <==> SomeIllTyped(raws)
    ensures ParsedAll(raws).Some? ==> ReadsAll(ParsedAll(raws).value, raws)
  {
    if raws != [] {
      var init, last := raws[..|raws| - 1], raws[|raws| - 1];
      ParsedAllExactly(init);
      ParsedExactly(last);
      SomeIllTypedSnoc(init, last);
      assert raws == init + [last];
      if ParsedAll(raws).Some? {
        assert ParsedAll(raws).value[..|init|] == ParsedAll(init).value;
      }
    }
  }

  /** `datasets_in` and `datasets_out`. */
  method ParseDatasets(raws: seq<RawDataset>) returns (r: Option<seq<DatasetRef>>)
    ensures r == ParsedAll(raws)
    ensures r.None? <==> SomeIllTyped(raws)
    ensures r.Some? ==> ReadsAll(r.value, raws)
  {
    ParsedAllExactly(raws);
    var out: seq<DatasetRef> := [];
    for i := 0 to |raws|
      invariant ParsedAll(raws[..i]) == Some(out)
    {
      assert raws[..i + 1][..i] == raws[..i];
      var d := ParseDataset(raws[i]);
      if d.None? {
        ParsedAllFails(raws, i + 1);
        return None;
      }
      out := out + [d.value];
    }
    assert raws[..|raws|] == raws;
    return Some(out);
  }

  // ------------------------------------------------------------------ field maps

  /** `field_map[key] = value`: a new key goes to the end, a known one keeps its place. */
  function Put(m: FieldMap, key: string, value: Option<string>): FieldMap {
    if m == [] then [(key, value)]
    else if m[0].0 == key then [(key, value)] + m[1..]
    else [m[0]] + Put(m[1..], key, value)
  }

  /** The first input field of every column that has one, under the column's own name when it has none. */
  function ColumnMap(columns: seq<(string, Column)>): FieldMap {
    if columns == [] then []
    else
      var before, last := ColumnMap(columns[..|columns| - 1]), columns[|columns| - 1];
      if last.1.inputFields == [] then before else Put(before, last.0, Stored(last.1.inputFields[0], last.0))
  }

  predicate DistinctNames(columns: seq<(string, Column)>) {
    forall i, j :: 0 <= i < j < |columns| ==> columns[i].0 != columns[j].0
  }

  lemma {:induction false} PutNew(m: FieldMap, key: string, value: Option<string>)
    requires forall p :: p in m ==> p.0 != key
    ensures Put(m, key, value) == m + [(key, value)]
  {
    if m != [] {
      PutNew(m[1..], key, value);
    }
  }

  /** The column names a field maps from, and only its first input field counts. */
  predicate MapsTo(column: (string, Column), key: string, value: Option<string>) {
    column.0 == key && column.1.inputFields != [] && value == Stored(column.1.inputFields[0], key)
  }

  /** A new column's entry goes to the end of the map. */
  lemma {:induction false} ColumnMapNext(columns: seq<(string, Column)>)
    requires DistinctNames(columns) && columns != [] && columns[|columns| - 1].1.inputFields != []
    ensures var last := columns[|columns| - 1];
            ColumnMap(columns) ==
            ColumnMap(columns[..|columns| - 1]) + [(last.0, Stored(last.1.inputFields[0], last.0))]
    decreases |columns|, 0
  {
    var before, last := columns[..|columns| - 1], columns[|columns| - 1];
    ColumnMapAvoids(before, last.0);
    PutNew(ColumnMap(before), last.0, Stored(last.1.inputFields[0], last.0));
  }

  lemma {:induction false} ColumnMapAvoids(columns: seq<(string, Column)>, key: string)
    requires DistinctNames(columns) && forall c :: c in columns ==> c.0 != key
    ensures forall p :: p in ColumnMap(columns) ==> p.0 != key
    decreases |columns|, 1
  {
    if columns != [] {
      ColumnMapAvoids(columns[..|columns| - 1], key);
      if columns[|columns| - 1].1.inputFields != [] {
        ColumnMapNext(columns);
      }
    }
  }

  /** The map of a dict of columns has exactly the columns with an input field. */
  lemma {:induction false} ColumnMapExactly(columns: seq<(string, Column)>, key: string, value: Option<string>)
    requires DistinctNames(columns)
    ensures (key, value) in ColumnMap(columns) <==> exists c :: c in columns && MapsTo(c, key, value)
  {
    if columns != [] {
      var before, last := columns[..|columns| - 1], columns[|columns| - 1];
      ColumnMapExactly(before, key, value);
      assert forall c :: c in columns <==> c in before || c == last;
      if last.1.inputFields != [] {
        ColumnMapNext(columns);
      }
      assert (key, value) in ColumnMap(columns) <==> (key, value) in ColumnMap(before) || MapsTo(last, key, value);
    }
  }

  /** The name that a mapping row gives a dataset; DatasetRef is built without its fields there. */
  function NameOf(raw: RawDataset): Option<string> {
    var namespace, name := TextOr(raw.namespace, "default"), TextOr(raw.name, "unknown");
    if namespace.None? || name.None? then None else Some(DatasetRef(namespace.value, name.value, []).QualifiedName())
  }

  lemma NameOfParsed(raw: RawDataset)
    requires Parsed(raw).Some?
    ensures NameOf(raw) == Some(Parsed(raw).value.QualifiedName())
  {
  }

  /** The mappings of one output, whose columns are `columns`, from each input. */
  function MappingsFrom(inputs: seq<RawDataset>, output: string, columns: seq<(string, Column)>,
                        runId: string): Option<seq<FieldMapping>> {
    if inputs == [] then Some([])
    else
      var before, input := MappingsFrom(inputs[..|inputs| - 1], output, columns, runId), NameOf(inputs[|inputs| - 1]);
      if before.None? || input.None? then None
      else if ColumnMap(columns) == [] then before
      else Some(before.value + [FieldMapping(output, input.value, runId, ColumnMap(columns))])
  }

  function MappingsOf(outputs: seq<RawDataset>, inputs: seq<RawDataset>, runId: string): Option<seq<FieldMapping>> {
    if outputs == [] then Some([])
    else
      var before, last := MappingsOf(outputs[..|outputs| - 1], inputs, runId), outputs[|outputs| - 1];
      if before.None? || NameOf(last).None? then None
      else if last.columns == [] then before
      else
        var more := MappingsFrom(inputs, NameOf(last).value, last.columns, runId);
        if more.None? then None else Some(before.value + more.value)
  }

  predicate AllNamed(raws: seq<RawDataset>) { forall raw :: raw in raws ==> NameOf(raw).Some? }

  method BuildColumnMap(columns: seq<(string, Column)>) returns (m: FieldMap)
    ensures m == ColumnMap(columns)
  {
    m := [];
    for i := 0 to |columns|
      invariant m == ColumnMap(columns[..i])
    {
      assert columns[..i + 1][..i] == columns[..i];
      var inputFields := columns[i].1.inputFields;
      if inputFields != [] {
        m := Put(m, columns[i].0, Stored(inputFields[0], columns[i].0));
      }
    }
    assert columns[..|columns|] == columns;
  }

  /** The inner loop: one mapping for every input. */
  method AddMappings(mappings: seq<FieldMapping>, inputs: seq<RawDataset>, output: string,
                     columns: seq<(string, Column)>, runId: string)
    returns (r: seq<FieldMapping>)
    requires AllNamed(inputs)
    ensures MappingsFrom(inputs, output, columns, runId).Some?
    ensures r == mappings + MappingsFrom(inputs, output, columns, runId).value
  {
    r := mappings;
    for j := 0 to |inputs|
      invariant MappingsFrom(inputs[..j], output, columns, runId).Some?
      invariant r == mappings + MappingsFrom(inputs[..j], output, columns, runId).value
    {
      assert inputs[..j + 1][..j] == inputs[..j];
      var fieldMap := BuildColumnMap(columns);
      if fieldMap != [] {
        r := r + [FieldMapping(output, NameOf(inputs[j]).value, runId, fieldMap)];
      }
    }
    assert inputs[..|inputs|] == inputs;
  }

  /** `field_mappings`, on an event whose datasets have names. */
  method FieldMappings(ev: RunEvent) returns (mappings: seq<FieldMapping>)
    requires AllNamed(ev.inputs) && AllNamed(ev.outputs)
    ensures MappingsOf(ev.outputs, ev.inputs, ev.runId) == Some(mappings)
  {
    mappings := [];
    for i := 0 to |ev.outputs|
      invariant MappingsOf(ev.outputs[..i], ev.inputs, ev.runId) == Some(mappings)
    {
      assert ev.outputs[..i + 1][..i] == ev.outputs[..i];
      var out := ev.outputs[i];
      if out.columns != [] {
        mappings := AddMappings(mappings, ev.inputs, NameOf(out).value, out.columns, ev.runId);
      }
    }
    assert ev.outputs[..|ev.outputs|] == ev.outputs;
  }

  /** Only the first input field of a column counts, and it is attributed to every input dataset: the field
    * map of an output is the same for each of them.
    */
  lemma {:induction false} EveryInputGetsTheMap(inputs: seq<RawDataset>, output: string, columns: seq<(string, Column)>,
                                                runId: string, i: nat)
    requires AllNamed(inputs) && ColumnMap(columns) != [] && i < |inputs|
    ensures var m := MappingsFrom(inputs, output, columns, runId);
            m.Some? && |m.value| == |inputs| &&
            m.value[i] == FieldMapping(output, NameOf(inputs[i]).value, runId, ColumnMap(columns))
  {
    var init := inputs[..|inputs| - 1];
    MappingsFromLength(init, output, columns, runId);
    if i < |init| {
      EveryInputGetsTheMap(init, output, columns, runId, i);
    }
  }

  lemma {:induction false} MappingsFromLength(inputs: seq<RawDataset>, output: string, columns: seq<(string, Column)>, runId: string)
    requires AllNamed(inputs) && ColumnMap(columns) != []
    ensures var m := MappingsFrom(inputs, output, columns, runId); m.Some? && |m.value| == |inputs|
  {
    if inputs != [] {
      MappingsFromLength(inputs[..|inputs| - 1], output, columns, runId);
    }
  }
}
