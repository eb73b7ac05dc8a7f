/** `field_impact`: a breadth-first search over the field mappings, which may be cyclic. A field is put
  * on the frontier every time it is met; that it was seen before is noticed when it is taken off.
  */
module FieldImpact {
  import opened Reachability

  datatype Field = Field(dataset: string, name: string)

  /** One row of table field_mappings. */
  datatype Mapping = Mapping(runId: string, outputDataset: string, inputDataset: string, outputField: string, inputField: string)

  function Input(m: Mapping): Field { Field(m.inputDataset, m.inputField) }

  function Output(m: Mapping): Field { Field(m.outputDataset, m.outputField) }

  /** The relation the table holds. */
  function FieldEdges(table: seq<Mapping>): set<(Field, Field)> {
    set m | m in table :: (Input(m), Output(m))
  }

  /** The outputs of all rows whose input is in `s`, each row once. */
  function OutputsOf(table: seq<Mapping>, s: set<Field>): multiset<Field> {
    if table == [] then multiset{}
    else
      var m := table[|table| - 1];
      OutputsOf(table[..|table| - 1], s) + (if Input(m) in s then multiset{Output(m)} else multiset{})
  }

  lemma {:induction false} OutputsOfAdds(table: seq<Mapping>, s: set<Field>, f: Field)
    requires f !in s
    ensures OutputsOf(table, s + {f}) == OutputsOf(table, s) + OutputsOf(table, {f})
  {
    if table != [] {
      OutputsOfAdds(table[..|table| - 1], s, f);
    }
  }

  lemma {:induction false} OutputsOfNone(table: seq<Mapping>)
    ensures OutputsOf(table, {}) == multiset{}
  {
    if table != [] {
      OutputsOfNone(table[..|table| - 1]);
    }
  }

  lemma {:induction false} OutputsAreEdges(table: seq<Mapping>, f: Field, g: Field)
    ensures g in OutputsOf(table, {f}) <==> (f, g) in FieldEdges(table)
  {
    if table != [] {
      var m := table[|table| - 1];
      assert table == table[..|table| - 1] + [m];
      OutputsAreEdges(table[..|table| - 1], f, g);
      assert FieldEdges(table) == FieldEdges(table[..|table| - 1]) + {(Input(m), Output(m))};
    }
  }

  /** SELECT ... WHERE input_dataset=? AND input_field=?, in whatever order the table returns. */
  method SelectOutputs(table: seq<Mapping>, f: Field) returns (rows: seq<Field>, ghost at: seq<nat>)
    ensures multiset(rows) == OutputsOf(table, {f})
    ensures SelectedAt(table, f, rows, at)
  {
    rows, at := [], [];
    for i := 0 to |table|
      invariant multiset(rows) == OutputsOf(table[..i], {f})
      invariant SelectedAt(table[..i], f, rows, at)
    {
      assert table[..i + 1][..i] == table[..i];
      SelectedNext(table, f, rows, at, i);
      if Input(table[i]) == f {
        rows, at := rows + [Output(table[i])], at + [i];
      }
    }
    assert table[..|table|] == table;
  }

  /** One entry for each row of the table whose input columns are those of `f`: the row's output columns, in the
    * order of the table.
    */
  predicate SelectedAt(table: seq<Mapping>, f: Field, rows: seq<Field>, at: seq<nat>) {
    && |at| == |rows|
    && (forall j, k :: 0 <= j < k < |at| ==> at[j] < at[k])
    && (forall j :: 0 <= j < |at| ==>
          && at[j] < |table|
          && table[at[j]].inputDataset == f.dataset && table[at[j]].inputField == f.name
          && rows[j].dataset == table[at[j]].outputDataset && rows[j].name == table[at[j]].outputField)
    && (forall i :: 0 <= i < |table| && table[i].inputDataset == f.dataset && table[i].inputField == f.name ==> i in at)
  }

  lemma SelectedNext(table: seq<Mapping>, f: Field, rows: seq<Field>, at: seq<nat>, i: nat)
    requires i < |table| && SelectedAt(table[..i], f, rows, at)
    ensures Input(table[i]) == f ==> SelectedAt(table[..i + 1], f, rows + [Output(table[i])], at + [i])
    ensures Input(table[i]) != f ==> SelectedAt(table[..i + 1], f, rows, at)
  {
    forall k | 0 <= k < i && table[k].inputDataset == f.dataset && table[k].inputField == f.name ensures k in at {
      assert table[..i][k] == table[k];
    }
  }

  // ------------------------------------------------------------------ chains of rows

  /** Rows of the table, the output columns of each being the input columns of the next. */
  predicate Chain(table: seq<Mapping>, rows: seq<Mapping>) {
    && rows != []
    && (forall i :: 0 <= i < |rows| ==> rows[i] in table)
    && (forall i :: 0 <= i < |rows| - 1 ==>
          rows[i].outputDataset == rows[i + 1].inputDataset && rows[i].outputField == rows[i + 1].inputField)
  }

  predicate FromTo(rows: seq<Mapping>, start: Field, f: Field)
    requires rows != []
  {
    var first, last := rows[0], rows[|rows| - 1];
    && first.inputDataset == start.dataset && first.inputField == start.name
    && last.outputDataset == f.dataset && last.outputField == f.name
  }

  /** A chain of rows leads from `start` to `f`. */
  ghost predicate RowsLead(table: seq<Mapping>, start: Field, f: Field) {
    exists rows :: Chain(table, rows) && FromTo(rows, start, f)
  }

  lemma {:induction false} OutputsOfRows(table: seq<Mapping>, s: set<Field>, f: Field)
    ensures f in OutputsOf(table, s) <==> exists m :: m in table && Input(m) in s && Output(m) == f
  {
    if table != [] {
      var init, last := table[..|table| - 1], table[|table| - 1];
      OutputsOfRows(init, s, f);
      assert table == init + [last];
    }
  }

  lemma {:induction false} WalkIsChain(table: seq<Mapping>, n: nat, start: Field, m: Mapping)
    requires m in table && Walk(FieldEdges(table), n, start, Input(m))
    ensures RowsLead(table, start, Output(m))
  {
    var rows := ChainOfWalk(table, n, start, m);
  }

  lemma {:induction false} ChainOfWalk(table: seq<Mapping>, n: nat, start: Field, m: Mapping) returns (rows: seq<Mapping>)
    requires m in table && Walk(FieldEdges(table), n, start, Input(m))
    ensures Chain(table, rows) && FromTo(rows, start, Output(m)) && rows[|rows| - 1] == m
  {
    if n == 0 {
      rows := [m];
    } else {
      var g :| Walk(FieldEdges(table), n - 1, start, g) && (g, Input(m)) in FieldEdges(table);
      var before :| before in table && (Input(before), Output(before)) == (g, Input(m));
      rows := ChainOfWalk(table, n - 1, start, before);
      rows := rows + [m];
    }
  }

  lemma {:induction false} ChainIsWalk(table: seq<Mapping>, rows: seq<Mapping>)
    requires Chain(table, rows)
    ensures Walk(FieldEdges(table), |rows| - 1, Input(rows[0]), Input(rows[|rows| - 1]))
  {
    if |rows| > 1 {
      var init := rows[..|rows| - 1];
      ChainIsWalk(table, init);
      var last := init[|init| - 1];
      assert last in table && (Input(last), Output(last)) in FieldEdges(table);
      assert rows[|rows| - 2] == last && Output(last) == Input(rows[|rows| - 1]);
    }
  }

  /** The outputs of the rows behind reachable inputs are exactly the ends of chains. */
  lemma ImpactedExactly(table: seq<Mapping>, start: Field, reachable: set<Field>, f: Field)
    requires forall g :: g in reachable <==> Reaches(FieldEdges(table), start, g)
    ensures f in OutputsOf(table, reachable) <==> RowsLead(table, start, f)
  {
    OutputsOfRows(table, reachable, f);
    if f in OutputsOf(table, reachable) {
      var m :| m in table && Input(m) in reachable && Output(m) == f;
      var n: nat :| Walk(FieldEdges(table), n, start, Input(m));
      WalkIsChain(table, n, start, m);
    }
    if RowsLead(table, start, f) {
      var rows :| Chain(table, rows) && FromTo(rows, start, f);
      ChainIsWalk(table, rows);
      var last := rows[|rows| - 1];
      assert last in table && Input(last) in reachable && Output(last) == f;
    }
  }

  // ------------------------------------------------------------------ order of discovery

  /** The shortest walk of at least one edge has `n` edges. */
  ghost predicate Shortest(edges: set<(Field, Field)>, start: Field, f: Field, n: nat) {
    n > 0 && Walk(edges, n, start, f) && forall k: nat :: 0 < k < n ==> !Walk(edges, k, start, f)
  }

  predicate FirstAt(fields: seq<Field>, i: nat)
    requires i < |fields|
  {
    fields[i] !in fields[..i]
  }

  /** First occurrences come in non-decreasing length of their shortest walk. */
  ghost predicate NearestFirst(edges: set<(Field, Field)>, start: Field, fields: seq<Field>) {
    forall i, j, a: nat, b: nat :: (
      0 <= i < j < |fields| && FirstAt(fields, i) && FirstAt(fields, j) &&
      Shortest(edges, start, fields[i], a) && Shortest(edges, start, fields[j], b)) ==> a <= b
  }

  /** Everything met so far, the start first; `level[i]` is the length of the walk that met `queue[i]`. */
  ghost predicate Levelled(edges: set<(Field, Field)>, start: Field, queue: seq<Field>, level: seq<nat>) {
    && |level| == |queue| > 0 && queue[0] == start && level[0] == 0
    && (forall i, j :: 0 <= i <= j < |level| ==> level[i] <= level[j])
    && (forall i :: 0 < i < |level| ==> level[i] > 0)
    && (forall i :: 0 <= i < |queue| ==> Walk(edges, level[i], start, queue[i]))
  }

  /** `g` was met, at most one level after `n`. */
  predicate Met(queue: seq<Field>, level: seq<nat>, g: Field, n: nat)
    requires |level| == |queue|
  {
    exists j :: 0 < j < |queue| && queue[j] == g && level[j] <= n
  }

  /** The first `h` entries are worked off: their outputs were met, one level further at most. */
  ghost predicate WorkedOff(edges: set<(Field, Field)>, queue: seq<Field>, level: seq<nat>, h: nat)
    requires |level| == |queue| && h <= |queue|
  {
    forall i, g :: 0 <= i < h && (queue[i], g) in edges ==> Met(queue, level, g, level[i] + 1)
  }

  lemma MetExtends(queue: seq<Field>, level: seq<nat>, more: seq<Field>, moreLevel: seq<nat>, g: Field, n: nat)
    requires |level| == |queue| && |more| == |moreLevel| && Met(queue, level, g, n)
    ensures Met(queue + more, level + moreLevel, g, n)
  {
    var j :| 0 < j < |queue| && queue[j] == g && level[j] <= n;
    assert (queue + more)[j] == g && (level + moreLevel)[j] <= n;
  }

  /** One edge behind something met, or behind the start, is met as well. */
  lemma NextIsMet(edges: set<(Field, Field)>, queue: seq<Field>, level: seq<nat>, i: nat, n: nat, g: Field)
    requires |level| == |queue| && WorkedOff(edges, queue, level, |queue|)
    requires i < |queue| && level[i] <= n && (queue[i], g) in edges
    ensures Met(queue, level, g, n + 1)
  {
    var j :| 0 < j < |queue| && queue[j] == g && level[j] <= level[i] + 1;
  }

  lemma {:induction false} AllWalksMet(edges: set<(Field, Field)>, start: Field, queue: seq<Field>, level: seq<nat>, n: nat, f: Field)
    requires Levelled(edges, start, queue, level) && WorkedOff(edges, queue, level, |queue|)
    requires n > 0 && Walk(edges, n, start, f)
    ensures Met(queue, level, f, n)
  {
    var p :| Walk(edges, n - 1, start, p) && (p, f) in edges;
    if n > 1 {
      AllWalksMet(edges, start, queue, level, n - 1, p);
      var i :| 0 < i < |queue| && queue[i] == p && level[i] <= n - 1;
      NextIsMet(edges, queue, level, i, n - 1, f);
    } else {
      NextIsMet(edges, queue, level, 0, 0, f);
    }
  }

  lemma FirstLevelIsShortest(edges: set<(Field, Field)>, start: Field, queue: seq<Field>, level: seq<nat>, i: nat, n: nat)
    requires Levelled(edges, start, queue, level) && WorkedOff(edges, queue, level, |queue|)
    requires i < |queue| - 1 && FirstAt(queue[1..], i) && Shortest(edges, start, queue[1..][i], n)
    ensures level[i + 1] == n
  {
    var f := queue[1..][i];
    AllWalksMet(edges, start, queue, level, n, f);
    var j :| 0 < j < |queue| && queue[j] == f && level[j] <= n;
    assert forall k :: 0 <= k < i ==> queue[1..][..i][k] == queue[k + 1] != f;
    assert Walk(edges, level[i + 1], start, f);
  }

  lemma QueueIsNearestFirst(edges: set<(Field, Field)>, start: Field, queue: seq<Field>, level: seq<nat>)
    requires Levelled(edges, start, queue, level) && WorkedOff(edges, queue, level, |queue|)
    ensures NearestFirst(edges, start, queue[1..])
  {
    var fields := queue[1..];
    forall i, j, a: nat, b: nat |
      0 <= i < j < |fields| && FirstAt(fields, i) && FirstAt(fields, j) &&
      Shortest(edges, start, fields[i], a) && Shortest(edges, start, fields[j], b)
      ensures a <= b
    {
      FirstLevelIsShortest(edges, start, queue, level, i, a);
      FirstLevelIsShortest(edges, start, queue, level, j, b);
    }
  }

  lemma SeenIsReachable(edges: set<(Field, Field)>, start: Field, queue: seq<Field>, level: seq<nat>, seen: set<Field>)
    requires Levelled(edges, start, queue, level) && WorkedOff(edges, queue, level, |queue|)
    requires forall f :: f in seen <==> f in queue
    ensures forall f :: f in seen <==> Reaches(edges, start, f)
  {
    forall f | f in seen ensures Reaches(edges, start, f) {
      var i :| 0 <= i < |queue| && queue[i] == f;
      assert Walk(edges, level[i], start, f);
    }
    forall f | Reaches(edges, start, f) ensures f in seen {
      var n: nat :| Walk(edges, n, start, f);
      if n > 0 {
        AllWalksMet(edges, start, queue, level, n, f);
        var j :| 0 < j < |queue| && queue[j] == f && level[j] <= n;
      } else {
        assert queue[0] == f;
      }
    }
  }

  /** The levels of fields met together. */
  predicate AllAt(more: seq<nat>, n: nat) { forall i :: 0 <= i < |more| ==> more[i] == n }

  lemma Enqueue(edges: set<(Field, Field)>, start: Field, queue: seq<Field>, level: seq<nat>, h: nat, rows: seq<Field>, more: seq<nat>)
    requires Levelled(edges, start, queue, level) && h < |queue| && WorkedOff(edges, queue, level, h)
    requires level[|queue| - 1] <= level[h] + 1
    requires forall g :: g in rows <==> (queue[h], g) in edges
    requires |more| == |rows| && AllAt(more, level[h] + 1)
    ensures var q, l := queue + rows, level + more;
            && Levelled(edges, start, q, l) && WorkedOff(edges, q, l, h + 1)
            && l[|q| - 1] <= l[h] + 1
  {
    var q, l := queue + rows, level + more;
    forall i | 0 <= i < |q| ensures Walk(edges, l[i], start, q[i]) {
      if i >= |queue| {
        assert rows[i - |queue|] in rows;
        WalkSnoc(edges, level[h], start, queue[h], q[i]);
      }
    }
    forall i, g | 0 <= i < h + 1 && (q[i], g) in edges ensures Met(q, l, g, l[i] + 1) {
      if i < h {
        assert (queue[i], g) in edges;
        MetExtends(queue, level, rows, more, g, level[i] + 1);
      } else {
        var j :| 0 <= j < |rows| && rows[j] == g;
        assert q[|queue| + j] == g && l[|queue| + j] <= l[i] + 1;
      }
    }
  }

  lemma Skip(edges: set<(Field, Field)>, queue: seq<Field>, level: seq<nat>, h: nat)
    requires |level| == |queue| && h < |queue| && WorkedOff(edges, queue, level, h)
    requires forall i, j :: 0 <= i <= j < |level| ==> level[i] <= level[j]
    requires queue[h] in queue[..h]
    ensures WorkedOff(edges, queue, level, h + 1)
  {
    var i :| 0 <= i < h && queue[i] == queue[h];
    forall g | (queue[h], g) in edges ensures Met(queue, level, g, level[h] + 1) {
      assert (queue[i], g) in edges;
      var j :| 0 < j < |queue| && queue[j] == g && level[j] <= level[i] + 1;
      assert queue[j] == g && level[j] <= level[h] + 1;
    }
  }

  lemma EdgesInsideNodes(table: seq<Mapping>, nodes: set<Field>, rows: seq<Field>, f: Field)
    requires forall m :: m in table ==> Output(m) in nodes
    requires multiset(rows) == OutputsOf(table, {f})
    ensures forall g :: g in rows <==> (f, g) in FieldEdges(table)
    ensures forall g :: g in rows ==> g in nodes
  {
    forall g ensures g in rows <==> (f, g) in FieldEdges(table) {
      OutputsAreEdges(table, f, g);
      assert g in rows <==> g in multiset(rows);
    }
  }

  /** What the search keeps, over everything it has met: `queue` is the start and what was listed. */
  ghost predicate Searching(table: seq<Mapping>, start: Field, queue: seq<Field>, level: seq<nat>, h: nat, seen: set<Field>) {
    && Levelled(FieldEdges(table), start, queue, level)
    && h <= |queue|
    && WorkedOff(FieldEdges(table), queue, level, h)
    && (h < |queue| ==> level[|queue| - 1] <= level[h] + 1)
    && (forall f :: f in seen <==> f in queue[..h])
    && multiset(queue[1..]) == OutputsOf(table, seen)
  }

  lemma SkipStep(table: seq<Mapping>, start: Field, queue: seq<Field>, level: seq<nat>, h: nat, seen: set<Field>)
    requires Searching(table, start, queue, level, h, seen) && h < |queue| && queue[h] in seen
    ensures Searching(table, start, queue, level, h + 1, seen)
  {
    Skip(FieldEdges(table), queue, level, h);
    assert queue[..h + 1] == queue[..h] + [queue[h]];
  }

  lemma VisitStep(table: seq<Mapping>, start: Field, queue: seq<Field>, level: seq<nat>, h: nat, seen: set<Field>,
                  rows: seq<Field>, more: seq<nat>)
    requires Searching(table, start, queue, level, h, seen) && h < |queue| && queue[h] !in seen
    requires multiset(rows) == OutputsOf(table, {queue[h]})
    requires forall g :: g in rows <==> (queue[h], g) in FieldEdges(table)
    requires |more| == |rows| && AllAt(more, level[h] + 1)
    ensures Searching(table, start, queue + rows, level + more, h + 1, seen + {queue[h]})
  {
    Enqueue(FieldEdges(table), start, queue, level, h, rows, more);
    OutputsOfAdds(table, seen, queue[h]);
    SeenGrows(queue, rows, h, seen);
    ListedGrows(queue, rows);
  }

  lemma SeenGrows(queue: seq<Field>, rows: seq<Field>, h: nat, seen: set<Field>)
    requires h < |queue| && forall f :: f in seen <==> f in queue[..h]
    ensures forall f :: f in seen + {queue[h]} <==> f in (queue + rows)[..h + 1]
  {
    Seams(queue, rows, h);
  }

  lemma ListedGrows(queue: seq<Field>, rows: seq<Field>)
    requires queue != []
    ensures multiset((queue + rows)[1..]) == multiset(queue[1..]) + multiset(rows)
  {
    Seams(queue, rows, 0);
  }

  lemma Listed(start: Field, impacted: seq<Field>, rows: seq<Field>)
    ensures [start] + impacted + rows == [start] + (impacted + rows)
  {
  }

  lemma Seams(queue: seq<Field>, rows: seq<Field>, h: nat)
    requires h < |queue|
    ensures (queue + rows)[1..] == queue[1..] + rows
    ensures (queue + rows)[..h + 1] == queue[..h] + [queue[h]]
    ensures (queue + rows)[h + 1..] == queue[h + 1..] + rows
  {
  }

  lemma StartSearch(table: seq<Mapping>, start: Field)
    ensures Searching(table, start, [start], [0], 0, {})
  {
    assert Walk(FieldEdges(table), 0, start, start);
    OutputsOfNone(table);
    assert [start][1..] == [];
  }

  lemma FinishSearch(table: seq<Mapping>, start: Field, queue: seq<Field>, level: seq<nat>, seen: set<Field>)
    requires Searching(table, start, queue, level, |queue|, seen)
    ensures forall f :: f in seen <==> Reaches(FieldEdges(table), start, f)
    ensures NearestFirst(FieldEdges(table), start, queue[1..])
    ensures multiset(queue[1..]) == OutputsOf(table, seen)
  {
    assert queue[..|queue|] == queue;
    SeenIsReachable(FieldEdges(table), start, queue, level, seen);
    QueueIsNearestFirst(FieldEdges(table), start, queue, level);
  }

  lemma Progress(nodes: set<Field>, seen: set<Field>, f: Field)
    requires f in nodes && f !in seen
    ensures nodes - (seen + {f}) < nodes - seen
  {
    assert f in nodes - seen;
  }

  predicate Inside(fields: seq<Field>, nodes: set<Field>) { forall f :: f in fields ==> f in nodes }

  /** What the loop keeps: `queue` is all that was ever enqueued, and `frontier` what is left of it. */
  ghost predicate Frontier(table: seq<Mapping>, nodes: set<Field>, start: Field, impacted: seq<Field>, frontier: seq<Field>,
                           queue: seq<Field>, level: seq<nat>, h: nat, seen: set<Field>)
  {
    && queue == [start] + impacted && h <= |queue| && frontier == queue[h..]
    && Inside(queue, nodes) && (forall m :: m in table ==> Output(m) in nodes)
    && Searching(table, start, queue, level, h, seen)
  }

  lemma Opened(table: seq<Mapping>, start: Field)
    ensures Frontier(table, {start} + set m | m in table :: Output(m), start, [], [start], [start], [0], 0, {})
  {
    StartSearch(table, start);
  }

  lemma Skipped(table: seq<Mapping>, nodes: set<Field>, start: Field, impacted: seq<Field>, frontier: seq<Field>,
                queue: seq<Field>, level: seq<nat>, h: nat, seen: set<Field>)
    requires Frontier(table, nodes, start, impacted, frontier, queue, level, h, seen) && frontier != [] && frontier[0] in seen
    ensures Frontier(table, nodes, start, impacted, frontier[1..], queue, level, h + 1, seen)
  {
    SkipStep(table, start, queue, level, h, seen);
  }

  /** Everything the visit of the frontier's first field establishes. */
  lemma Visited(table: seq<Mapping>, nodes: set<Field>, start: Field, impacted: seq<Field>, frontier: seq<Field>,
                queue: seq<Field>, level: seq<nat>, h: nat, seen: set<Field>, rows: seq<Field>, more: seq<nat>)
    requires Frontier(table, nodes, start, impacted, frontier, queue, level, h, seen) && frontier != [] && frontier[0] !in seen
    requires multiset(rows) == OutputsOf(table, {frontier[0]})
    requires |level| == |queue| && |more| == |rows| && AllAt(more, level[h] + 1)
    ensures Frontier(table, nodes, start, impacted + rows, frontier[1..] + rows, queue + rows, level + more, h + 1,
                     seen + {frontier[0]})
    ensures nodes - (seen + {frontier[0]}) < nodes - seen
  {
    assert frontier[0] == queue[h] && queue[h] in queue;
    EdgesInsideNodes(table, nodes, rows, queue[h]);
    VisitStep(table, start, queue, level, h, seen, rows, more);
    Seams(queue, rows, h);
    Listed(start, impacted, rows);
    Progress(nodes, seen, queue[h]);
  }

  lemma ListedExactly(table: seq<Mapping>, start: Field, seen: set<Field>, impacted: seq<Field>)
    requires forall f :: f in seen <==> Reaches(FieldEdges(table), start, f)
    requires multiset(impacted) == OutputsOf(table, seen)
    ensures forall f :: f in impacted <==> RowsLead(table, start, f)
  {
    forall f ensures f in impacted <==> RowsLead(table, start, f) {
      ImpactedExactly(table, start, seen, f);
      assert f in impacted <==> f in multiset(impacted);
    }
  }

  /** The search of `field_impact`. It ends on cyclic tables; it lists the outputs of exactly the rows
    * whose input is reachable from the start, each row once; and nearer fields are listed first.
    */
  method Search(table: seq<Mapping>, start: Field) returns (impacted: seq<Field>, ghost reachable: set<Field>)
    ensures forall f :: f in reachable <==> Reaches(FieldEdges(table), start, f)
    ensures multiset(impacted) == OutputsOf(table, reachable)
    ensures NearestFirst(FieldEdges(table), start, impacted)
    ensures forall f :: f in impacted <==> RowsLead(table, start, f)
  {
    impacted := [];
    var frontier := [start];
    var seen: set<Field> := {};
    ghost var nodes := {start} + set m | m in table :: Output(m);
    ghost var queue, level, h := [start], [0], 0;
    Opened(table, start);
    while frontier != []
      invariant Frontier(table, nodes, start, impacted, frontier, queue, level, h, seen)
      decreases nodes - seen, |frontier|
    {
      var f := frontier[0];
      if f in seen {
        Skipped(table, nodes, start, impacted, frontier, queue, level, h, seen);
        frontier, h := frontier[1..], h + 1;
        continue;
      }
      var rows, at := SelectOutputs(table, f);
      ghost var more := seq(|rows|, _ => level[h] + 1);
      Visited(table, nodes, start, impacted, frontier, queue, level, h, seen, rows, more);
      seen := seen + {f};
      queue, level, h := queue + rows, level + more, h + 1;
      impacted := impacted + rows;
      frontier := frontier[1..] + rows;
    }
    reachable := seen;
    FinishSearch(table, start, queue, level, seen);
    assert queue[1..] == impacted;
    ListedExactly(table, start, seen, impacted);
  }
}
