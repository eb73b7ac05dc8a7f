/** Field lineage stays inside dataset lineage: what it means, what keeps it, and what follows for impact. */
module LineageCover {
  import opened Vault
  import opened Reachability
  import opened SQLiteBackend
  import opened OpenLineage
  import opened FieldImpact

  // ------------------------------------------------------------------ mappings lie over edges

  predicate OverEdge(m: Mapping, pairs: set<(string, string)>) { (m.inputDataset, m.outputDataset) in pairs }

  /** Every field mapping goes from a dataset to one that an edge leads to from it. */
  predicate Covered(db: Db) { forall m :: m in db.mappings ==> OverEdge(m, EdgePairs(db.edges)) }

  /** In both copies of the tables, after every statement so far. */
  ghost predicate AllCovered(seen: seq<Snapshot>) {
    seen == [] ||
    (AllCovered(seen[..|seen| - 1]) && Covered(seen[|seen| - 1].working) && Covered(seen[|seen| - 1].durable))
  }

  lemma {:induction false} CoveredAt(seen: seq<Snapshot>, i: nat)
    requires AllCovered(seen) && i < |seen|
    ensures Covered(seen[i].working) && Covered(seen[i].durable)
  {
    if i < |seen| - 1 {
      CoveredAt(seen[..|seen| - 1], i);
    }
  }

  lemma CoveredSnoc(seen: seq<Snapshot>, snap: Snapshot)
    requires AllCovered(seen) && Covered(snap.working) && Covered(snap.durable)
    ensures AllCovered(seen + [snap])
  {
    assert (seen + [snap])[..|seen|] == seen;
  }

  lemma CoveredOnFirst(seen: seq<Snapshot>, n: nat)
    requires n <= |seen| && AllCovered(seen[..n])
    requires forall i :: n <= i < |seen| ==> Covered(seen[i].working) && Covered(seen[i].durable)
    ensures AllCovered(seen)
    decreases |seen|
  {
    if n == |seen| {
      assert seen[..n] == seen;
    } else {
      assert seen[..|seen| - 1][..n] == seen[..n];
      CoveredOnFirst(seen[..|seen| - 1], n);
    }
  }

  lemma {:induction false} VaultCallCovered(was: seq<Snapshot>, now: seq<Snapshot>, before: Db, i: nat)
    requires was != [] && VaultOnly(was, now, before) && |was| <= i < |now|
    requires Covered(was[|was| - 1].working) && Covered(before)
    ensures Covered(now[i].working)
    decreases |now|
  {
    if i < |now| - 1 {
      VaultCallCovered(was, now[..|now| - 1], before, i);
    }
  }

  lemma {:induction false} CrashSafeExtends(c: Codec, was: seq<Snapshot>, now: seq<Snapshot>, before: Db)
    requires Uncommitted(c, was, now, before)
    ensures was <= now
  {
    if now != was {
      CrashSafeExtends(c, was, now[..|now| - 1], before);
    }
  }

  /** A call on the vault tables keeps every state covered. */
  lemma VaultCallKeepsCover(c: Codec, was: seq<Snapshot>, now: seq<Snapshot>, before: Db, after: Db)
    requires was != [] && was[|was| - 1].durable == before
    requires CrashSafe(c, was, now, before, after) && VaultOnly(was, now, before) && AllCovered(was)
    requires Covered(after)
    ensures AllCovered(now)
  {
    CoveredAt(was, |was| - 1);
    if now != was {
      CrashSafeExtends(c, was, now[..|now| - 1], before);
      assert now[..|was|] == was;
    }
    forall i | |was| <= i < |now| ensures Covered(now[i].working) && Covered(now[i].durable) {
      CrashAnywhere(c, was, now, before, after, i);
      VaultCallCovered(was, now, before, i);
    }
    if now == was {
      assert now[..|was|] == was;
    }
    CoveredOnFirst(now, |was|);
  }

  lemma {:induction false} RowsOverPair(runId: string, output: string, input: string, fieldMap: FieldMap)
    ensures forall m :: m in MappingRows(runId, output, input, fieldMap) ==> m.inputDataset == input && m.outputDataset == output
  {
    if fieldMap != [] {
      RowsOverPair(runId, output, input, fieldMap[..|fieldMap| - 1]);
    }
  }

  lemma SomeOfCovered(start: Db, rows: seq<Mapping>, w: Db)
    requires SomeOf(start, rows, w) && Covered(start) && forall m :: m in rows ==> OverEdge(m, EdgePairs(start.edges))
    ensures Covered(w)
  {
    forall m | m in w.mappings ensures OverEdge(m, EdgePairs(w.edges)) {
      var i :| 0 <= i < |w.mappings| && w.mappings[i] == m;
      assert m == (start.mappings + rows)[i];
    }
  }

  /** Recording a mapping over an edge that is there keeps every state covered, even when it raises. */
  lemma MappingKeepsCover(c: Codec, was: seq<Snapshot>, now: seq<Snapshot>, before: Db, after: Db,
                          rows: seq<Mapping>, input: string, output: string)
    requires was != [] && was[|was| - 1].durable == before && AllCovered(was)
    requires CrashSafe(c, was, now, before, after) && OnlyMappings(was[|was| - 1].working, rows, now, |was|)
    requires (input, output) in EdgePairs(was[|was| - 1].working.edges)
    requires forall m :: m in rows ==> m.inputDataset == input && m.outputDataset == output
    requires after == before || SomeOf(was[|was| - 1].working, rows, after)
    ensures AllCovered(now)
  {
    var start := was[|was| - 1].working;
    CoveredAt(was, |was| - 1);
    if now != was {
      CrashSafeExtends(c, was, now[..|now| - 1], before);
    }
    assert now[..|was|] == was;
    if SomeOf(start, rows, after) {
      SomeOfCovered(start, rows, after);
    }
    forall i | |was| <= i < |now| ensures Covered(now[i].working) && Covered(now[i].durable) {
      CrashAnywhere(c, was, now, before, after, i);
      assert SomeOf(start, rows, now[i].working);
      SomeOfCovered(start, rows, now[i].working);
    }
    CoveredOnFirst(now, |was|);
  }

  lemma EdgeCovers(db: Db, edge: Edge)
    requires Covered(db)
    ensures Covered(db.(edges := db.edges + [edge]))
  {
    EdgePairsSnoc(db.edges, edge);
  }

  // ------------------------------------------------------------------ impact stays inside

  /** A walk along field mappings is, dataset by dataset, a walk along dataset edges. */
  lemma {:induction false} FieldWalkIsDatasetWalk(db: Db, n: nat, f: Field, g: Field)
    requires Covered(db) && Walk(FieldEdges(db.mappings), n, f, g)
    ensures Walk(EdgePairs(db.edges), n, f.dataset, g.dataset)
  {
    if n > 0 {
      var m :| Walk(FieldEdges(db.mappings), n - 1, f, m) && (m, g) in FieldEdges(db.mappings);
      FieldWalkIsDatasetWalk(db, n - 1, f, m);
      var row :| row in db.mappings && (Input(row), Output(row)) == (m, g);
      assert OverEdge(row, EdgePairs(db.edges));
      WalkSnoc(EdgePairs(db.edges), n - 1, f.dataset, m.dataset, g.dataset);
    }
  }

  /** Every impacted field belongs to the queried dataset or to one of its downstream datasets. */
  lemma ImpactInsideDownstream(db: Db, start: Field, reachable: set<Field>, impacted: seq<Field>, downstream: seq<string>)
    requires Covered(db)
    requires forall f :: f in reachable <==> Reaches(FieldEdges(db.mappings), start, f)
    requires multiset(impacted) == OutputsOf(db.mappings, reachable)
    requires forall x :: x in downstream <==> x != start.dataset && EdgesLead(db.edges, start.dataset, x)
    ensures forall f :: f in impacted ==> f.dataset == start.dataset || f.dataset in downstream
  {
    forall f | f in impacted ensures f.dataset == start.dataset || f.dataset in downstream {
      assert f in multiset(impacted);
      OutputsOfRows(db.mappings, reachable, f);
      var row :| row in db.mappings && Input(row) in reachable && Output(row) == f;
      var n :| Walk(FieldEdges(db.mappings), n, start, Input(row));
      FieldWalkIsDatasetWalk(db, n, start, Input(row));
      assert OverEdge(row, EdgePairs(db.edges));
      WalkSnoc(EdgePairs(db.edges), n, start.dataset, row.inputDataset, f.dataset);
      EdgesLeadExactly(db.edges, start.dataset, f.dataset);
    }
  }
}
