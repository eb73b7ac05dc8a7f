/** Whole crash-free runs of the ingestor and its storage: run events come in batches, and stagings,
  * acknowledged writes and recoveries go on in between, in any order and with any outcome.
  */
module IngestRuns {
  import opened Wrappers
  import opened Vault
  import opened VaultLaws
  import opened Codecs
  import opened SQLiteBackend
  import opened OpenLineage
  import opened OpenLineageIngest
  import Runs = VaultRuns

  datatype Step =
    | Ingest(events: seq<RunEvent>, idempotencyKeys: Option<seq<Option<string>>>, ids: seq<string>)
    | VaultCall(call: Runs.Call)

  const OPENING := Snapshot(EMPTY_DB, EMPTY_DB)

  /** The storage after a step; module Ingestor and module SQLiteBackend show that their methods do this. */
  function Next(c: Codec, s: Snapshot, step: Step): Snapshot {
    match step
    case Ingest(events, keys, ids) => if |events| == |ids| then AfterIngest(c, s, events, keys, ids) else s
    case VaultCall(call) => AfterCall(c, s, call)
  }

  function Play(c: Codec, steps: seq<Step>): Snapshot {
    if steps == [] then OPENING else Next(c, Play(c, steps[..|steps| - 1]), steps[|steps| - 1])
  }

  /** The keys and event ids that an ingested batch comes to; None when it raises before it reaches the storage. */
  function ItemsIn(step: Step): Option<seq<Item>> {
    if !step.Ingest? || |step.events| != |step.ids| || step.events == [] then None
    else
      match KeyList(|step.events|, step.idempotencyKeys)
      case None => None
      case Some(keys) => Some(ItemsOf(step.events, keys, step.ids))
  }

  /** The batch is acknowledged, whatever becomes of its lineage. */
  predicate WentThrough(c: Codec, s: Snapshot, step: Step) {
    ItemsIn(step).Some? && AckAll(c, s.working.store, ItemsIn(step).value).Done?
  }

  /** The vault's own answers to the batch. */
  function AnswersTo(c: Codec, s: Snapshot, step: Step): seq<Ack>
    requires WentThrough(c, s, step)
  {
    AckAll(c, s.working.store, ItemsIn(step).value).acks
  }

  lemma AnswersToEach(c: Codec, s: Snapshot, step: Step)
    requires WentThrough(c, s, step)
    ensures |AnswersTo(c, s, step)| == |step.events|
    ensures Next(c, s, step) ==
            Recorded(c, AfterCall(c, s, Runs.Acknowledge(ItemsIn(step).value)).working, step.events, AnswersTo(c, s, step))
  {
    ItemsLength(step.events, KeyList(|step.events|, step.idempotencyKeys).value, step.ids);
    BatchAnswers(c, s.working.store, ItemsIn(step).value);
  }

  // ------------------------------------------------------------------ replays

  /** A batch whose keys are all known changes nothing and answers duplicates. */
  lemma {:induction false} KnownKeysChangeNothing(c: Codec, s: Store, items: seq<Item>)
    requires forall it :: it in items ==> it.idempotencyKey in s.keys
    ensures var b := AckAll(c, s, items);
            b.Done? && b.store == s && |b.acks| == |items| && forall i :: 0 <= i < |items| ==> b.acks[i].duplicate
  {
    if items != [] {
      KnownKeysChangeNothing(c, s, items[..|items| - 1]);
    }
  }

  lemma {:induction false} KnownKeysDraw(c: Codec, s: Store, items: seq<Item>)
    requires forall it :: it in items ==> it.idempotencyKey in s.keys
    ensures BatchDraws(c, s, items) == 0
  {
    if items != [] {
      KnownKeysDraw(c, s, items[..|items| - 1]);
      KnownKeysChangeNothing(c, s, items[..|items| - 1]);
    }
  }

  lemma KnownKeysDrawNothing(c: Codec, s: Store, events: seq<RunEvent>, keys: seq<Option<string>>, ids: seq<string>)
    requires |events| == |keys| == |ids|
    requires forall i :: 0 <= i < |events| ==> KeyOf(events[i], keys[i]) in s.keys
    ensures BatchDraws(c, s, ItemsOf(events, keys, ids)) == 0
  {
    var items := ItemsOf(events, keys, ids);
    ItemsLength(events, keys, ids);
    forall it | it in items ensures it.idempotencyKey in s.keys {
      var i :| 0 <= i < |items| && items[i] == it;
      ItemsAt(events, keys, ids, i);
    }
    KnownKeysDraw(c, s, items);
  }

  lemma {:induction false} DuplicatesWriteNothing(c: Codec, m: map<(string, string), string>, events: seq<RunEvent>, acks: seq<Ack>)
    requires |events| == |acks| && forall i :: 0 <= i < |acks| ==> acks[i].duplicate
    ensures BatchWrites(events, acks) == [] && RunEventsAfter(c, m, events, acks) == m
    decreases |events|
  {
    if events != [] {
      DuplicatesWriteNothing(c, m, events[..|events| - 1], acks[..|acks| - 1]);
    }
  }

  /** Of a batch whose keys are all known no write of any kind is left to do. */
  lemma ReplayWritesNothing(c: Codec, s: Store, events: seq<RunEvent>, keys: seq<Option<string>>, ids: seq<string>,
                            m: map<(string, string), string>)
    requires |events| == |keys| == |ids|
    requires forall i :: 0 <= i < |events| ==> KeyOf(events[i], keys[i]) in s.keys
    ensures var b := AckAll(c, s, ItemsOf(events, keys, ids));
            && b.Done? && b.store == s && |b.acks| == |events|
            && BatchWrites(events, b.acks) == [] && RunEventsAfter(c, m, events, b.acks) == m
  {
    var items := ItemsOf(events, keys, ids);
    ItemsLength(events, keys, ids);
    forall it | it in items ensures it.idempotencyKey in s.keys {
      var i :| 0 <= i < |items| && items[i] == it;
      ItemsAt(events, keys, ids, i);
    }
    KnownKeysChangeNothing(c, s, items);
    DuplicatesWriteNothing(c, m, events, AckAll(c, s, items).acks);
  }

  lemma BatchKeysKnown(c: Codec, s: Store, events: seq<RunEvent>, keys: seq<Option<string>>, ids: seq<string>)
    requires |events| == |keys| == |ids| && AckAll(c, s, ItemsOf(events, keys, ids)).Done?
    ensures forall i :: 0 <= i < |events| ==> KeyOf(events[i], keys[i]) in AckAll(c, s, ItemsOf(events, keys, ids)).store.keys
  {
    var items := ItemsOf(events, keys, ids);
    ItemsLength(events, keys, ids);
    BatchAnswers(c, s, items);
    forall i | 0 <= i < |events| ensures KeyOf(events[i], keys[i]) in AckAll(c, s, items).store.keys {
      ItemsAt(events, keys, ids, i);
      assert AnswerFits(s, AckAll(c, s, items).store, items, i, AckAll(c, s, items).acks[i]);
    }
  }

  // ------------------------------------------------------------------ between the steps of a run

  /** Between two steps the connection and the file differ at most in mappings that a raise left behind. */
  predicate Resting(c: Codec, s: Snapshot) {
    FileFits(c, s.working) && s.durable == s.working.(mappings := s.durable.mappings)
  }

  predicate KeysKept(s: Snapshot, t: Snapshot) {
    forall k :: k in s.working.store.keys ==> k in t.working.store.keys && t.working.store.keys[k] == s.working.store.keys[k]
  }

  lemma CallRests(c: Codec, s: Snapshot, call: Runs.Call)
    requires Sound(c) && Resting(c, s)
    ensures Resting(c, AfterCall(c, s, call)) && KeysKept(s, AfterCall(c, s, call))
    ensures AfterCall(c, s, call).working.edges == s.working.edges
  {
    if call != Runs.Acknowledge([]) && Runs.Commit(c, s.working.store, s.working.nextId, call).Some? {
      AfterCommit(c, s, call);
      match call {
        case Stage(_, _) =>
        case Acknowledge(items) => BatchAnswers(c, s.working.store, items);
        case RecoverUncommitted => RecoverExactly(c, s.working.store);
      }
    }
  }

  lemma RecordedRests(c: Codec, w: Db, events: seq<RunEvent>, acks: seq<Ack>)
    requires FileFits(c, w) && |events| == |acks|
    ensures Resting(c, Recorded(c, w, events, acks)) && Recorded(c, w, events, acks).working.store == w.store
  {
    RecordedEdges(c, w, events, acks);
  }

  lemma NextRests(c: Codec, s: Snapshot, step: Step)
    requires Sound(c) && Resting(c, s)
    ensures Resting(c, Next(c, s, step)) && KeysKept(s, Next(c, s, step))
  {
    match step
    case VaultCall(call) => CallRests(c, s, call);
    case Ingest(_, _, _) =>
      if WentThrough(c, s, step) {
        var call := Runs.Acknowledge(ItemsIn(step).value);
        CallRests(c, s, call);
        AnswersToEach(c, s, step);
        RecordedRests(c, AfterCall(c, s, call).working, step.events, AnswersTo(c, s, step));
      } else if ItemsIn(step).Some? {
        CallRests(c, s, Runs.Acknowledge(ItemsIn(step).value));
      }
  }

  lemma {:induction false} EveryStateRests(c: Codec, steps: seq<Step>)
    requires Sound(c)
    ensures Resting(c, Play(c, steps))
  {
    if steps != [] {
      EveryStateRests(c, steps[..|steps| - 1]);
      NextRests(c, Play(c, steps[..|steps| - 1]), steps[|steps| - 1]);
    }
  }

  // ------------------------------------------------------------------ the edges of a run

  /** For a batch that is acknowledged: inputs times outputs, summed over its complete events that the vault
    * did not answer as duplicates, up to the one whose lineage raises, if any.
    */
  function EdgesAdded(c: Codec, s: Snapshot, step: Step): nat {
    if !WentThrough(c, s, step) || |AnswersTo(c, s, step)| != |step.events| then 0
    else
      var acks := AnswersTo(c, s, step);
      var n := Reached(step.events, acks);
      EdgeSum(step.events[..n], acks[..n])
  }

  function EdgeTotal(c: Codec, steps: seq<Step>): nat {
    if steps == [] then 0
    else
      var init := steps[..|steps| - 1];
      EdgeTotal(c, init) + EdgesAdded(c, Play(c, init), steps[|steps| - 1])
  }

  lemma NextAddsEdges(c: Codec, s: Snapshot, step: Step)
    requires Sound(c) && Resting(c, s)
    ensures |Next(c, s, step).working.edges| == |s.working.edges| + EdgesAdded(c, s, step)
  {
    match step
    case VaultCall(call) => CallRests(c, s, call);
    case Ingest(events, _, _) =>
      if WentThrough(c, s, step) {
        var call := Runs.Acknowledge(ItemsIn(step).value);
        CallRests(c, s, call);
        AnswersToEach(c, s, step);
        var acks := AnswersTo(c, s, step);
        RecordedEdges(c, AfterCall(c, s, call).working, events, acks);
        var n := Reached(events, acks);
        BatchEdgeListLength(events[..n], acks[..n]);
      } else if ItemsIn(step).Some? {
        CallRests(c, s, Runs.Acknowledge(ItemsIn(step).value));
      }
  }

  /** Over every crash-free run dataset_edges holds, in the connection and in the file, the sum of inputs times
    * outputs over the complete events that the vault acknowledged and did not answer as duplicates.
    */
  lemma {:induction false} RunEdges(c: Codec, steps: seq<Step>)
    requires Sound(c)
    ensures |Play(c, steps).working.edges| == EdgeTotal(c, steps)
    ensures Play(c, steps).durable.edges == Play(c, steps).working.edges
  {
    EveryStateRests(c, steps);
    if steps != [] {
      var init := steps[..|steps| - 1];
      RunEdges(c, init);
      EveryStateRests(c, init);
      NextAddsEdges(c, Play(c, init), steps[|steps| - 1]);
    }
  }

  // ------------------------------------------------------------------ replays of earlier batches

  lemma {:induction false} KeysStay(c: Codec, steps: seq<Step>, more: seq<Step>)
    requires Sound(c)
    ensures KeysKept(Play(c, steps), Play(c, steps + more))
  {
    if more == [] {
      assert steps + more == steps;
    } else {
      var init := more[..|more| - 1];
      assert (steps + more)[..|steps + more| - 1] == steps + init;
      KeysStay(c, steps, init);
      EveryStateRests(c, steps + init);
      NextRests(c, Play(c, steps + init), more[|more| - 1]);
      KeptAgain(Play(c, steps), Play(c, steps + init), Play(c, steps + more));
    }
  }

  lemma KeptAgain(s: Snapshot, t: Snapshot, u: Snapshot)
    requires KeysKept(s, t) && KeysKept(t, u)
    ensures KeysKept(s, u)
  {
  }

  /** All keys of the batch are in the table. */
  predicate Knows(s: Store, step: Step)
    requires ItemsIn(step).Some?
  {
    var keys := KeyList(|step.events|, step.idempotencyKeys).value;
    forall i :: 0 <= i < |step.events| ==> KeyOf(step.events[i], keys[i]) in s.keys
  }

  lemma KeysAfterBatch(c: Codec, s: Snapshot, step: Step)
    requires WentThrough(c, s, step)
    ensures Knows(Next(c, s, step).working.store, step)
  {
    AnswersToEach(c, s, step);
    BatchKeysKnown(c, s.working.store, step.events, KeyList(|step.events|, step.idempotencyKeys).value, step.ids);
  }

  lemma KnownCallChangesNothing(c: Codec, s: Snapshot, items: seq<Item>)
    requires items != [] && AckAll(c, s.working.store, items).Done?
    requires AckAll(c, s.working.store, items).store == s.working.store && BatchDraws(c, s.working.store, items) == 0
    ensures AfterCall(c, s, Runs.Acknowledge(items)) == Snapshot(s.working, s.working)
  {
  }

  lemma NothingRecorded(c: Codec, w: Db, events: seq<RunEvent>, acks: seq<Ack>)
    requires |events| == |acks|
    requires BatchWrites(events, acks) == [] && RunEventsAfter(c, w.runEvents, events, acks) == w.runEvents
    ensures Recorded(c, w, events, acks) == Snapshot(w, w)
  {
    ReachedAll(events, acks);
    assert events[..|events|] == events && acks[..|acks|] == acks;
  }

  /** A batch whose keys are known, as a step: nothing in the connection changes, and the file catches up. */
  lemma KnownBatchChangesNothing(c: Codec, s: Snapshot, step: Step)
    requires ItemsIn(step).Some? && Knows(s.working.store, step)
    ensures WentThrough(c, s, step)
    ensures Next(c, s, step) == Snapshot(s.working, s.working)
  {
    var keys, items := KeyList(|step.events|, step.idempotencyKeys).value, ItemsIn(step).value;
    ReplayWritesNothing(c, s.working.store, step.events, keys, step.ids, s.working.runEvents);
    AnswersToEach(c, s, step);
    KnownKeysDrawNothing(c, s.working.store, step.events, keys, step.ids);
    ItemsLength(step.events, keys, step.ids);
    KnownCallChangesNothing(c, s, items);
    NothingRecorded(c, s.working, step.events, AnswersTo(c, s, step));
  }

  lemma PlayUpTo(c: Codec, steps: seq<Step>, i: nat)
    requires i < |steps|
    ensures Play(c, steps[..i + 1]) == Next(c, Play(c, steps[..i]), steps[i])
  {
    assert steps[..i + 1][..i] == steps[..i];
  }

  /** The keys of a batch that went through are known at the end of the run. */
  lemma KeysKnownLater(c: Codec, steps: seq<Step>, i: nat)
    requires Sound(c) && i < |steps| && WentThrough(c, Play(c, steps[..i]), steps[i])
    ensures Knows(Play(c, steps).working.store, steps[i])
  {
    PlayUpTo(c, steps, i);
    KeysAfterBatch(c, Play(c, steps[..i]), steps[i]);
    KeysStayFrom(c, steps, i + 1);
    KnowledgeStays(Play(c, steps[..i + 1]), Play(c, steps), steps[i]);
  }

  lemma KeysStayFrom(c: Codec, steps: seq<Step>, n: nat)
    requires Sound(c) && n <= |steps|
    ensures KeysKept(Play(c, steps[..n]), Play(c, steps))
  {
    assert steps == steps[..n] + steps[n..];
    KeysStay(c, steps[..n], steps[n..]);
  }

  lemma KnowledgeStays(s: Snapshot, t: Snapshot, step: Step)
    requires ItemsIn(step).Some? && Knows(s.working.store, step) && KeysKept(s, t)
    ensures Knows(t.working.store, step)
  {
  }

  /** Submitting a batch again that went through at any earlier point of the run, with the same events and keys
    * and whatever event ids are drawn this time, changes no table. (What a raise had left uncommitted gets
    * committed.)
    */
  lemma ReplayChangesNothing(c: Codec, steps: seq<Step>, i: nat, ids: seq<string>)
    requires Sound(c) && i < |steps| && WentThrough(c, Play(c, steps[..i]), steps[i])
    requires |ids| == |steps[i].events|
    ensures Next(c, Play(c, steps), steps[i].(ids := ids)) == Snapshot(Play(c, steps).working, Play(c, steps).working)
  {
    KeysKnownLater(c, steps, i);
    KnownBatchChangesNothing(c, Play(c, steps), steps[i].(ids := ids));
  }
}
