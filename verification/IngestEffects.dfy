/** What an ingested batch means, said of the events and keys as they were given, the answers, and the tables
  * before and after: under which keys events are acknowledged, what is stored for them, and whose lineage is
  * recorded.
  */
module IngestEffects {
  import opened Wrappers
  import opened HashChain
  import opened Vault
  import opened VaultLaws
  import opened SQLiteBackend
  import opened OpenLineage
  import opened OpenLineageIngest
  import opened EventRows
  import FieldImpact
  import Runs = VaultRuns

  // ------------------------------------------------------------------ the conditions

  /** The key given for event `i`, if any: an empty list counts as none given. */
  function Given(keys: Option<seq<Option<string>>>, i: nat): Option<string> {
    if keys.None? || i >= |keys.value| then None else keys.value[i]
  }

  /** The given key, or run id and event type for a missing or empty one. */
  predicate KeyIs(ev: RunEvent, given: Option<string>, key: string) {
    if given.Some? && given.value != "" then key == given.value else key == ev.runId + ":" + ev.eventType
  }

  /** The ledger has a row for the event id with the encoded body. */
  predicate HasBody(c: Codec, ledger: seq<Row>, e: string, ev: RunEvent) {
    exists row :: row in ledger && row.eventId == e && Some(row.payload) == c.dumps(ev.body)
  }

  /** The answer to event `i`: the event id its key has now, fresh exactly for the first event of a key that was
    * not known, and then under the id drawn for it and with its body in the ledger.
    */
  ghost predicate AnswerMeans(c: Codec, ev: RunEvent, given: Option<string>, id: string, before: Store, after: Store,
                              answers: seq<Answer>, i: nat)
    requires i < |answers|
  {
    && answers[i].runId == ev.runId && answers[i].eventType == ev.eventType && answers[i].acknowledged
    && (forall key :: KeyIs(ev, given, key) ==>
          && key in after.keys && answers[i].eventId == after.keys[key]
          && (answers[i].duplicate <==> key in before.keys || AnsweredBefore(answers, i)))
    && (!answers[i].duplicate ==> answers[i].eventId == id && HasBody(c, after.ledger, id, ev))
  }

  predicate AnsweredBefore(answers: seq<Answer>, i: nat)
    requires i < |answers|
  {
    exists j :: 0 <= j < i && answers[j].eventId == answers[i].eventId
  }

  ghost predicate AnswersMean(c: Codec, events: seq<RunEvent>, keys: Option<seq<Option<string>>>, ids: seq<string>,
                              before: Store, after: Store, answers: seq<Answer>)
  {
    && |answers| == |events| == |ids| && before.ledger <= after.ledger
    && (forall key :: key in before.keys ==> key in after.keys && after.keys[key] == before.keys[key])
    && forall i :: 0 <= i < |events| ==> AnswerMeans(c, events[i], Given(keys, i), ids[i], before, after, answers, i)
  }

  /** As many keys as events, or none. */
  predicate KeysMatch(events: seq<RunEvent>, keys: Option<seq<Option<string>>>) {
    keys.None? || keys.value == [] || |keys.value| == |events|
  }

  /** The key of event `i` is not known, and no earlier event of the batch has it. */
  ghost predicate IsNew(events: seq<RunEvent>, keys: Option<seq<Option<string>>>, known: map<string, string>, i: int) {
    0 <= i < |events| && forall key :: KeyIs(events[i], Given(keys, i), key) ==>
      key !in known && forall j :: 0 <= j < i ==> !KeyIs(events[j], Given(keys, j), key)
  }

  /** The storage takes the batch: each new event encodes, under an id that no ledger row and no other new event
    * has.
    */
  ghost predicate CanBeAcknowledged(c: Codec, events: seq<RunEvent>, keys: Option<seq<Option<string>>>, ids: seq<string>,
                                    before: Store)
    requires |events| == |ids|
  {
    && KeysMatch(events, keys)
    && (forall i :: IsNew(events, keys, before.keys, i) ==> c.dumps(events[i].body).Some? && ids[i] !in before.settled)
    && (forall i, j :: i < j && IsNew(events, keys, before.keys, i) && IsNew(events, keys, before.keys, j) ==> ids[i] != ids[j])
  }

  /** ... and the lineage of each new complete event can be recorded. */
  ghost predicate CanBeRecorded(events: seq<RunEvent>, keys: Option<seq<Option<string>>>, known: map<string, string>) {
    forall i :: IsNew(events, keys, known, i) && events[i].eventType == "COMPLETE" ==> Recordable(events[i])
  }

  predicate IsFresh(events: seq<RunEvent>, answers: seq<Answer>, i: int, runId: string, eventType: string) {
    0 <= i < |events| == |answers| && !answers[i].duplicate && events[i].runId == runId && events[i].eventType == eventType
  }

  ghost predicate IsLastFresh(events: seq<RunEvent>, answers: seq<Answer>, i: int, runId: string, eventType: string) {
    && IsFresh(events, answers, i, runId, eventType)
    && forall j :: i < j ==> !IsFresh(events, answers, j, runId, eventType)
  }

  /** Every fresh event of any type is stored under its run id and type, the last of them staying; nothing else
    * changes.
    */
  ghost predicate RunEventsMean(c: Codec, events: seq<RunEvent>, answers: seq<Answer>,
                                before: map<(string, string), string>, after: map<(string, string), string>)
  {
    && (forall i, runId, eventType :: IsLastFresh(events, answers, i, runId, eventType) ==>
          (runId, eventType) in after && Some(after[(runId, eventType)]) == c.dumps(events[i].body))
    && (forall runId, eventType :: (forall i :: !IsFresh(events, answers, i, runId, eventType)) ==>
          && ((runId, eventType) in after <==> (runId, eventType) in before)
          && ((runId, eventType) in before ==> after[(runId, eventType)] == before[(runId, eventType)]))
  }

  /** Event `i` is one whose lineage is recorded. */
  predicate IsRecorded(events: seq<RunEvent>, answers: seq<Answer>, i: int) {
    0 <= i < |events| == |answers| && !answers[i].duplicate && events[i].eventType == "COMPLETE"
  }

  /** How many rows the recorded events call for in field_mappings and in dataset_edges. */
  function RowTotal(events: seq<RunEvent>, answers: seq<Answer>): nat
    requires |events| == |answers|
  {
    if events == [] then 0
    else
      var n := |events| - 1;
      RowTotal(events[..n], answers[..n]) +
      if answers[n].duplicate || events[n].eventType != "COMPLETE" then 0
      else SharedTotal(events[n].outputs, events[n].inputs) + ColumnTotal(events[n].outputs, |events[n].inputs|)
  }

  function PairTotal(events: seq<RunEvent>, answers: seq<Answer>): nat
    requires |events| == |answers|
  {
    if events == [] then 0
    else
      var n := |events| - 1;
      PairTotal(events[..n], answers[..n]) +
      if answers[n].duplicate || events[n].eventType != "COMPLETE" then 0 else |events[n].outputs| * |events[n].inputs|
  }

  /** The new rows of field_mappings are those that some recorded event calls for. */
  ghost predicate RowsMean(events: seq<RunEvent>, answers: seq<Answer>,
                           before: seq<FieldImpact.Mapping>, after: seq<FieldImpact.Mapping>)
  {
    && before <= after && |events| == |answers| && |after| == |before| + RowTotal(events, answers)
    && forall m :: m in after[|before|..] <==> exists i :: IsRecorded(events, answers, i) && RowOfEvent(events[i], m)
  }

  /** So are the new rows of dataset_edges. */
  ghost predicate EdgesMean(events: seq<RunEvent>, answers: seq<Answer>, before: seq<Edge>, after: seq<Edge>) {
    && before <= after && |events| == |answers| && |after| == |before| + PairTotal(events, answers)
    && forall e :: e in after[|before|..] <==> exists i :: IsRecorded(events, answers, i) && EdgeOfEvent(events[i], e)
  }

  /** All of it, for the tables before and after the batch. */
  ghost predicate BatchMeans(c: Codec, events: seq<RunEvent>, keys: Option<seq<Option<string>>>, ids: seq<string>,
                             before: Db, after: Db, answers: seq<Answer>)
  {
    && AnswersMean(c, events, keys, ids, before.store, after.store, answers)
    && RunEventsMean(c, events, answers, before.runEvents, after.runEvents)
    && EdgesMean(events, answers, before.edges, after.edges)
    && (DictEvents(events) ==> RowsMean(events, answers, before.mappings, after.mappings))
  }

  /** The batch was acknowledged, and event `k` is the first whose lineage cannot be recorded: `mid` is what the
    * events before it leave. Its own run event is stored and, when its datasets can be parsed, its edges are added;
    * nothing is done for the events behind it.
    */
  ghost predicate StoppedAt(c: Codec, events: seq<RunEvent>, keys: Option<seq<Option<string>>>, ids: seq<string>,
                            before: Db, after: Db, k: nat, answers: seq<Answer>, mid: Lineage)
  {
    && AnswersMean(c, events, keys, ids, before.store, after.store, answers)
    && k < |events| && IsRecorded(events, answers, k) && !Recordable(events[k])
    && (forall i :: i < k && IsRecorded(events, answers, i) ==> Recordable(events[i]))
    && RunEventsMean(c, events[..k + 1], answers[..k + 1], before.runEvents, after.runEvents)
    && EdgesMean(events[..k], answers[..k], before.edges, mid.edges)
    && RowsMean(events[..k], answers[..k], before.mappings, mid.mappings)
    && (if SomeIllTyped(events[k].inputs) || SomeIllTyped(events[k].outputs)
        then after.edges == mid.edges && after.mappings == mid.mappings
        else EdgesAdded(events[k], mid.edges, after.edges) && mid.mappings <= after.mappings)
  }

  ghost predicate StoppedSomewhere(c: Codec, events: seq<RunEvent>, keys: Option<seq<Option<string>>>, ids: seq<string>,
                                   before: Db, after: Db)
  {
    exists k: nat, answers, mid :: StoppedAt(c, events, keys, ids, before, after, k, answers, mid)
  }

  predicate DictEvents(events: seq<RunEvent>) { forall ev :: ev in events ==> DictColumns(ev.outputs) }

  /** A batch that the storage does not take changes nothing; one that it takes returns exactly when the lineage of
    * each new complete event can be recorded, and else stops at the first where it cannot.
    */
  ghost predicate IngestOutcome(c: Codec, events: seq<RunEvent>, keys: Option<seq<Option<string>>>, ids: seq<string>,
                                before: Db, after: Db, r: Result<seq<Answer>>)
    requires |events| == |ids|
  {
    match r
    case Returned(answers) =>
      && BatchMeans(c, events, keys, ids, before, after, answers)
      && (events != [] ==> CanBeAcknowledged(c, events, keys, ids, before.store))
      && (DictEvents(events) ==> CanBeRecorded(events, keys, before.store.keys))
    case Raised =>
      && events != []
      && (if !CanBeAcknowledged(c, events, keys, ids, before.store)
          then after.store == before.store && after.edges == before.edges && after.runEvents == before.runEvents
          else DictEvents(events) ==>
                 !CanBeRecorded(events, keys, before.store.keys) && StoppedSomewhere(c, events, keys, ids, before, after))
  }

  // ------------------------------------------------------------------ the vault's answers

  lemma {:induction false} AckAllExtends(c: Codec, s: Store, items: seq<Item>)
    requires AckAll(c, s, items).Done?
    ensures s.ledger <= AckAll(c, s, items).store.ledger && |AckAll(c, s, items).acks| == |items|
  {
    if items != [] {
      AckAllStep(c, s, items);
      AckAllExtends(c, s, items[..|items| - 1]);
      var t := AckAll(c, s, items[..|items| - 1]).store;
      if items[|items| - 1].idempotencyKey !in t.keys {
        FreshAck(c, t, items[|items| - 1]);
      }
    }
  }

  /** A fresh answer names the item's own event id, and the item's text is in the ledger. */
  lemma {:induction false} FreshIsOwn(c: Codec, s: Store, items: seq<Item>, i: nat)
    requires AckAll(c, s, items).Done? && |AckAll(c, s, items).acks| == |items| && i < |items|
    requires !AckAll(c, s, items).acks[i].duplicate
    ensures AckAll(c, s, items).acks[i].eventId == items[i].eventId && c.dumps(items[i].payload).Some?
    ensures Runs.HasRow(AckAll(c, s, items).store.ledger, items[i].eventId, c.dumps(items[i].payload).value)
    decreases |items|
  {
    var n := |items| - 1;
    AckAllStep(c, s, items);
    AckAllExtends(c, s, items[..n]);
    var before := AckAll(c, s, items[..n]);
    if i == n {
      FreshAck(c, before.store, items[n]);
      var l := AckAll(c, s, items).store.ledger;
      assert l[|before.store.ledger|].eventId == items[n].eventId;
    } else {
      FreshIsOwn(c, s, items[..n], i);
      if items[n].idempotencyKey !in before.store.keys {
        FreshAck(c, before.store, items[n]);
      }
      Runs.HasRowExtends(before.store.ledger, AckAll(c, s, items).store.ledger, items[i].eventId,
                         c.dumps(items[i].payload).value);
    }
  }

  lemma {:induction false} AnswersAt(events: seq<RunEvent>, acks: seq<Ack>, i: nat)
    requires |events| == |acks| && i < |events|
    ensures |Answers(events, acks)| == |events|
    ensures Answers(events, acks)[i] ==
            Answer(acks[i].eventId, acks[i].duplicate, acks[i].acknowledged, events[i].runId, events[i].eventType)
    decreases |events|
  {
    var n := |events| - 1;
    AnswersLength(events[..n], acks[..n]);
    if i < n {
      AnswersAt(events[..n], acks[..n], i);
    }
  }

  lemma {:induction false} AnswersLength(events: seq<RunEvent>, acks: seq<Ack>)
    requires |events| == |acks|
    ensures |Answers(events, acks)| == |events|
    decreases |events|
  {
    if events != [] {
      AnswersLength(events[..|events| - 1], acks[..|events| - 1]);
    }
  }

  lemma GivenIs(n: nat, keys: Option<seq<Option<string>>>, i: nat)
    requires KeyList(n, keys).Some? && i < n
    ensures KeyList(n, keys).value[i] == Given(keys, i)
  {
  }

  lemma KeyOfIs(ev: RunEvent, given: Option<string>)
    ensures forall key :: KeyIs(ev, given, key) <==> key == KeyOf(ev, given)
  {
  }

  lemma KeyCameBefore(items: seq<Item>, i: nat)
    requires i < |items|
    ensures items[i].idempotencyKey in ItemKeys(items[..i]) <==>
            exists j :: 0 <= j < i && items[j].idempotencyKey == items[i].idempotencyKey
  {
    if items[i].idempotencyKey in ItemKeys(items[..i]) {
      var it :| it in items[..i] && it.idempotencyKey == items[i].idempotencyKey;
      var j :| 0 <= j < i && items[..i][j] == it;
      assert items[j] == it;
    }
    if j :| 0 <= j < i && items[j].idempotencyKey == items[i].idempotencyKey {
      assert items[..i][j] in items[..i];
    }
  }

  /** Two answers name one event id exactly when they are for one key. */
  lemma SameKeySameId(c: Codec, s: Store, items: seq<Item>, i: nat, j: nat)
    requires Consistent(c, s) && AckAll(c, s, items).Done? && |AckAll(c, s, items).acks| == |items|
    requires i < |items| && j < |items|
    ensures var acks := AckAll(c, s, items).acks;
            acks[i].eventId == acks[j].eventId <==> items[i].idempotencyKey == items[j].idempotencyKey
  {
    var b := AckAll(c, s, items);
    BatchAnswers(c, s, items);
    AckAllKeeps(c, s, items);
    assert AnswerFits(s, b.store, items, i, b.acks[i]);
    assert AnswerFits(s, b.store, items, j, b.acks[j]);
  }

  lemma {:induction false} AnswerIsMeant(c: Codec, s: Store, events: seq<RunEvent>, keys: Option<seq<Option<string>>>,
                                         ids: seq<string>, i: nat)
    requires Consistent(c, s) && |events| == |ids| && KeyList(|events|, keys).Some? && i < |events|
    requires AckAll(c, s, ItemsOf(events, KeyList(|events|, keys).value, ids)).Done?
    ensures var b := AckAll(c, s, ItemsOf(events, KeyList(|events|, keys).value, ids));
            && |b.acks| == |events| == |Answers(events, b.acks)|
            && AnswerMeans(c, events[i], Given(keys, i), ids[i], s, b.store, Answers(events, b.acks), i)
  {
    var ks := KeyList(|events|, keys).value;
    var items := ItemsOf(events, ks, ids);
    var b := AckAll(c, s, items);
    ItemsLength(events, ks, ids);
    ItemsAt(events, ks, ids, i);
    AckAllExtends(c, s, items);
    BatchAnswers(c, s, items);
    assert AnswerFits(s, b.store, items, i, b.acks[i]);
    GivenIs(|events|, keys, i);
    KeyOfIs(events[i], Given(keys, i));
    AnswersAt(events, b.acks, i);
    KeyCameBefore(items, i);
    DuplicateMeans(c, s, events, items, i);
    if !b.acks[i].duplicate {
      FreshIsOwn(c, s, items, i);
    }
  }

  lemma DuplicateMeans(c: Codec, s: Store, events: seq<RunEvent>, items: seq<Item>, i: nat)
    requires Consistent(c, s) && AckAll(c, s, items).Done? && |AckAll(c, s, items).acks| == |items| == |events|
    requires i < |items|
    ensures |Answers(events, AckAll(c, s, items).acks)| == |events|
    ensures AnsweredBefore(Answers(events, AckAll(c, s, items).acks), i) <==>
            exists j :: 0 <= j < i && items[j].idempotencyKey == items[i].idempotencyKey
  {
    var acks := AckAll(c, s, items).acks;
    AnswersAt(events, acks, i);
    forall j | 0 <= j < i
      ensures Answers(events, acks)[j].eventId == Answers(events, acks)[i].eventId <==>
              items[j].idempotencyKey == items[i].idempotencyKey
    {
      AnswersAt(events, acks, j);
      SameKeySameId(c, s, items, j, i);
    }
  }

  lemma AnswersAreMeant(c: Codec, s: Store, events: seq<RunEvent>, keys: Option<seq<Option<string>>>, ids: seq<string>)
    requires Consistent(c, s) && |events| == |ids| && KeyList(|events|, keys).Some?
    requires AckAll(c, s, ItemsOf(events, KeyList(|events|, keys).value, ids)).Done?
    ensures var b := AckAll(c, s, ItemsOf(events, KeyList(|events|, keys).value, ids));
            |b.acks| == |events| && AnswersMean(c, events, keys, ids, s, b.store, Answers(events, b.acks))
  {
    var items := ItemsOf(events, KeyList(|events|, keys).value, ids);
    ItemsLength(events, KeyList(|events|, keys).value, ids);
    AckAllExtends(c, s, items);
    AnswersLength(events, AckAll(c, s, items).acks);
    BatchAnswers(c, s, items);
    forall i | 0 <= i < |events|
      ensures AnswerMeans(c, events[i], Given(keys, i), ids[i], s, AckAll(c, s, items).store,
                          Answers(events, AckAll(c, s, items).acks), i)
    {
      AnswerIsMeant(c, s, events, keys, ids, i);
    }
  }

  // ------------------------------------------------------------------ run events

  lemma {:induction false} RunEventsAreMeant(c: Codec, m: map<(string, string), string>, events: seq<RunEvent>, acks: seq<Ack>)
    requires |events| == |acks| && forall i :: 0 <= i < |events| && !acks[i].duplicate ==> c.dumps(events[i].body).Some?
    ensures RunEventsMean(c, events, Answers(events, acks), m, RunEventsAfter(c, m, events, acks))
    decreases |events|
  {
    if events != [] {
      var n := |events| - 1;
      var init, before := Answers(events[..n], acks[..n]), RunEventsAfter(c, m, events[..n], acks[..n]);
      AnswersLength(events[..n], acks[..n]);
      AnswersAt(events, acks, n);
      assert Answers(events, acks)[..n] == init;
      RunEventsAreMeant(c, m, events[..n], acks[..n]);
      RunEventsNext(c, events, Answers(events, acks), m, before, RunEventsAfter(c, m, events, acks));
    }
  }

  lemma RunEventsNext(c: Codec, events: seq<RunEvent>, answers: seq<Answer>, m: map<(string, string), string>,
                      before: map<(string, string), string>, after: map<(string, string), string>)
    requires |events| == |answers| > 0
    requires RunEventsMean(c, events[..|events| - 1], answers[..|events| - 1], m, before)
    requires var n := |events| - 1;
             if answers[n].duplicate then after == before
             else c.dumps(events[n].body).Some? &&
                  after == before[(events[n].runId, events[n].eventType) := c.dumps(events[n].body).value]
    ensures RunEventsMean(c, events, answers, m, after)
  {
    var n := |events| - 1;
    forall i, runId, eventType | IsLastFresh(events, answers, i, runId, eventType)
      ensures (runId, eventType) in after && Some(after[(runId, eventType)]) == c.dumps(events[i].body)
    {
      if i < n {
        assert !IsFresh(events, answers, n, runId, eventType);
        assert IsLastFresh(events[..n], answers[..n], i, runId, eventType) by {
          forall j
            ensures j < n ==>
                    (IsFresh(events, answers, j, runId, eventType) <==> IsFresh(events[..n], answers[..n], j, runId, eventType))
          {
          }
        }
      }
    }
    forall runId, eventType | forall i :: !IsFresh(events, answers, i, runId, eventType)
      ensures (runId, eventType) in after <==> (runId, eventType) in m
      ensures (runId, eventType) in m ==> after[(runId, eventType)] == m[(runId, eventType)]
    {
      assert !IsFresh(events, answers, n, runId, eventType);
      forall i ensures !IsFresh(events[..n], answers[..n], i, runId, eventType) {
        assert !IsFresh(events, answers, i, runId, eventType);
      }
    }
  }

  // ------------------------------------------------------------------ lineage

  lemma AnswersPrefix(events: seq<RunEvent>, acks: seq<Ack>)
    requires |events| == |acks| > 0
    ensures var n := |events| - 1;
            && |Answers(events, acks)| == |events| && Answers(events, acks)[..n] == Answers(events[..n], acks[..n])
            && Answers(events, acks)[n].duplicate == acks[n].duplicate
  {
    AnswersLength(events[..|events| - 1], acks[..|events| - 1]);
  }

  lemma {:induction false} BatchRowsSize(events: seq<RunEvent>, acks: seq<Ack>)
    requires |events| == |acks| && AllAccepted(BatchWrites(events, acks))
    requires DictEvents(events)
    ensures |Answers(events, acks)| == |events|
    ensures |RowsOf(BatchWrites(events, acks))| == RowTotal(events, Answers(events, acks))
    decreases |events|
  {
    if events != [] {
      var n := |events| - 1;
      var before, more := BatchWrites(events[..n], acks[..n]), EventWrites(events[n], acks[n]);
      AppliedConcat(Lineage([], []), before, more);
      RowsConcat(before, more);
      BatchRowsSize(events[..n], acks[..n]);
      AnswersPrefix(events, acks);
      if Records(events[n], acks[n]) {
        RecordedRows(Lineage([], []), events[n]);
        AppliedRows(Lineage([], []), more);
      }
    }
  }

  lemma {:induction false} BatchEdgesSize(events: seq<RunEvent>, acks: seq<Ack>)
    requires |events| == |acks| && AllAccepted(BatchWrites(events, acks))
    ensures |Answers(events, acks)| == |events|
    ensures |BatchEdgeList(events, acks)| == PairTotal(events, Answers(events, acks))
    decreases |events|
  {
    if events != [] {
      var n := |events| - 1;
      AppliedConcat(Lineage([], []), BatchWrites(events[..n], acks[..n]), EventWrites(events[n], acks[n]));
      BatchEdgesSize(events[..n], acks[..n]);
      AnswersPrefix(events, acks);
      if Records(events[n], acks[n]) {
        BatchParses(events, acks, n);
        EdgesTotal(events[n]);
      }
    }
  }

  lemma RowsAreMeant(events: seq<RunEvent>, acks: seq<Ack>, l: Lineage)
    requires |events| == |acks| && AllAccepted(BatchWrites(events, acks))
    requires DictEvents(events)
    ensures RowsMean(events, Answers(events, acks), l.mappings, Applied(l, BatchWrites(events, acks)).mappings)
  {
    var rows := RowsOf(BatchWrites(events, acks));
    AppliedRows(l, BatchWrites(events, acks));
    assert (l.mappings + rows)[|l.mappings|..] == rows;
    AnswersLength(events, acks);
    BatchRowsSize(events, acks);
    forall i | 0 <= i < |events| ensures Answers(events, acks)[i].duplicate == acks[i].duplicate {
      AnswersAt(events, acks, i);
    }
    forall m ensures m in rows <==> exists i :: IsRecorded(events, Answers(events, acks), i) && RowOfEvent(events[i], m) {
      BatchRowsExactly(events, acks, m);
      if i :| IsRecorded(events, Answers(events, acks), i) && RowOfEvent(events[i], m) {
        assert RowOfBatch(events, acks, m);
      }
      if RowOfBatch(events, acks, m) {
        var i :| 0 <= i < |events| && !acks[i].duplicate && events[i].eventType == "COMPLETE" && RowOfEvent(events[i], m);
        assert IsRecorded(events, Answers(events, acks), i);
      }
    }
  }

  lemma EdgesAreMeant(events: seq<RunEvent>, acks: seq<Ack>, l: Lineage)
    requires |events| == |acks| && AllAccepted(BatchWrites(events, acks))
    ensures EdgesMean(events, Answers(events, acks), l.edges, l.edges + BatchEdgeList(events, acks))
  {
    var rows := BatchEdgeList(events, acks);
    assert (l.edges + rows)[|l.edges|..] == rows;
    AnswersLength(events, acks);
    BatchEdgesSize(events, acks);
    forall i | 0 <= i < |events| ensures Answers(events, acks)[i].duplicate == acks[i].duplicate {
      AnswersAt(events, acks, i);
    }
    forall e ensures e in rows <==> exists i :: IsRecorded(events, Answers(events, acks), i) && EdgeOfEvent(events[i], e) {
      BatchEdgesExactly(events, acks, e);
      if i :| IsRecorded(events, Answers(events, acks), i) && EdgeOfEvent(events[i], e) {
        assert EdgeOfBatch(events, acks, e);
      }
      if EdgeOfBatch(events, acks, e) {
        var i :| 0 <= i < |events| && !acks[i].duplicate && events[i].eventType == "COMPLETE" && EdgeOfEvent(events[i], e);
        assert IsRecorded(events, Answers(events, acks), i);
      }
    }
  }

  // ------------------------------------------------------------------ when a batch returns

  lemma KeyListExactly(events: seq<RunEvent>, keys: Option<seq<Option<string>>>)
    ensures KeyList(|events|, keys).Some? <==> KeysMatch(events, keys)
  {
  }

  lemma ItemIs(events: seq<RunEvent>, keys: Option<seq<Option<string>>>, ids: seq<string>, i: nat)
    requires |events| == |ids| && KeyList(|events|, keys).Some? && i < |events|
    ensures var items := ItemsOf(events, KeyList(|events|, keys).value, ids);
            && |items| == |events| && items[i].eventId == ids[i] && items[i].payload == events[i].body
            && forall key :: KeyIs(events[i], Given(keys, i), key) <==> key == items[i].idempotencyKey
  {
    ItemsAt(events, KeyList(|events|, keys).value, ids, i);
    GivenIs(|events|, keys, i);
    KeyOfIs(events[i], Given(keys, i));
  }

  lemma NewItemIsNew(events: seq<RunEvent>, keys: Option<seq<Option<string>>>, ids: seq<string>, known: map<string, string>, i: int)
    requires |events| == |ids| && KeyList(|events|, keys).Some?
    ensures IsNewItem(known.Keys, ItemsOf(events, KeyList(|events|, keys).value, ids), i) <==> IsNew(events, keys, known, i)
  {
    var items := ItemsOf(events, KeyList(|events|, keys).value, ids);
    ItemsLength(events, KeyList(|events|, keys).value, ids);
    if 0 <= i < |events| {
      ItemIs(events, keys, ids, i);
      forall j | 0 <= j < i
        ensures KeyIs(events[j], Given(keys, j), items[i].idempotencyKey) <==> items[j].idempotencyKey == items[i].idempotencyKey
      {
        ItemIs(events, keys, ids, j);
      }
      assert KeyIs(events[i], Given(keys, i), items[i].idempotencyKey);
    }
  }

  lemma AcknowledgedExactly(c: Codec, s: Store, events: seq<RunEvent>, keys: Option<seq<Option<string>>>, ids: seq<string>)
    requires Consistent(c, s) && |events| == |ids| && KeyList(|events|, keys).Some?
    ensures AckAll(c, s, ItemsOf(events, KeyList(|events|, keys).value, ids)).Done? <==> CanBeAcknowledged(c, events, keys, ids, s)
  {
    var items := ItemsOf(events, KeyList(|events|, keys).value, ids);
    KeyListExactly(events, keys);
    BatchReturnsExactly(c, s, items);
    ItemsLength(events, KeyList(|events|, keys).value, ids);
    forall i ensures IsNewItem(s.keys.Keys, items, i) <==> IsNew(events, keys, s.keys, i) {
      NewItemIsNew(events, keys, ids, s.keys, i);
    }
    forall i | 0 <= i < |events| ensures items[i].eventId == ids[i] && items[i].payload == events[i].body {
      ItemIs(events, keys, ids, i);
    }
  }

  predicate EachRecordable(events: seq<RunEvent>, acks: seq<Ack>)
    requires |events| == |acks|
  {
    forall i :: 0 <= i < |events| && Records(events[i], acks[i]) ==> Recordable(events[i])
  }

  lemma EachRecordableSnoc(events: seq<RunEvent>, acks: seq<Ack>)
    requires |events| == |acks| > 0
    ensures var n := |events| - 1;
            EachRecordable(events, acks) <==>
            EachRecordable(events[..n], acks[..n]) && (Records(events[n], acks[n]) ==> Recordable(events[n]))
  {
    var n := |events| - 1;
    if EachRecordable(events, acks) {
      forall i | 0 <= i < n && Records(events[..n][i], acks[..n][i]) ensures Recordable(events[..n][i]) {
        assert Records(events[i], acks[i]);
      }
    }
  }

  lemma {:induction false} BatchAcceptedExactly(events: seq<RunEvent>, acks: seq<Ack>)
    requires |events| == |acks| && DictEvents(events)
    ensures AllAccepted(BatchWrites(events, acks)) <==> EachRecordable(events, acks)
    decreases |events|
  {
    if events != [] {
      var n := |events| - 1;
      BatchAcceptedExactly(events[..n], acks[..n]);
      AppliedConcat(Lineage([], []), BatchWrites(events[..n], acks[..n]), EventWrites(events[n], acks[n]));
      RecordableExactly(events[n]);
      EachRecordableSnoc(events, acks);
    }
  }

  lemma RecordedExactly(c: Codec, s: Store, events: seq<RunEvent>, keys: Option<seq<Option<string>>>, ids: seq<string>)
    requires Consistent(c, s) && |events| == |ids| && KeyList(|events|, keys).Some?
    requires DictEvents(events)
    requires AckAll(c, s, ItemsOf(events, KeyList(|events|, keys).value, ids)).Done?
    ensures var acks := AckAll(c, s, ItemsOf(events, KeyList(|events|, keys).value, ids)).acks;
            |acks| == |events| && (AllAccepted(BatchWrites(events, acks)) <==> CanBeRecorded(events, keys, s.keys))
  {
    var items := ItemsOf(events, KeyList(|events|, keys).value, ids);
    var b := AckAll(c, s, items);
    ItemsLength(events, KeyList(|events|, keys).value, ids);
    BatchAnswers(c, s, items);
    BatchAcceptedExactly(events, b.acks);
    forall i | 0 <= i < |events| ensures IsNew(events, keys, s.keys, i) <==> !b.acks[i].duplicate {
      NewItemIsNew(events, keys, ids, s.keys, i);
      KeyCameBefore(items, i);
      assert AnswerFits(s, b.store, items, i, b.acks[i]);
    }
  }

  // ------------------------------------------------------------------ a batch that returns

  lemma NothingMeans(c: Codec, keys: Option<seq<Option<string>>>, db: Db)
    ensures BatchMeans(c, [], keys, [], db, db, [])
  {
    assert db.edges[|db.edges|..] == [] && db.mappings[|db.mappings|..] == [];
  }

  lemma ReturnedMeans(c: Codec, events: seq<RunEvent>, keys: Option<seq<Option<string>>>, ids: seq<string>, before: Db, mid: Db)
    requires Consistent(c, before.store) && |events| == |ids| && KeyList(|events|, keys).Some?
    requires var b := AckAll(c, before.store, ItemsOf(events, KeyList(|events|, keys).value, ids));
             b.Done? && |b.acks| == |events| && AllAccepted(BatchWrites(events, b.acks)) &&
             mid.store == b.store && mid.edges == before.edges && mid.mappings == before.mappings && mid.runEvents == before.runEvents
    ensures var b := AckAll(c, before.store, ItemsOf(events, KeyList(|events|, keys).value, ids));
            var s := Recorded(c, mid, events, b.acks);
            s.working == s.durable && BatchMeans(c, events, keys, ids, before, s.working, Answers(events, b.acks))
  {
    var items := ItemsOf(events, KeyList(|events|, keys).value, ids);
    var acks := AckAll(c, before.store, items).acks;
    ReachedAll(events, acks);
    assert events[..|events|] == events && acks[..|acks|] == acks;
    AnswersAreMeant(c, before.store, events, keys, ids);
    forall i | 0 <= i < |events| && !acks[i].duplicate ensures c.dumps(events[i].body).Some? {
      ItemIs(events, keys, ids, i);
      FreshIsOwn(c, before.store, items, i);
    }
    RunEventsAreMeant(c, before.runEvents, events, acks);
    RecordedEdges(c, mid, events, acks);
    EdgesAreMeant(events, acks, LineageOf(mid));
    if DictEvents(events) {
      RowsAreMeant(events, acks, LineageOf(mid));
    }
  }

  // ------------------------------------------------------------------ a batch that raises behind its commit

  lemma {:induction false} AnswersOfFirst(events: seq<RunEvent>, acks: seq<Ack>, n: nat)
    requires |events| == |acks| && n <= |events|
    ensures |Answers(events, acks)| == |events| && Answers(events, acks)[..n] == Answers(events[..n], acks[..n])
    decreases |events|
  {
    AnswersLength(events, acks);
    if n == |events| {
      assert events[..n] == events && acks[..n] == acks;
    } else {
      var m := |events| - 1;
      AnswersPrefix(events, acks);
      AnswersOfFirst(events[..m], acks[..m], n);
      assert events[..m][..n] == events[..n] && acks[..m][..n] == acks[..n];
      assert Answers(events, acks)[..n] == Answers(events, acks)[..m][..n];
    }
  }

  /** The event at which a batch stops. */
  lemma StopsBehind(events: seq<RunEvent>, acks: seq<Ack>)
    requires |events| == |acks| && !AllAccepted(BatchWrites(events, acks))
    ensures var n := Reached(events, acks);
            && 0 < n <= |events|
            && AllAccepted(BatchWrites(events[..n - 1], acks[..n - 1])) && !AllAccepted(BatchWrites(events[..n], acks[..n]))
  {
    var n := Reached(events, acks);
    ReachedSmoothly(events, acks);
    assert events[..|events|] == events && acks[..|acks|] == acks;
    assert BatchWrites(events[..0], acks[..0]) == [];
    assert Smooth(events, acks)[0];
  }

  lemma StopsAt(events: seq<RunEvent>, acks: seq<Ack>) returns (k: nat)
    requires |events| == |acks| && !AllAccepted(BatchWrites(events, acks)) && DictEvents(events)
    ensures k < |events| && Reached(events, acks) == k + 1 && AllAccepted(BatchWrites(events[..k], acks[..k]))
    ensures Records(events[k], acks[k]) && !Recordable(events[k]) && EachRecordable(events[..k], acks[..k])
  {
    StopsBehind(events, acks);
    var n := Reached(events, acks);
    k := n - 1;
    BatchAcceptedExactly(events[..k], acks[..k]);
    BatchAcceptedExactly(events[..n], acks[..n]);
    EachRecordableSnoc(events[..n], acks[..n]);
    assert events[..n][..k] == events[..k] && acks[..n][..k] == acks[..k];
  }

  /** What a batch that stops at event `k` has written: what the events before it write, then what it writes. */
  lemma WrittenUpTo(l: Lineage, events: seq<RunEvent>, acks: seq<Ack>, k: nat)
    requires |events| == |acks| && k < |events| && Reached(events, acks) == k + 1
    requires AllAccepted(BatchWrites(events[..k], acks[..k])) && Records(events[k], acks[k])
    ensures Applied(l, BatchWrites(events, acks)) ==
            Applied(Applied(l, BatchWrites(events[..k], acks[..k])), WritesOf(events[k]))
  {
    ReachedWrites(l, events, acks);
    assert events[..k + 1][..k] == events[..k] && acks[..k + 1][..k] == acks[..k];
    AppliedConcat(l, BatchWrites(events[..k], acks[..k]), WritesOf(events[k]));
  }

  lemma {:induction false} MappingsGrow(l: Lineage, ws: seq<Write>)
    ensures l.mappings <= Applied(l, ws).mappings
  {
    if ws != [] {
      MappingsGrow(l, ws[..|ws| - 1]);
    }
  }

  /** The lineage of the event that stops the batch. */
  lemma StoppingMeans(l: Lineage, ev: RunEvent)
    ensures var t := Applied(l, WritesOf(ev));
            if SomeIllTyped(ev.inputs) || SomeIllTyped(ev.outputs) then t == l
            else EdgesAdded(ev, l.edges, t.edges) && l.mappings <= t.mappings
  {
    RecordedEdgesOf(l, ev);
    MappingsGrow(l, WritesOf(ev));
  }

  lemma RaisedMeans(c: Codec, events: seq<RunEvent>, keys: Option<seq<Option<string>>>, ids: seq<string>, before: Db, mid: Db)
    requires Consistent(c, before.store) && |events| == |ids| && KeyList(|events|, keys).Some?
    requires DictEvents(events)
    requires var b := AckAll(c, before.store, ItemsOf(events, KeyList(|events|, keys).value, ids));
             b.Done? && |b.acks| == |events| && !AllAccepted(BatchWrites(events, b.acks)) &&
             mid.store == b.store && mid.edges == before.edges && mid.mappings == before.mappings && mid.runEvents == before.runEvents
    ensures var b := AckAll(c, before.store, ItemsOf(events, KeyList(|events|, keys).value, ids));
            StoppedSomewhere(c, events, keys, ids, before, Recorded(c, mid, events, b.acks).working)
  {
    var items := ItemsOf(events, KeyList(|events|, keys).value, ids);
    var acks := AckAll(c, before.store, items).acks;
    var k := StopsAt(events, acks);
    AnswersAreMeant(c, before.store, events, keys, ids);
    forall i | 0 <= i < |events| && !acks[i].duplicate ensures c.dumps(events[i].body).Some? {
      ItemIs(events, keys, ids, i);
      FreshIsOwn(c, before.store, items, i);
    }
    StoppedAtThere(c, events, keys, ids, before, mid, acks, k);
  }

  lemma StoppedAtThere(c: Codec, events: seq<RunEvent>, keys: Option<seq<Option<string>>>, ids: seq<string>, before: Db, mid: Db,
                       acks: seq<Ack>, k: nat)
    requires |events| == |acks| && k < |events| && Reached(events, acks) == k + 1
    requires DictEvents(events)
    requires AllAccepted(BatchWrites(events[..k], acks[..k])) && Records(events[k], acks[k]) && !Recordable(events[k])
    requires EachRecordable(events[..k], acks[..k])
    requires AnswersMean(c, events, keys, ids, before.store, mid.store, Answers(events, acks))
    requires forall i :: 0 <= i < |events| && !acks[i].duplicate ==> c.dumps(events[i].body).Some?
    requires mid.edges == before.edges && mid.mappings == before.mappings && mid.runEvents == before.runEvents
    ensures StoppedSomewhere(c, events, keys, ids, before, Recorded(c, mid, events, acks).working)
  {
    var answers, after := Answers(events, acks), Recorded(c, mid, events, acks).working;
    var l := Applied(LineageOf(mid), BatchWrites(events[..k], acks[..k]));
    AnswersOfFirst(events, acks, k);
    AnswersOfFirst(events, acks, k + 1);
    RunEventsAreMeant(c, mid.runEvents, events[..k + 1], acks[..k + 1]);
    WrittenUpTo(LineageOf(mid), events, acks, k);
    StoppingMeans(l, events[k]);
    FirstMean(events[..k], acks[..k], mid);
    forall i | 0 <= i < |events| ensures answers[i].duplicate == acks[i].duplicate {
      AnswersAt(events, acks, i);
    }
    FirstRecordable(events, acks, answers, k);
    assert StoppedAt(c, events, keys, ids, before, after, k, answers, l);
  }

  lemma FirstRecordable(events: seq<RunEvent>, acks: seq<Ack>, answers: seq<Answer>, k: nat)
    requires |events| == |acks| == |answers| && k <= |events| && EachRecordable(events[..k], acks[..k])
    requires forall i :: 0 <= i < |events| ==> answers[i].duplicate == acks[i].duplicate
    ensures forall i :: i < k && IsRecorded(events, answers, i) ==> Recordable(events[i])
  {
    forall i | i < k && IsRecorded(events, answers, i) ensures Recordable(events[i]) {
      assert Records(events[..k][i], acks[..k][i]);
    }
  }

  lemma FirstMean(events: seq<RunEvent>, acks: seq<Ack>, mid: Db)
    requires |events| == |acks| && AllAccepted(BatchWrites(events, acks))
    requires DictEvents(events)
    ensures var l := Applied(LineageOf(mid), BatchWrites(events, acks));
            && EdgesMean(events, Answers(events, acks), mid.edges, l.edges)
            && RowsMean(events, Answers(events, acks), mid.mappings, l.mappings)
  {
    if events != [] {
      var n := |events| - 1;
      AppliedConcat(LineageOf(mid), BatchWrites(events[..n], acks[..n]), EventWrites(events[n], acks[n]));
    }
    BatchEdges(LineageOf(mid), events, acks);
    EdgesAreMeant(events, acks, LineageOf(mid));
    RowsAreMeant(events, acks, LineageOf(mid));
  }

  lemma OutcomeUnacknowledged(c: Codec, events: seq<RunEvent>, keys: Option<seq<Option<string>>>, ids: seq<string>,
                              before: Db, after: Db)
    requires |events| == |ids| && events != [] && !CanBeAcknowledged(c, events, keys, ids, before.store)
    requires after.store == before.store && after.edges == before.edges && after.runEvents == before.runEvents
    ensures IngestOutcome(c, events, keys, ids, before, after, Raised)
  {
  }

  lemma OutcomeAcknowledged(c: Codec, events: seq<RunEvent>, keys: Option<seq<Option<string>>>, ids: seq<string>,
                            before: Db, mid: Db)
    requires Consistent(c, before.store) && |events| == |ids| && KeyList(|events|, keys).Some? && events != []
    requires var b := AckAll(c, before.store, ItemsOf(events, KeyList(|events|, keys).value, ids));
             b.Done? && |b.acks| == |events| && mid.store == b.store &&
             mid.edges == before.edges && mid.mappings == before.mappings && mid.runEvents == before.runEvents
    ensures var b := AckAll(c, before.store, ItemsOf(events, KeyList(|events|, keys).value, ids));
            var s := Recorded(c, mid, events, b.acks);
            && IngestOutcome(c, events, keys, ids, before, s.working,
                             if AllAccepted(BatchWrites(events, b.acks)) then Returned(Answers(events, b.acks)) else Raised)
            && (AllAccepted(BatchWrites(events, b.acks)) ==> s.durable == s.working)
  {
    var acks := AckAll(c, before.store, ItemsOf(events, KeyList(|events|, keys).value, ids)).acks;
    AcknowledgedExactly(c, before.store, events, keys, ids);
    if DictEvents(events) {
      RecordedExactly(c, before.store, events, keys, ids);
    }
    if AllAccepted(BatchWrites(events, acks)) {
      ReturnedMeans(c, events, keys, ids, before, mid);
    } else if DictEvents(events) {
      RaisedMeans(c, events, keys, ids, before, mid);
    }
  }

  lemma SameAnswersMean(c: Codec, ev: RunEvent, key: Option<string>, id: string, before: Store, after: Store, answers: seq<Answer>)
    requires AnswersMean(c, [ev], if key.Some? && key.value != "" then Some([key]) else None, [id], before, after, answers)
    ensures AnswersMean(c, [ev], Some([key]), [id], before, after, answers)
  {
    SameKeys(ev, key);
    var keys := if key.Some? && key.value != "" then Some([key]) else None;
    assert AnswerMeans(c, ev, Given(keys, 0), id, before, after, answers, 0);
    assert AnswerMeans(c, ev, Given(Some([key]), 0), id, before, after, answers, 0);
  }

  lemma SameConditions(c: Codec, ev: RunEvent, key: Option<string>, id: string, before: Store)
    ensures var keys := if key.Some? && key.value != "" then Some([key]) else None;
            && (CanBeAcknowledged(c, [ev], keys, [id], before) <==> CanBeAcknowledged(c, [ev], Some([key]), [id], before))
            && (CanBeRecorded([ev], keys, before.keys) <==> CanBeRecorded([ev], Some([key]), before.keys))
  {
    var keys := if key.Some? && key.value != "" then Some([key]) else None;
    SameKeys(ev, key);
    forall i ensures IsNew([ev], keys, before.keys, i) <==> IsNew([ev], Some([key]), before.keys, i) {
      if i == 0 {
        assert Given(Some([key]), 0) == key;
      }
    }
  }

  /** For one event, leaving out a missing or empty key or giving it comes to the same. */
  lemma OneKeyOutcome(c: Codec, ev: RunEvent, key: Option<string>, id: string, before: Db, after: Db, r: Result<seq<Answer>>)
    requires IngestOutcome(c, [ev], if key.Some? && key.value != "" then Some([key]) else None, [id], before, after, r)
    ensures IngestOutcome(c, [ev], Some([key]), [id], before, after, r)
  {
    var keys := if key.Some? && key.value != "" then Some([key]) else None;
    SameConditions(c, ev, key, id, before.store);
    match r
    case Returned(answers) => SameAnswersMean(c, ev, key, id, before.store, after.store, answers);
    case Raised =>
      if CanBeAcknowledged(c, [ev], keys, [id], before.store) && DictEvents([ev]) {
        var k: nat, answers, mid :| StoppedAt(c, [ev], keys, [id], before, after, k, answers, mid);
        SameAnswersMean(c, ev, key, id, before.store, after.store, answers);
        assert StoppedAt(c, [ev], Some([key]), [id], before, after, k, answers, mid);
      }
  }

  lemma SameKeys(ev: RunEvent, key: Option<string>)
    ensures forall k :: KeyIs(ev, Given(if key.Some? && key.value != "" then Some([key]) else None, 0), k) <==>
                        KeyIs(ev, Given(Some([key]), 0), k)
  {
  }
}
