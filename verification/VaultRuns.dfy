/** Whole runs of the vault: any calls, any number of retries, a crash at any point, any reopening.
  *
  * A transaction reaches the disk at its commit and nowhere else, so a crash inside a call leaves either
  * the state before it or the state after it (module SQLiteBackend shows this statement by statement).
  * What a run can add to a call is therefore its fate: answered, lost before its commit, or committed
  * with the answer lost.
  */
module VaultRuns {
  import opened Wrappers
  import opened Json
  import opened HashChain
  import opened Vault
  import opened VaultLaws
  import opened Codecs

  datatype Call =
    | Stage(eventId: string, payload: Payload)
    | Acknowledge(items: seq<Item>)
    | RecoverUncommitted

  datatype Fate = Answered | LostBeforeCommit | LostAfterCommit

  datatype Event = Event(call: Call, fate: Fate)

  /** The durable tables, and what the outside world has been told or could know. */
  datatype Run = Run(
    store: Store,
    nextId: nat,                 // the id AUTOINCREMENT gives to the next row of wal_staging
    acks: seq<Ack>,              // every acknowledgement returned so far
    first: map<string, string>,  // per key, the text it was first committed with
    replayed: nat,               // the sum of all committed recoveries' counts
    replayedIds: set<string>)    // the event ids those recoveries appended

  const START := Run(EMPTY, 1, [], map[], 0, {})

  /** The tables a call commits: None when it raises and rolls back. */
  function Commit(c: Codec, s: Store, nextId: nat, call: Call): Option<Store> {
    match call
    case Stage(e, payload) =>
      if c.dumps(payload).None? then None else Some(StageRow(s, nextId, e, c.dumps(payload).value))
    case Acknowledge(items) =>
      var b := AckAll(c, s, items);
      if b.Failed? then None else Some(b.store)
    case RecoverUncommitted =>
      var r := Recover(c, s);
      if r.Stuck? then None else Some(r.store)
  }

  /** How many ids of wal_staging the call uses up. */
  function Draws(c: Codec, s: Store, call: Call): nat {
    match call
    case Stage(e, _) => if InWal(s, e) then 0 else 1
    case Acknowledge(items) => BatchDraws(c, s, items)
    case RecoverUncommitted => 0
  }

  function Firsts(c: Codec, m: map<string, string>, items: seq<Item>): map<string, string>
    requires AllEncodable(c, items)
  {
    if items == [] then m
    else
      var it := items[|items| - 1];
      Firsts(c, m, items[..|items| - 1])[it.idempotencyKey := c.dumps(it.payload).value]
  }

  /** A call that commits. */
  function Committed(c: Codec, r: Run, call: Call, answered: bool): Run
    requires Commit(c, r.store, r.nextId, call).Some?
  {
    var t := Commit(c, r.store, r.nextId, call).value;
    var nextId := r.nextId + Draws(c, r.store, call);
    match call
    case Stage(_, _) => r.(store := t, nextId := nextId)
    case Acknowledge(items) =>
      var written := FreshItems(r.store.keys.Keys, items);
      var acks := AckAll(c, r.store, items).acks;
      BatchWritesFresh(c, r.store, items);
      r.(store := t, nextId := nextId, acks := if answered then r.acks + acks else r.acks, first := Firsts(c, r.first, written))
    case RecoverUncommitted =>
      r.(store := t,
         replayed := r.replayed + Recover(c, r.store).count,
         replayedIds := r.replayedIds + (LedgerIds(t.ledger) - LedgerIds(r.store.ledger)))
  }

  function Next(c: Codec, r: Run, ev: Event): Run {
    if ev.fate == LostBeforeCommit || Commit(c, r.store, r.nextId, ev.call).None? then r
    else Committed(c, r, ev.call, ev.fate == Answered)
  }

  function Play(c: Codec, events: seq<Event>): Run {
    if events == [] then START else Next(c, Play(c, events[..|events| - 1]), events[|events| - 1])
  }

  // ------------------------------------------------------------------ every durable state is consistent

  /** The tables are consistent, and every pending row has an id that was drawn before. */
  predicate RunFits(c: Codec, s: Store, nextId: nat) { Consistent(c, s) && AllBelow(s.pending, nextId) }

  lemma CommitKeeps(c: Codec, s: Store, nextId: nat, call: Call)
    requires Sound(c) && RunFits(c, s, nextId) && Commit(c, s, nextId, call).Some?
    ensures RunFits(c, Commit(c, s, nextId, call).value, nextId + Draws(c, s, call))
  {
    match call
    case Stage(e, payload) =>
      assert Rereadable(c, payload);
      StageKeeps(c, s, nextId, e, c.dumps(payload).value);
    case Acknowledge(items) =>
      AckAllKeeps(c, s, items);
      AckAllShrinks(c, s, items);
    case RecoverUncommitted => RecoverExactly(c, s);
  }

  /** Over every run: the chain verifies, ledger ids are exactly the committed WAL ids and contain every
    * idempotency id, pending rows stand in the order of their ids, and recovery never raises.
    */
  lemma {:induction false} EveryStateConsistent(c: Codec, events: seq<Event>)
    requires Sound(c)
    ensures RunFits(c, Play(c, events).store, Play(c, events).nextId)
    ensures Commit(c, Play(c, events).store, Play(c, events).nextId, RecoverUncommitted).Some?
  {
    if events != [] {
      var r := Play(c, events[..|events| - 1]);
      EveryStateConsistent(c, events[..|events| - 1]);
      if Commit(c, r.store, r.nextId, events[|events| - 1].call).Some? {
        CommitKeeps(c, r.store, r.nextId, events[|events| - 1].call);
      }
    }
    RecoverExactly(c, Play(c, events).store);
  }

  // ------------------------------------------------------------------ what is committed stays

  /** `s` is a later state than `r`: nothing was taken back or changed. */
  predicate Later(r: Run, s: Run) {
    && r.store.ledger <= s.store.ledger
    && r.acks <= s.acks
    && (forall k :: k in r.store.keys ==> k in s.store.keys && s.store.keys[k] == r.store.keys[k])
    && (forall k :: k in r.first ==> k in s.first && s.first[k] == r.first[k])
    && r.replayedIds <= s.replayedIds
    && r.nextId <= s.nextId
  }

  lemma {:induction false} WrittenExtends(c: Codec, ledger: seq<Row>, items: seq<Item>)
    requires AllEncodable(c, items)
    ensures ledger <= Written(c, ledger, items)
  {
    if items != [] {
      WrittenExtends(c, ledger, items[..|items| - 1]);
    }
  }

  lemma {:induction false} FreshItemsAreFresh(known: set<string>, items: seq<Item>, it: Item)
    requires it in FreshItems(known, items)
    ensures it in items && it.idempotencyKey !in known
  {
    var init := items[..|items| - 1];
    if it in FreshItems(known, init) {
      FreshItemsAreFresh(known, init, it);
    }
  }

  lemma {:induction false} FirstsKeep(c: Codec, m: map<string, string>, items: seq<Item>)
    requires AllEncodable(c, items)
    ensures Firsts(c, m, items).Keys == m.Keys + ItemKeys(items)
    ensures forall k :: k in m && k !in ItemKeys(items) ==> Firsts(c, m, items)[k] == m[k]
  {
    if items != [] {
      ItemKeysSnoc(items);
      FirstsKeep(c, m, items[..|items| - 1]);
    }
  }

  lemma CommittedIsLater(c: Codec, r: Run, call: Call, answered: bool)
    requires Commit(c, r.store, r.nextId, call).Some? && Consistent(c, r.store) && r.first.Keys == r.store.keys.Keys
    ensures Later(r, Committed(c, r, call, answered))
  {
    match call
    case Stage(_, _) =>
    case Acknowledge(items) =>
      var written := FreshItems(r.store.keys.Keys, items);
      BatchWritesFresh(c, r.store, items);
      BatchAnswers(c, r.store, items);
      WrittenExtends(c, r.store.ledger, written);
      FirstsKeep(c, r.first, written);
      forall k | k in ItemKeys(written) ensures k !in r.store.keys {
        var it :| it in written && it.idempotencyKey == k;
        FreshItemsAreFresh(r.store.keys.Keys, items, it);
      }
    case RecoverUncommitted =>
      RecoverExactly(c, r.store);
      ReplayedExtends(c, r.store.ledger, r.store.pending);
  }

  // ------------------------------------------------------------------ exactly once

  /** The ledger has a row for `e` with this text. */
  predicate HasRow(ledger: seq<Row>, e: string, text: string) {
    exists i :: 0 <= i < |ledger| && ledger[i].eventId == e && ledger[i].payload == text
  }

  lemma HasRowExtends(ledger: seq<Row>, longer: seq<Row>, e: string, text: string)
    requires ledger <= longer && HasRow(ledger, e, text)
    ensures HasRow(longer, e, text)
  {
    var i :| 0 <= i < |ledger| && ledger[i].eventId == e && ledger[i].payload == text;
    assert longer[i] == ledger[i];
  }

  /** Every key has its row, with the text it was first committed with. */
  predicate FirstsWritten(keys: map<string, string>, first: map<string, string>, ledger: seq<Row>) {
    keys.Keys == first.Keys && forall k :: k in keys ==> HasRow(ledger, keys[k], first[k])
  }

  lemma {:induction false} FirstsAreWritten(c: Codec, keys: map<string, string>, first: map<string, string>,
                                           ledger: seq<Row>, items: seq<Item>)
    requires AllEncodable(c, items) && FirstsWritten(keys, first, ledger)
    ensures FirstsWritten(KeysAfter(keys, items), Firsts(c, first, items), Written(c, ledger, items))
  {
    if items != [] {
      var init, it := items[..|items| - 1], items[|items| - 1];
      FirstsAreWritten(c, keys, first, ledger, init);
      var before, l := Written(c, ledger, init), Written(c, ledger, items);
      assert l[|before|].eventId == it.eventId && l[|before|].payload == c.dumps(it.payload).value;
      forall k | k in KeysAfter(keys, init)
        ensures HasRow(l, KeysAfter(keys, init)[k], Firsts(c, first, init)[k])
      {
        HasRowExtends(before, l, KeysAfter(keys, init)[k], Firsts(c, first, init)[k]);
      }
    }
  }

  /** Returned acknowledgements agree with the idempotency table, and only the first for a key is fresh. */
  predicate AcksFit(acks: seq<Ack>, keys: map<string, string>) {
    && (forall i :: 0 <= i < |acks| ==>
          acks[i].idempotencyKey in keys && keys[acks[i].idempotencyKey] == acks[i].eventId && acks[i].acknowledged)
    && (forall i, j :: 0 <= i < j < |acks| && acks[i].idempotencyKey == acks[j].idempotencyKey ==> acks[j].duplicate)
  }

  lemma AcksFitAfterBatch(c: Codec, s: Store, items: seq<Item>, acks: seq<Ack>)
    requires AckAll(c, s, items).Done? && AcksFit(acks, s.keys)
    ensures AcksFit(acks + AckAll(c, s, items).acks, AckAll(c, s, items).store.keys)
    ensures AcksFit(acks, AckAll(c, s, items).store.keys)
  {
    var t, more := AckAll(c, s, items).store, AckAll(c, s, items).acks;
    BatchAnswers(c, s, items);
    var all := acks + more;
    forall i | 0 <= i < |all|
      ensures all[i].idempotencyKey in t.keys && t.keys[all[i].idempotencyKey] == all[i].eventId && all[i].acknowledged
    {
      assert i >= |acks| ==> AnswerFits(s, t, items, i - |acks|, all[i]);
    }
    forall i, j | 0 <= i < j < |all| && all[i].idempotencyKey == all[j].idempotencyKey ensures all[j].duplicate {
      if j >= |acks| {
        var n := j - |acks|;
        assert AnswerFits(s, t, items, n, all[j]);
        if i >= |acks| {
          assert AnswerFits(s, t, items, i - |acks|, all[i]);
          assert items[i - |acks|] in items[..n];
        }
      }
    }
  }

  predicate OncePerKey(r: Run) {
    AcksFit(r.acks, r.store.keys) && FirstsWritten(r.store.keys, r.first, r.store.ledger) && DistinctRows(r.store.ledger)
  }

  lemma FirstsStayWritten(keys: map<string, string>, first: map<string, string>, ledger: seq<Row>, longer: seq<Row>)
    requires FirstsWritten(keys, first, ledger) && ledger <= longer
    ensures FirstsWritten(keys, first, longer)
  {
    forall k | k in keys ensures HasRow(longer, keys[k], first[k]) {
      HasRowExtends(ledger, longer, keys[k], first[k]);
    }
  }

  lemma OncePerKeyAfterBatch(c: Codec, r: Run, items: seq<Item>, answered: bool)
    requires Consistent(c, r.store) && OncePerKey(r) && AckAll(c, r.store, items).Done?
    ensures OncePerKey(Committed(c, r, Acknowledge(items), answered))
  {
    AckAllKeeps(c, r.store, items);
    AcksFitAfterBatch(c, r.store, items, r.acks);
    BatchWritesFresh(c, r.store, items);
    FirstsAreWritten(c, r.store.keys, r.first, r.store.ledger, FreshItems(r.store.keys.Keys, items));
  }

  lemma OncePerKeyAfterRecovery(c: Codec, r: Run, answered: bool)
    requires Consistent(c, r.store) && OncePerKey(r) && Recover(c, r.store).Recovered?
    ensures OncePerKey(Committed(c, r, RecoverUncommitted, answered))
  {
    RecoverExactly(c, r.store);
    ReplayedExtends(c, r.store.ledger, r.store.pending);
    var l := Recover(c, r.store).store.ledger;
    assert l[..|r.store.ledger|] == r.store.ledger;
    FirstsStayWritten(r.store.keys, r.first, r.store.ledger, l);
  }

  /** Over every run: all answers for a key name the event id the key has in the table, only the first
    * can be fresh, and that id has exactly one ledger row, with the text first committed for the key.
    */
  lemma {:induction false} ExactlyOnce(c: Codec, events: seq<Event>)
    requires Sound(c)
    ensures OncePerKey(Play(c, events))
  {
    if events != [] {
      var init, ev := events[..|events| - 1], events[|events| - 1];
      ExactlyOnce(c, init);
      EveryStateConsistent(c, init);
      var r := Play(c, init);
      if ev.fate != LostBeforeCommit && Commit(c, r.store, r.nextId, ev.call).Some? {
        match ev.call
        case Stage(_, _) =>
        case Acknowledge(items) => OncePerKeyAfterBatch(c, r, items, ev.fate == Answered);
        case RecoverUncommitted => OncePerKeyAfterRecovery(c, r, ev.fate == Answered);
      }
    }
  }

  lemma {:induction false} FreshAnswerItem(known: set<string>, items: seq<Item>, i: nat)
    requires i < |items| && items[i].idempotencyKey !in known && items[i].idempotencyKey !in ItemKeys(items[..i])
    ensures items[i] in FreshItems(known, items)
  {
    if i < |items| - 1 {
      assert items[..|items| - 1][..i] == items[..i];
      FreshAnswerItem(known, items[..|items| - 1], i);
    }
  }

  lemma {:induction false} FirstsOfItem(c: Codec, known: set<string>, m: map<string, string>, items: seq<Item>, it: Item)
    requires AllEncodable(c, FreshItems(known, items)) && it in FreshItems(known, items)
    ensures it.idempotencyKey in Firsts(c, m, FreshItems(known, items))
    ensures Some(Firsts(c, m, FreshItems(known, items))[it.idempotencyKey]) == c.dumps(it.payload)
  {
    var init, last := items[..|items| - 1], items[|items| - 1];
    var before := FreshItems(known, init);
    if last.idempotencyKey in known || last.idempotencyKey in ItemKeys(init) {
      assert FreshItems(known, items) == before;
      FirstsOfItem(c, known, m, init, it);
    } else {
      assert (before + [last])[..|before|] == before;
      assert forall x :: x in before ==> x in before + [last];
      if it in before {
        FirstsOfItem(c, known, m, init, it);
        FreshItemsAreFresh(known, init, it);
      }
    }
  }

  /** A fresh answer means that the item's own payload is the one its key was first committed with. */
  lemma FreshAnswerIsFirst(c: Codec, r: Run, items: seq<Item>, i: nat)
    requires AckAll(c, r.store, items).Done? && i < |AckAll(c, r.store, items).acks|
    requires !AckAll(c, r.store, items).acks[i].duplicate
    ensures |AckAll(c, r.store, items).acks| == |items|
    ensures var q := Committed(c, r, Acknowledge(items), true);
            items[i].idempotencyKey in q.first && Some(q.first[items[i].idempotencyKey]) == c.dumps(items[i].payload)
  {
    BatchAnswers(c, r.store, items);
    BatchWritesFresh(c, r.store, items);
    assert AnswerFits(r.store, AckAll(c, r.store, items).store, items, i, AckAll(c, r.store, items).acks[i]);
    FreshAnswerItem(r.store.keys.Keys, items, i);
    FirstsOfItem(c, r.store.keys.Keys, r.first, items, items[i]);
  }

  /** Nothing a run has committed or answered is ever taken back, whatever follows: the ledger only
    * grows at its end, and answers, keys and first texts stay.
    */
  lemma {:induction false} CommittedStays(c: Codec, events: seq<Event>, more: seq<Event>)
    requires Sound(c)
    ensures Later(Play(c, events), Play(c, events + more))
  {
    if more == [] {
      assert events + more == events;
    } else {
      var init, ev := more[..|more| - 1], more[|more| - 1];
      assert (events + more)[..|events + more| - 1] == events + init;
      CommittedStays(c, events, init);
      var r := Play(c, events + init);
      EveryStateConsistent(c, events + init);
      ExactlyOnce(c, events + init);
      if ev.fate != LostBeforeCommit && Commit(c, r.store, r.nextId, ev.call).Some? {
        CommittedIsLater(c, r, ev.call, ev.fate == Answered);
      }
    }
  }

  // ------------------------------------------------------------------ conservation

  /** The ledger is what was acknowledged and what was recovered, without overlap. */
  predicate Accounted(s: Store, replayed: nat, ids: set<string>) {
    && |s.ledger| == |s.keys| + replayed
    && LedgerIds(s.ledger) == s.keys.Values + ids
    && s.keys.Values !! ids
  }

  lemma {:induction false} BatchAccounts(c: Codec, s: Store, items: seq<Item>, replayed: nat, ids: set<string>)
    requires AckAll(c, s, items).Done? && Accounted(s, replayed, ids)
    ensures Accounted(AckAll(c, s, items).store, replayed, ids)
  {
    if items != [] {
      var last := items[|items| - 1];
      AckAllStep(c, s, items);
      BatchAccounts(c, s, items[..|items| - 1], replayed, ids);
      var t := AckAll(c, s, items[..|items| - 1]).store;
      if last.idempotencyKey !in t.keys {
        FreshAck(c, t, last);
        FreshAccounts(t, AckOne(c, t, last).value.store, last,
                      NextRow(c.hash, Head(t.ledger), last.eventId, c.dumps(last.payload).value), replayed, ids);
      }
    }
  }

  lemma ValuesInsert(m: map<string, string>, k: string, v: string)
    requires k !in m
    ensures m[k := v].Values == m.Values + {v} && |m[k := v]| == |m| + 1
  {
    var n := m[k := v];
    assert n[k] == v;
    forall e | e in m.Values ensures e in n.Values {
      var l :| l in m && m[l] == e;
      assert n[l] == e;
    }
    assert n.Keys == m.Keys + {k};
  }

  lemma LedgerIdsSnoc(ledger: seq<Row>, row: Row)
    ensures LedgerIds(ledger + [row]) == LedgerIds(ledger) + {row.eventId}
    ensures |ledger + [row]| == |ledger| + 1
  {
    assert forall r :: r in ledger + [row] <==> r in ledger || r == row;
  }

  lemma SplitInsert(values: set<string>, ids: set<string>, before: set<string>, e: string)
    requires before == values + ids && values !! ids && e !in before
    ensures before + {e} == values + {e} + ids && values + {e} !! ids
  {
  }

  lemma FreshAccounts(s: Store, t: Store, it: Item, row: Row, replayed: nat, ids: set<string>)
    requires Accounted(s, replayed, ids) && it.idempotencyKey !in s.keys && it.eventId !in LedgerIds(s.ledger)
    requires t.keys == s.keys[it.idempotencyKey := it.eventId]
    requires row.eventId == it.eventId && t.ledger == s.ledger + [row]
    ensures Accounted(t, replayed, ids)
  {
    LedgerIdsSnoc(s.ledger, row);
    ValuesInsert(s.keys, it.idempotencyKey, it.eventId);
    SplitInsert(s.keys.Values, ids, LedgerIds(s.ledger), it.eventId);
  }

  lemma SplitGrows(values: set<string>, ids: set<string>, before: set<string>, after: set<string>)
    requires before == values + ids && values !! ids && before <= after
    ensures after == values + (ids + (after - before)) && values !! ids + (after - before)
  {
  }

  lemma LedgerIdsGrow(ledger: seq<Row>, longer: seq<Row>)
    requires ledger <= longer
    ensures LedgerIds(ledger) <= LedgerIds(longer)
  {
    forall r | r in ledger ensures r in longer {
      var i :| 0 <= i < |ledger| && ledger[i] == r;
      assert longer[i] == r;
    }
  }

  lemma GrownAccounts(s: Store, t: Store, n: nat, replayed: nat, ids: set<string>)
    requires Accounted(s, replayed, ids)
    requires t.keys == s.keys && s.ledger <= t.ledger && |t.ledger| == |s.ledger| + n
    ensures Accounted(t, replayed + n, ids + (LedgerIds(t.ledger) - LedgerIds(s.ledger)))
  {
    LedgerIdsGrow(s.ledger, t.ledger);
    SplitGrows(s.keys.Values, ids, LedgerIds(s.ledger), LedgerIds(t.ledger));
  }

  lemma RecoveryAccounts(c: Codec, s: Store, replayed: nat, ids: set<string>)
    requires Consistent(c, s) && Accounted(s, replayed, ids)
    ensures var r := Recover(c, s);
            && r.Recovered?
            && Accounted(r.store, replayed + r.count, ids + (LedgerIds(r.store.ledger) - LedgerIds(s.ledger)))
  {
    RecoverExactly(c, s);
    ReplayedExtends(c, s.ledger, s.pending);
    var t := Recover(c, s).store;
    assert t.ledger[..|s.ledger|] == s.ledger;
    GrownAccounts(s, t, |s.pending|, replayed, ids);
  }

  predicate RunAccounts(r: Run) { Accounted(r.store, r.replayed, r.replayedIds) }

  lemma StagedAccounts(c: Codec, r: Run, call: Call, answered: bool)
    requires call.Stage? && RunAccounts(r) && Commit(c, r.store, r.nextId, call).Some?
    ensures RunAccounts(Committed(c, r, call, answered))
  {
    var q := Committed(c, r, call, answered);
    assert q.store.keys == r.store.keys && q.store.ledger == r.store.ledger;
  }

  lemma BatchReplaysNothing(c: Codec, r: Run, call: Call, answered: bool)
    requires call.Acknowledge? && Commit(c, r.store, r.nextId, call).Some?
    ensures var q := Committed(c, r, call, answered);
            && q.store == AckAll(c, r.store, call.items).store
            && q.replayed == r.replayed && q.replayedIds == r.replayedIds
  {
  }

  lemma CommittedAccounts(c: Codec, r: Run, call: Call, answered: bool)
    requires Consistent(c, r.store) && RunAccounts(r) && Commit(c, r.store, r.nextId, call).Some?
    ensures RunAccounts(Committed(c, r, call, answered))
  {
    match call
    case Stage(_, _) => StagedAccounts(c, r, call, answered);
    case Acknowledge(items) =>
      BatchAccounts(c, r.store, items, r.replayed, r.replayedIds);
      BatchReplaysNothing(c, r, call, answered);
    case RecoverUncommitted => RecoveryAccounts(c, r.store, r.replayed, r.replayedIds);
  }

  lemma ConservationStep(c: Codec, r: Run, ev: Event)
    requires Consistent(c, r.store) && RunAccounts(r)
    ensures RunAccounts(Next(c, r, ev))
  {
    if ev.fate != LostBeforeCommit && Commit(c, r.store, r.nextId, ev.call).Some? {
      CommittedAccounts(c, r, ev.call, ev.fate == Answered);
    }
  }

  /** Over every run the ledger's length is the number of idempotency rows plus everything committed
    * recoveries returned, and the two sets of event ids are disjoint.
    */
  lemma {:induction false} Conservation(c: Codec, events: seq<Event>)
    requires Sound(c)
    ensures RunAccounts(Play(c, events))
  {
    if events != [] {
      Conservation(c, events[..|events| - 1]);
      EveryStateConsistent(c, events[..|events| - 1]);
      ConservationStep(c, Play(c, events[..|events| - 1]), events[|events| - 1]);
    }
  }
}
