/** The serial order of module PostgresRuns respects real time and the order of the lock. */
module PostgresOrder {
  import opened Wrappers
  import opened Vault
  import opened Codecs
  import opened Postgres
  import opened SerialLog
  import opened PostgresInvariant
  import opened PostgresBatch
  import opened PostgresRecovery
  import opened PostgresSteps
  import opened PostgresRuns

  // ------------------------------------------------------------------ real time

  /** No entry stands before one that had ended when it began. */
  predicate InTime(log: seq<Entry>) {
    log == [] || (InTime(log[..|log| - 1]) && BeganBy(log[..|log| - 1], log[|log| - 1].ended))
  }

  predicate BeganBy(log: seq<Entry>, time: nat) { forall y :: y in log ==> y.began <= time }

  predicate EndedFrom(log: seq<Entry>, time: nat) { forall y :: y in log ==> time <= y.ended }

  predicate Across(log: seq<Entry>, more: seq<Entry>) { forall y, z :: y in log && z in more ==> y.began <= z.ended }

  lemma InTimeSnoc(log: seq<Entry>, x: Entry)
    ensures InTime(log + [x]) <==> InTime(log) && BeganBy(log, x.ended)
  {
    assert (log + [x])[..|log|] == log;
  }

  lemma {:induction false} InTimeConcat(log: seq<Entry>, more: seq<Entry>)
    ensures InTime(log + more) <==> InTime(log) && InTime(more) && Across(log, more)
  {
    if more == [] {
      assert log + more == log;
    } else {
      var init, x := more[..|more| - 1], more[|more| - 1];
      InTimeConcat(log, init);
      InTimeSnoc(log + init, x);
      assert log + more == log + init + [x];
      assert forall y :: y in more <==> y in init || y == x;
      assert BeganBy(log + init, x.ended) <==> BeganBy(log, x.ended) && BeganBy(init, x.ended) by {
        assert forall y :: y in log + init <==> y in log || y in init;
      }
    }
  }

  /** The pairs, read off: of two transactions the one that ended before the other began stands first. */
  lemma {:induction false} InTimePairs(log: seq<Entry>, i: nat, j: nat)
    requires InTime(log) && i < j < |log|
    ensures log[i].began <= log[j].ended
  {
    var init := log[..|log| - 1];
    if j < |init| {
      InTimePairs(init, i, j);
    } else {
      assert init[i] in init;
    }
  }

  lemma {:induction false} InsertStampElements(log: seq<Entry>, x: Entry)
    ensures multiset(InsertStamp(log, x)) == multiset(log) + multiset{x}
    ensures forall y :: y in InsertStamp(log, x) <==> y in log || y == x
  {
    if log != [] && !(log[|log| - 1].stamp <= x.stamp) {
      InsertStampElements(log[..|log| - 1], x);
      assert log == log[..|log| - 1] + [log[|log| - 1]];
    }
  }

  /** Nothing with a later stamp had ended when `x` began. */
  predicate NotBefore(log: seq<Entry>, stamp: int, began: nat) {
    forall y :: y in log && stamp < y.stamp ==> began <= y.ended
  }

  lemma {:induction false} InsertStampInTime(log: seq<Entry>, x: Entry)
    requires InTime(log) && BeganBy(log, x.ended) && NotBefore(log, x.stamp, x.began)
    ensures InTime(InsertStamp(log, x))
  {
    if log == [] || log[|log| - 1].stamp <= x.stamp {
      InTimeSnoc(log, x);
    } else {
      var init, last := log[..|log| - 1], log[|log| - 1];
      InsertStampInTime(init, x);
      InsertStampElements(init, x);
      InTimeSnoc(InsertStamp(init, x), last);
    }
  }

  // ------------------------------------------------------------------ the order of the lock

  /** The transactions that took the advisory lock. */
  function LockOrder(log: seq<Entry>): seq<Entry> {
    if log == [] then []
    else if log[|log| - 1].call.Stage? then LockOrder(log[..|log| - 1])
    else LockOrder(log[..|log| - 1]) + [log[|log| - 1]]
  }

  lemma LockOrderSnoc(log: seq<Entry>, x: Entry)
    ensures LockOrder(log + [x]) == if x.call.Stage? then LockOrder(log) else LockOrder(log) + [x]
  {
    assert (log + [x])[..|log|] == log;
  }

  lemma {:induction false} LockOrderConcat(log: seq<Entry>, more: seq<Entry>)
    ensures LockOrder(log + more) == LockOrder(log) + LockOrder(more)
  {
    if more == [] {
      assert log + more == log;
    } else {
      LockOrderConcat(log, more[..|more| - 1]);
      LockOrderSnoc(log + more[..|more| - 1], more[|more| - 1]);
      assert log + more == log + more[..|more| - 1] + [more[|more| - 1]];
    }
  }

  lemma {:induction false} LockOrderInsert(log: seq<Entry>, x: Entry)
    requires x.call.Stage?
    ensures LockOrder(InsertStamp(log, x)) == LockOrder(log)
  {
    if log == [] || log[|log| - 1].stamp <= x.stamp {
      LockOrderSnoc(log, x);
    } else {
      LockOrderInsert(log[..|log| - 1], x);
      LockOrderSnoc(InsertStamp(log[..|log| - 1], x), log[|log| - 1]);
    }
  }

  // ------------------------------------------------------------------ the invariant

  /** `log` is `done` in another order: one that respects real time and the order of the lock. */
  predicate Reorders(log: seq<Entry>, done: seq<Entry>) {
    multiset(log) == multiset(done) && LockOrder(log) == LockOrder(done) && InTime(log)
  }

  predicate Clocked(s: System, h: History) {
    && (forall y :: y in h.done ==> y.began <= y.ended < h.now && y.stamp < 2 * s.nextWal)
    && (forall t :: t in s.txns ==> t in h.began && h.began[t] <= h.now)
    && (forall t :: t in s.txns && s.txns[t].job.StageJob? && s.txns[t].job.drawn.Some? ==>
          NotBefore(h.done, 2 * s.txns[t].job.drawn.value, h.began[t]))
  }

  /** A recovery has selected its rows. */
  predicate HasSelected(s: System) {
    s.lock.Some? && s.lock.value in s.txns && s.txns[s.lock.value].job.RecoverJob? && !Selects(s.txns[s.lock.value].job)
  }

  predicate SplitOrder(s: System, h: History) {
    HasSelected(s) ==>
      && Reorders(h.logs.closed + h.logs.seen + h.logs.late, h.done)
      && LockOrder(h.logs.late) == []
      && (s.lock.value in h.began ==> EndedFrom(h.logs.late, h.began[s.lock.value]))
  }

  predicate Ordered(s: System, h: History) {
    match h
    case History(logs, done, _, _) => Clocked(s, h) && Reorders(logs.closed + logs.open, done) && SplitOrder(s, h)
  }

  lemma ReordersElements(log: seq<Entry>, done: seq<Entry>)
    requires Reorders(log, done)
    ensures forall y :: y in log <==> y in done
  {
    assert forall y :: y in log <==> y in multiset(log);
    assert forall y :: y in done <==> y in multiset(done);
  }

  /** A staging put in by its stamp, or anything put in at the end. */
  lemma ReordersInsert(before: seq<Entry>, log: seq<Entry>, done: seq<Entry>, x: Entry)
    requires Reorders(before + log, done)
    requires BeganBy(done, x.ended) && NotBefore(done, x.stamp, x.began)
    requires x.call.Stage? || InsertStamp(log, x) == log + [x]
    ensures Reorders(before + InsertStamp(log, x), done + [x])
  {
    ReordersElements(before + log, done);
    InTimeConcat(before, log);
    InTimeConcat(before, InsertStamp(log, x));
    InsertStampElements(log, x);
    InsertStampInTime(log, x);
    LockOrderSnoc(done, x);
    LockOrderConcat(before, log);
    LockOrderConcat(before, InsertStamp(log, x));
    if x.call.Stage? {
      LockOrderInsert(log, x);
    } else {
      LockOrderSnoc(log, x);
    }
  }

  /** A recovery put in between what it saw and what came later. */
  lemma ReordersRecovery(before: seq<Entry>, late: seq<Entry>, done: seq<Entry>, x: Entry)
    requires Reorders(before + late, done) && LockOrder(late) == [] && !x.call.Stage?
    requires BeganBy(done, x.ended) && EndedFrom(late, x.began)
    ensures Reorders(before + [x] + late, done + [x])
  {
    ReordersElements(before + late, done);
    InTimeConcat(before, late);
    InTimeSnoc(before, x);
    InTimeConcat(before + [x], late);
    LockOrderConcat(before, late);
    LockOrderSnoc(before, x);
    LockOrderConcat(before + [x], late);
    LockOrderSnoc(done, x);
  }

  // ------------------------------------------------------------------ steps

  /** What a step that ends nothing may do, as far as order is concerned. */
  predicate Quiet(s: System, n: System) {
    && s.nextWal <= n.nextWal
    && n.txns.Keys <= s.txns.Keys
    && (forall t :: t in n.txns && n.txns[t].job.StageJob? && n.txns[t].job.drawn.Some? ==>
          (s.txns[t].job.StageJob? && s.txns[t].job.drawn == n.txns[t].job.drawn) || n.txns[t].job.drawn.value >= s.nextWal)
    && (HasSelected(n) ==> HasSelected(s) && n.lock == s.lock)
  }

  lemma QuietKeeps(s: System, h: History, n: System, later: nat)
    requires Ordered(s, h) && Quiet(s, n) && h.now <= later
    ensures Ordered(n, h.(now := later))
  {
    forall t | t in n.txns && n.txns[t].job.StageJob? && n.txns[t].job.drawn.Some?
      ensures NotBefore(h.done, 2 * n.txns[t].job.drawn.value, h.began[t])
    {
    }
  }

  lemma StageMovesQuietly(c: Codec, s: System, t: Tid)
    requires t in s.txns && s.txns[t].job.StageJob? && StepOf(c, s, t).Moves?
    ensures Quiet(s, StepOf(c, s, t).next)
  {
  }

  /** The job of `t` goes on, and the lock is taken by it or stays where it is. */
  predicate GoesOn(s: System, t: Tid, n: System)
    requires t in s.txns
  {
    && t in n.txns && n.txns == s.txns[t := n.txns[t]]
    && s.nextWal <= n.nextWal
    && !n.txns[t].job.StageJob?
    && (n.txns[t].job.RecoverJob? ==> s.txns[t].job.RecoverJob?)
    && (n.lock == s.lock || Selects(n.txns[t].job) || n.txns[t].job.BatchJob?)
  }

  lemma GoesOnQuietly(s: System, t: Tid, n: System)
    requires t in s.txns && GoesOn(s, t, n) && !Selects(s.txns[t].job)
    requires n.lock != s.lock ==> n.lock == Some(t)
    ensures Quiet(s, n)
  {
  }

  lemma ItemGoesOn(c: Codec, s: System, t: Tid, item: Item)
    requires t in s.txns && s.txns[t].job.BatchJob? && ItemStep(c, s, t, item).Moves?
    ensures GoesOn(s, t, ItemStep(c, s, t, item).next) && ItemStep(c, s, t, item).next.lock == s.lock
  {
  }

  lemma BatchGoesOn(c: Codec, s: System, t: Tid)
    requires t in s.txns && s.txns[t].job.BatchJob? && BatchStep(c, s, t).Moves?
    ensures var n := BatchStep(c, s, t).next; GoesOn(s, t, n) && (n.lock != s.lock ==> n.lock == Some(t))
  {
    var job := s.txns[t].job;
    if job.i < |job.items| && !job.bphase.Locking? && !job.bphase.Prefetching? && !job.bphase.Deciding? {
      ItemGoesOn(c, s, t, job.items[job.i]);
    }
  }

  lemma RowGoesOn(c: Codec, s: System, t: Tid, r: Staged)
    requires t in s.txns && s.txns[t].job.RecoverJob? && RowStep(c, s, t, r).Moves?
    ensures GoesOn(s, t, RowStep(c, s, t, r).next) && RowStep(c, s, t, r).next.lock == s.lock
  {
  }

  lemma RecoveryGoesOn(c: Codec, s: System, t: Tid)
    requires t in s.txns && s.txns[t].job.RecoverJob? && RecoverStep(c, s, t).Moves?
    ensures var n := RecoverStep(c, s, t).next; GoesOn(s, t, n) && (n.lock != s.lock ==> n.lock == Some(t))
  {
    var job := s.txns[t].job;
    if job.j < |job.rows| && !job.rphase.Locking? && !job.rphase.Selecting? {
      RowGoesOn(c, s, t, job.rows[job.j]);
    }
  }

  lemma MovesQuietly(c: Codec, s: System, t: Tid)
    requires t in s.txns && StepOf(c, s, t).Moves? && !Selects(s.txns[t].job)
    ensures Quiet(s, StepOf(c, s, t).next)
  {
    match s.txns[t].job
    case StageJob(_, _, _, _) => StageMovesQuietly(c, s, t);
    case BatchJob(_, _, _, _, _) =>
      BatchGoesOn(c, s, t);
      GoesOnQuietly(s, t, StepOf(c, s, t).next);
    case RecoverJob(_, _, _, _) =>
      RecoveryGoesOn(c, s, t);
      GoesOnQuietly(s, t, StepOf(c, s, t).next);
  }

  lemma BeginOrder(c: Codec, s: System, h: History, t: Tid, job: Job)
    requires Ordered(s, h) && t !in s.txns && (job.StageJob? ==> job.drawn.None?)
    requires s.lock.Some? ==> s.lock.value in s.txns
    ensures Ordered(With(s, t, Txn(job, NOTHING)), h.(began := h.began[t := h.now], now := h.now + 1))
  {
    var n, g := With(s, t, Txn(job, NOTHING)), h.(began := h.began[t := h.now], now := h.now + 1);
    forall u | u in n.txns && n.txns[u].job.StageJob? && n.txns[u].job.drawn.Some?
      ensures NotBefore(g.done, 2 * n.txns[u].job.drawn.value, g.began[u])
    {
      assert u != t;
    }
  }

  lemma SelectOrder(s: System, h: History, n: System)
    requires Ordered(s, h) && s.lock.Some? && n == s.(txns := n.txns) && n.txns.Keys == s.txns.Keys
    requires s.lock.value in n.txns && n.txns[s.lock.value].job.RecoverJob?
    requires forall t :: t in n.txns && n.txns[t].job.StageJob? ==> n.txns[t] == s.txns[t]
    ensures Ordered(n, h.(logs := Split(h.logs), now := h.now + 1))
  {
    assert h.logs.closed + h.logs.open + [] == h.logs.closed + h.logs.open;
  }

  lemma ClockedAfter(s: System, h: History, t: Tid, reply: Reply)
    requires Clocked(s, h) && t in s.txns && StampOf(s, s.txns[t]) < 2 * s.nextWal
    ensures Clocked(Committed(s, t), Finished(h, s, t, reply).(now := h.now + 1))
  {
    var n, g := Committed(s, t), Finished(h, s, t, reply);
    forall u | u in n.txns && n.txns[u].job.StageJob? && n.txns[u].job.drawn.Some?
      ensures NotBefore(g.done, 2 * n.txns[u].job.drawn.value, g.began[u])
    {
      assert NotBefore(h.done, 2 * n.txns[u].job.drawn.value, h.began[u]);
    }
  }

  lemma StageOrder(c: Codec, s: System, h: History, t: Tid)
    requires Ordered(s, h) && t in s.txns && s.lock != Some(t) && WaiterFits(c, s.db, s.nextWal, s.txns[t])
    requires s.txns[t].job.StageJob? && s.txns[t].job.inserted
    ensures Ordered(Committed(s, t), Finished(h, s, t, StageReply).(now := h.now + 1))
  {
    var x := EntryOf(s, t, StageReply, BeganAt(h, t), h.now);
    assert x.stamp < 2 * s.nextWal && NotBefore(h.done, x.stamp, x.began);
    ClockedAfter(s, h, t, StageReply);
    ReordersInsert(h.logs.closed, h.logs.open, h.done, x);
    var n := Committed(s, t);
    if HasSelected(n) {
      assert HasSelected(s) && n.lock == s.lock;
      ReordersInsert(h.logs.closed + h.logs.seen, h.logs.late, h.done, x);
      LockOrderInsert(h.logs.late, x);
      InsertStampElements(h.logs.late, x);
    }
  }

  lemma BatchOrder(s: System, h: History, t: Tid, reply: Reply)
    requires Ordered(s, h) && t in s.txns && s.lock == Some(t) && s.txns[t].job.BatchJob?
    requires LastBefore(h.logs.open, s.nextWal)
    ensures Ordered(Committed(s, t), Finished(h, s, t, reply).(now := h.now + 1))
  {
    var x := EntryOf(s, t, reply, BeganAt(h, t), h.now);
    assert InsertStamp(h.logs.open, x) == h.logs.open + [x];
    ClockedAfter(s, h, t, reply);
    ReordersInsert(h.logs.closed, h.logs.open, h.done, x);
  }

  lemma RecoveryOrder(s: System, h: History, t: Tid, reply: Reply)
    requires Ordered(s, h) && t in s.txns && s.lock == Some(t) && HasSelected(s)
    ensures Ordered(Committed(s, t), Finished(h, s, t, reply).(now := h.now + 1))
  {
    var x := EntryOf(s, t, reply, BeganAt(h, t), h.now);
    ClockedAfter(s, h, t, reply);
    ReordersRecovery(h.logs.closed + h.logs.seen, h.logs.late, h.done, x);
  }

  lemma GoneOrder(s: System, h: History, t: Tid, nextSeq: nat)
    requires Ordered(s, h)
    ensures Ordered(Gone(s, t).(nextSeq := nextSeq), h.(now := h.now + 1))
  {
    QuietKeeps(s, h, Gone(s, t).(nextSeq := nextSeq), h.now + 1);
  }

  lemma HolderCommitOrder(c: Codec, s: System, h: History, t: Tid)
    requires Inv(c, s, h.logs) && Ordered(s, h) && s.lock == Some(t) && StepOf(c, s, t).Commits?
    ensures Ordered(StepOf(c, s, t).after, Finished(h, s, t, StepOf(c, s, t).reply).(now := h.now + 1))
  {
    if s.txns[t].job.BatchJob? {
      BatchStepFits(c, s, t);
      BatchOrder(s, h, t, StepOf(c, s, t).reply);
    } else {
      RecoveryStepFits(c, s, t);
      RecoveryOrder(s, h, t, StepOf(c, s, t).reply);
    }
  }

  lemma CommitOrder(c: Codec, s: System, h: History, t: Tid)
    requires Inv(c, s, h.logs) && Ordered(s, h) && t in s.txns && StepOf(c, s, t).Commits?
    ensures Ordered(StepOf(c, s, t).after, Finished(h, s, t, StepOf(c, s, t).reply).(now := h.now + 1))
  {
    if s.lock != Some(t) {
      assert WaiterFits(c, s.db, s.nextWal, s.txns[t]);
      StageOrder(c, s, h, t);
    } else {
      HolderCommitOrder(c, s, h, t);
    }
  }

  lemma FailOrder(c: Codec, s: System, h: History, t: Tid)
    requires Inv(c, s, h.logs) && Ordered(s, h) && t in s.txns && StepOf(c, s, t).Fails?
    ensures Ordered(StepOf(c, s, t).without, h.(now := h.now + 1))
  {
    FailsAsSpecified(c, s, h.logs, t);
    GoneOrder(s, h, t, StepOf(c, s, t).without.nextSeq);
  }

  lemma RunOrder(c: Codec, s: System, h: History, t: Tid)
    requires Inv(c, s, h.logs) && Ordered(s, h) && t in s.txns && !StepOf(c, s, t).Waits?
    ensures match StepOf(c, s, t)
            case Moves(n) => Ordered(n, (if Selects(s.txns[t].job) then h.(logs := Split(h.logs)) else h).(now := h.now + 1))
            case Commits(n, reply) => Ordered(n, Finished(h, s, t, reply).(now := h.now + 1))
            case Fails(n) => Ordered(n, h.(now := h.now + 1))
  {
    if StepOf(c, s, t).Commits? {
      CommitOrder(c, s, h, t);
    } else if StepOf(c, s, t).Fails? {
      FailOrder(c, s, h, t);
    } else if Selects(s.txns[t].job) {
      assert s.lock == Some(t);
      SelectOrder(s, h, StepOf(c, s, t).next);
    } else {
      MovesQuietly(c, s, t);
      QuietKeeps(s, h, StepOf(c, s, t).next, h.now + 1);
    }
  }

  lemma RunKeepsOrder(c: Codec, s: System, h: History, t: Tid)
    requires Inv(c, s, h.logs) && Ordered(s, h)
    ensures Ordered(Act(c, s, Run(t)), Noted(c, s, h, Run(t)).(now := h.now + 1))
  {
    if t !in s.txns || StepOf(c, s, t).Waits? {
      QuietKeeps(s, h, s, h.now + 1);
    } else {
      RunOrder(c, s, h, t);
    }
  }

  lemma BeginKeepsOrder(c: Codec, s: System, h: History, t: Tid, req: Request)
    requires Inv(c, s, h.logs) && Ordered(s, h)
    ensures Ordered(Act(c, s, Begin(t, req)), Noted(c, s, h, Begin(t, req)).(now := h.now + 1))
  {
    if t in s.txns || Opened(c, req).None? {
      QuietKeeps(s, h, s, h.now + 1);
    } else {
      BeginOrder(c, s, h, t, Opened(c, req).value);
    }
  }

  lemma OrderKeeps(c: Codec, s: System, h: History, a: Action)
    requires Inv(c, s, h.logs) && Ordered(s, h)
    ensures Ordered(Act(c, s, a), Noted(c, s, h, a).(now := h.now + 1))
  {
    match a
    case Begin(t, req) => BeginKeepsOrder(c, s, h, t, req);
    case Lose(t) => GoneOrder(s, h, t, s.nextSeq);
    case Run(t) => RunKeepsOrder(c, s, h, t);
  }

  // ------------------------------------------------------------------ the theorems

  lemma {:induction false} EveryStateOrdered(c: Codec, actions: seq<Action>)
    requires Sound(c)
    ensures Ordered(Play(c, actions).system, Play(c, actions).history)
  {
    if actions != [] {
      var init, a := actions[..|actions| - 1], actions[|actions| - 1];
      EveryStateOrdered(c, init);
      EveryStateFits(c, init);
      OrderKeeps(c, Play(c, init).system, Play(c, init).history, a);
    }
  }

  function SerialOrder(w: World): seq<Entry> { w.history.logs.closed + w.history.logs.open }

  /** Strict serializability. After any actions there is an order of the finished transactions such that
    * running them alone, one after the other, gives every answer that was given and the committed tables.
    * The order keeps that of the advisory lock, and no transaction comes before one that had ended when it
    * began.
    */
  lemma Serializable(c: Codec, actions: seq<Action>)
    requires Sound(c)
    ensures var w := Play(c, actions);
            && Serial(c, EMPTY, SerialOrder(w)) == Some(Tables(w.system.db))
            && Reorders(SerialOrder(w), w.history.done)
  {
    var w := Play(c, actions);
    EveryStateFits(c, actions);
    EveryStateOrdered(c, actions);
    SerialConcat(c, EMPTY, w.history.logs.closed, w.history.logs.open);
  }
}
