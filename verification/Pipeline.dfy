/** `IngestionPipeline`: a bounded queue, workers, and shutdown by one sentinel for each worker.
  *
  * The coroutines run one at a time and change over only where they await, so an action is what one of them
  * does between two awaits. A bound of zero or less is no bound.
  */
module Pipeline {

  datatype LineageEvent = LineageEvent(eventId: string, payload: string)

  datatype Slot = Job(event: LineageEvent) | Sentinel

  /** A worker waits for a slot, awaits the handler, has met a sentinel, or has died of its handler. */
  datatype Worker = Idle | Handling(event: LineageEvent) | Finished | Broken(event: LineageEvent)

  datatype Stage = Open | Stopping(sent: nat) | Stopped | Failed  // Failed: `stop` has raised what a handler raised

  datatype State = State(
    maxQueue: int, queue: seq<Slot>, workers: seq<Worker>, dropped: nat, stage: Stage,
    accepted: seq<LineageEvent>,  // every event that `ingest` answered true for
    taken: seq<LineageEvent>,     // those that workers have taken from the queue, in order
    handled: seq<LineageEvent>,   // those whose handler returned
    late: seq<LineageEvent>)      // those accepted after the last sentinel was put

  datatype Action = Ingest(event: LineageEvent) | Get(w: nat) | Return(w: nat) | Raise(w: nat) | Stop | PutSentinel | Gathered

  function Full(s: State): bool { s.maxQueue > 0 && |s.queue| >= s.maxQueue }

  /** A pipeline just started with `n` workers. */
  function Started(maxQueue: int, n: nat): State {
    State(maxQueue, [], seq(n, _ => Idle), 0, Open, [], [], [], [])
  }

  predicate AllDone(workers: seq<Worker>) { forall w :: 0 <= w < |workers| ==> workers[w].Finished? || workers[w].Broken? }

  predicate NoneBroken(workers: seq<Worker>) { forall w :: 0 <= w < |workers| ==> !workers[w].Broken? }

  /** `stop` has put its last sentinel. */
  predicate SentinelsOut(s: State) { s.stage == Stopping(|s.workers|) || s.stage.Stopped? || s.stage.Failed? }

  /** One action; one that cannot happen changes nothing. */
  function Act(s: State, a: Action): State {
    match a
    case Ingest(e) =>
      if Full(s) then s.(dropped := s.dropped + 1)
      else
        s.(queue := s.queue + [Job(e)], accepted := s.accepted + [e],
           late := if SentinelsOut(s) then s.late + [e] else s.late)
    case Get(w) =>
      if w >= |s.workers| || s.workers[w] != Idle || s.queue == [] then s
      else
        (match s.queue[0]
         case Sentinel => s.(queue := s.queue[1..], workers := s.workers[w := Finished])
         case Job(e) => s.(queue := s.queue[1..], workers := s.workers[w := Handling(e)], taken := s.taken + [e]))
    case Return(w) =>
      if w >= |s.workers| || !s.workers[w].Handling? then s
      else s.(workers := s.workers[w := Idle], handled := s.handled + [s.workers[w].event])
    case Raise(w) =>
      if w >= |s.workers| || !s.workers[w].Handling? then s
      else s.(workers := s.workers[w := Broken(s.workers[w].event)])
    case Stop => if s.stage.Open? then s.(stage := Stopping(0)) else s
    case PutSentinel =>
      if s.stage.Stopping? && s.stage.sent < |s.workers| && !Full(s)
      then s.(queue := s.queue + [Sentinel], stage := Stopping(s.stage.sent + 1))
      else s
    case Gathered =>
      if s.stage != Stopping(|s.workers|) then s
      else if !NoneBroken(s.workers) then s.(stage := Failed)
      else if AllDone(s.workers) then s.(stage := Stopped)
      else s
  }

  function Play(maxQueue: int, n: nat, actions: seq<Action>): State {
    if actions == [] then Started(maxQueue, n)
    else Act(Play(maxQueue, n, actions[..|actions| - 1]), actions[|actions| - 1])
  }

  // ------------------------------------------------------------------ conservation

  function Jobs(queue: seq<Slot>): seq<LineageEvent> {
    if queue == [] then []
    else if queue[0].Job? then [queue[0].event] + Jobs(queue[1..])
    else Jobs(queue[1..])
  }

  function Sentinels(queue: seq<Slot>): nat {
    if queue == [] then 0 else (if queue[0].Sentinel? then 1 else 0) + Sentinels(queue[1..])
  }

  lemma {:induction false} JobsSnoc(queue: seq<Slot>, x: Slot)
    ensures Jobs(queue + [x]) == if x.Job? then Jobs(queue) + [x.event] else Jobs(queue)
    ensures Sentinels(queue + [x]) == Sentinels(queue) + (if x.Sentinel? then 1 else 0)
  {
    if queue == [] {
      assert queue + [x] == [x] && [x][1..] == [];
    } else {
      JobsSnoc(queue[1..], x);
      assert (queue + [x])[1..] == queue[1..] + [x];
    }
  }

  function Holding(w: Worker): multiset<LineageEvent> { if w.Handling? || w.Broken? then multiset{w.event} else multiset{} }

  /** The events workers hold, handled half-way or died on. */
  function Held(workers: seq<Worker>): multiset<LineageEvent> {
    if workers == [] then multiset{} else Held(workers[..|workers| - 1]) + Holding(workers[|workers| - 1])
  }

  function IsFinished(w: Worker): nat { if w.Finished? then 1 else 0 }

  function CountFinished(workers: seq<Worker>): nat {
    if workers == [] then 0 else CountFinished(workers[..|workers| - 1]) + IsFinished(workers[|workers| - 1])
  }

  lemma Exchange(a: multiset<LineageEvent>, b: multiset<LineageEvent>,
                 x: multiset<LineageEvent>, y: multiset<LineageEvent>, more: multiset<LineageEvent>)
    requires a + x == b + y
    ensures a + more + x == b + more + y
  {
    assert a + more + x == a + x + more;
  }

  predicate Moved(workers: seq<Worker>, w: nat, to: Worker)
    requires w < |workers|
  {
    match to
    case _ => Held(workers[w := to]) + Holding(workers[w]) == Held(workers) + Holding(to)
  }

  lemma EarlierMoved(workers: seq<Worker>, w: nat, to: Worker)
    requires w < |workers| - 1 && Moved(workers[..|workers| - 1], w, to)
    ensures Moved(workers, w, to)
  {
    var n := |workers| - 1;
    assert workers[w := to][..n] == workers[..n][w := to];
    Exchange(Held(workers[..n][w := to]), Held(workers[..n]), Holding(workers[w]), Holding(to), Holding(workers[n]));
  }

  lemma LastMoved(workers: seq<Worker>, to: Worker)
    requires workers != []
    ensures Moved(workers, |workers| - 1, to)
  {
    var n := |workers| - 1;
    assert workers[n := to][..n] == workers[..n];
    Swapped(Held(workers[..n]), Holding(to), Holding(workers[n]));
  }

  lemma {:induction false} AlwaysMoved(workers: seq<Worker>, w: nat, to: Worker)
    requires w < |workers|
    ensures Moved(workers, w, to)
  {
    if w < |workers| - 1 {
      AlwaysMoved(workers[..|workers| - 1], w, to);
      EarlierMoved(workers, w, to);
    } else {
      LastMoved(workers, to);
    }
  }

  lemma HeldChanges(workers: seq<Worker>, w: nat, to: Worker)
    requires w < |workers|
    ensures Held(workers[w := to]) + Holding(workers[w]) == Held(workers) + Holding(to)
  {
    AlwaysMoved(workers, w, to);
  }

  lemma Swapped(a: multiset<LineageEvent>, x: multiset<LineageEvent>, y: multiset<LineageEvent>)
    ensures a + x + y == a + y + x
  {
  }

  lemma {:induction false} CountChanges(workers: seq<Worker>, w: nat, to: Worker)
    requires w < |workers|
    ensures CountFinished(workers[w := to]) + IsFinished(workers[w]) == CountFinished(workers) + IsFinished(to)
  {
    var n := |workers| - 1;
    if w < n {
      assert workers[w := to][..n] == workers[..n][w := to];
      CountChanges(workers[..n], w, to);
    } else {
      assert workers[w := to][..n] == workers[..n];
    }
  }

  /** Nothing is lost or doubled on the way. */
  predicate Owned(s: State) {
    match s
    case State(_, _, workers, _, _, _, taken, handled, _) => multiset(taken) == multiset(handled) + Held(workers)
  }

  /** The queue keeps its bound and its order, and there is a sentinel for each worker. */
  predicate Flowing(s: State) {
    && s.accepted == s.taken + Jobs(s.queue)
    && (s.maxQueue > 0 ==> |s.queue| <= s.maxQueue)
    && Sentinels(s.queue) + CountFinished(s.workers) ==
       (match s.stage case Open => 0 case Stopping(sent) => sent case _ => |s.workers|)
    && (s.stage.Stopping? ==> s.stage.sent <= |s.workers|)
    && (s.stage.Stopped? ==> AllDone(s.workers) && NoneBroken(s.workers))
  }

  lemma {:induction false} NothingYet(n: nat)
    ensures Held(seq(n, _ => Idle)) == multiset{} && CountFinished(seq(n, _ => Idle)) == 0
  {
    if n > 0 {
      assert seq(n, _ => Idle)[..n - 1] == seq(n - 1, _ => Idle);
      NothingYet(n - 1);
    }
  }

  predicate CanGet(s: State, w: nat) { w < |s.workers| && s.workers[w] == Idle && s.queue != [] }

  lemma GetFlows(s: State, w: nat)
    requires Flowing(s) && CanGet(s, w)
    ensures Flowing(Act(s, Get(w)))
  {
    CountChanges(s.workers, w, Act(s, Get(w)).workers[w]);
    if s.queue[0].Job? {
      assert s.taken + ([s.queue[0].event] + Jobs(s.queue[1..])) == s.taken + [s.queue[0].event] + Jobs(s.queue[1..]);
    }
  }

  lemma IngestFlows(s: State, e: LineageEvent)
    requires Flowing(s)
    ensures Flowing(Act(s, Ingest(e)))
  {
    JobsSnoc(s.queue, Job(e));
    assert s.taken + (Jobs(s.queue) + [e]) == s.taken + Jobs(s.queue) + [e];
  }

  lemma PutSentinelFlows(s: State)
    requires Flowing(s)
    ensures Flowing(Act(s, PutSentinel))
  {
    JobsSnoc(s.queue, Sentinel);
  }

  lemma ActFlows(s: State, a: Action)
    requires Flowing(s)
    ensures Flowing(Act(s, a))
  {
    match a
    case Ingest(e) => IngestFlows(s, e);
    case Get(w) => if CanGet(s, w) { GetFlows(s, w); }
    case Return(w) => if w < |s.workers| && s.workers[w].Handling? { CountChanges(s.workers, w, Idle); }
    case Raise(w) => if w < |s.workers| && s.workers[w].Handling? { CountChanges(s.workers, w, Broken(s.workers[w].event)); }
    case Stop =>
    case PutSentinel => PutSentinelFlows(s);
    case Gathered =>
  }

  lemma Cancel(a: multiset<LineageEvent>, b: multiset<LineageEvent>, x: multiset<LineageEvent>)
    requires a + x == b + x
    ensures a == b
  {
    forall e ensures a[e] == b[e] {
      assert (a + x)[e] == (b + x)[e];
    }
  }

  lemma HeldStays(workers: seq<Worker>, w: nat, to: Worker)
    requires w < |workers| && Holding(workers[w]) == Holding(to)
    ensures Held(workers[w := to]) == Held(workers)
  {
    HeldChanges(workers, w, to);
    Cancel(Held(workers[w := to]), Held(workers), Holding(to));
  }

  lemma HeldGains(workers: seq<Worker>, w: nat, e: LineageEvent)
    requires w < |workers| && workers[w] == Idle
    ensures Held(workers[w := Handling(e)]) == Held(workers) + multiset{e}
  {
    HeldChanges(workers, w, Handling(e));
    Cancel(Held(workers[w := Handling(e)]), Held(workers) + multiset{e}, multiset{});
  }

  lemma HeldLoses(workers: seq<Worker>, w: nat)
    requires w < |workers| && workers[w].Handling?
    ensures Held(workers[w := Idle]) + multiset{workers[w].event} == Held(workers)
  {
    HeldChanges(workers, w, Idle);
    Cancel(Held(workers[w := Idle]) + multiset{workers[w].event}, Held(workers), multiset{});
  }

  /** An event moves from one owner to the next. */
  lemma Handed(taken: multiset<LineageEvent>, handled: multiset<LineageEvent>, held: multiset<LineageEvent>, e: LineageEvent)
    requires taken == handled + held
    ensures taken + multiset{e} == handled + (held + multiset{e})
  {
  }

  lemma GetJobOwns(s: State, w: nat, e: LineageEvent)
    requires Owned(s) && CanGet(s, w) && s.queue[0] == Job(e)
    ensures Owned(Act(s, Get(w)))
  {
    HeldGains(s.workers, w, e);
    Handed(multiset(s.taken), multiset(s.handled), Held(s.workers), e);
    assert multiset(s.taken + [e]) == multiset(s.taken) + multiset{e};
  }

  lemma OwnedStays(s: State, t: State)
    requires Owned(s) && t.taken == s.taken && t.handled == s.handled && t.workers == s.workers
    ensures Owned(t)
  {
  }

  lemma GetSentinelOwns(s: State, w: nat)
    requires Owned(s) && CanGet(s, w) && s.queue[0] == Sentinel
    ensures Owned(Act(s, Get(w)))
  {
    HeldStays(s.workers, w, Finished);
  }

  lemma GetOwns(s: State, w: nat)
    requires Owned(s)
    ensures Owned(Act(s, Get(w)))
  {
    if CanGet(s, w) {
      match s.queue[0]
      case Job(e) => GetJobOwns(s, w, e);
      case Sentinel => GetSentinelOwns(s, w);
    }
  }

  lemma HandledOne(taken: seq<LineageEvent>, handled: seq<LineageEvent>, held: multiset<LineageEvent>, e: LineageEvent)
    requires multiset(taken) == multiset(handled) + (held + multiset{e})
    ensures multiset(taken) == multiset(handled + [e]) + held
  {
    assert multiset(handled + [e]) == multiset(handled) + multiset{e};
  }

  lemma ReturnOwns(s: State, w: nat)
    requires Owned(s)
    ensures Owned(Act(s, Return(w)))
  {
    if w < |s.workers| && s.workers[w].Handling? {
      HeldLoses(s.workers, w);
      HandledOne(s.taken, s.handled, Held(s.workers[w := Idle]), s.workers[w].event);
    }
  }

  lemma RaiseOwns(s: State, w: nat)
    requires Owned(s)
    ensures Owned(Act(s, Raise(w)))
  {
    if w < |s.workers| && s.workers[w].Handling? {
      HeldStays(s.workers, w, Broken(s.workers[w].event));
    }
  }

  lemma ActOwns(s: State, a: Action)
    requires Owned(s)
    ensures Owned(Act(s, a))
  {
    match a
    case Get(w) => GetOwns(s, w);
    case Return(w) => ReturnOwns(s, w);
    case Raise(w) => RaiseOwns(s, w);
    case _ => OwnedStays(s, Act(s, a));
  }

  /** Over every run: the queue never exceeds its bound, events leave it in the order they came, and the
    * accepted events are those queued, held by a worker and handled.
    */
  lemma {:induction false} AlwaysConserved(maxQueue: int, n: nat, actions: seq<Action>)
    ensures Flowing(Play(maxQueue, n, actions)) && Owned(Play(maxQueue, n, actions))
    ensures |Play(maxQueue, n, actions).workers| == n && Play(maxQueue, n, actions).maxQueue == maxQueue
  {
    if actions == [] {
      NothingYet(n);
    } else {
      var init, a := actions[..|actions| - 1], actions[|actions| - 1];
      AlwaysConserved(maxQueue, n, init);
      ActFlows(Play(maxQueue, n, init), a);
      ActOwns(Play(maxQueue, n, init), a);
      ActKeepsWorkers(Play(maxQueue, n, init), a);
    }
  }

  lemma ActKeepsWorkers(s: State, a: Action)
    ensures |Act(s, a).workers| == |s.workers| && Act(s, a).maxQueue == s.maxQueue
  {
  }

  // ------------------------------------------------------------------ drops

  /** `ingest` either accepts or drops, and drops exactly when the queue holds as many slots as its bound. */
  lemma DropsExactly(s: State, e: LineageEvent)
    requires Flowing(s)
    ensures Act(s, Ingest(e)).dropped == s.dropped + 1 <==> s.maxQueue > 0 && |s.queue| == s.maxQueue
    ensures Act(s, Ingest(e)).accepted == s.accepted + [e] <==> s.maxQueue <= 0 || |s.queue| < s.maxQueue
  {
  }

  lemma OnlyIngestDrops(s: State, a: Action)
    requires !a.Ingest?
    ensures Act(s, a).dropped == s.dropped && Act(s, a).accepted == s.accepted
  {
  }

  /** Over every run: the number of drops goes up at an `ingest` that finds the queue at its bound, and nowhere else. */
  lemma DroppedAtTheBound(maxQueue: int, n: nat, actions: seq<Action>, i: nat)
    requires i < |actions|
    ensures var before, after := Play(maxQueue, n, actions[..i]), Play(maxQueue, n, actions[..i + 1]);
            after.dropped > before.dropped <==> actions[i].Ingest? && maxQueue > 0 && |before.queue| == maxQueue
  {
    assert actions[..i + 1][..i] == actions[..i] && actions[..i + 1][i] == actions[i];
    AlwaysConserved(maxQueue, n, actions[..i]);
    if actions[i].Ingest? {
      DropsExactly(Play(maxQueue, n, actions[..i]), actions[i].event);
    } else {
      OnlyIngestDrops(Play(maxQueue, n, actions[..i]), actions[i]);
    }
  }

  function Ingests(actions: seq<Action>): nat {
    if actions == [] then 0 else Ingests(actions[..|actions| - 1]) + if actions[|actions| - 1].Ingest? then 1 else 0
  }

  /** Over every run: each `ingest` is counted once, as accepted or as dropped. */
  lemma {:induction false} EveryIngestCounts(maxQueue: int, n: nat, actions: seq<Action>)
    ensures |Play(maxQueue, n, actions).accepted| + Play(maxQueue, n, actions).dropped == Ingests(actions)
  {
    if actions != [] {
      var init, a := actions[..|actions| - 1], actions[|actions| - 1];
      EveryIngestCounts(maxQueue, n, init);
      if !a.Ingest? {
        OnlyIngestDrops(Play(maxQueue, n, init), a);
      }
    }
  }

  // ------------------------------------------------------------------ shutdown

  function AsJobs(events: seq<LineageEvent>): seq<Slot> { seq(|events|, i requires 0 <= i < |events| => Job(events[i])) }

  /** Before the last sentinel is put nothing is late; then what stands behind that sentinel is. When the
    * last sentinel has been taken, all workers have finished.
    */
  predicate Tail(s: State) {
    match s
    case State(_, queue, workers, _, _, _, _, _, late) =>
      if !SentinelsOut(s) then late == []
      else
        |late| <= |queue| &&
        var k := |queue| - |late|;
        queue[k..] == AsJobs(late) &&
        (if k == 0 then CountFinished(workers) == |workers| else queue[k - 1].Sentinel?)
  }

  lemma {:induction false} CountFinishedBound(workers: seq<Worker>)
    ensures CountFinished(workers) <= |workers|
    ensures CountFinished(workers) == |workers| ==> forall w :: 0 <= w < |workers| ==> workers[w].Finished?
  {
    if workers != [] {
      CountFinishedBound(workers[..|workers| - 1]);
    }
  }

  lemma {:induction false} JobsOfJobs(events: seq<LineageEvent>)
    ensures Jobs(AsJobs(events)) == events && Sentinels(AsJobs(events)) == 0
  {
    if events != [] {
      assert AsJobs(events)[1..] == AsJobs(events[1..]);
      JobsOfJobs(events[1..]);
    }
  }

  lemma {:induction false} SentinelsConcat(a: seq<Slot>, b: seq<Slot>)
    ensures Sentinels(a + b) == Sentinels(a) + Sentinels(b)
  {
    if a == [] {
      assert a + b == b;
    } else {
      assert (a + b)[1..] == a[1..] + b;
      SentinelsConcat(a[1..], b);
    }
  }

  /** Taking a slot, when all sentinels are out. */
  lemma GetTail(s: State, w: nat)
    requires Flowing(s) && |s.workers| > 0 && SentinelsOut(s) && Tail(s)
    requires w < |s.workers| && s.workers[w] == Idle && s.queue != []
    ensures Tail(Act(s, Get(w)))
  {
    var n := Act(s, Get(w));
    var k := |s.queue| - |s.late|;
    CountFinishedBound(s.workers);
    assert k > 0;
    assert n.queue == s.queue[1..];
    assert n.queue[k - 1..] == s.queue[k..];
    if k == 1 {
      CountChanges(s.workers, w, Finished);
      JobsOfJobs(s.late);
      assert s.queue == [Sentinel] + AsJobs(s.late);
      SentinelsConcat([Sentinel], AsJobs(s.late));
      assert [Sentinel][1..] == [];
    } else {
      assert n.queue[k - 2] == s.queue[k - 1];
    }
  }

  lemma CountKept(workers: seq<Worker>, w: nat, to: Worker)
    requires w < |workers| && !workers[w].Finished? && !to.Finished?
    ensures CountFinished(workers[w := to]) == CountFinished(workers)
  {
    CountChanges(workers, w, to);
  }

  lemma IngestTail(s: State, e: LineageEvent)
    requires |s.workers| > 0 && Tail(s)
    ensures Tail(Act(s, Ingest(e)))
  {
    if !Full(s) && SentinelsOut(s) {
      var k := |s.queue| - |s.late|;
      assert (s.queue + [Job(e)])[k..] == s.queue[k..] + [Job(e)];
      assert AsJobs(s.late + [e]) == AsJobs(s.late) + [Job(e)];
    }
  }

  lemma WorkerTail(s: State, w: nat, to: Worker, handled: seq<LineageEvent>)
    requires Tail(s) && w < |s.workers| && !s.workers[w].Finished? && !to.Finished?
    ensures Tail(s.(workers := s.workers[w := to], handled := handled))
  {
    CountKept(s.workers, w, to);
  }

  lemma GetsTail(s: State, w: nat)
    requires Flowing(s) && |s.workers| > 0 && Tail(s)
    ensures Tail(Act(s, Get(w)))
  {
    if CanGet(s, w) {
      if SentinelsOut(s) {
        GetTail(s, w);
      } else {
        StillOpen(s, Act(s, Get(w)));
      }
    }
  }

  /** Before the last sentinel is out nothing is late. */
  lemma StillOpen(s: State, t: State)
    requires Tail(s) && !SentinelsOut(s) && !SentinelsOut(t) && t.late == s.late
    ensures Tail(t)
  {
  }

  lemma ReturnTail(s: State, w: nat)
    requires Tail(s)
    ensures Tail(Act(s, Return(w)))
  {
    if w < |s.workers| && s.workers[w].Handling? {
      WorkerTail(s, w, Idle, s.handled + [s.workers[w].event]);
    }
  }

  lemma RaiseTail(s: State, w: nat)
    requires Tail(s)
    ensures Tail(Act(s, Raise(w)))
  {
    if w < |s.workers| && s.workers[w].Handling? {
      WorkerTail(s, w, Broken(s.workers[w].event), s.handled);
    }
  }

  /** Beginning to stop, and the answer of `gather`, leave everything where it is. */
  lemma StageTail(s: State, a: Action)
    requires |s.workers| > 0 && Tail(s) && (a.Stop? || a.Gathered?)
    ensures Tail(Act(s, a))
  {
  }

  lemma PutSentinelTail(s: State)
    requires Tail(s)
    ensures Tail(Act(s, PutSentinel))
  {
    var n := Act(s, PutSentinel);
    if n != s {
      assert AsJobs([]) == [];
    }
  }

  lemma ActTail(s: State, a: Action)
    requires Flowing(s) && |s.workers| > 0 && Tail(s)
    ensures Tail(Act(s, a))
  {
    match a
    case Ingest(e) => IngestTail(s, e);
    case Get(w) => GetsTail(s, w);
    case Return(w) => ReturnTail(s, w);
    case Raise(w) => RaiseTail(s, w);
    case PutSentinel => PutSentinelTail(s);
    case _ => StageTail(s, a);
  }

  lemma {:induction false} AlwaysTail(maxQueue: int, n: nat, actions: seq<Action>)
    requires n > 0
    ensures Tail(Play(maxQueue, n, actions))
  {
    if actions != [] {
      var init := actions[..|actions| - 1];
      AlwaysTail(maxQueue, n, init);
      AlwaysConserved(maxQueue, n, init);
      ActTail(Play(maxQueue, n, init), actions[|actions| - 1]);
    }
  }

  lemma {:induction false} AllFinished(workers: seq<Worker>)
    requires forall w :: 0 <= w < |workers| ==> workers[w].Finished?
    ensures CountFinished(workers) == |workers| && Held(workers) == multiset{}
  {
    if workers != [] {
      AllFinished(workers[..|workers| - 1]);
    }
  }

  /** What a state is like once `stop` has returned. */
  predicate ShutDown(s: State) {
    && (forall w :: 0 <= w < |s.workers| ==> s.workers[w].Finished?)
    && s.queue == AsJobs(s.late)
    && s.accepted == s.taken + s.late
    && multiset(s.handled) == multiset(s.taken)
    && (multiset(s.handled) == multiset(s.accepted) <==> s.late == [])
  }

  lemma StoppedIsShutDown(s: State)
    requires Flowing(s) && Owned(s) && Tail(s) && s.stage.Stopped? && |s.workers| > 0
    ensures ShutDown(s)
  {
    AllFinished(s.workers);
    var k := |s.queue| - |s.late|;
    if k > 0 {
      NoSentinelLeft(s.queue, k - 1);
    }
    assert s.queue[0..] == s.queue;
    JobsOfJobs(s.late);
    assert |multiset(s.accepted)| == |s.taken| + |s.late|;
    assert |multiset(s.taken)| == |s.taken|;
    if s.late == [] {
      assert s.taken + s.late == s.taken;
    }
  }

  /** When `stop` has returned, with at least one worker: every worker took one sentinel, the queue holds
    * exactly the events accepted after the last sentinel was put, and all others were handled once. So every
    * accepted event was handled if and only if none was that late.
    */
  lemma ExactShutdown(maxQueue: int, n: nat, actions: seq<Action>)
    requires n > 0 && Play(maxQueue, n, actions).stage.Stopped?
    ensures |Play(maxQueue, n, actions).workers| == n && ShutDown(Play(maxQueue, n, actions))
  {
    AlwaysConserved(maxQueue, n, actions);
    AlwaysTail(maxQueue, n, actions);
    StoppedIsShutDown(Play(maxQueue, n, actions));
  }

  lemma {:induction false} NoSentinelLeft(queue: seq<Slot>, i: nat)
    requires i < |queue| && queue[i].Sentinel?
    ensures Sentinels(queue) > 0
  {
    if i > 0 {
      NoSentinelLeft(queue[1..], i - 1);
    }
  }

  lemma {:induction false} OnlyStopCloses(maxQueue: int, n: nat, actions: seq<Action>)
    ensures !Play(maxQueue, n, actions).stage.Open? ==> Stop in actions
  {
    if actions != [] {
      var init, a := actions[..|actions| - 1], actions[|actions| - 1];
      OnlyStopCloses(maxQueue, n, init);
      assert actions == init + [a];
    }
  }

  lemma QuietPrefix(actions: seq<Action>)
    requires actions != [] && forall i, j :: 0 <= i < j < |actions| && actions[i].Stop? ==> !actions[j].Ingest?
    ensures var init := actions[..|actions| - 1];
            && (forall i, j :: 0 <= i < j < |init| && init[i].Stop? ==> !init[j].Ingest?)
            && (Stop in init ==> !actions[|actions| - 1].Ingest?)
  {
    var init := actions[..|actions| - 1];
    if Stop in init {
      var i :| 0 <= i < |init| && init[i] == Stop;
      assert actions[i] == Stop;
    }
  }

  lemma NotLateWhileOpen(s: State, a: Action)
    requires s.late == [] && (!s.stage.Open? ==> !a.Ingest?)
    ensures Act(s, a).late == []
  {
  }

  /** No event is late when none is accepted once `stop` has begun. */
  lemma {:induction false} QuietStopIsNeverLate(maxQueue: int, n: nat, actions: seq<Action>)
    requires forall i, j :: 0 <= i < j < |actions| && actions[i].Stop? ==> !actions[j].Ingest?
    ensures Play(maxQueue, n, actions).late == []
    ensures !Play(maxQueue, n, actions).stage.Open? ==> Stop in actions
  {
    OnlyStopCloses(maxQueue, n, actions);
    if actions != [] {
      var init := actions[..|actions| - 1];
      QuietPrefix(actions);
      QuietStopIsNeverLate(maxQueue, n, init);
      NotLateWhileOpen(Play(maxQueue, n, init), actions[|actions| - 1]);
    }
  }

  // ------------------------------------------------------------------ stop returns

  function IsBusy(w: Worker): nat { if w.Handling? then 1 else 0 }

  function CountBusy(workers: seq<Worker>): nat {
    if workers == [] then 0 else CountBusy(workers[..|workers| - 1]) + IsBusy(workers[|workers| - 1])
  }

  lemma {:induction false} BusyChanges(workers: seq<Worker>, w: nat, to: Worker)
    requires w < |workers|
    ensures CountBusy(workers[w := to]) + IsBusy(workers[w]) == CountBusy(workers) + IsBusy(to)
  {
    var n := |workers| - 1;
    if w < n {
      assert workers[w := to][..n] == workers[..n][w := to];
      BusyChanges(workers[..n], w, to);
    } else {
      assert workers[w := to][..n] == workers[..n];
    }
  }

  /** What is left to do until `stop` returns. */
  function Remaining(s: State): int {
    2 * |s.queue| + CountBusy(s.workers) + 3 * (|s.workers| - (if s.stage.Stopping? then s.stage.sent else |s.workers|)) +
    (if s.stage.Stopped? || s.stage.Failed? then 0 else 1)
  }

  lemma StepRemains(s: State, a: Action)
    requires Flowing(s) && s.stage.Stopping? && !a.Ingest? && !a.Raise? && Act(s, a) != s
    ensures 0 <= Remaining(Act(s, a)) < Remaining(s)
  {
    match a
    case Get(w) => GetRemains(s, w);
    case Return(w) => BusyChanges(s.workers, w, Idle);
    case PutSentinel =>
    case Gathered =>
  }

  lemma GetRemains(s: State, w: nat)
    requires CanGet(s, w)
    ensures Remaining(Act(s, Get(w))) < Remaining(s)
  {
    BusyChanges(s.workers, w, Act(s, Get(w)).workers[w]);
  }

  /** No coroutine can go on; only `ingest` could still be called. */
  ghost predicate Stalled(s: State) { forall a: Action :: !a.Ingest? ==> Act(s, a) == s }

  /** All workers are gone, sentinels are missing, and there is no room to put them. */
  predicate Blocked(s: State) { s.stage.Stopping? && s.stage.sent < |s.workers| && AllDone(s.workers) && Full(s) }

  /** Blocked means what it says: `stop` has sentinels to put, the queue is at its bound, and every worker has met
    * a sentinel or died of its handler.
    */
  lemma BlockedExactly(s: State)
    requires Flowing(s)
    ensures Blocked(s) <==>
            && s.stage.Stopping? && s.stage.sent < |s.workers| && s.maxQueue > 0 && |s.queue| == s.maxQueue
            && forall w :: 0 <= w < |s.workers| ==> s.workers[w].Finished? || s.workers[w].Broken?
  {
  }

  lemma BlockedStalls(s: State)
    requires Blocked(s)
    ensures Stalled(s)
  {
  }

  /** `stop` waits for ever exactly when it is blocked. Otherwise something can happen, and by StepRemains
    * `stop` returns after at most Remaining(s) actions other than `ingest`, unless handlers raise.
    */
  lemma StopStallsExactly(s: State)
    requires Flowing(s) && s.stage.Stopping?
    ensures Stalled(s) <==> Blocked(s)
  {
    CountFinishedBound(s.workers);
    if Blocked(s) {
      BlockedStalls(s);
    } else if w :| 0 <= w < |s.workers| && s.workers[w].Handling? {
      assert Act(s, Return(w)).workers[w] == Idle;
    } else if s.queue != [] && !AllDone(s.workers) {
      var w :| 0 <= w < |s.workers| && !s.workers[w].Finished? && !s.workers[w].Broken?;
      assert Act(s, Get(w)).workers[w] != Idle;
    } else if s.stage.sent < |s.workers| {
      assert Act(s, PutSentinel) != s;
    } else {
      assert Act(s, Gathered) != s;
    }
  }

  /** A handler that raises is what it takes: with all workers alive or finished, `stop` is never blocked. */
  lemma OnlyRaisingBlocks(s: State)
    requires Flowing(s) && Tail(s) && |s.workers| > 0 && NoneBroken(s.workers)
    ensures !Blocked(s)
  {
    if Blocked(s) {
      AllFinished(s.workers);
    }
  }

  // ------------------------------------------------------------------ where the conditions are needed

  /** An event accepted behind the last sentinel is never handled, though `stop` returns. */
  lemma LateEventIsLost(e: LineageEvent)
    ensures var s := Play(10, 1, [Stop, PutSentinel, Ingest(e), Get(0), Gathered]);
            s.stage.Stopped? && s.accepted == [e] && s.handled == [] && s.queue == [Job(e)]
  {
    var s0 := Started(10, 1);
    var s2 := Act(Act(s0, Stop), PutSentinel);
    var s4 := Act(Act(s2, Ingest(e)), Get(0));
    assert s2 == s0.(queue := [Sentinel], stage := Stopping(1));
    assert s4.queue == [Job(e)] && s4.workers == [Finished];
    PlayFive(10, 1, Stop, PutSentinel, Ingest(e), Get(0), Gathered);
  }

  lemma PlayFive(maxQueue: int, n: nat, a: Action, b: Action, c: Action, d: Action, e: Action)
    ensures Play(maxQueue, n, [a, b, c, d, e]) == Act(Act(Act(Act(Act(Started(maxQueue, n), a), b), c), d), e)
  {
    assert [a, b, c, d, e][..4] == [a, b, c, d] && [a, b, c, d][..3] == [a, b, c] && [a, b, c][..2] == [a, b];
    assert [a, b][..1] == [a] && [a][..0] == [];
    assert Play(maxQueue, n, []) == Started(maxQueue, n);
    assert Play(maxQueue, n, [a]) == Act(Started(maxQueue, n), a);
    assert Play(maxQueue, n, [a, b]) == Act(Act(Started(maxQueue, n), a), b);
    assert Play(maxQueue, n, [a, b, c]) == Act(Act(Act(Started(maxQueue, n), a), b), c);
  }

  /** Without workers nothing is ever handled, and `stop` returns at once. */
  lemma {:induction false} NoWorkersHandleNothing(maxQueue: int, actions: seq<Action>)
    ensures Play(maxQueue, 0, actions).handled == [] && Play(maxQueue, 0, actions).taken == []
  {
    if actions != [] {
      NoWorkersHandleNothing(maxQueue, actions[..|actions| - 1]);
      AlwaysConserved(maxQueue, 0, actions[..|actions| - 1]);
    }
  }

  /** A handler that raises takes its worker with it. With the last one gone and the queue full, `stop`
    * waits for ever: no action but `ingest` changes anything, and `ingest` only drops.
    */
  lemma RaisingHandlerHangsStop(e: LineageEvent, f: LineageEvent)
    ensures var s := Play(1, 1, [Ingest(e), Get(0), Raise(0), Ingest(f), Stop]);
            s.stage == Stopping(0) && forall a: Action :: Act(s, a) == s || (a.Ingest? && Act(s, a) == s.(dropped := s.dropped + 1))
  {
    var s0 := Started(1, 1);
    var s3 := Act(Act(Act(s0, Ingest(e)), Get(0)), Raise(0));
    assert s3.queue == [] && s3.workers == [Broken(e)];
    PlayFive(1, 1, Ingest(e), Get(0), Raise(0), Ingest(f), Stop);
  }

  // ------------------------------------------------------------------ the object

  /** What every state of a pipeline satisfies. */
  predicate Fit(s: State) {
    match s
    case State(_, _, workers, _, _, _, _, _, _) => Flowing(s) && Owned(s) && (|workers| > 0 ==> Tail(s))
  }

  lemma ActFits(s: State, a: Action)
    requires Fit(s)
    ensures Fit(Act(s, a))
  {
    ActFlows(s, a);
    ActOwns(s, a);
    ActKeepsWorkers(s, a);
    if |s.workers| > 0 {
      ActTail(s, a);
    }
  }

  lemma PutSentinelFits(s: State)
    requires Fit(s) && s.stage.Stopping? && s.stage.sent < |s.workers| && !Full(s)
    ensures Fit(Act(s, PutSentinel))
    ensures Act(s, PutSentinel) == s.(queue := s.queue + [Sentinel], stage := Stopping(s.stage.sent + 1))
    ensures Sentinels(s.queue + [Sentinel]) + CountFinished(s.workers) == s.stage.sent + 1
  {
    ActFits(s, PutSentinel);
    JobsSnoc(s.queue, Sentinel);
  }

  lemma StartFits(maxQueue: int, n: nat)
    ensures Fit(Started(maxQueue, n))
  {
    NothingYet(n);
  }

  lemma GetTakes(s: State, w: nat)
    requires Fit(s) && CanGet(s, w)
    ensures Fit(Act(s, Get(w)))
    ensures var t := Act(s, Get(w));
            && t.queue == s.queue[1..] && t.accepted == s.accepted && t.accepted == t.taken + Jobs(t.queue)
            && t.maxQueue == s.maxQueue && t.dropped == s.dropped && t.stage == s.stage
            && (match s.queue[0]
                case Job(e) => t.workers == s.workers[w := Handling(e)] && t.taken == s.taken + [e]
                case Sentinel => t.workers == s.workers[w := Finished] && t.taken == s.taken)
  {
    ActFits(s, Get(w));
  }

  lemma GatherSays(workers: seq<Worker>)
    requires (forall w :: 0 <= w < |workers| ==> workers[w].Finished?) || exists w :: 0 <= w < |workers| && workers[w].Broken?
    ensures NoneBroken(workers) <==> forall w :: 0 <= w < |workers| ==> workers[w].Finished?
    ensures NoneBroken(workers) ==> AllDone(workers)
  {
  }

  lemma GatheredIs(s: State)
    requires s.stage == Stopping(|s.workers|) && (NoneBroken(s.workers) ==> AllDone(s.workers))
    ensures Act(s, Gathered) == s.(stage := if NoneBroken(s.workers) then Stopped else Failed)
  {
  }

  /** The pipeline's fields, and what its coroutines do between two awaits: each time one action. */
  class IngestionPipeline {
    const maxQueue: int
    var queue: seq<Slot>
    var workers: seq<Worker>
    var dropped: nat
    var stage: Stage
    ghost var state: State  // the fields again, with what has gone through the pipeline

    ghost predicate Valid()
      reads this
    {
      && state.maxQueue == maxQueue && state.queue == queue && state.workers == workers
      && state.dropped == dropped && state.stage == stage
      && Fit(state)
    }

    constructor (maxQueue: int, n: nat)
      ensures Valid() && state == Started(maxQueue, n)
    {
      this.maxQueue := maxQueue;
      queue, workers, dropped, stage := [], seq(n, _ => Idle), 0, Open;
      state := Started(maxQueue, n);
      StartFits(maxQueue, n);
    }

    /** `put_nowait`, or a drop. */
    method Offer(event: LineageEvent) returns (ok: bool)
      requires Valid()
      modifies this
      ensures Valid() && state == Act(old(state), Ingest(event))
      ensures ok <==> maxQueue <= 0 || |old(queue)| < maxQueue
      ensures ok ==> queue == old(queue) + [Job(event)] && state.accepted == old(state).accepted + [event]
      ensures !ok ==> queue == old(queue) && state.accepted == old(state).accepted
      ensures dropped == old(dropped) + if ok then 0 else 1
    {
      ActFits(state, Ingest(event));
      state := Act(state, Ingest(event));
      if maxQueue > 0 && |queue| >= maxQueue {
        ok, dropped := false, dropped + 1;
      } else {
        ok, queue := true, queue + [Job(event)];
      }
    }

    /** A waiting worker gets the oldest slot; a sentinel ends its loop. Events come out in the order in which
      * they were accepted.
      */
    method WorkerGets(w: nat)
      requires Valid() && w < |workers| && workers[w] == Idle && queue != []
      modifies this
      ensures Valid() && state == Act(old(state), Get(w))
      ensures queue == old(queue)[1..]
      ensures match old(queue)[0]
              case Job(e) => workers == old(workers)[w := Handling(e)] && state.taken == old(state).taken + [e]
              case Sentinel => workers == old(workers)[w := Finished] && state.taken == old(state).taken
      ensures state.accepted == state.taken + Jobs(queue)
    {
      GetTakes(state, w);
      state := Act(state, Get(w));
      var slot := queue[0];
      queue := queue[1..];
      match slot {
        case Sentinel => workers := workers[w := Finished];
        case Job(e) => workers := workers[w := Handling(e)];
      }
    }

    /** The handler returns, and the worker waits again: its event is now a handled one. */
    method WorkerReturns(w: nat)
      requires Valid() && w < |workers| && workers[w].Handling?
      modifies this
      ensures Valid() && state == Act(old(state), Return(w))
      ensures workers == old(workers)[w := Idle] && queue == old(queue)
      ensures state.handled == old(state).handled + [old(workers)[w].event]
      ensures multiset(state.taken) == multiset(state.handled) + Held(workers)
    {
      ActFits(state, Return(w));
      state := Act(state, Return(w));
      workers := workers[w := Idle];
    }

    /** The handler raises: the worker's task is over, and its event is never handled. */
    method WorkerRaises(w: nat)
      requires Valid() && w < |workers| && workers[w].Handling?
      modifies this
      ensures Valid() && state == Act(old(state), Raise(w))
      ensures workers == old(workers)[w := Broken(old(workers)[w].event)] && state.handled == old(state).handled
      ensures multiset(state.taken) == multiset(state.handled) + Held(workers)
    {
      ActFits(state, Raise(w));
      state := Act(state, Raise(w));
      workers := workers[w := Broken(workers[w].event)];
    }

    method BeginStop()
      requires Valid() && stage.Open?
      modifies this
      ensures Valid() && state == Act(old(state), Stop) && stage == Stopping(0)
    {
      ActFits(state, Stop);
      state := Act(state, Stop);
      stage := Stopping(0);
    }

    /** The next `put(None)` of `stop`, when there is room. As many sentinels are queued or taken as were put. */
    method StopPuts()
      requires Valid() && stage.Stopping? && stage.sent < |workers| && (maxQueue <= 0 || |queue| < maxQueue)
      modifies this
      ensures Valid() && state == Act(old(state), PutSentinel)
      ensures queue == old(queue) + [Sentinel] && stage == Stopping(old(stage.sent) + 1)
      ensures Sentinels(queue) + CountFinished(workers) == stage.sent
    {
      PutSentinelFits(state);
      state := Act(state, PutSentinel);
      queue := queue + [Sentinel];
      stage := Stopping(stage.sent + 1);
    }

    /** `gather` has something to say: it raises when a worker's handler has raised, and returns when all
      * workers are done. When it returns, the shutdown was exact.
      */
    method Gather() returns (ok: bool)
      requires Valid() && stage == Stopping(|workers|)
      requires (forall w :: 0 <= w < |workers| ==> workers[w].Finished?) || exists w :: 0 <= w < |workers| && workers[w].Broken?
      modifies this
      ensures Valid() && state == Act(old(state), Gathered)
      ensures ok <==> forall w :: 0 <= w < |workers| ==> workers[w].Finished?
      ensures workers == old(workers) && queue == old(queue)
      ensures stage == if ok then Stopped else Failed
      ensures ok && |workers| > 0 ==> ShutDown(state)
    {
      GatherSays(workers);
      GatheredIs(state);
      ActFits(state, Gathered);
      state := Act(state, Gathered);
      ok := NoneBroken(workers);
      stage := if ok then Stopped else Failed;
      if ok && |workers| > 0 {
        StoppedIsShutDown(state);
      }
    }
  }
}
