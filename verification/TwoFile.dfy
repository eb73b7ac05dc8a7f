/** The older pair `WalBuffer` and `LedgerStore`: two files with a connection each and no transaction that
  * covers both. The ledger commits every row by itself; the marks of a replay are committed at its end.
  */
module TwoFile {
  import opened Wrappers
  import opened Json
  import opened HashChain
  import opened Vault
  import opened VaultLaws
  import opened VaultEffects
  import opened Codecs

  /** Table wal: the rows with committed=0 in id order, and those with committed=1. */
  datatype Wal = Wal(pending: seq<Staged>, settled: map<string, string>)

  function StagedIds(w: Wal): set<string> { w.settled.Keys + PendingIds(w.pending) }

  /** What the two files may look like at any crash: marked ids are in the ledger and ledger ids are staged,
    * the ledger has no id twice and its chain verifies.
    */
  predicate Fits(c: Codec, w: Wal, l: seq<Row>) {
    match w
    case Wal(pending, settled) =>
      && Chained(c.hash, l) && DistinctRows(l)
      && DistinctPending(pending) && PendingIds(pending) !! settled.Keys && TextsFit(c, pending) && Sorted(pending)
      && settled.Keys <= LedgerIds(l) <= settled.Keys + PendingIds(pending)
  }

  /** The event is in the ledger and still pending: the process died between the append and the mark. */
  predicate Jammed(w: Wal, l: seq<Row>, e: string) { e in PendingIds(w.pending) && e in LedgerIds(l) }

  ghost predicate JamsStay(w: Wal, l: seq<Row>, w': Wal, l': seq<Row>) {
    forall e :: Jammed(w, l, e) ==> Jammed(w', l', e)
  }

  /** UPDATE wal SET committed=1 WHERE event_id=e. */
  function Mark(w: Wal, e: string): Wal {
    var s := Settle(Store(map[], w.pending, w.settled, []), e);
    Wal(s.pending, s.settled)
  }

  function Insert(w: Wal, id: nat, e: string, text: string): Wal {
    var s := StageRow(Store(map[], w.pending, w.settled, []), id, e, text);
    Wal(s.pending, s.settled)
  }

  lemma LedgerIdsOneMore(l: seq<Row>, row: Row)
    ensures LedgerIds(l + [row]) == LedgerIds(l) + {row.eventId}
  {
    assert forall r :: r in l + [row] <==> r in l || r == row;
  }

  /** An append of a staged event that is not in the ledger keeps the files fitting, marked or not. */
  lemma AppendFitsFiles(c: Codec, w: Wal, l: seq<Row>, e: string, text: string)
    requires Fits(c, w, l) && e in PendingIds(w.pending) && e !in LedgerIds(l)
    ensures Fits(c, w, l + [NextRow(c.hash, Head(l), e, text)])
    ensures Fits(c, Mark(w, e), l + [NextRow(c.hash, Head(l), e, text)])
  {
    var row := NextRow(c.hash, Head(l), e, text);
    AppendKeeps(c, Store(map[], [], map[], l), e, text);
    LedgerIdsOneMore(l, row);
    SettleKeeps(c, Store(map[], w.pending, w.settled, []), e);
    WithoutIdElements(w.pending, e);
  }

  /** The two copies of the WAL, with the ledger. */
  predicate BothFit(c: Codec, working: Wal, durable: Wal, l: seq<Row>) {
    && Fits(c, working, l) && Fits(c, durable, l)
    && StagedIds(durable) == StagedIds(working) && PendingIds(working.pending) <= PendingIds(durable.pending)
  }

  predicate Drawn(working: Wal, durable: Wal, nextId: nat) { AllBelow(working.pending, nextId) && AllBelow(durable.pending, nextId) }

  /** Append and mark, with the mark not yet committed. */
  lemma AppendBothFit(c: Codec, working: Wal, durable: Wal, l: seq<Row>, e: string, text: string)
    requires BothFit(c, working, durable, l) && e in PendingIds(working.pending) && e !in LedgerIds(l)
    ensures BothFit(c, working, durable, l + [NextRow(c.hash, Head(l), e, text)])
    ensures BothFit(c, Mark(working, e), durable, l + [NextRow(c.hash, Head(l), e, text)])
    ensures StagedIds(Mark(working, e)) == StagedIds(working)
    ensures PendingIds(Mark(working, e).pending) == PendingIds(working.pending) - {e}
  {
    AppendFitsFiles(c, working, l, e, text);
    AppendFitsFiles(c, durable, l, e, text);
    SettleKeeps(c, Store(map[], working.pending, working.settled, []), e);
    WithoutIdElements(working.pending, e);
  }

  lemma InsertFits(c: Codec, w: Wal, l: seq<Row>, id: nat, e: string, text: string)
    requires Fits(c, w, l) && Rewrite(c, text).Some? && AllBelow(w.pending, id)
    ensures Fits(c, Insert(w, id, e, text), l) && StagedIds(Insert(w, id, e, text)) == StagedIds(w) + {e}
    ensures PendingIds(w.pending) <= PendingIds(Insert(w, id, e, text).pending)
  {
    if e !in StagedIds(w) {
      var row := Staged(id, e, text);
      assert [row][0] == row;
      PendingIdsConcat(w.pending, [row]);
      SortedSnoc(w.pending, row);
      forall i | 0 <= i < |w.pending| ensures w.pending[i].eventId != e {
        assert w.pending[i].eventId in PendingIds(w.pending);
      }
    }
  }

  lemma InsertDrawn(w: Wal, id: nat, e: string, text: string)
    requires AllBelow(w.pending, id)
    ensures AllBelow(Insert(w, id, e, text).pending, id + 1)
  {
  }

  lemma MarkDrawn(w: Wal, e: string, n: nat)
    requires AllBelow(w.pending, n)
    ensures AllBelow(Mark(w, e).pending, n)
  {
    WithoutIdElements(w.pending, e);
  }

  lemma MarkLeavesJams(w: Wal, l: seq<Row>, e: string, longer: seq<Row>)
    requires e !in LedgerIds(l) && l <= longer
    ensures JamsStay(w, l, Mark(w, e), longer)
  {
    WithoutIdElements(w.pending, e);
    assert forall r :: r in l ==> r in longer;
  }

  lemma MarkFirst(w: Wal)
    requires DistinctPending(w.pending) && w.pending != []
    ensures Mark(w, w.pending[0].eventId) == Wal(w.pending[1..], w.settled[w.pending[0].eventId := w.pending[0].text])
  {
    PendingIdsCons(w.pending);
    DistinctTail(w.pending);
    WithoutAbsent(w.pending[1..], w.pending[0].eventId);
  }

  lemma {:induction false} TextOfFits(c: Codec, p: seq<Staged>, e: string)
    requires TextsFit(c, p) && e in PendingIds(p)
    ensures Rewrite(c, TextOf(p, e)).Some?
  {
    if p[0].eventId != e {
      PendingIdsCons(p);
      TextOfFits(c, p[1..], e);
    } else {
      assert p[0] in p;
    }
  }

  lemma NotAmongFirst(rows: seq<Staged>, i: nat)
    requires DistinctPending(rows) && i < |rows|
    ensures rows[i].eventId !in PendingIds(rows[..i])
  {
  }

  /** A replay that stops at row `i` has done the rows before it, which were not jammed. */
  lemma JamsBehind(w: Wal, l: seq<Row>, i: nat, settled: map<string, string>, longer: seq<Row>)
    requires i <= |w.pending| && LedgerIds(l) <= LedgerIds(longer) && PendingIds(w.pending[..i]) !! LedgerIds(l)
    ensures JamsStay(w, l, Wal(w.pending[i..], settled), longer)
  {
    assert w.pending == w.pending[..i] + w.pending[i..];
    PendingIdsConcat(w.pending[..i], w.pending[i..]);
  }

  /** The replay of `w` on the ledger `l` has done `i` rows and is at these tables. */
  predicate ReplayedTo(c: Codec, w: Wal, l: seq<Row>, i: nat, now: Wal, rows: seq<Row>) {
    && i <= |w.pending| && DistinctPending(w.pending) && TextsFit(c, w.pending) && TextsFit(c, w.pending[..i])
    && now == Wal(w.pending[i..], Marked(w.settled, w.pending[..i]))
    && rows == Replayed(c, l, w.pending[..i])
    && LedgerIds(rows) == LedgerIds(l) + PendingIds(w.pending[..i])
    && PendingIds(w.pending[..i]) !! LedgerIds(l)
  }

  /** The index of the first pending row that is jammed, or their number. */
  function FirstJam(p: seq<Staged>, l: seq<Row>): nat {
    if p == [] || p[0].eventId in LedgerIds(l) then 0 else 1 + FirstJam(p[1..], l)
  }

  lemma {:induction false} FirstJamAt(p: seq<Staged>, l: seq<Row>, i: nat)
    requires i <= |p| && PendingIds(p[..i]) !! LedgerIds(l) && (i < |p| ==> p[i].eventId in LedgerIds(l))
    ensures FirstJam(p, l) == i
  {
    if i > 0 {
      assert p[0] == p[..i][0] && p[0] in p[..i];
      assert p[..i][1..] == p[1..][..i - 1];
      PendingIdsCons(p[..i]);
      FirstJamAt(p[1..], l, i - 1);
    }
  }

  lemma ReplayStarts(c: Codec, w: Wal, l: seq<Row>)
    requires DistinctPending(w.pending) && TextsFit(c, w.pending)
    ensures ReplayedTo(c, w, l, 0, w, l)
  {
    assert w.pending[..0] == [] && w.pending[0..] == w.pending;
  }

  lemma ReplayGoesOn(c: Codec, w: Wal, l: seq<Row>, i: nat, now: Wal, rows: seq<Row>)
    requires i < |w.pending| && TextsFit(c, w.pending) && TextsFit(c, w.pending[..i])
    requires var row, before := w.pending[i], Replayed(c, l, w.pending[..i]);
             && ReplayedTo(c, w, l, i, Wal(w.pending[i..], Marked(w.settled, w.pending[..i])), before)
             && now == Wal(w.pending[i..][1..], Marked(w.settled, w.pending[..i])[row.eventId := row.text])
             && row.eventId !in LedgerIds(before) && Rewrite(c, row.text).Some?
             && rows == before + [NextRow(c.hash, Head(before), row.eventId, Rewrite(c, row.text).value)]
    ensures ReplayedTo(c, w, l, i + 1, now, rows)
  {
    var p, before := w.pending, Replayed(c, l, w.pending[..i]);
    assert p[i..][1..] == p[i + 1..] && p[..i + 1][..i] == p[..i] && p[..i + 1][i] == p[i];
    IdsNext(p, i);
    ReplayedNext(c, l, p, i);
    LedgerIdsOneMore(before, rows[|before|]);
  }

  lemma JamFound(c: Codec, w: Wal, l: seq<Row>, i: nat, now: Wal, rows: seq<Row>)
    requires i < |w.pending| && ReplayedTo(c, w, l, i, now, rows) && w.pending[i].eventId in LedgerIds(rows)
    ensures Jammed(w, l, w.pending[i].eventId) && JamsStay(w, l, now, rows)
    ensures w.pending[i].eventId in LedgerIds(l)
  {
    NotAmongFirst(w.pending, i);
    JamsBehind(w, l, i, now.settled, rows);
  }

  /** Where the loop stops, seen from outside. */
  lemma ReplayEnds(c: Codec, w: Wal, l: seq<Row>, i: nat, now: Wal, rows: seq<Row>)
    requires ReplayedTo(c, w, l, i, now, rows) && (i < |w.pending| ==> w.pending[i].eventId in LedgerIds(rows))
    ensures FirstJam(w.pending, l) == i && JamsStay(w, l, now, rows)
    ensures i == |w.pending| <==> forall e :: !Jammed(w, l, e)
  {
    if i < |w.pending| {
      JamFound(c, w, l, i, now, rows);
    } else {
      assert w.pending[..i] == w.pending;
      JamsBehind(w, l, i, now.settled, rows);
    }
    FirstJamAt(w.pending, l, i);
  }

  /** The ledger row of a pending event. */
  function PendingRow(c: Codec, w: Wal, l: seq<Row>, e: string): Row
    requires e in PendingIds(w.pending) && Rewrite(c, TextOf(w.pending, e)).Some?
  {
    NextRow(c.hash, Head(l), e, Rewrite(c, TextOf(w.pending, e)).value)
  }

  // ------------------------------------------------------------------ the effects, said of the rows

  predicate IsPending(w: Wal, e: string) { exists row :: row in w.pending && row.eventId == e }

  predicate InLedger(l: seq<Row>, e: string) { exists row :: row in l && row.eventId == e }

  lemma IdsExactly(w: Wal, l: seq<Row>, e: string)
    ensures e in PendingIds(w.pending) <==> IsPending(w, e)
    ensures e in LedgerIds(l) <==> InLedger(l, e)
    ensures e in StagedIds(w) <==> e in w.settled || IsPending(w, e)
  {
  }

  /** The ledger has one row more, for the event and with the text. */
  predicate RowAppended(c: Codec, l: seq<Row>, e: string, text: string, l': seq<Row>) {
    && |l'| == |l| + 1 && l <= l' && l'[|l|].eventId == e && l'[|l|].payload == text && Stands(c.hash, l', |l|)
  }

  lemma NextIsAppended(c: Codec, l: seq<Row>, e: string, text: string)
    ensures RowAppended(c, l, e, text, l + [NextRow(c.hash, Head(l), e, text)])
  {
    var row := NextRow(c.hash, Head(l), e, text);
    assert (l + [row])[..|l|] == l;
    StandsExactly(c.hash, l + [row], |l|);
  }

  /** The row of the event comes into the ledger and is marked. */
  ghost predicate CommitMeans(c: Codec, w: Wal, l: seq<Row>, e: string, w': Wal, l': seq<Row>) {
    match w'
    case Wal(pending, settled) =>
      && (forall row :: row in pending <==> row in w.pending && row.eventId != e)
      && (forall row :: row in w.pending && row.eventId == e ==>
            && settled == w.settled[e := row.text]
            && |l'| == |l| + 1 && l <= l' && IsRecoveredRow(c, row, l'[|l|]) && Stands(c.hash, l', |l|))
  }

  lemma CommitIsMeant(c: Codec, w: Wal, l: seq<Row>, e: string)
    requires DistinctPending(w.pending) && e in PendingIds(w.pending) && Rewrite(c, TextOf(w.pending, e)).Some?
    ensures CommitMeans(c, w, l, e, Mark(w, e), l + [PendingRow(c, w, l, e)])
  {
    WithoutIdElements(w.pending, e);
    NextIsAppended(c, l, e, Rewrite(c, TextOf(w.pending, e)).value);
    forall row | row in w.pending && row.eventId == e ensures TextOf(w.pending, e) == row.text {
      TextOfRow(w.pending, row);
    }
  }

  /** The first `i` pending rows come into the ledger and are marked; row `i`, if there is one, is jammed, and none
    * before it.
    */
  ghost predicate ReplayMeans(c: Codec, w: Wal, l: seq<Row>, i: nat, w': Wal, l': seq<Row>) {
    match w'
    case Wal(pending, settled) =>
      && i <= |w.pending| && pending == w.pending[i..]
      && (forall k :: 0 <= k < i ==> !InLedger(l, w.pending[k].eventId))
      && (i < |w.pending| ==> InLedger(l, w.pending[i].eventId))
      && RowsRecovered(c, l, w.pending[..i], l') && AllStand(c.hash, l')
      && TextsMarked(w.settled, w.pending[..i], settled)
  }

  lemma ReplayIsMeant(c: Codec, w: Wal, l: seq<Row>, i: nat, now: Wal, rows: seq<Row>)
    requires Fits(c, w, l) && Chained(c.hash, rows) && ReplayedTo(c, w, l, i, now, rows)
    requires i < |w.pending| ==> w.pending[i].eventId in LedgerIds(rows)
    ensures ReplayMeans(c, w, l, i, now, rows)
  {
    var first := w.pending[..i];
    ChainedExactly(c.hash, rows);
    RowsAreRecovered(c, l, first);
    forall k | 0 <= k < i ensures !InLedger(l, w.pending[k].eventId) {
      assert first[k] in first && first[k].eventId in PendingIds(first);
      IdsExactly(w, l, first[k].eventId);
    }
    FirstOfPending(w, i);
    MarkedTexts(w.settled, first);
    if i < |w.pending| {
      NotAmongFirst(w.pending, i);
      IdsExactly(w, l, w.pending[i].eventId);
    }
  }

  lemma FirstOfPending(w: Wal, i: nat)
    requires i <= |w.pending| && DistinctPending(w.pending) && PendingIds(w.pending) !! w.settled.Keys
    ensures DistinctPending(w.pending[..i]) && PendingIds(w.pending[..i]) !! w.settled.Keys
  {
    assert w.pending == w.pending[..i] + w.pending[i..];
    PendingIdsConcat(w.pending[..i], w.pending[i..]);
  }

  // ------------------------------------------------------------------ the ledger file

  class LedgerStore {
    const codec: Codec
    var rows: seq<Row>     // what the connection sees
    var durable: seq<Row>  // what the file holds

    constructor (codec: Codec)
      ensures this.codec == codec && rows == durable == []
    {
      this.codec := codec;
      rows, durable := [], [];
    }

    /** A new process opens the file. */
    constructor Open(codec: Codec, file: seq<Row>)
      ensures this.codec == codec && rows == durable == file
    {
      this.codec := codec;
      rows, durable := file, file;
    }

    /** Encode, read the head, insert, commit. False when encoding or the insert raises. */
    method Append(e: string, payload: Value) returns (ok: bool)
      requires rows == durable
      modifies this
      ensures rows == durable
      ensures ok <==> codec.dumps(payload).Some? && e !in LedgerIds(old(rows))
      ensures ok ==> rows == old(rows) + [NextRow(codec.hash, Head(old(rows)), e, codec.dumps(payload).value)]
      ensures !ok ==> rows == old(rows)
      ensures ok <==> codec.dumps(payload).Some? && !InLedger(old(rows), e)
      ensures ok ==> RowAppended(codec, old(rows), e, codec.dumps(payload).value, rows)
    {
      if codec.dumps(payload).None? {
        return false;
      }
      var text := codec.dumps(payload).value;
      var prev := Head(rows);
      var row := Row(e, text, prev, EntryHash(codec.hash, prev, e, text));
      NextIsAppended(codec, rows, e, text);
      if e in LedgerIds(rows) {
        return false;
      }
      rows := rows + [row];
      durable := rows;
      return true;
    }

    method Verify() returns (ok: bool)
      ensures ok <==> Chained(codec.hash, rows)
      ensures ok <==> AllStand(codec.hash, rows)
    {
      ok := VerifyIntegrity(codec.hash, rows);
    }
  }

  // ------------------------------------------------------------------ the WAL file

  datatype Point = Point(wal: Wal, ledger: seq<Row>)

  /** From one moment to the next: staged ids and ledger rows only come on top. */
  predicate Grows(p: Point, q: Point) { p.ledger <= q.ledger && StagedIds(p.wal) <= StagedIds(q.wal) }

  ghost predicate AllFit(c: Codec, points: seq<Point>) {
    points == [] || (AllFit(c, points[..|points| - 1]) && Fits(c, points[|points| - 1].wal, points[|points| - 1].ledger))
  }

  predicate Growing(points: seq<Point>) {
    points != [] ==>
      var init, last := points[..|points| - 1], points[|points| - 1];
      Growing(init) && (init != [] ==> Grows(init[|init| - 1], last))
  }

  lemma GrowsByRow(w: Wal, l: seq<Row>, row: Row)
    ensures Grows(Point(w, l), Point(w, l + [row]))
  {
  }

  /** The WAL's two copies, the ledger, and all that the files ever held. */
  ghost predicate FilesFit(c: Codec, working: Wal, durable: Wal, l: seq<Row>, points: seq<Point>, nextId: nat) {
    match working
    case Wal(_, _) =>
      && BothFit(c, working, durable, l)
      && AllFit(c, points) && Growing(points)
      && points != [] && points[|points| - 1] == Point(durable, l)
      && Drawn(working, durable, nextId)
  }

  lemma AppendKeepsFiles(c: Codec, working: Wal, durable: Wal, l: seq<Row>, points: seq<Point>, nextId: nat, e: string)
    requires FilesFit(c, working, durable, l, points, nextId) && e in PendingIds(working.pending) && e !in LedgerIds(l)
    ensures Rewrite(c, TextOf(working.pending, e)).Some?
    ensures var longer := l + [PendingRow(c, working, l, e)];
            && FilesFit(c, working, durable, longer, points + [Point(durable, longer)], nextId)
            && BothFit(c, Mark(working, e), durable, longer)
  {
    TextOfFits(c, working.pending, e);
    AppendBothFit(c, working, durable, l, e, Rewrite(c, TextOf(working.pending, e)).value);
    GrowsByRow(durable, l, PendingRow(c, working, l, e));
    var p := Point(durable, l + [PendingRow(c, working, l, e)]);
    GrowSnoc(points, p);
    FitSnoc(c, points, p);
  }

  lemma MarkKeepsFiles(c: Codec, working: Wal, durable: Wal, l: seq<Row>, points: seq<Point>, nextId: nat, e: string)
    requires FilesFit(c, working, durable, l, points, nextId) && BothFit(c, Mark(working, e), durable, l)
    ensures FilesFit(c, Mark(working, e), durable, l, points, nextId)
  {
    MarkDrawn(working, e, nextId);
  }

  /** The WAL's connection commits the tables `next`. */
  lemma CommitKeepsFiles(c: Codec, working: Wal, next: Wal, durable: Wal, l: seq<Row>, points: seq<Point>,
                         nextId: nat, later: nat)
    requires FilesFit(c, working, durable, l, points, nextId)
    requires Fits(c, next, l) && StagedIds(durable) <= StagedIds(next) && AllBelow(next.pending, later)
    ensures FilesFit(c, next, next, l, points + [Point(next, l)], later)
  {
    GrowSnoc(points, Point(next, l));
    FitSnoc(c, points, Point(next, l));
  }

  lemma GrowsTrans(p: Point, q: Point, r: Point)
    requires Grows(p, q) && Grows(q, r)
    ensures Grows(p, r)
  {
    assert r.ledger[..|q.ledger|][..|p.ledger|] == r.ledger[..|p.ledger|];
  }

  /** Whatever the moment of a crash: what the files hold then fits. */
  lemma {:induction false} FitsAt(c: Codec, points: seq<Point>, i: nat)
    requires AllFit(c, points) && i < |points|
    ensures Fits(c, points[i].wal, points[i].ledger)
  {
    if i < |points| - 1 {
      FitsAt(c, points[..|points| - 1], i);
    }
  }

  /** Whatever the moments of two crashes: nothing that was staged or in the ledger at the first is missing
    * at the second.
    */
  lemma {:induction false} NothingLost(points: seq<Point>, i: nat, j: nat)
    requires Growing(points) && i <= j < |points|
    ensures points[i].ledger <= points[j].ledger && StagedIds(points[i].wal) <= StagedIds(points[j].wal)
    decreases |points|, j
  {
    var init := points[..|points| - 1];
    if j < |init| {
      NothingLost(init, i, j);
    } else if i < j {
      NothingLost(init, i, j - 1);
      GrowsTrans(points[i], points[j - 1], points[j]);
    }
  }

  lemma FitSnoc(c: Codec, points: seq<Point>, p: Point)
    requires AllFit(c, points) && Fits(c, p.wal, p.ledger)
    ensures AllFit(c, points + [p])
  {
    assert (points + [p])[..|points|] == points;
  }

  lemma GrowSnoc(points: seq<Point>, p: Point)
    requires Growing(points) && (points != [] ==> Grows(points[|points| - 1], p))
    ensures Growing(points + [p])
  {
    assert (points + [p])[..|points|] == points;
  }

  class WalBuffer {
    const ledger: LedgerStore  // the callback given to `commit` and `replay_pending`
    var working: Wal
    var durable: Wal
    var nextId: nat
    ghost var points: seq<Point>  // what the two files held after every change of either

    ghost predicate Valid()
      reads this, ledger
    {
      && Sound(ledger.codec)
      && ledger.rows == ledger.durable
      && FilesFit(ledger.codec, working, durable, ledger.rows, points, nextId)
    }

    constructor (ledger: LedgerStore)
      requires Sound(ledger.codec) && ledger.rows == ledger.durable == []
      ensures Valid() && this.ledger == ledger && working == durable == Wal([], map[])
    {
      this.ledger := ledger;
      working, durable, nextId := Wal([], map[]), Wal([], map[]), 1;
      points := [Point(Wal([], map[]), [])];
      new;
      FitSnoc(ledger.codec, [], points[0]);
      assert points == [] + [points[0]];
    }

    /** A new process opens both files, as any crash may have left them (see FitsAt). */
    constructor Open(ledger: LedgerStore, file: Wal, nextId: nat)
      requires Sound(ledger.codec) && ledger.rows == ledger.durable
      requires Fits(ledger.codec, file, ledger.rows) && AllBelow(file.pending, nextId)
      ensures Valid() && this.ledger == ledger && working == durable == file
    {
      this.ledger := ledger;
      working, durable, this.nextId := file, file, nextId;
      points := [Point(file, ledger.rows)];
      new;
      FitSnoc(ledger.codec, [], points[0]);
      GrowSnoc([], points[0]);
      assert points == [] + [points[0]];
    }

    method Stage(e: string, payload: Payload) returns (r: Result<()>)
      requires Valid()
      modifies this
      ensures Valid() && ledger.rows == old(ledger.rows)
      ensures r.Returned? <==> ledger.codec.dumps(payload).Some?
      ensures r.Returned? ==> durable == working && StagedIds(durable) == StagedIds(old(durable)) + {e}
      ensures r.Returned? && !(e in old(working).settled || IsPending(old(working), e)) ==>
        && working == Wal(old(working).pending + [Staged(old(nextId), e, ledger.codec.dumps(payload).value)], old(working).settled)
        && nextId == old(nextId) + 1
      ensures r.Returned? && (e in old(working).settled || IsPending(old(working), e)) ==>
        working == old(working) && nextId == old(nextId)
      ensures r.Raised? ==> working == old(working) && durable == old(durable) && nextId == old(nextId)
      ensures JamsStay(old(working), old(ledger.rows), working, ledger.rows)
    {
      if ledger.codec.dumps(payload).None? {
        return Raised;
      }
      var text := ledger.codec.dumps(payload).value;
      assert Rereadable(ledger.codec, payload);
      IdsExactly(working, ledger.rows, e);
      InsertFits(ledger.codec, working, ledger.rows, nextId, e, text);
      InsertDrawn(working, nextId, e, text);
      var inserted := e !in StagedIds(working);
      CommitKeepsFiles(ledger.codec, working, Insert(working, nextId, e, text), durable, ledger.rows, points,
                       nextId, if inserted then nextId + 1 else nextId);
      working := Insert(working, nextId, e, text);
      nextId := if inserted then nextId + 1 else nextId;
      durable := working;
      points := points + [Point(durable, ledger.rows)];
      return Returned(());
    }

    /** A pending row is decoded and appended, and the ledger's file has it. */
    method AppendToLedger(e: string) returns (ok: bool)
      requires Valid() && e in PendingIds(working.pending)
      modifies this`points, ledger
      ensures Valid()
      ensures Rewrite(ledger.codec, TextOf(working.pending, e)).Some?
      ensures ok <==> e !in LedgerIds(old(ledger.rows))
      ensures ok ==> ledger.rows == old(ledger.rows) + [PendingRow(ledger.codec, working, old(ledger.rows), e)]
      ensures ok ==> BothFit(ledger.codec, Mark(working, e), durable, ledger.rows)
      ensures !ok ==> ledger.rows == old(ledger.rows)
    {
      TextOfFits(ledger.codec, working.pending, e);
      var payload := ledger.codec.loads(TextOf(working.pending, e)).value;
      ghost var l := ledger.rows;
      ok := ledger.Append(e, payload);
      if ok {
        AppendKeepsFiles(ledger.codec, working, durable, l, points, nextId, e);
        points := points + [Point(durable, ledger.durable)];
      }
    }

    /** A pending row is appended (and committed) and marked (and the mark not yet committed). */
    method AppendPending(e: string) returns (ok: bool)
      requires Valid() && e in PendingIds(working.pending)
      modifies this`working, this`points, ledger
      ensures Valid()
      ensures Rewrite(ledger.codec, TextOf(old(working).pending, e)).Some?
      ensures ok <==> e !in LedgerIds(old(ledger.rows))
      ensures ok ==>
        && working == Mark(old(working), e)
        && ledger.rows == old(ledger.rows) + [PendingRow(ledger.codec, old(working), old(ledger.rows), e)]
      ensures !ok ==> working == old(working) && ledger.rows == old(ledger.rows)
    {
      ok := AppendToLedger(e);
      if ok {
        MarkKeepsFiles(ledger.codec, working, durable, ledger.rows, points, nextId, e);
        working := Mark(working, e);
      }
    }

    /** The commit of the WAL's connection. */
    method CommitMarks()
      requires Valid()
      modifies this`durable, this`points
      ensures Valid() && durable == working
    {
      CommitKeepsFiles(ledger.codec, working, working, durable, ledger.rows, points, nextId, nextId);
      durable := working;
      points := points + [Point(durable, ledger.rows)];
    }

    /** `commit`: nothing for an event that is not pending; raises exactly for one that is jammed. */
    method Commit(e: string) returns (r: Result<()>)
      requires Valid()
      modifies this, ledger
      ensures Valid()
      ensures r.Raised? <==> Jammed(old(working), old(ledger.rows), e)
      ensures r.Returned? && e in PendingIds(old(working).pending) ==>
        && durable == working == Mark(old(working), e)
        && Rewrite(ledger.codec, TextOf(old(working).pending, e)).Some?
        && ledger.rows == old(ledger.rows) + [PendingRow(ledger.codec, old(working), old(ledger.rows), e)]
      ensures r.Raised? || e !in PendingIds(old(working).pending) ==> working == old(working) && ledger.rows == old(ledger.rows)
      ensures r.Raised? <==> IsPending(old(working), e) && InLedger(old(ledger.rows), e)
      ensures r.Returned? && IsPending(old(working), e) ==>
        CommitMeans(ledger.codec, old(working), old(ledger.rows), e, working, ledger.rows)
      ensures !IsPending(old(working), e) ==> working == old(working) && ledger.rows == old(ledger.rows)
      ensures JamsStay(old(working), old(ledger.rows), working, ledger.rows)
    {
      IdsExactly(working, ledger.rows, e);
      if e !in PendingIds(working.pending) {
        return Returned(());
      }
      var ok := AppendPending(e);
      if !ok {
        return Raised;
      }
      MarkLeavesJams(old(working), old(ledger.rows), e, ledger.rows);
      CommitMarks();
      CommitIsMeant(ledger.codec, old(working), old(ledger.rows), e);
      return Returned(());
    }

    /** One turn of the replay loop. */
    method ReplayOne(row: Staged) returns (ok: bool)
      requires Valid() && working.pending != [] && row == working.pending[0]
      modifies this`working, this`points, ledger
      ensures Valid()
      ensures Rewrite(ledger.codec, row.text).Some?
      ensures ok <==> row.eventId !in LedgerIds(old(ledger.rows))
      ensures ok ==>
        && working == Wal(old(working).pending[1..], old(working).settled[row.eventId := row.text])
        && ledger.rows == old(ledger.rows) + [NextRow(ledger.codec.hash, Head(old(ledger.rows)), row.eventId,
                                                     Rewrite(ledger.codec, row.text).value)]
      ensures !ok ==> working == old(working) && ledger.rows == old(ledger.rows)
    {
      TextOfRow(working.pending, row);
      MarkFirst(working);
      ok := AppendPending(row.eventId);
    }

    /** The loop of the replay, up to the first row that raises. */
    method ReplayRows(rows: seq<Staged>) returns (ok: bool, ghost done: nat)
      requires Valid() && rows == working.pending
      modifies this`working, this`points, ledger
      ensures Valid()
      ensures ReplayedTo(ledger.codec, old(working), old(ledger.rows), done, working, ledger.rows)
      ensures ok <==> done == |rows|
      ensures done < |rows| ==> rows[done].eventId in LedgerIds(ledger.rows)
    {
      ghost var w, l := working, ledger.rows;
      ReplayStarts(ledger.codec, w, l);
      for i := 0 to |rows|
        invariant Valid()
        invariant ReplayedTo(ledger.codec, w, l, i, working, ledger.rows)
      {
        ok := ReplayOne(rows[i]);
        if !ok {
          return false, i;
        }
        ReplayGoesOn(ledger.codec, w, l, i, working, ledger.rows);
      }
      return true, |rows|;
    }

    /** `replay_pending`: it appends and marks the pending rows in id order up to the first jammed one, and
      * returns exactly when there is none; only then are the marks committed.
      */
    method ReplayPending() returns (r: Result<nat>)
      requires Valid()
      modifies this, ledger
      ensures Valid()
      ensures var p, i := old(working).pending, FirstJam(old(working).pending, old(ledger.rows));
              && i <= |p| && TextsFit(ledger.codec, p[..i])
              && ledger.rows == Replayed(ledger.codec, old(ledger.rows), p[..i])
              && working == Wal(p[i..], Marked(old(working).settled, p[..i]))
              && r == (if i == |p| then Returned(|p|) else Raised)
              && durable == (if i == |p| then working else old(durable))
      ensures ReplayMeans(ledger.codec, old(working), old(ledger.rows), FirstJam(old(working).pending, old(ledger.rows)),
                          working, ledger.rows)
      ensures r.Returned? <==> forall e :: !Jammed(old(working), old(ledger.rows), e)
      ensures JamsStay(old(working), old(ledger.rows), working, ledger.rows)
    {
      ghost var w, l := working, ledger.rows;
      SortedIsById(working.pending);
      var rows := ById(working.pending);
      var ok, done := ReplayRows(rows);
      ReplayEnds(ledger.codec, w, l, done, working, ledger.rows);
      ReplayIsMeant(ledger.codec, w, l, done, working, ledger.rows);
      if !ok {
        return Raised;
      }
      CommitMarks();
      return Returned(|rows|);
    }

    /** The process dies: the marks that were not committed are gone, the ledger rows are not. */
    method CrashAndReopen()
      requires Valid()
      modifies this
      ensures Valid() && working == durable == old(durable) && ledger.rows == old(ledger.rows)
      ensures JamsStay(old(working), old(ledger.rows), working, ledger.rows)
    {
      working := durable;
    }
  }
}
