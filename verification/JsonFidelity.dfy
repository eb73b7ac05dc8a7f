/** Exactly when a payload survives `dumps`, `loads` and `dumps` again.
  *
  * Two conditions a caller can check decide it. The value survives when no string of it holds a
  * high surrogate followed by a low one. The text survives when every dict's keys, sorted as
  * written, are still in strictly increasing order once such pairs are read as one code point.
  */
module JsonFidelity {
  import opened Wrappers
  import opened Json
  import opened JsonRoundTrip

  // ------------------------------------------------------------------ key order

  predicate KeySorted(v: Value) {
    match v
    case List(items) => KeySortedItems(items)
    case Dict(members) => KeySortedMembers(members)
    case _ => true
  }

  predicate KeySortedItems(vs: seq<Value>) {
    vs == [] || (KeySorted(vs[0]) && KeySortedItems(vs[1..]))
  }

  predicate Below(k: Str, ms: seq<Member>) {
    forall i :: 0 <= i < |ms| ==> Less(k, ms[i].key)
  }

  predicate KeySortedMembers(ms: seq<Member>) {
    ms == [] || (KeySorted(ms[0].value) && Below(ms[0].key, ms[1..]) && KeySortedMembers(ms[1..]))
  }

  lemma {:induction false} LessIsStrictOrder(a: Str, b: Str, c: Str)
    ensures !Less(a, a)
    ensures Less(a, b) && Less(b, c) ==> Less(a, c)
    ensures Less(a, b) || a == b || Less(b, a)
    decreases |a| + |b| + |c|
  {
    if a != [] && b != [] && c != [] {
      LessIsStrictOrder(a[1..], b[1..], c[1..]);
      assert a == [a[0]] + a[1..] && b == [b[0]] + b[1..];
    } else if a != [] && b != [] {
      LessIsStrictOrder(a[1..], b[1..], []);
      assert a == [a[0]] + a[1..] && b == [b[0]] + b[1..];
    } else if a != [] {
      LessIsStrictOrder(a[1..], [], []);
    }
  }

  lemma {:induction false} InsertKeepsKeys(m: Member, ms: seq<Member>, k: Str)
    ensures HasKey(InsertMember(m, ms), k) <==> m.key == k || HasKey(ms, k)
  {
    if ms == [] || Less(m.key, ms[0].key) {
      HasKeyCons(m, ms, k);
    } else {
      InsertKeepsKeys(m, ms[1..], k);
      HasKeyCons(ms[0], InsertMember(m, ms[1..]), k);
      HasKeyCons(ms[0], ms[1..], k);
      assert ms == [ms[0]] + ms[1..];
    }
  }

  lemma HasKeyCons(m: Member, ms: seq<Member>, k: Str)
    ensures HasKey([m] + ms, k) <==> m.key == k || HasKey(ms, k)
  {
    if HasKey(ms, k) {
      var i :| 0 <= i < |ms| && ms[i].key == k;
      assert ([m] + ms)[i + 1].key == k;
    }
    if m.key == k {
      assert ([m] + ms)[0].key == k;
    }
  }

  lemma {:induction false} InsertKeepsBelow(m: Member, ms: seq<Member>, k: Str)
    ensures Below(k, InsertMember(m, ms)) <==> Less(k, m.key) && Below(k, ms)
  {
    if ms == [] || Less(m.key, ms[0].key) {
      BelowCons(m, ms, k);
    } else {
      InsertKeepsBelow(m, ms[1..], k);
      BelowCons(ms[0], InsertMember(m, ms[1..]), k);
      BelowCons(ms[0], ms[1..], k);
      assert ms == [ms[0]] + ms[1..];
    }
  }

  lemma BelowCons(m: Member, ms: seq<Member>, k: Str)
    ensures Below(k, [m] + ms) <==> Less(k, m.key) && Below(k, ms)
  {
    if Below(k, [m] + ms) {
      assert ([m] + ms)[0] == m;
      assert forall i :: 0 <= i < |ms| ==> ms[i] == ([m] + ms)[i + 1];
    }
  }

  lemma {:induction false} InsertKeepsSorted(m: Member, ms: seq<Member>)
    requires KeySorted(m.value) && KeySortedMembers(ms) && !HasKey(ms, m.key)
    ensures KeySortedMembers(InsertMember(m, ms))
  {
    if ms == [] {
    } else if Less(m.key, ms[0].key) {
      forall i | 0 <= i < |ms| ensures Less(m.key, ms[i].key) {
        if i > 0 {
          assert ms[i] == ms[1..][i - 1];
          LessIsStrictOrder(m.key, ms[0].key, ms[i].key);
        }
      }
    } else {
      HasKeyCons(ms[0], ms[1..], m.key);
      assert ms == [ms[0]] + ms[1..];
      LessIsStrictOrder(m.key, ms[0].key, m.key);
      InsertKeepsSorted(m, ms[1..]);
      InsertKeepsBelow(m, ms[1..], ms[0].key);
    }
  }

  lemma {:induction false} SortKeepsKeys(ms: seq<Member>, k: Str)
    ensures HasKey(SortMembers(ms), k) <==> HasKey(ms, k)
  {
    if ms != [] {
      var m := Member(ms[0].key, SortKeys(ms[0].value));
      SortKeepsKeys(ms[1..], k);
      InsertKeepsKeys(m, SortMembers(ms[1..]), k);
      HasKeyCons(ms[0], ms[1..], k);
      assert ms == [ms[0]] + ms[1..];
    }
  }

  /** Sorting does sort, as the keys of a dict are distinct. */
  lemma {:induction false} SortKeysSorts(v: Value)
    requires WellFormed(v)
    ensures KeySorted(SortKeys(v))
    decreases v, 1
  {
    match v
    case List(items) => SortItemsSorts(items);
    case Dict(members) => SortMembersSorts(members);
    case _ =>
  }

  lemma {:induction false} SortItemsSorts(vs: seq<Value>)
    requires WellFormedItems(vs)
    ensures KeySortedItems(SortItems(vs))
    decreases vs, 0
  {
    if vs != [] {
      SortKeysSorts(vs[0]);
      SortItemsSorts(vs[1..]);
    }
  }

  lemma {:induction false} SortMembersSorts(ms: seq<Member>)
    requires WellFormedMembers(ms)
    ensures KeySortedMembers(SortMembers(ms))
    decreases ms, 0
  {
    if ms != [] {
      SortKeysSorts(ms[0].value);
      SortMembersSorts(ms[1..]);
      SortKeepsKeys(ms[1..], ms[0].key);
      InsertKeepsSorted(Member(ms[0].key, SortKeys(ms[0].value)), SortMembers(ms[1..]));
    }
  }

  /** What is sorted already is left alone, by the sort and by the building of dicts. */
  lemma {:induction false} SortedIsFixed(v: Value)
    requires KeySorted(v)
    ensures SortKeys(v) == v && ToDicts(v) == v
    decreases v, 1
  {
    match v
    case List(items) => SortedItemsAreFixed(items);
    case Dict(members) =>
      SortedMembersAreFixed(members);
      SortedPutAll(members);
    case _ =>
  }

  lemma {:induction false} SortedItemsAreFixed(vs: seq<Value>)
    requires KeySortedItems(vs)
    ensures SortItems(vs) == vs && ToDictsItems(vs) == vs
    decreases vs, 0
  {
    if vs != [] {
      SortedIsFixed(vs[0]);
      SortedItemsAreFixed(vs[1..]);
    }
  }

  lemma {:induction false} SortedMembersAreFixed(ms: seq<Member>)
    requires KeySortedMembers(ms)
    ensures SortMembers(ms) == ms && ToDictsMembers(ms) == ms
    decreases ms, 0
  {
    if ms != [] {
      SortedIsFixed(ms[0].value);
      SortedMembersAreFixed(ms[1..]);
      if |ms| > 1 {
        assert ms[1..][0] == ms[1];
      }
    }
  }

  lemma {:induction false} PutFresh(ms: seq<Member>, m: Member)
    requires !HasKey(ms, m.key)
    ensures Put(ms, m) == ms + [m]
  {
    if ms != [] {
      HasKeyCons(ms[0], ms[1..], m.key);
      assert ms == [ms[0]] + ms[1..];
      PutFresh(ms[1..], m);
    }
  }

  lemma {:induction false} SortedPairs(ms: seq<Member>, i: nat, j: nat)
    requires KeySortedMembers(ms) && i < j < |ms|
    ensures Less(ms[i].key, ms[j].key)
  {
    if i == 0 {
      assert ms[j] == ms[1..][j - 1];
    } else {
      SortedPairs(ms[1..], i - 1, j - 1);
    }
  }

  lemma SortedPutAll(ms: seq<Member>)
    requires KeySortedMembers(ms)
    ensures PutAll(ms) == ms
  {
    forall i, j | 0 <= i < j < |ms| ensures ms[i].key != ms[j].key {
      SortedPairs(ms, i, j);
      LessIsStrictOrder(ms[i].key, ms[j].key, []);
    }
    DistinctPutAll(ms);
  }

  lemma {:induction false} DistinctPutAll(ms: seq<Member>)
    requires forall i, j :: 0 <= i < j < |ms| ==> ms[i].key != ms[j].key
    ensures PutAll(ms) == ms
  {
    if ms != [] {
      var init := ms[..|ms| - 1];
      DistinctPutAll(init);
      PutFresh(init, ms[|ms| - 1]);
      assert ms == init + [ms[|ms| - 1]];
    }
  }

  // ------------------------------------------------------------------ split surrogate pairs

  /** No string inside the value, key or not, holds a high surrogate followed by a low one. */
  predicate Unsplit(v: Value) {
    match v
    case String(s) => NoSplitPair(s)
    case List(items) => UnsplitItems(items)
    case Dict(members) => UnsplitMembers(members)
    case _ => true
  }

  predicate UnsplitItems(vs: seq<Value>) {
    vs == [] || (Unsplit(vs[0]) && UnsplitItems(vs[1..]))
  }

  predicate UnsplitMembers(ms: seq<Member>) {
    ms == [] || (NoSplitPair(ms[0].key) && Unsplit(ms[0].value) && UnsplitMembers(ms[1..]))
  }

  lemma {:induction false} JoinStrFixed(s: Str)
    ensures NoSplitPair(s) <==> JoinStr(s) == s
    ensures NoSplitPair(JoinStr(s))
    ensures JoinStr(s) != [] ==> (IsLow(JoinStr(s)[0]) ==> JoinStr(s)[0] == s[0])
    ensures |JoinStr(s)| <= |s|
    decreases |s|
  {
    if |s| >= 2 && IsHigh(s[0]) && IsLow(s[1]) {
      JoinStrFixed(s[2..]);
      assert !NoSplitPair(s) by {
        assert IsHigh(s[0]) && IsLow(s[0 + 1]);
      }
    } else if s != [] {
      JoinStrFixed(s[1..]);
      assert NoSplitPair(s) ==> NoSplitPair(s[1..]) by {
        forall i | 0 <= i < |s[1..]| - 1 ensures NoSplitPair(s) ==> !(IsHigh(s[1..][i]) && IsLow(s[1..][i + 1])) {
          assert s[1..][i] == s[i + 1] && s[1..][i + 1] == s[i + 1 + 1];
        }
      }
      assert s == [s[0]] + s[1..];
      assert forall i :: 0 < i < |s| ==> s[i] == s[1..][i - 1];
    }
  }

  lemma {:induction false} JoinFixed(v: Value)
    ensures Unsplit(v) <==> Join(v) == v
    ensures Unsplit(Join(v))
    decreases v, 1
  {
    match v
    case String(s) => JoinStrFixed(s);
    case List(items) => JoinItemsFixed(items);
    case Dict(members) => JoinMembersFixed(members);
    case _ =>
  }

  lemma {:induction false} JoinItemsFixed(vs: seq<Value>)
    ensures UnsplitItems(vs) <==> JoinItems(vs) == vs
    ensures UnsplitItems(JoinItems(vs))
    decreases vs, 0
  {
    if vs != [] {
      JoinFixed(vs[0]);
      JoinItemsFixed(vs[1..]);
      assert vs == [vs[0]] + vs[1..];
      assert JoinItems(vs)[1..] == JoinItems(vs[1..]);
    }
  }

  lemma {:induction false} JoinMembersFixed(ms: seq<Member>)
    ensures UnsplitMembers(ms) <==> JoinMembers(ms) == ms
    ensures UnsplitMembers(JoinMembers(ms))
    decreases ms, 0
  {
    if ms != [] {
      JoinStrFixed(ms[0].key);
      JoinFixed(ms[0].value);
      JoinMembersFixed(ms[1..]);
      assert ms == [ms[0]] + ms[1..];
      assert JoinMembers(ms)[1..] == JoinMembers(ms[1..]);
      assert JoinMembers(ms)[0] == Member(JoinStr(ms[0].key), Join(ms[0].value));
    }
  }

  // ------------------------------------------------------------------ what sorting and dict building keep

  lemma {:induction false} InsertElements(m: Member, ms: seq<Member>, x: Member)
    ensures x in InsertMember(m, ms) <==> x == m || x in ms
  {
    if !(ms == [] || Less(m.key, ms[0].key)) {
      InsertElements(m, ms[1..], x);
      assert ms == [ms[0]] + ms[1..];
    }
  }

  lemma {:induction false} PutElements(ms: seq<Member>, m: Member, x: Member)
    ensures x in Put(ms, m) ==> x == m || x in ms
    ensures HasKey(Put(ms, m), x.key) <==> x.key == m.key || HasKey(ms, x.key)
  {
    if ms == [] {
      HasKeyCons(m, [], x.key);
    } else {
      assert ms == [ms[0]] + ms[1..];
      HasKeyCons(ms[0], ms[1..], x.key);
      if ms[0].key == m.key {
        HasKeyCons(m, ms[1..], x.key);
      } else {
        PutElements(ms[1..], m, x);
        HasKeyCons(ms[0], Put(ms[1..], m), x.key);
      }
    }
  }

  lemma {:induction false} PutAllElements(ms: seq<Member>, x: Member)
    ensures x in PutAll(ms) ==> x in ms
  {
    if ms != [] {
      PutAllElements(ms[..|ms| - 1], x);
      PutElements(PutAll(ms[..|ms| - 1]), ms[|ms| - 1], x);
    }
  }

  lemma {:induction ms} EncodableIn(ms: seq<Member>)
    ensures EncodableMembers(ms) <==> forall m :: m in ms ==> Encodable(m.value)
  {
    if ms != [] {
      assert ms == [ms[0]] + ms[1..];
    }
  }

  lemma {:induction ms} UnsplitIn(ms: seq<Member>)
    ensures UnsplitMembers(ms) <==> forall m :: m in ms ==> NoSplitPair(m.key) && Unsplit(m.value)
  {
    if ms != [] {
      assert ms == [ms[0]] + ms[1..];
    }
  }

  lemma {:induction false} SortKeeps(v: Value)
    ensures Unsplit(SortKeys(v)) <==> Unsplit(v)
    ensures Encodable(SortKeys(v)) <==> Encodable(v)
    decreases v, 1
  {
    match v
    case List(items) => SortItemsKeeps(items);
    case Dict(members) => SortMembersKeeps(members);
    case _ =>
  }

  lemma {:induction false} SortItemsKeeps(vs: seq<Value>)
    ensures UnsplitItems(SortItems(vs)) <==> UnsplitItems(vs)
    ensures EncodableItems(SortItems(vs)) <==> EncodableItems(vs)
    decreases vs, 0
  {
    if vs != [] {
      SortKeeps(vs[0]);
      SortItemsKeeps(vs[1..]);
    }
  }

  lemma {:induction false} SortMembersKeeps(ms: seq<Member>)
    ensures UnsplitMembers(SortMembers(ms)) <==> UnsplitMembers(ms)
    ensures EncodableMembers(SortMembers(ms)) <==> EncodableMembers(ms)
    decreases ms, 0
  {
    if ms != [] {
      var m, rest := Member(ms[0].key, SortKeys(ms[0].value)), SortMembers(ms[1..]);
      SortKeeps(ms[0].value);
      SortMembersKeeps(ms[1..]);
      forall x ensures x in InsertMember(m, rest) <==> x == m || x in rest {
        InsertElements(m, rest, x);
      }
      EncodableIn(InsertMember(m, rest));
      EncodableIn(rest);
      UnsplitIn(InsertMember(m, rest));
      UnsplitIn(rest);
    }
  }

  lemma {:induction false} ToDictsKeeps(v: Value)
    ensures WellFormed(ToDicts(v))
    ensures Unsplit(v) ==> Unsplit(ToDicts(v))
    ensures Encodable(v) ==> Encodable(ToDicts(v))
    decreases v, 1
  {
    match v
    case List(items) => ToDictsItemsKeeps(items);
    case Dict(members) =>
      var ms := ToDictsMembers(members);
      ToDictsMembersKeeps(members);
      PutAllWellFormed(ms);
      forall x ensures x in PutAll(ms) ==> x in ms {
        PutAllElements(ms, x);
      }
      EncodableIn(PutAll(ms));
      EncodableIn(ms);
      UnsplitIn(PutAll(ms));
      UnsplitIn(ms);
    case _ =>
  }

  lemma {:induction false} ToDictsItemsKeeps(vs: seq<Value>)
    ensures WellFormedItems(ToDictsItems(vs))
    ensures UnsplitItems(vs) ==> UnsplitItems(ToDictsItems(vs))
    ensures EncodableItems(vs) ==> EncodableItems(ToDictsItems(vs))
    decreases vs, 0
  {
    if vs != [] {
      ToDictsKeeps(vs[0]);
      ToDictsItemsKeeps(vs[1..]);
    }
  }

  lemma {:induction false} ToDictsMembersKeeps(ms: seq<Member>)
    ensures forall m :: m in ToDictsMembers(ms) ==> WellFormed(m.value)
    ensures UnsplitMembers(ms) ==> UnsplitMembers(ToDictsMembers(ms))
    ensures EncodableMembers(ms) ==> EncodableMembers(ToDictsMembers(ms))
    decreases ms, 0
  {
    if ms != [] {
      ToDictsKeeps(ms[0].value);
      ToDictsMembersKeeps(ms[1..]);
    }
  }

  lemma {:induction false} PutWellFormed(ms: seq<Member>, m: Member)
    requires WellFormedMembers(ms) && WellFormed(m.value)
    ensures WellFormedMembers(Put(ms, m))
  {
    if ms == [] {
    } else if ms[0].key == m.key {
    } else {
      PutWellFormed(ms[1..], m);
      PutElements(ms[1..], m, ms[0]);
    }
  }

  lemma {:induction false} PutAllWellFormed(ms: seq<Member>)
    requires forall m :: m in ms ==> WellFormed(m.value)
    ensures WellFormedMembers(PutAll(ms))
  {
    if ms != [] {
      PutAllWellFormed(ms[..|ms| - 1]);
      PutWellFormed(PutAll(ms[..|ms| - 1]), ms[|ms| - 1]);
    }
  }

  lemma {:induction false} JoinKeepsEncodable(v: Value)
    ensures Encodable(Join(v)) <==> Encodable(v)
    decreases v, 1
  {
    match v
    case List(items) => JoinItemsKeepsEncodable(items);
    case Dict(members) => JoinMembersKeepsEncodable(members);
    case _ =>
  }

  lemma {:induction false} JoinItemsKeepsEncodable(vs: seq<Value>)
    ensures EncodableItems(JoinItems(vs)) <==> EncodableItems(vs)
    decreases vs, 0
  {
    if vs != [] {
      JoinKeepsEncodable(vs[0]);
      JoinItemsKeepsEncodable(vs[1..]);
    }
  }

  lemma {:induction false} JoinMembersKeepsEncodable(ms: seq<Member>)
    ensures EncodableMembers(JoinMembers(ms)) <==> EncodableMembers(ms)
    decreases ms, 0
  {
    if ms != [] {
      JoinKeepsEncodable(ms[0].value);
      JoinMembersKeepsEncodable(ms[1..]);
    }
  }

  // ------------------------------------------------------------------ printing does not see the split

  lemma {:induction false} EscapeAllJoins(s: Str)
    ensures EscapeAll(JoinStr(s)) == EscapeAll(s)
    decreases |s|
  {
    if |s| >= 2 && IsHigh(s[0]) && IsLow(s[1]) {
      var c := Combine(s[0], s[1]);
      EscapeAllJoins(s[2..]);
      assert s[1..][1..] == s[2..] && s[1..][0] == s[1];
      assert HighHalf(c) == s[0] && LowHalfOf(c) == s[1];
      assert EscapeAll(s) == Escape(s[0]) + (Escape(s[1]) + EscapeAll(s[2..]));
      assert Escape(c) == Escape(s[0]) + Escape(s[1]);
      assert ([c] + JoinStr(s[2..]))[1..] == JoinStr(s[2..]);
    } else if s != [] {
      EscapeAllJoins(s[1..]);
      assert ([s[0]] + JoinStr(s[1..]))[1..] == JoinStr(s[1..]);
    }
  }

  lemma {:induction false} PrintJoins(v: Value)
    ensures Print(Join(v)) == Print(v)
    decreases v, 1
  {
    match v
    case String(s) => EscapeAllJoins(s);
    case List(items) => PrintItemsJoins(items);
    case Dict(members) => PrintMembersJoins(members);
    case _ =>
  }

  lemma {:induction false} PrintItemsJoins(vs: seq<Value>)
    ensures PrintItems(JoinItems(vs)) == PrintItems(vs)
    ensures |JoinItems(vs)| == |vs|
    decreases vs, 0
  {
    if vs != [] {
      PrintJoins(vs[0]);
      PrintItemsJoins(vs[1..]);
      assert JoinItems(vs)[1..] == JoinItems(vs[1..]);
    }
  }

  lemma {:induction false} PrintMembersJoins(ms: seq<Member>)
    ensures PrintMembers(JoinMembers(ms)) == PrintMembers(ms)
    ensures |JoinMembers(ms)| == |ms|
    decreases ms, 0
  {
    if ms != [] {
      EscapeAllJoins(ms[0].key);
      PrintJoins(ms[0].value);
      PrintMembersJoins(ms[1..]);
      assert JoinMembers(ms)[1..] == JoinMembers(ms[1..]);
    }
  }

  // ------------------------------------------------------------------ the results

  /** What a reader of the printed text sees: keys in order, pairs joined. */
  function AsRead(v: Value): Value { Join(SortKeys(v)) }

  lemma LoadsPrinted(v: Value)
    requires Encodable(v)
    ensures Loads(Print(v)) == Some(ToDicts(Join(v)))
  {
    FirstChar(v);
    NotSpace(Print(v));
    assert Print(v) + "" == Print(v);
    ValueRoundTrip(v, "");
  }

  lemma LoadsOfDumps(v: Value)
    requires Encodable(v)
    ensures Dumps(v).Some? && Loads(Dumps(v).value) == Some(ToDicts(AsRead(v)))
  {
    SortKeeps(v);
    LoadsPrinted(SortKeys(v));
  }

  /** Two values with one text differ at most in split pairs. */
  lemma PrintIsInjective(v: Value, w: Value)
    requires Encodable(v) && Encodable(w) && Print(v) == Print(w)
    ensures Join(v) == Join(w)
  {
    ValueRoundTrip(v, "");
    ValueRoundTrip(w, "");
    assert Print(v) + "" == Print(w) + "";
  }

  /** Staged text never stops recovery: it decodes, and what it decodes to encodes. */
  lemma StagedTextRedumps(v: Value)
    requires Encodable(v)
    ensures Redump(Dumps(v).value).Some? && JsonText(Dumps(v).value)
  {
    LoadsOfDumps(v);
    SortKeeps(v);
    JoinKeepsEncodable(SortKeys(v));
    ToDictsKeeps(AsRead(v));
  }

  /** Equality of Python values: the order of a dict's keys does not count. */
  predicate SameValue(v: Value, w: Value) { SortKeys(v) == SortKeys(w) }

  /** The value comes back exactly when no string of it holds a split surrogate pair. */
  lemma ValueFidelity(v: Value)
    requires WellFormed(v) && Encodable(v)
    ensures var back := Loads(Dumps(v).value);
            back.Some? && (SameValue(back.value, v) <==> Unsplit(v))
  {
    LoadsOfDumps(v);
    var w, u := AsRead(v), ToDicts(AsRead(v));
    JoinFixed(SortKeys(v));
    ToDictsKeeps(w);
    SortKeeps(v);
    SortKeeps(u);
    if Unsplit(v) {
      SortKeysSorts(v);
      SortedIsFixed(w);
    }
  }

  /** The ledger text of a recovered payload is the staged text exactly under the second condition. */
  lemma TextFidelity(v: Value)
    requires WellFormed(v) && Encodable(v)
    ensures Redump(Dumps(v).value) == Dumps(v) <==> KeySorted(AsRead(v))
  {
    LoadsOfDumps(v);
    StagedTextRedumps(v);
    var w, u := AsRead(v), ToDicts(AsRead(v));
    JoinFixed(SortKeys(v));
    ToDictsKeeps(w);
    SortKeeps(u);
    SortKeeps(v);
    PrintJoins(SortKeys(v));
    JoinFixed(SortKeys(u));
    SortKeysSorts(u);
    if KeySorted(w) {
      SortedIsFixed(w);
    } else if Redump(Dumps(v).value) == Dumps(v) {
      PrintIsInjective(SortKeys(u), SortKeys(v));
    }
  }

  /** Enough for the text to survive: no split pair at all. */
  lemma UnsplitTextSurvives(v: Value)
    requires WellFormed(v) && Encodable(v) && Unsplit(v)
    ensures Redump(Dumps(v).value) == Dumps(v)
  {
    SortKeeps(v);
    JoinFixed(SortKeys(v));
    SortKeysSorts(v);
    TextFidelity(v);
  }

  /** A payload whose recovered ledger text differs from its staged text: reading its first key as
    * one code point moves it behind the second.
    */
  lemma SplitKeyCounterexample() returns (v: Payload)
    ensures Encodable(v) && Redump(Dumps(v).value) != Dumps(v)
  {
    var a, b := Member([0xD83D, 0xDE00], Null), Member([0xFFFF], Null);
    var ms := [a, b];
    assert ms[1..] == [b] && [b][1..] == [];
    assert !HasKey([b], a.key);
    assert WellFormedMembers([]) && EncodableMembers([]);
    assert !HasKey([], b.key) && WellFormed(b.value);
    assert WellFormedMembers([b]) && EncodableMembers([b]);
    assert WellFormedMembers(ms) && EncodableMembers(ms);
    v := Dict(ms);
    assert SortMembers([b]) == [b];
    assert Less(a.key, b.key);
    assert SortMembers(ms) == ms;
    assert a.key[2..] == [] && b.key[1..] == [];
    assert JoinStr(a.key) == [0x1F600] && JoinStr(b.key) == [0xFFFF];
    assert JoinMembers([b]) == [Member([0xFFFF], Null)];
    var joined := JoinMembers(ms);
    assert joined == [Member([0x1F600], Null), Member([0xFFFF], Null)];
    assert joined[1..][0].key == [0xFFFF];
    assert !Below(joined[0].key, joined[1..]);
    TextFidelity(v);
  }

  // ------------------------------------------------------------------ payloads that came in as JSON

  /** The reader never leaves a split pair: after a lone high surrogate no low one is read. */
  lemma {:induction false} CharsAreUnsplit(s: string)
    requires ParseChars(s).Ok?
    ensures NoSplitPair(ParseChars(s).value)
    ensures ParseChars(s).value != [] && IsLow(ParseChars(s).value[0]) ==> LowHalf(s).Some?
    decreases |s|
  {
    if s[0] != '"' {
      var c := if s[0] == '\\' then ParseEscape(s) else Ok(s[0] as int, s[1..]);
      var tail := ParseChars(c.rest).value;
      CharsAreUnsplit(c.rest);
      assert IsHigh(c.value) ==> LowHalf(c.rest).None?;
      assert ParseChars(s).value == [c.value] + tail;
      assert forall i :: 0 < i < |tail| + 1 ==> ([c.value] + tail)[i] == tail[i - 1];
    }
  }

  lemma {:induction false} ParsedIsUnsplit(s: string)
    requires ParseValue(s).Ok?
    ensures Unsplit(ParseValue(s).value)
    decreases |s|, 2
  {
    if s[0] == '"' {
      CharsAreUnsplit(s[1..]);
    } else if s[0] == '{' {
      var t := SkipSpace(s[1..]);
      if t[0] == '"' {
        MembersAreUnsplit(t[1..]);
      }
    } else if s[0] == '[' {
      var t := SkipSpace(s[1..]);
      if t[0] != ']' {
        ItemsAreUnsplit(t);
      }
    }
  }

  lemma {:induction false} ItemsAreUnsplit(s: string)
    requires ParseItems(s).Ok?
    ensures UnsplitItems(ParseItems(s).value)
    decreases |s|, 3
  {
    ParsedIsUnsplit(s);
    var t := SkipSpace(ParseValue(s).rest);
    if t[0] == ',' {
      ItemsAreUnsplit(SkipSpace(t[1..]));
    }
  }

  lemma {:induction false} MembersAreUnsplit(s: string)
    requires ParseMembers(s).Ok?
    ensures UnsplitMembers(ParseMembers(s).value)
    decreases |s|, 1
  {
    CharsAreUnsplit(s);
    var colon := SkipSpace(ParseChars(s).rest);
    var value := SkipSpace(colon[1..]);
    ParsedIsUnsplit(value);
    var t := SkipSpace(ParseValue(value).rest);
    if t[0] == ',' {
      MembersAreUnsplit(SkipSpace(t[1..])[1..]);
    }
  }

  /** A payload decoded from JSON text, raw surrogates excluded, is recovered with exactly the text it was staged
    * with.
    */
  lemma DecodedPayloadSurvives(text: string, v: Value)
    requires Loads(text) == Some(v) && Encodable(v)
    ensures Redump(Dumps(v).value) == Dumps(v)
  {
    ParsedIsUnsplit(SkipSpace(text));
    ToDictsKeeps(ParseValue(SkipSpace(text)).value);
    UnsplitTextSurvives(v);
  }

  /** One trip is enough: what recovery writes, a later decode and encode leaves alone. */
  lemma RedumpSettles(text: string)
    requires Redump(text).Some?
    ensures Redump(Redump(text).value) == Redump(text)
  {
    DecodedPayloadSurvives(text, Loads(text).value);
  }
}
