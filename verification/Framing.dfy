/** Why `prev|event_id|payload` can be taken apart again although event ids and strings hold `|`.
  *
  * In JSON text a `|` only stands inside a string literal. So a shorter payload that started after
  * such a `|` would be read once from outside a string and once from inside one, and could not be
  * complete both ways: quotes keep the two readings opposite, and a backslash kills one of them.
  */
module Framing {
  import opened Wrappers
  import opened Json
  import opened JsonRoundTrip
  import opened JsonFidelity
  import opened HashChain

  // ------------------------------------------------------------------ where a reader of JSON text is

  datatype Place = Outside | Inside | Escaped | Nowhere

  function Step(p: Place, c: char): Place {
    match p
    case Outside => if c == '"' then Place.Inside else if c == '\\' || c == '|' then Nowhere else Outside
    case Inside => if c == '"' then Outside else if c == '\\' then Escaped else Place.Inside
    case Escaped => if c == '|' then Nowhere else Place.Inside
    case Nowhere => Nowhere
  }

  function Walk(p: Place, s: string): Place
    decreases s
  {
    if s == "" then p else Walk(Step(p, s[0]), s[1..])
  }

  lemma {:induction false} WalkConcat(p: Place, s: string, t: string)
    ensures Walk(p, s + t) == Walk(Walk(p, s), t)
    decreases s
  {
    if s == "" {
      assert s + t == t;
    } else {
      assert (s + t)[1..] == s[1..] + t;
      WalkConcat(Step(p, s[0]), s[1..], t);
    }
  }

  lemma {:induction false} NowhereStays(s: string)
    ensures Walk(Nowhere, s) == Nowhere
  {
    if s != "" {
      NowhereStays(s[1..]);
    }
  }

  /** No text is complete both from outside and from inside a string literal. */
  lemma {:induction false} NotBothWays(s: string)
    ensures !(Walk(Outside, s) == Outside && Walk(Place.Inside, s) == Outside)
  {
    if s != "" {
      if s[0] == '\\' || s[0] == '|' {
        NowhereStays(s[1..]);
      } else {
        NotBothWays(s[1..]);
      }
    }
  }

  // ------------------------------------------------------------------ what the reader accepts is well placed

  lemma {:induction false} SpaceWalks(s: string)
    ensures Walk(Outside, s) == Walk(Outside, SkipSpace(s))
  {
    if s != "" && IsSpace(s[0]) {
      SpaceWalks(s[1..]);
    }
  }

  predicate Plain(c: char) { c != '"' && c != '\\' && c != '|' }

  lemma {:induction false} PlainWalks(s: string, n: nat)
    requires n <= |s| && forall i :: 0 <= i < n ==> Plain(s[i])
    ensures Walk(Outside, s) == Walk(Outside, s[n..])
  {
    if n > 0 {
      PlainWalks(s[1..], n - 1);
      assert s[1..][n - 1..] == s[n..];
    }
  }

  lemma {:induction false} InsideWalks(s: string, n: nat)
    requires n <= |s| && forall i :: 0 <= i < n ==> s[i] != '"' && s[i] != '\\'
    ensures Walk(Place.Inside, s) == Walk(Place.Inside, s[n..])
  {
    if n > 0 {
      InsideWalks(s[1..], n - 1);
      assert s[1..][n - 1..] == s[n..];
    }
  }

  lemma Hex4Walks(s: string)
    requires ParseHex4(s).Some?
    ensures Walk(Place.Inside, s) == Walk(Place.Inside, s[4..])
  {
    InsideWalks(s, 4);
  }

  lemma EscapeUWalks(s: string)
    requires |s| >= 6 && s[0] == '\\' && s[1] == 'u' && ParseHex4(s[2..]).Some?
    ensures Walk(Place.Inside, s) == Walk(Place.Inside, s[6..])
  {
    assert s[1..][1..] == s[2..];
    Hex4Walks(s[2..]);
    assert s[2..][4..] == s[6..];
  }

  lemma EscapeWalks(s: string)
    requires s != "" && s[0] == '\\' && ParseEscape(s).Ok?
    ensures Walk(Place.Inside, s) == Walk(Place.Inside, ParseEscape(s).rest)
  {
    if s[1] == 'u' {
      EscapeUWalks(s);
      if IsHigh(ParseHex4(s[2..]).value) && LowHalf(s[6..]).Some? {
        EscapeUWalks(s[6..]);
        assert s[6..][6..] == s[12..];
      }
    } else {
      assert s[1..][1..] == s[2..];
      assert SimpleEscape(s[1]).Some?;
      assert Step(Escaped, s[1]) == Place.Inside;
      assert Walk(Place.Inside, s) == Walk(Escaped, s[1..]) == Walk(Place.Inside, s[2..]);
    }
  }

  lemma {:induction false} CharsWalk(s: string)
    requires ParseChars(s).Ok?
    ensures Walk(Place.Inside, s) == Walk(Outside, ParseChars(s).rest)
    decreases |s|
  {
    if s[0] == '"' {
    } else if s[0] == '\\' {
      EscapeWalks(s);
      CharsWalk(ParseEscape(s).rest);
    } else {
      CharsWalk(s[1..]);
    }
  }

  lemma {:induction false} DigitsArePlain(s: string, i: nat)
    requires i < DigitSpan(s)
    ensures Plain(s[i])
  {
    if i > 0 {
      DigitsArePlain(s[1..], i - 1);
    }
  }

  lemma ExponentIsPlain(s: string, i: nat)
    requires i < ExponentSpan(s)
    ensures Plain(s[i])
  {
    var sign := if |s| >= 2 && (s[1] == '+' || s[1] == '-') then 1 else 0;
    if i > sign {
      DigitsArePlain(s[1 + sign..], i - 1 - sign);
    }
  }

  lemma NumberIsPlain(s: string, i: nat)
    requires i < NumberEnd(s)
    ensures Plain(s[i])
  {
    if i < SignSpan(s) {
    } else if i < WholeEnd(s) {
      var t := s[SignSpan(s)..];
      assert s[i] == t[i - SignSpan(s)];
      if !(t != "" && t[0] == '0') {
        DigitsArePlain(t, i - SignSpan(s));
      }
    } else if i < FractionEnd(s) {
      var t := s[WholeEnd(s)..];
      assert s[i] == t[i - WholeEnd(s)];
      if i > WholeEnd(s) {
        DigitsArePlain(t[1..], i - WholeEnd(s) - 1);
      }
    } else {
      ExponentIsPlain(s[FractionEnd(s)..], i - FractionEnd(s));
    }
  }

  lemma NumberWalks(s: string)
    requires ParseNumber(s).Ok?
    ensures Walk(Outside, s) == Walk(Outside, ParseNumber(s).rest)
  {
    forall i | 0 <= i < NumberEnd(s) ensures Plain(s[i]) {
      NumberIsPlain(s, i);
    }
    PlainWalks(s, NumberEnd(s));
    PlainWalks(s, WholeEnd(s));
  }

  lemma ConstantWalks(s: string)
    requires ParseConstant(s).Ok?
    ensures Walk(Outside, s) == Walk(Outside, ParseConstant(s).rest)
  {
    if "null" <= s {
      WordWalks(s, "null");
    } else if "true" <= s {
      WordWalks(s, "true");
    } else {
      WordWalks(s, "false");
    }
  }

  lemma SpecialWalks(s: string)
    requires ParseSpecial(s).Ok?
    ensures Walk(Outside, s) == Walk(Outside, ParseSpecial(s).rest)
  {
    if "NaN" <= s {
      WordWalks(s, "NaN");
    } else if "Infinity" <= s {
      WordWalks(s, "Infinity");
    } else {
      WordWalks(s, "-Infinity");
    }
  }

  lemma WordWalks(s: string, word: string)
    requires word <= s && forall i :: 0 <= i < |word| ==> Plain(word[i])
    ensures Walk(Outside, s) == Walk(Outside, s[|word|..])
  {
    PlainWalks(s, |word|);
  }

  /** Reading a value moves from outside every string to outside every string. */
  lemma {:induction false} ValueWalks(s: string)
    requires ParseValue(s).Ok?
    ensures Walk(Outside, s) == Walk(Outside, ParseValue(s).rest)
    decreases |s|, 2
  {
    if s[0] == '"' {
      CharsWalk(s[1..]);
    } else if s[0] == '{' {
      ObjectWalks(s[1..]);
    } else if s[0] == '[' {
      ArrayWalks(s[1..]);
    } else if ParseConstant(s).Ok? {
      ConstantWalks(s);
    } else if ParseNumber(s).Ok? {
      NumberWalks(s);
    } else {
      SpecialWalks(s);
    }
  }

  lemma {:induction false} ObjectWalks(s: string)
    requires ParseObject(s).Ok?
    ensures Walk(Outside, s) == Walk(Outside, ParseObject(s).rest)
    decreases |s|, 2
  {
    SpaceWalks(s);
    var t := SkipSpace(s);
    if t[0] == '"' {
      MembersWalk(t[1..]);
    }
  }

  lemma {:induction false} ArrayWalks(s: string)
    requires ParseArray(s).Ok?
    ensures Walk(Outside, s) == Walk(Outside, ParseArray(s).rest)
    decreases |s|, 4
  {
    SpaceWalks(s);
    var t := SkipSpace(s);
    if t[0] != ']' {
      ItemsWalk(t);
    }
  }

  lemma {:induction false} ItemsWalk(s: string)
    requires ParseItems(s).Ok?
    ensures Walk(Outside, s) == Walk(Outside, ParseItems(s).rest)
    decreases |s|, 3
  {
    ValueWalks(s);
    var t := SkipSpace(ParseValue(s).rest);
    SpaceWalks(ParseValue(s).rest);
    if t[0] == ',' {
      SpaceWalks(t[1..]);
      ItemsWalk(SkipSpace(t[1..]));
    }
  }

  lemma {:induction false} MembersWalk(s: string)
    requires ParseMembers(s).Ok?
    ensures Walk(Place.Inside, s) == Walk(Outside, ParseMembers(s).rest)
    decreases |s|, 1
  {
    CharsWalk(s);
    SpaceWalks(ParseChars(s).rest);
    var colon := SkipSpace(ParseChars(s).rest);
    SpaceWalks(colon[1..]);
    var value := SkipSpace(colon[1..]);
    ValueWalks(value);
    var t := SkipSpace(ParseValue(value).rest);
    SpaceWalks(ParseValue(value).rest);
    if t[0] == ',' {
      SpaceWalks(t[1..]);
      MembersWalk(SkipSpace(t[1..])[1..]);
    }
  }

  /** JSON text, whoever wrote it, starts and ends outside every string. */
  lemma JsonTextWalks(text: string)
    requires JsonText(text)
    ensures Walk(Outside, text) == Outside
  {
    SpaceWalks(text);
    ValueWalks(SkipSpace(text));
    var rest := ParseValue(SkipSpace(text)).rest;
    SpaceWalks(rest);
    assert Walk(Outside, SkipSpace(rest)) == Outside;
  }

  // ------------------------------------------------------------------ taking the preimage apart

  lemma TailIsNotJson(front: string, p: string, q: string)
    requires p == front + "|" + q && JsonText(p)
    ensures !JsonText(q)
  {
    JsonTextWalks(p);
    WalkConcat(Outside, front + "|", q);
    WalkConcat(Outside, front, "|");
    var at := Walk(Outside, front);
    assert Walk(at, "|") == Step(at, '|');
    if Step(at, '|') == Nowhere {
      NowhereStays(q);
    }
    NotBothWays(q);
    if JsonText(q) {
      JsonTextWalks(q);
    }
  }

  lemma TailsAgree(e: string, p: string, f: string, q: string)
    requires e + "|" + p == f + "|" + q && JsonText(p) && JsonText(q)
    ensures e == f && p == q
  {
    var s := e + "|" + p;
    assert s[|e| + 1..] == p && s[|f| + 1..] == q && s[|e|] == s[|f|] == '|';
    assert s[..|e|] == e && s[..|f|] == f;
    if |p| > |q| {
      var front := s[|e| + 1..|f|];
      assert p == front + "|" + q;
      TailIsNotJson(front, p, q);
    } else if |q| > |p| {
      var front := s[|f| + 1..|e|];
      assert q == front + "|" + p;
      TailIsNotJson(front, q, p);
    }
  }

  lemma PreimageParts(prev: string, e: string, p: string)
    requires |prev| == 64
    ensures |Preimage(prev, e, p)| >= 65
    ensures Preimage(prev, e, p)[..64] == prev && Preimage(prev, e, p)[65..] == e + "|" + p
  {
    assert Preimage(prev, e, p) == prev + ("|" + (e + "|" + p));
  }

  /** The preimage determines its three parts, for digests before and JSON text behind. */
  lemma PreimageIsInjective(prev: string, e: string, p: string, prev': string, f: string, q: string)
    requires |prev| == |prev'| == 64 && JsonText(p) && JsonText(q)
    requires Preimage(prev, e, p) == Preimage(prev', f, q)
    ensures prev == prev' && e == f && p == q
  {
    PreimageParts(prev, e, p);
    PreimageParts(prev', f, q);
    TailsAgree(e, p, f, q);
  }

  /** In particular for what `payload_json` prints. */
  lemma PrintedPreimageIsInjective(prev: string, e: string, v: Value, prev': string, f: string, w: Value)
    requires |prev| == |prev'| == 64 && Encodable(v) && Encodable(w)
    requires Preimage(prev, e, Dumps(v).value) == Preimage(prev', f, Dumps(w).value)
    ensures prev == prev' && e == f && Dumps(v) == Dumps(w)
  {
    StagedTextRedumps(v);
    StagedTextRedumps(w);
    PreimageIsInjective(prev, e, Dumps(v).value, prev', f, Dumps(w).value);
  }

  // ------------------------------------------------------------------ the head digest pins the history

  datatype Verdict =
    | SameHistory
    | Collision(x: string, y: string)
    | GenesisPreimage(x: string)

  predicate AllJson(rows: seq<Row>) {
    rows == [] || (AllJson(rows[..|rows| - 1]) && JsonText(rows[|rows| - 1].payload))
  }

  predicate Verified(h: Hash, rows: seq<Row>) { Chained(h, rows) && AllJson(rows) }

  /** Compares two ledgers from their common head backwards. */
  function Compare(a: seq<Row>, b: seq<Row>): Verdict {
    if a == [] && b == [] then SameHistory
    else if a == [] then GenesisPreimage(RowPreimage(b[|b| - 1]))
    else if b == [] then GenesisPreimage(RowPreimage(a[|a| - 1]))
    else
      var x, y := RowPreimage(a[|a| - 1]), RowPreimage(b[|b| - 1]);
      if x != y then Collision(x, y) else Compare(a[..|a| - 1], b[..|b| - 1])
  }

  lemma HeadLength(h: Hash, rows: seq<Row>)
    requires Chained(h, rows)
    ensures |Head(rows)| == 64
  {
  }

  lemma LastRow(h: Hash, rows: seq<Row>)
    requires Verified(h, rows) && rows != []
    ensures var r := rows[|rows| - 1];
            r.prevHash == Head(rows[..|rows| - 1]) && |r.prevHash| == 64 && JsonText(r.payload)
  {
    HeadLength(h, rows[..|rows| - 1]);
  }

  lemma WithoutLast(h: Hash, rows: seq<Row>)
    requires Verified(h, rows) && rows != []
    ensures Verified(h, rows[..|rows| - 1])
  {
  }

  lemma SplitLast(rows: seq<Row>)
    requires rows != []
    ensures rows == rows[..|rows| - 1] + [rows[|rows| - 1]]
  {
  }

  /** Rows with one preimage at the ends of verifying ledgers are the same row. */
  lemma LastRowsAgree(h: Hash, a: seq<Row>, b: seq<Row>)
    requires Verified(h, a) && Verified(h, b) && a != [] && b != []
    requires RowPreimage(a[|a| - 1]) == RowPreimage(b[|b| - 1])
    ensures a[|a| - 1] == b[|b| - 1]
    ensures Head(a[..|a| - 1]) == Head(b[..|b| - 1])
  {
    var r, t := a[|a| - 1], b[|b| - 1];
    LastRow(h, a);
    LastRow(h, b);
    PreimageIsInjective(r.prevHash, r.eventId, r.payload, t.prevHash, t.eventId, t.payload);
  }

  /** What a verdict on two ledgers claims. */
  ghost predicate Holds(h: Hash, a: seq<Row>, b: seq<Row>, v: Verdict) {
    match v
    case SameHistory => a == b
    case Collision(x, y) => x != y && h(x) == h(y)
    case GenesisPreimage(x) => h(x) == GENESIS_HASH
  }

  lemma LastDigest(h: Hash, rows: seq<Row>)
    requires Verified(h, rows) && rows != []
    ensures Head(rows) == h(RowPreimage(rows[|rows| - 1]))
  {
  }

  /** The comparison stops here: one ledger is used up, or two preimages share a digest. */
  lemma ComparisonEnds(h: Hash, a: seq<Row>, b: seq<Row>)
    requires Verified(h, a) && Verified(h, b) && Head(a) == Head(b)
    requires a == [] || b == [] || RowPreimage(a[|a| - 1]) != RowPreimage(b[|b| - 1])
    ensures Holds(h, a, b, Compare(a, b))
  {
    if a != [] {
      LastDigest(h, a);
    }
    if b != [] {
      LastDigest(h, b);
    }
  }

  /** Two verifying ledgers with one head digest are equal row by row, or a broken hash is at hand. */
  lemma {:induction false} HeadPinsHistory(h: Hash, a: seq<Row>, b: seq<Row>)
    requires Verified(h, a) && Verified(h, b) && Head(a) == Head(b)
    ensures Holds(h, a, b, Compare(a, b))
  {
    if a == [] || b == [] || RowPreimage(a[|a| - 1]) != RowPreimage(b[|b| - 1]) {
      ComparisonEnds(h, a, b);
    } else {
      LastRowsAgree(h, a, b);
      WithoutLast(h, a);
      WithoutLast(h, b);
      HeadPinsHistory(h, a[..|a| - 1], b[..|b| - 1]);
      SplitLast(a);
      SplitLast(b);
    }
  }
}
