/** The text that `dumps` prints, value by value: what stands between the items, how a code point is written, and in
  * which order the keys of a dict come.
  */
module JsonForms {
  import opened Wrappers
  import opened Json
  import opened JsonFidelity

  // ------------------------------------------------------------------ code points

  function HexVal(c: char): int {
    if '0' <= c <= '9' then c as int - '0' as int else if 'a' <= c <= 'f' then c as int - 'a' as int + 10 else -1
  }

  /** A backslash, a `u`, and the number in four hexadecimal digits, in lower case. */
  predicate IsUEscape(t: string, n: int) {
    && |t| == 6 && t[0] == '\\' && t[1] == 'u' && (forall i :: 2 <= i < 6 ==> HexVal(t[i]) >= 0)
    && n == HexVal(t[2]) * 0x1000 + HexVal(t[3]) * 0x100 + HexVal(t[4]) * 0x10 + HexVal(t[5])
  }

  /** How a code point is written inside a string literal. */
  predicate IsWritten(c: CodePoint, t: string) {
    if c == 0x22 then t == "\\\""
    else if c == 0x5C then t == "\\\\"
    else if 0x20 <= c <= 0x7E then t == [c as char]
    else if c == 0x08 then t == "\\b"
    else if c == 0x09 then t == "\\t"
    else if c == 0x0A then t == "\\n"
    else if c == 0x0C then t == "\\f"
    else if c == 0x0D then t == "\\r"
    else if c < 0x10000 then IsUEscape(t, c)
    else |t| == 12 && IsUEscape(t[..6], 0xD800 + (c - 0x10000) / 0x400) && IsUEscape(t[6..], 0xDC00 + (c - 0x10000) % 0x400)
  }

  lemma HexDigitVal(n: int)
    requires 0 <= n < 16
    ensures HexVal(HexDigit(n)) == n
  {
  }

  lemma EscapeUForm(n: int)
    requires 0 <= n < 0x10000
    ensures IsUEscape(EscapeU(n), n)
  {
    var low := n % 0x1000;
    HexDigitVal(n / 0x1000);
    HexDigitVal(low / 0x100);
    HexDigitVal(low % 0x100 / 0x10);
    HexDigitVal(low % 0x100 % 0x10);
  }

  lemma EscapeForm(c: CodePoint)
    ensures IsWritten(c, Escape(c))
  {
    if ShortEscape(c).None? && !(0x20 <= c < 0x7F) {
      if c < 0x10000 {
        EscapeUForm(c);
      } else {
        EscapeUForm(HighHalf(c));
        EscapeUForm(LowHalfOf(c));
        assert Escape(c)[..6] == EscapeU(HighHalf(c)) && Escape(c)[6..] == EscapeU(LowHalfOf(c));
      }
    }
  }

  // ------------------------------------------------------------------ lists of texts

  /** `sep.join(texts)`. */
  function Joined(texts: seq<string>, sep: string): string {
    if texts == [] then ""
    else if |texts| == 1 then texts[0]
    else Joined(texts[..|texts| - 1], sep) + sep + texts[|texts| - 1]
  }

  lemma {:induction false} JoinedCons(texts: seq<string>, sep: string)
    requires |texts| > 1
    ensures Joined(texts, sep) == texts[0] + (sep + Joined(texts[1..], sep))
  {
    var n := |texts| - 1;
    if n > 1 {
      JoinedCons(texts[..n], sep);
      assert texts[..n][1..] == texts[1..][..n - 1];
    } else {
      assert texts[..1] == [texts[0]] && texts[1..] == [texts[1]];
    }
  }

  /** A string: the written code points, between quotes. */
  ghost predicate IsLiteral(s: Str, t: string) {
    exists parts: seq<string> :: Parts(s, parts) && t == "\"" + Joined(parts, "") + "\""
  }

  predicate Parts(s: Str, parts: seq<string>) { |parts| == |s| && forall i :: 0 <= i < |s| ==> IsWritten(s[i], parts[i]) }

  lemma PartsCons(s: Str, t: string, rest: seq<string>)
    requires s != [] && IsWritten(s[0], t) && Parts(s[1..], rest)
    ensures Parts(s, [t] + rest)
  {
  }

  lemma JoinedNext(t: string, rest: seq<string>)
    ensures Joined([t] + rest, "") == t + Joined(rest, "")
  {
    if rest != [] {
      JoinedCons([t] + rest, "");
      assert ([t] + rest)[1..] == rest;
      assert "" + Joined(rest, "") == Joined(rest, "");
    } else {
      assert [t] + rest == [t];
    }
  }

  lemma {:induction false} EscapeAllForm(s: Str) returns (parts: seq<string>)
    ensures Parts(s, parts) && EscapeAll(s) == Joined(parts, "")
  {
    if s == [] {
      parts := [];
    } else {
      var rest := EscapeAllForm(s[1..]);
      EscapeForm(s[0]);
      parts := [Escape(s[0])] + rest;
      PartsCons(s, Escape(s[0]), rest);
      JoinedNext(Escape(s[0]), rest);
    }
  }

  lemma QuoteForm(s: Str)
    ensures IsLiteral(s, Quote(s))
  {
    var parts := EscapeAllForm(s);
    assert Parts(s, parts) && Quote(s) == "\"" + Joined(parts, "") + "\"";
  }

  // ------------------------------------------------------------------ numbers

  function Horner(t: string): int {
    if t == "" then 0 else Horner(t[..|t| - 1]) * 10 + (t[|t| - 1] as int - '0' as int)
  }

  /** The decimal digits of `n`, without a zero in front of others. */
  predicate IsNumeral(n: nat, t: string) {
    t != "" && (forall i :: 0 <= i < |t| ==> '0' <= t[i] <= '9') && (|t| > 1 ==> t[0] != '0') && Horner(t) == n
  }

  lemma {:induction false} DecimalForm(n: nat)
    ensures IsNumeral(n, Decimal(n)) && (n > 0 ==> Decimal(n)[0] != '0')
  {
    if n >= 10 {
      DecimalForm(n / 10);
      var init := Decimal(n / 10);
      assert Decimal(n)[..|init|] == init;
    } else {
      assert Decimal(n)[..0] == "";
    }
  }

  // ------------------------------------------------------------------ values

  /** The text of a value; the empty text when `dumps` raises. */
  function Text(v: Value): string { if Dumps(v).Some? then Dumps(v).value else "" }

  function Texts(vs: seq<Value>): seq<string> { seq(|vs|, i requires 0 <= i < |vs| => Text(vs[i])) }

  lemma IntForm(n: int)
    ensures if n < 0 then |PrintInt(n)| > 1 && PrintInt(n)[0] == '-' && IsNumeral(-n, PrintInt(n)[1..]) else IsNumeral(n, PrintInt(n))
  {
    DecimalForm(if n < 0 then -n else n);
    if n < 0 {
      assert PrintInt(n)[1..] == Decimal(-n);
    }
  }

  lemma ScalarForm(v: Value)
    requires Dumps(v).Some?
    ensures match v
            case Null => Text(v) == "null"
            case Bool(b) => Text(v) == if b then "true" else "false"
            case Int(n) => if n < 0 then |Text(v)| > 1 && Text(v)[0] == '-' && IsNumeral(-n, Text(v)[1..]) else IsNumeral(n, Text(v))
            case Float(lexeme) => Text(v) == lexeme
            case String(s) => IsLiteral(s, Text(v))
            case _ => true
  {
    match v
    case Int(n) => IntForm(n);
    case String(s) => QuoteForm(s);
    case _ =>
  }

  lemma {:induction false} ItemsForm(vs: seq<Value>)
    requires EncodableItems(vs)
    ensures PrintItems(SortItems(vs)) == Joined(Texts(vs), ", ") && |SortItems(vs)| == |vs|
  {
    if vs != [] {
      ItemsForm(vs[1..]);
      assert Texts(vs)[1..] == Texts(vs[1..]);
      assert SortItems(vs)[1..] == SortItems(vs[1..]);
      if |vs| > 1 {
        JoinedCons(Texts(vs), ", ");
      }
    }
  }

  /** A list: its items' texts with a comma and a space between them, in brackets. */
  lemma ListForm(items: seq<Value>)
    ensures Dumps(List(items)).Some? <==> forall i :: 0 <= i < |items| ==> Dumps(items[i]).Some?
    ensures Dumps(List(items)).Some? ==> Text(List(items)) == "[" + Joined(Texts(items), ", ") + "]"
  {
    EncodableEach(items);
    if EncodableItems(items) {
      ItemsForm(items);
      if items == [] {
        assert "[" + "" + "]" == "[]";
      }
    }
  }

  lemma {:induction false} EncodableEach(vs: seq<Value>)
    ensures EncodableItems(vs) <==> forall i :: 0 <= i < |vs| ==> Encodable(vs[i])
  {
    if vs != [] {
      EncodableEach(vs[1..]);
      if EncodableItems(vs) {
        forall i | 0 <= i < |vs| ensures Encodable(vs[i]) {
          assert i > 0 ==> vs[i] == vs[1..][i - 1];
        }
      }
    }
  }

  // ------------------------------------------------------------------ dicts

  predicate FirstDifference(a: Str, b: Str, k: nat) {
    k <= |a| && k < |b| && a[..k] == b[..k] && (k == |a| || a[k] < b[k])
  }

  /** At the first difference `a` has the smaller code point, or ends. */
  ghost predicate ComesBefore(a: Str, b: Str) { exists k: nat :: FirstDifference(a, b, k) }

  lemma {:induction false} LessComesBefore(a: Str, b: Str)
    requires Less(a, b)
    ensures ComesBefore(a, b)
  {
    if a == [] || a[0] < b[0] {
      assert a[..0] == b[..0];
      assert FirstDifference(a, b, 0);
    } else {
      LessComesBefore(a[1..], b[1..]);
      var k: nat :| FirstDifference(a[1..], b[1..], k);
      assert a[..k + 1] == [a[0]] + a[1..][..k] && b[..k + 1] == [b[0]] + b[1..][..k];
      assert FirstDifference(a, b, k + 1);
    }
  }

  /** The members by key, their values as they are. */
  function ByKey(ms: seq<Member>): seq<Member> {
    if ms == [] then [] else InsertMember(ms[0], ByKey(ms[1..]))
  }

  function Sorted(m: Member): Member { Member(m.key, SortKeys(m.value)) }

  function EachSorted(ms: seq<Member>): seq<Member> { seq(|ms|, i requires 0 <= i < |ms| => Sorted(ms[i])) }

  lemma {:induction false} InsertSorted(m: Member, ms: seq<Member>)
    ensures InsertMember(Sorted(m), EachSorted(ms)) == EachSorted(InsertMember(m, ms))
  {
    if ms == [] || Less(m.key, ms[0].key) {
      assert EachSorted([m] + ms) == [Sorted(m)] + EachSorted(ms);
    } else {
      InsertSorted(m, ms[1..]);
      assert EachSorted(ms)[1..] == EachSorted(ms[1..]);
      assert EachSorted([ms[0]] + InsertMember(m, ms[1..])) == [Sorted(ms[0])] + EachSorted(InsertMember(m, ms[1..]));
    }
  }

  lemma {:induction false} SortIsByKey(ms: seq<Member>)
    ensures SortMembers(ms) == EachSorted(ByKey(ms))
  {
    if ms != [] {
      SortIsByKey(ms[1..]);
      InsertSorted(ms[0], ByKey(ms[1..]));
    }
  }

  lemma {:induction false} InsertedMultiset(m: Member, ms: seq<Member>)
    ensures multiset(InsertMember(m, ms)) == multiset(ms) + multiset{m}
  {
    if ms != [] && !Less(m.key, ms[0].key) {
      InsertedMultiset(m, ms[1..]);
      assert ms == [ms[0]] + ms[1..];
    }
  }

  lemma {:induction false} ByKeyMultiset(ms: seq<Member>)
    ensures multiset(ByKey(ms)) == multiset(ms)
  {
    if ms != [] {
      ByKeyMultiset(ms[1..]);
      InsertedMultiset(ms[0], ByKey(ms[1..]));
      assert ms == [ms[0]] + ms[1..];
    }
  }

  /** `t` is a member's text: its key as a literal, a colon and a space, the text of its value. */
  ghost predicate IsMemberText(m: Member, t: string) {
    exists key: string :: IsLiteral(m.key, key) && t == key + ": " + Text(m.value)
  }

  ghost predicate MemberTexts(ms: seq<Member>, texts: seq<string>) {
    |texts| == |ms| && forall i :: 0 <= i < |ms| ==> IsMemberText(ms[i], texts[i])
  }

  lemma MemberTextsCons(ms: seq<Member>, t: string, rest: seq<string>)
    requires ms != [] && IsMemberText(ms[0], t) && MemberTexts(ms[1..], rest)
    ensures MemberTexts(ms, [t] + rest)
  {
  }

  lemma FirstMemberForm(m: Member)
    ensures IsMemberText(m, Quote(m.key) + ": " + Text(m.value))
  {
    QuoteForm(m.key);
  }

  lemma PrintMembersNext(ms: seq<Member>, rest: seq<string>)
    requires ms != [] && Encodable(ms[0].value) && |rest| == |ms| - 1 && PrintMembers(EachSorted(ms[1..])) == Joined(rest, ", ")
    ensures PrintMembers(EachSorted(ms)) == Joined([Quote(ms[0].key) + ": " + Text(ms[0].value)] + rest, ", ")
  {
    var first := Quote(ms[0].key) + ": " + Text(ms[0].value);
    assert EachSorted(ms)[1..] == EachSorted(ms[1..]);
    if rest != [] {
      JoinedCons([first] + rest, ", ");
      assert ([first] + rest)[1..] == rest;
    }
  }

  lemma {:induction false} MembersForm(ms: seq<Member>) returns (texts: seq<string>)
    requires forall i :: 0 <= i < |ms| ==> Encodable(ms[i].value)
    ensures MemberTexts(ms, texts) && PrintMembers(EachSorted(ms)) == Joined(texts, ", ")
  {
    if ms == [] {
      texts := [];
    } else {
      var rest := MembersForm(ms[1..]);
      texts := [Quote(ms[0].key) + ": " + Text(ms[0].value)] + rest;
      FirstMemberForm(ms[0]);
      MemberTextsCons(ms, Quote(ms[0].key) + ": " + Text(ms[0].value), rest);
      PrintMembersNext(ms, rest);
    }
  }

  /** The same members, with rising keys. */
  ghost predicate InKeyOrder(ms: seq<Member>, sorted: seq<Member>) {
    && multiset(sorted) == multiset(ms)
    && forall i, j :: 0 <= i < j < |sorted| ==> ComesBefore(sorted[i].key, sorted[j].key)
  }

  lemma ByKeyInOrder(ms: seq<Member>)
    requires WellFormedMembers(ms)
    ensures InKeyOrder(ms, ByKey(ms))
  {
    ByKeyMultiset(ms);
    SortMembersSorts(ms);
    SortIsByKey(ms);
    forall i, j | 0 <= i < j < |ByKey(ms)| ensures ComesBefore(ByKey(ms)[i].key, ByKey(ms)[j].key) {
      SortedPairs(SortMembers(ms), i, j);
      LessComesBefore(ByKey(ms)[i].key, ByKey(ms)[j].key);
    }
  }

  lemma BracesForm(members: seq<Member>)
    requires Encodable(Dict(members))
    ensures Text(Dict(members)) == "{" + PrintMembers(SortMembers(members)) + "}"
  {
    if SortMembers(members) == [] {
      assert "{" + "" + "}" == "{}";
    }
  }

  lemma MembersEncodable(members: seq<Member>, sorted: seq<Member>)
    requires multiset(sorted) == multiset(members) && EncodableMembers(members)
    ensures forall i :: 0 <= i < |sorted| ==> Encodable(sorted[i].value)
  {
    EncodableIn(members);
    forall i | 0 <= i < |sorted| ensures Encodable(sorted[i].value) {
      assert sorted[i] in multiset(sorted);
    }
  }

  lemma DictIsEncodable(members: seq<Member>)
    ensures Dumps(Dict(members)).Some? <==> forall m :: m in members ==> Dumps(m.value).Some?
    ensures Dumps(Dict(members)).Some? <==> EncodableMembers(members)
  {
    EncodableIn(members);
  }

  /** A dict: its members' texts in key order with a comma and a space between them, in braces. */
  lemma DictForm(members: seq<Member>) returns (sorted: seq<Member>, texts: seq<string>)
    requires WellFormedMembers(members)
    ensures Dumps(Dict(members)).Some? <==> forall m :: m in members ==> Dumps(m.value).Some?
    ensures InKeyOrder(members, sorted)
    ensures Dumps(Dict(members)).Some? ==>
      MemberTexts(sorted, texts) && Text(Dict(members)) == "{" + Joined(texts, ", ") + "}"
  {
    sorted, texts := ByKey(members), [];
    ByKeyInOrder(members);
    DictIsEncodable(members);
    if EncodableMembers(members) {
      MembersEncodable(members, sorted);
      texts := MembersForm(sorted);
      SortIsByKey(members);
      BracesForm(members);
    }
  }

  // ------------------------------------------------------------------ what the reader makes of a repeated key

  lemma {:induction false} PutKeeps(ms: seq<Member>, m: Member, x: Member)
    ensures m in Put(ms, m) && (x in ms && x.key != m.key ==> x in Put(ms, m))
  {
    if ms != [] && ms[0].key != m.key {
      PutKeeps(ms[1..], m, x);
      assert ms == [ms[0]] + ms[1..];
    }
  }

  /** The last member with a key is the one that stays. */
  lemma {:induction false} LastMemberStays(ms: seq<Member>, i: nat)
    requires i < |ms| && forall j :: i < j < |ms| ==> ms[j].key != ms[i].key
    ensures ms[i] in PutAll(ms)
    decreases |ms|
  {
    var n := |ms| - 1;
    if i < n {
      LastMemberStays(ms[..n], i);
    }
    PutKeeps(PutAll(ms[..n]), ms[n], ms[i]);
  }
}
