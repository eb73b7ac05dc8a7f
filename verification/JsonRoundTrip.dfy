/** The printer and the reader of module Json undo each other, up to key order and up to the one
  * thing the printed text cannot say: whether a surrogate pair was one code point or two.
  */
module JsonRoundTrip {
  import opened Wrappers
  import opened Json

  // ------------------------------------------------------------------ joining surrogate pairs

  /** The string with every high surrogate followed by a low one replaced by the pair's code point. */
  function JoinStr(s: Str): Str {
    if s == [] then []
    else if |s| >= 2 && IsHigh(s[0]) && IsLow(s[1]) then [Combine(s[0], s[1])] + JoinStr(s[2..])
    else [s[0]] + JoinStr(s[1..])
  }

  function Join(v: Value): Value {
    match v
    case String(s) => String(JoinStr(s))
    case List(items) => List(JoinItems(items))
    case Dict(members) => Dict(JoinMembers(members))
    case _ => v
  }

  function JoinItems(vs: seq<Value>): seq<Value> {
    if vs == [] then [] else [Join(vs[0])] + JoinItems(vs[1..])
  }

  function JoinMembers(ms: seq<Member>): seq<Member> {
    if ms == [] then [] else [Member(JoinStr(ms[0].key), Join(ms[0].value))] + JoinMembers(ms[1..])
  }

  predicate NoSplitPair(s: Str) {
    forall i :: 0 <= i < |s| - 1 ==> !(IsHigh(s[i]) && IsLow(s[i + 1]))
  }

  // ------------------------------------------------------------------ strings

  lemma Hex4Parses(n: int, rest: string)
    requires 0 <= n < 0x10000
    ensures ParseHex4(Hex4(n) + rest) == Some(n)
    ensures (Hex4(n) + rest)[4..] == rest
  {
    var text := Hex4(n) + rest;
    var low := n % 0x1000;
    var a, b, c, d := n / 0x1000, low / 0x100, low % 0x100 / 0x10, low % 0x100 % 0x10;
    assert text[0] == HexDigit(a) && text[1] == HexDigit(b) && text[2] == HexDigit(c) && text[3] == HexDigit(d);
    HexDigitParses(a);
    HexDigitParses(b);
    HexDigitParses(c);
    HexDigitParses(d);
  }

  lemma HexDigitParses(n: int)
    requires 0 <= n < 16
    ensures HexValue(HexDigit(n)) == Some(n)
  {
  }

  /** Whether an escape is read as the low half of a pair depends on its own code point only. */
  lemma LowHalfOfEscapeU(n: int, rest: string)
    requires 0 <= n < 0x10000
    ensures LowHalf(EscapeU(n) + rest) == if IsLow(n) then Some(n) else None
  {
    var s := EscapeU(n) + rest;
    assert s[2..] == Hex4(n) + rest;
    Hex4Parses(n, rest);
  }

  lemma LowHalfOfEscape(c: CodePoint, rest: string)
    ensures LowHalf(Escape(c) + rest) == if IsLow(c) then Some(c as int) else None
  {
    var s := Escape(c) + rest;
    if ShortEscape(c).Some? {
      assert s[1] == ShortEscape(c).value;
    } else if 0x20 <= c < 0x7F {
      assert s[0] == c as char;
    } else if c < 0x10000 {
      LowHalfOfEscapeU(c, rest);
    } else {
      assert s == EscapeU(HighHalf(c)) + (EscapeU(LowHalfOf(c)) + rest);
      LowHalfOfEscapeU(HighHalf(c), EscapeU(LowHalfOf(c)) + rest);
    }
  }

  /** Reading back one escape that is not the high half of a pair. */
  lemma EscapeUParses(n: int, rest: string)
    requires 0 <= n < 0x10000
    requires !IsHigh(n) || LowHalf(rest).None?
    ensures ParseEscape(EscapeU(n) + rest) == Ok(n, rest)
  {
    var s := EscapeU(n) + rest;
    assert s[2..] == Hex4(n) + rest;
    Hex4Parses(n, rest);
    assert s[6..] == s[2..][4..];
  }

  lemma PairParses(hi: int, lo: int, rest: string)
    requires IsHigh(hi) && IsLow(lo)
    ensures ParseEscape(EscapeU(hi) + (EscapeU(lo) + rest)) == Ok(Combine(hi, lo), rest)
  {
    var tail := EscapeU(lo) + rest;
    var s := EscapeU(hi) + tail;
    assert s[2..] == Hex4(hi) + tail;
    Hex4Parses(hi, tail);
    assert s[6..] == tail;
    LowHalfOfEscapeU(lo, rest);
    assert s[12..] == tail[6..] == rest;
  }

  /** One step of the reader over the text of one code point. */
  lemma EscapeParses(c: CodePoint, rest: string)
    requires !IsHigh(c) || LowHalf(rest).None?
    ensures var s := Escape(c) + rest;
            && s[0] >= ' ' && s[0] != '"'
            && (if s[0] == '\\' then ParseEscape(s) else Ok(s[0] as int, s[1..])) == Ok(c as int, rest)
  {
    var s := Escape(c) + rest;
    if ShortEscape(c).Some? {
      assert s[1] == ShortEscape(c).value;
      assert s[2..] == rest;
    } else if 0x20 <= c < 0x7F {
      assert s[0] == c as char && s[1..] == rest;
    } else if c < 0x10000 {
      EscapeUParses(c, rest);
    } else {
      assert s == EscapeU(HighHalf(c)) + (EscapeU(LowHalfOf(c)) + rest);
      PairParses(HighHalf(c), LowHalfOf(c), rest);
    }
  }

  /** The text of a string literal after its opening quote, then `rest`. */
  function Inside(s: Str, rest: string): string {
    EscapeAll(s) + (['"'] + rest)
  }

  lemma InsideCons(s: Str, rest: string)
    requires s != []
    ensures Inside(s, rest) == Escape(s[0]) + Inside(s[1..], rest)
  {
    assert EscapeAll(s) + (['"'] + rest) == Escape(s[0]) + (EscapeAll(s[1..]) + (['"'] + rest));
  }

  lemma CharsStep(text: string, c: CodePoint, tail: string)
    requires text != "" && text[0] >= ' ' && text[0] != '"'
    requires (if text[0] == '\\' then ParseEscape(text) else Ok(text[0] as int, text[1..])) == Ok(c as int, tail)
    requires ParseChars(tail).Ok?
    ensures ParseChars(text) == Ok([c] + ParseChars(tail).value, ParseChars(tail).rest)
  {
  }

  lemma PairText(s: Str, rest: string)
    requires |s| >= 2 && IsHigh(s[0]) && IsLow(s[1])
    ensures Inside(s, rest) == EscapeU(s[0]) + (EscapeU(s[1]) + Inside(s[2..], rest))
  {
    InsideCons(s, rest);
    InsideCons(s[1..], rest);
    assert s[1..][1..] == s[2..];
  }

  lemma PairStep(s: Str, rest: string)
    requires |s| >= 2 && IsHigh(s[0]) && IsLow(s[1])
    requires ParseChars(Inside(s[2..], rest)).Ok?
    ensures var tail := ParseChars(Inside(s[2..], rest));
            ParseChars(Inside(s, rest)) == Ok([Combine(s[0], s[1])] + tail.value, tail.rest)
  {
    PairText(s, rest);
    PairParses(s[0], s[1], Inside(s[2..], rest));
    CharsStep(Inside(s, rest), Combine(s[0], s[1]), Inside(s[2..], rest));
  }

  lemma SingleStep(s: Str, rest: string)
    requires s != [] && !(|s| >= 2 && IsHigh(s[0]) && IsLow(s[1]))
    requires ParseChars(Inside(s[1..], rest)).Ok?
    ensures var tail := ParseChars(Inside(s[1..], rest));
            ParseChars(Inside(s, rest)) == Ok([s[0]] + tail.value, tail.rest)
  {
    InsideCons(s, rest);
    LowHalfOfInside(s[1..], rest);
    EscapeParses(s[0], Inside(s[1..], rest));
    CharsStep(Inside(s, rest), s[0], Inside(s[1..], rest));
  }

  lemma {:induction false} CharsRoundTrip(s: Str, rest: string)
    ensures ParseChars(Inside(s, rest)) == Ok(JoinStr(s), rest)
    decreases |s|
  {
    if s == [] {
      assert Inside(s, rest) == ['"'] + rest;
    } else if |s| >= 2 && IsHigh(s[0]) && IsLow(s[1]) {
      CharsRoundTrip(s[2..], rest);
      PairStep(s, rest);
    } else {
      CharsRoundTrip(s[1..], rest);
      SingleStep(s, rest);
    }
  }

  lemma LowHalfOfInside(s: Str, rest: string)
    ensures LowHalf(Inside(s, rest)).Some? <==> s != [] && IsLow(s[0])
  {
    if s == [] {
      assert Inside(s, rest) == ['"'] + rest;
    } else {
      InsideCons(s, rest);
      LowHalfOfEscape(s[0], Inside(s[1..], rest));
    }
  }

  // ------------------------------------------------------------------ numbers

  /** What can follow a value in printed text. */
  predicate EndsValue(rest: string) {
    rest == "" || rest[0] == ',' || rest[0] == ']' || rest[0] == '}'
  }

  predicate AllDigits(s: string) {
    forall i :: 0 <= i < |s| ==> IsDigit(s[i])
  }

  lemma {:induction false} DigitSpanEnds(s: string, rest: string)
    requires rest == "" || !IsDigit(rest[0])
    ensures DigitSpan(s + rest) == DigitSpan(s)
    ensures AllDigits(s) ==> DigitSpan(s) == |s|
  {
    if s == "" {
      assert s + rest == rest;
    } else {
      assert (s + rest)[1..] == s[1..] + rest;
      DigitSpanEnds(s[1..], rest);
    }
  }

  lemma {:induction false} DecimalParses(n: nat)
    ensures Decimal(n) != "" && AllDigits(Decimal(n)) && DecimalValue(Decimal(n)) == n
    ensures Decimal(n)[0] == '0' ==> n == 0
  {
    var s := Decimal(n);
    if n < 10 {
      assert s[..|s| - 1] == "";
    } else {
      DecimalParses(n / 10);
      assert s[..|s| - 1] == Decimal(n / 10);
      assert s[|s| - 1] == HexDigit(n % 10);
    }
  }

  /** No fraction and no exponent follow the digits of `s`. */
  lemma EndsAtWhole(s: string)
    requires EndsValue(s[WholeEnd(s)..])
    ensures NumberEnd(s) == WholeEnd(s)
  {
    assert FractionSpan(s[WholeEnd(s)..]) == 0;
    assert FractionEnd(s) == WholeEnd(s);
    assert ExponentSpan(s[WholeEnd(s)..]) == 0;
  }

  /** Where ParseNumber takes the branch of an int. */
  lemma ParsesInt(s: string, digits: string, rest: string)
    requires SignSpan(s) < WholeEnd(s) == NumberEnd(s)
    requires s[SignSpan(s)..WholeEnd(s)] == digits && s[WholeEnd(s)..] == rest
    ensures var n: int := DecimalValue(digits);
            ParseNumber(s) == Ok(Int(if SignSpan(s) == 1 then -n else n), rest)
  {
  }

  lemma MagnitudeParses(m: nat, rest: string)
    requires EndsValue(rest)
    ensures Decimal(m) != "" && IsDigit(Decimal(m)[0]) && IntSpan(Decimal(m) + rest) == |Decimal(m)|
  {
    DecimalParses(m);
    DigitSpanEnds(Decimal(m), rest);
  }

  /** Where a printed integer's digits lie in `s`. */
  lemma SignedParses(digits: string, negative: bool, rest: string)
    requires digits != "" && IsDigit(digits[0]) && IntSpan(digits + rest) == |digits|
    ensures var text := if negative then ['-'] + digits else digits;
            var s := text + rest;
            && WholeEnd(s) == |text| && SignSpan(s) == (if negative then 1 else 0)
            && s[SignSpan(s)..|text|] == digits && s[|text|..] == rest
  {
    var text := if negative then ['-'] + digits else digits;
    var s := text + rest;
    assert s[0] == text[0];
    assert s[SignSpan(s)..] == digits + rest;
  }

  lemma IntRoundTrip(n: int, rest: string)
    requires EndsValue(rest)
    ensures ParseNumber(PrintInt(n) + rest) == Ok(Int(n), rest)
  {
    var m: nat := if n < 0 then -n else n;
    var s := PrintInt(n) + rest;
    MagnitudeParses(m, rest);
    SignedParses(Decimal(m), n < 0, rest);
    assert WholeEnd(s) == |PrintInt(n)|;
    EndsAtWhole(s);
    ParsesInt(s, Decimal(m), rest);
    DecimalParses(m);
  }

  lemma FractionSpanEnds(s: string, rest: string)
    requires EndsValue(rest)
    ensures FractionSpan(s + rest) == FractionSpan(s)
  {
    if s == "" {
      assert s + rest == rest;
    } else {
      assert (s + rest)[1..] == s[1..] + rest;
      DigitSpanEnds(s[1..], rest);
    }
  }

  lemma ExponentSpanEnds(s: string, rest: string)
    requires EndsValue(rest)
    ensures ExponentSpan(s + rest) == ExponentSpan(s)
  {
    if s == "" {
      assert s + rest == rest;
    } else if |s| == 1 {
      assert (s + rest)[1..] == rest;
    } else {
      assert (s + rest)[1..] == s[1..] + rest;
      assert (s + rest)[2..] == s[2..] + rest;
      DigitSpanEnds(s[1..], rest);
      DigitSpanEnds(s[2..], rest);
    }
  }

  lemma WholeEndEnds(s: string, rest: string)
    requires EndsValue(rest)
    ensures SignSpan(s + rest) == SignSpan(s)
    ensures WholeEnd(s + rest) == WholeEnd(s)
  {
    assert s == "" ==> s + rest == rest;
    var t := s[SignSpan(s)..];
    assert (s + rest)[SignSpan(s)..] == t + rest;
    DigitSpanEnds(t, rest);
    assert t == "" ==> t + rest == rest;
  }

  lemma NumberEndEnds(s: string, rest: string)
    requires EndsValue(rest)
    ensures FractionEnd(s + rest) == FractionEnd(s)
    ensures NumberEnd(s + rest) == NumberEnd(s)
  {
    WholeEndEnds(s, rest);
    assert (s + rest)[WholeEnd(s)..] == s[WholeEnd(s)..] + rest;
    FractionSpanEnds(s[WholeEnd(s)..], rest);
    assert (s + rest)[FractionEnd(s)..] == s[FractionEnd(s)..] + rest;
    ExponentSpanEnds(s[FractionEnd(s)..], rest);
  }

  lemma FloatRoundTrip(s: string, rest: string)
    requires EndsValue(rest) && ParseNumber(s) == Ok(Float(s), "")
    ensures ParseNumber(s + rest) == Ok(Float(s), rest)
  {
    WholeEndEnds(s, rest);
    NumberEndEnds(s, rest);
    assert NumberEnd(s) == |s|;
    assert (s + rest)[..|s|] == s && (s + rest)[|s|..] == rest;
  }

  lemma NumberValue(s: string, v: Value, rest: string)
    requires ParseNumber(s) == Ok(v, rest)
    ensures ParseValue(s) == Ok(v, rest)
  {
    assert s[0] == '-' || IsDigit(s[0]);
  }

  lemma SpecialValue(lexeme: string, rest: string)
    requires lexeme in {"NaN", "Infinity"}
    ensures ParseValue(lexeme + rest) == Ok(Float(lexeme), rest)
  {
    var s := lexeme + rest;
    assert s[|lexeme|..] == rest && s[0] == lexeme[0];
    assert !("NaN" <= s && "Infinity" <= s);
  }

  lemma NegativeInfinity(rest: string)
    ensures ParseValue("-Infinity" + rest) == Ok(Float("-Infinity"), rest)
  {
    var s := "-Infinity" + rest;
    assert s[9..] == rest && s[0] == '-' && s[1..][0] == 'I';
  }

  lemma FloatValue(lexeme: string, rest: string)
    requires FloatText(lexeme) && EndsValue(rest)
    ensures ParseValue(lexeme + rest) == Ok(Float(lexeme), rest)
  {
    if lexeme == "-Infinity" {
      NegativeInfinity(rest);
    } else if lexeme in {"NaN", "Infinity"} {
      SpecialValue(lexeme, rest);
    } else {
      FloatRoundTrip(lexeme, rest);
      NumberValue(lexeme + rest, Float(lexeme), rest);
    }
  }

  // ------------------------------------------------------------------ values

  /** The first character of a printed value says where a reader is, so it is never skipped. */
  lemma FirstChar(v: Value)
    requires Encodable(v)
    ensures Print(v) != "" && !IsSpace(Print(v)[0]) && Print(v)[0] != ']' && Print(v)[0] != '}'
  {
    match v
    case Int(n) => DecimalParses(if n < 0 then -n else n);
    case Float(lexeme) => FloatFirstChar(lexeme);
    case _ =>
  }

  lemma FloatFirstChar(lexeme: string)
    requires FloatText(lexeme)
    ensures lexeme != "" && (lexeme[0] == 'N' || lexeme[0] == 'I' || lexeme[0] == '-' || IsDigit(lexeme[0]))
  {
    if lexeme !in {"NaN", "Infinity", "-Infinity"} {
      assert lexeme[0] == '-' || IsDigit(lexeme[0]);
    }
  }

  lemma NotSpace(s: string)
    requires s != "" && !IsSpace(s[0])
    ensures SkipSpace(s) == s
    ensures SkipSpace([' '] + s) == s
  {
    assert ([' '] + s)[1..] == s;
  }

  lemma StringValue(s: Str, rest: string)
    ensures ParseValue(Quote(s) + rest) == Ok(String(JoinStr(s)), rest)
  {
    var text := Quote(s) + rest;
    assert text[1..] == Inside(s, rest);
    CharsRoundTrip(s, rest);
  }

  lemma ItemsLast(s: string, v: Value, rest: string)
    requires ParseValue(s) == Ok(v, [']'] + rest)
    ensures ParseItems(s) == Ok([v], rest)
  {
    assert ([']'] + rest)[1..] == rest;
  }

  lemma ItemsMore(s: string, v: Value, more: string)
    requires ParseValue(s) == Ok(v, [','] + ([' '] + more))
    requires more != "" && !IsSpace(more[0]) && ParseItems(more).Ok?
    ensures ParseItems(s) == Ok([v] + ParseItems(more).value, ParseItems(more).rest)
  {
    CommaParses(more);
  }

  /** The text of one member after the key's opening quote. */
  function MemberText(key: Str, valueText: string): string {
    Inside(key, [':'] + ([' '] + valueText))
  }

  /** The key and the colon are read; the reader stands at the value. */
  lemma KeyParses(key: Str, valueText: string)
    requires valueText != "" && !IsSpace(valueText[0])
    ensures var k := ParseChars(MemberText(key, valueText));
            && k.Ok? && k.value == JoinStr(key)
            && var colon := SkipSpace(k.rest);
            && colon != "" && colon[0] == ':' && SkipSpace(colon[1..]) == valueText
  {
    var after := [':'] + ([' '] + valueText);
    CharsRoundTrip(key, after);
    NotSpace(valueText);
    assert after[1..] == [' '] + valueText;
  }

  lemma MembersLast(key: Str, valueText: string, v: Value, rest: string)
    requires valueText != "" && !IsSpace(valueText[0])
    requires ParseValue(valueText) == Ok(v, ['}'] + rest)
    ensures ParseMembers(MemberText(key, valueText)) == Ok([Member(JoinStr(key), v)], rest)
  {
    KeyParses(key, valueText);
    assert (['}'] + rest)[1..] == rest;
  }

  lemma MembersMore(key: Str, valueText: string, v: Value, more: string)
    requires valueText != "" && !IsSpace(valueText[0])
    requires more != "" && more[0] == '"' && ParseMembers(more[1..]).Ok?
    requires ParseValue(valueText) == Ok(v, [','] + ([' '] + more))
    ensures ParseMembers(MemberText(key, valueText)) ==
            Ok([Member(JoinStr(key), v)] + ParseMembers(more[1..]).value, ParseMembers(more[1..]).rest)
  {
    KeyParses(key, valueText);
    CommaParses(more);
  }

  lemma CommaParses(more: string)
    requires more != "" && !IsSpace(more[0])
    ensures var t := [','] + ([' '] + more);
            SkipSpace(t) == t && t[0] == ',' && SkipSpace(t[1..]) == more
  {
    NotSpace(more);
    assert ([','] + ([' '] + more))[1..] == [' '] + more;
  }

  lemma ArrayParses(inside: string)
    requires inside != "" && !IsSpace(inside[0]) && inside[0] != ']' && ParseItems(inside).Ok?
    ensures ParseValue(['['] + inside) == Ok(List(ParseItems(inside).value), ParseItems(inside).rest)
  {
    NotSpace(inside);
    assert (['['] + inside)[1..] == inside;
  }

  lemma ObjectParses(inside: string)
    requires inside != "" && inside[0] == '"' && ParseMembers(inside[1..]).Ok?
    ensures ParseValue(['{'] + inside) == Ok(Dict(ParseMembers(inside[1..]).value), ParseMembers(inside[1..]).rest)
  {
    NotSpace(inside);
    assert (['{'] + inside)[1..] == inside;
  }

  lemma EmptyParses(rest: string)
    ensures ParseValue("[]" + rest) == Ok(List([]), rest)
    ensures ParseValue("{}" + rest) == Ok(Dict([]), rest)
  {
    assert ("[]" + rest)[1..] == [']'] + rest && ([']'] + rest)[1..] == rest;
    assert ("{}" + rest)[1..] == ['}'] + rest && (['}'] + rest)[1..] == rest;
  }

  lemma ConstantParses(v: Value, rest: string)
    requires v.Null? || v.Bool?
    ensures ParseValue(Print(v) + rest) == Ok(v, rest)
  {
    var text := Print(v) + rest;
    assert text[|Print(v)|..] == rest && text[0] == Print(v)[0];
  }

  lemma ListText(items: seq<Value>, rest: string)
    requires items != []
    ensures Print(List(items)) + rest == ['['] + (PrintItems(items) + ([']'] + rest))
  {
    var inside := PrintItems(items);
    assert Print(List(items)) == ['['] + inside + [']'];
  }

  lemma DictText(members: seq<Member>, rest: string)
    requires members != []
    ensures Print(Dict(members)) + rest == ['{'] + (PrintMembers(members) + (['}'] + rest))
  {
    var inside := PrintMembers(members);
    assert Print(Dict(members)) == ['{'] + inside + ['}'];
  }

  lemma Regroup(v: string, more: string, last: string)
    ensures v + (", " + more) + last == v + ([','] + ([' '] + (more + last)))
  {
    assert ", " + more + last == [','] + ([' '] + (more + last));
  }

  lemma RegroupMember(key: string, v: string, more: string)
    ensures ['"'] + key + ['"'] + ": " + v + more == ['"'] + (key + (['"'] + ([':'] + ([' '] + (v + more)))))
  {
  }

  lemma ItemsTextMore(vs: seq<Value>, last: string)
    requires |vs| > 1
    ensures PrintItems(vs) + last == Print(vs[0]) + ([','] + ([' '] + (PrintItems(vs[1..]) + last)))
  {
    Regroup(Print(vs[0]), PrintItems(vs[1..]), last);
  }

  /** Reading the text of `v` gives back `v` with its surrogate pairs joined. */
  lemma {:induction false} ValueRoundTrip(v: Value, rest: string)
    requires Encodable(v) && EndsValue(rest)
    ensures ParseValue(Print(v) + rest) == Ok(Join(v), rest)
    decreases v, 1
  {
    match v
    case Null => ConstantParses(v, rest);
    case Bool(b) => ConstantParses(v, rest);
    case Int(n) =>
      IntRoundTrip(n, rest);
      NumberValue(PrintInt(n) + rest, v, rest);
    case Float(lexeme) => FloatValue(lexeme, rest);
    case String(s) => StringValue(s, rest);
    case List(items) =>
      if items == [] {
        EmptyParses(rest);
      } else {
        ItemsRoundTrip(items, rest);
        ItemsText(items);
        ListText(items, rest);
        ArrayParses(PrintItems(items) + ([']'] + rest));
      }
    case Dict(members) =>
      if members == [] {
        EmptyParses(rest);
      } else {
        MembersRoundTrip(members, rest);
        DictText(members, rest);
        ObjectParses(PrintMembers(members) + (['}'] + rest));
      }
  }

  lemma ItemsText(vs: seq<Value>)
    requires vs != [] && EncodableItems(vs)
    ensures PrintItems(vs) != "" && !IsSpace(PrintItems(vs)[0]) && PrintItems(vs)[0] != ']'
  {
    FirstChar(vs[0]);
  }

  lemma {:induction false} ItemsRoundTrip(vs: seq<Value>, rest: string)
    requires vs != [] && EncodableItems(vs)
    ensures ParseItems(PrintItems(vs) + ([']'] + rest)) == Ok(JoinItems(vs), rest)
    decreases vs, 0
  {
    if |vs| == 1 {
      ValueRoundTrip(vs[0], [']'] + rest);
      ItemsLast(Print(vs[0]) + ([']'] + rest), Join(vs[0]), rest);
      assert PrintItems(vs) == Print(vs[0]) && JoinItems(vs) == [Join(vs[0])];
    } else {
      var more := PrintItems(vs[1..]) + ([']'] + rest);
      var tail := [','] + ([' '] + more);
      ValueRoundTrip(vs[0], tail);
      ItemsRoundTrip(vs[1..], rest);
      ItemsText(vs[1..]);
      ItemsMore(Print(vs[0]) + tail, Join(vs[0]), more);
      ItemsTextMore(vs, [']'] + rest);
    }
  }

  lemma MembersTextLast(m: Member, last: string)
    ensures PrintMembers([m]) + last == ['"'] + MemberText(m.key, Print(m.value) + last)
  {
  }

  lemma MembersTextMore(ms: seq<Member>, last: string)
    requires |ms| > 1
    ensures var tail := [','] + ([' '] + (PrintMembers(ms[1..]) + last));
            PrintMembers(ms) + last == ['"'] + MemberText(ms[0].key, Print(ms[0].value) + tail)
  {
    var key, v, more := EscapeAll(ms[0].key), Print(ms[0].value), PrintMembers(ms[1..]);
    RegroupMember(key, v, ", " + more);
    Regroup(['"'] + key + ['"'] + ": " + v, more, last);
    RegroupMember(key, v, [','] + ([' '] + (more + last)));
  }

  lemma {:induction false} MembersRoundTrip(ms: seq<Member>, rest: string)
    requires ms != [] && EncodableMembers(ms)
    ensures var text := PrintMembers(ms) + (['}'] + rest);
            text[0] == '"' && ParseMembers(text[1..]) == Ok(JoinMembers(ms), rest)
    decreases ms, 0
  {
    var last := ['}'] + rest;
    var text := PrintMembers(ms) + last;
    var key, v := ms[0].key, ms[0].value;
    FirstChar(v);
    if |ms| == 1 {
      ValueRoundTrip(v, last);
      MembersLast(key, Print(v) + last, Join(v), rest);
      assert ms == [ms[0]];
      MembersTextLast(ms[0], last);
      assert text[1..] == MemberText(key, Print(v) + last);
      assert JoinMembers(ms) == [Member(JoinStr(key), Join(v))];
    } else {
      var more := PrintMembers(ms[1..]) + last;
      var tail := [','] + ([' '] + more);
      ValueRoundTrip(v, tail);
      MembersRoundTrip(ms[1..], rest);
      MembersMore(key, Print(v) + tail, Join(v), more);
      MembersTextMore(ms, last);
      assert text[1..] == MemberText(key, Print(v) + tail);
    }
  }
}
