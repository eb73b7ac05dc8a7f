/** `json.dumps(payload, sort_keys=True)` and `json.loads`, as the ledger uses them.
  *
  * A Python string is a sequence of code points, lone surrogates included: the printer escapes
  * them, and the reader joins a high surrogate followed by a low one. The printed text is ASCII.
  * A float stands for itself through the text that `repr` gives it.
  */
module Json {
  import opened Wrappers

  type CodePoint = c: int | 0 <= c < 0x110000
  type Str = seq<CodePoint>

  datatype Value =
    | Null
    | Bool(b: bool)
    | Int(n: int)
    | Float(lexeme: string)
    | String(s: Str)
    | List(items: seq<Value>)
    | Dict(members: seq<Member>)
    | Unserialisable  // any object for which `dumps` raises TypeError

  /** One key of a dict, in insertion order. */
  datatype Member = Member(key: Str, value: Value)

  // ------------------------------------------------------------------ well-formed values

  predicate HasKey(ms: seq<Member>, k: Str) {
    exists i :: 0 <= i < |ms| && ms[i].key == k
  }

  /** What every Python value satisfies: the keys of a dict are distinct. */
  predicate WellFormed(v: Value) {
    match v
    case List(items) => WellFormedItems(items)
    case Dict(members) => WellFormedMembers(members)
    case _ => true
  }

  predicate WellFormedItems(vs: seq<Value>) {
    vs == [] || (WellFormed(vs[0]) && WellFormedItems(vs[1..]))
  }

  predicate WellFormedMembers(ms: seq<Member>) {
    ms == [] || (WellFormed(ms[0].value) && !HasKey(ms[1..], ms[0].key) && WellFormedMembers(ms[1..]))
  }

  /** A payload is a dict with string keys. */
  type Payload = v: Value | v.Dict? && WellFormed(v) witness Dict([])

  /** `dumps` does not raise. (A Float whose text no float has stands for no Python value.) */
  predicate Encodable(v: Value) {
    match v
    case Unserialisable => false
    case Float(lexeme) => FloatText(lexeme)
    case List(items) => EncodableItems(items)
    case Dict(members) => EncodableMembers(members)
    case _ => true
  }

  predicate EncodableItems(vs: seq<Value>) {
    vs == [] || (Encodable(vs[0]) && EncodableItems(vs[1..]))
  }

  predicate EncodableMembers(ms: seq<Member>) {
    ms == [] || (Encodable(ms[0].value) && EncodableMembers(ms[1..]))
  }

  // ------------------------------------------------------------------ key order

  /** Python's `<` on strings: by code point, a proper prefix first. */
  predicate Less(a: Str, b: Str) {
    b != [] && (a == [] || a[0] < b[0] || (a[0] == b[0] && Less(a[1..], b[1..])))
  }

  function InsertMember(m: Member, ms: seq<Member>): seq<Member> {
    if ms == [] || Less(m.key, ms[0].key) then [m] + ms else [ms[0]] + InsertMember(m, ms[1..])
  }

  /** The value with the members of every dict in key order. */
  function SortKeys(v: Value): Value {
    match v
    case List(items) => List(SortItems(items))
    case Dict(members) => Dict(SortMembers(members))
    case _ => v
  }

  function SortItems(vs: seq<Value>): seq<Value> {
    if vs == [] then [] else [SortKeys(vs[0])] + SortItems(vs[1..])
  }

  function SortMembers(ms: seq<Member>): seq<Member> {
    if ms == [] then []
    else InsertMember(Member(ms[0].key, SortKeys(ms[0].value)), SortMembers(ms[1..]))
  }

  // ------------------------------------------------------------------ printer

  predicate IsHigh(c: int) { 0xD800 <= c < 0xDC00 }

  predicate IsLow(c: int) { 0xDC00 <= c < 0xE000 }

  function HexDigit(n: int): char
    requires 0 <= n < 16
  {
    if n < 10 then ('0' as int + n) as char else ('a' as int + (n - 10)) as char
  }

  function Hex4(n: int): string
    requires 0 <= n < 0x10000
  {
    var low := n % 0x1000;
    [HexDigit(n / 0x1000), HexDigit(low / 0x100), HexDigit(low % 0x100 / 0x10), HexDigit(low % 0x100 % 0x10)]
  }

  function EscapeU(n: int): string
    requires 0 <= n < 0x10000
  {
    ['\\', 'u'] + Hex4(n)
  }

  /** The two-character escapes, by their second character. */
  function ShortEscape(c: CodePoint): Option<char> {
    if c == 0x22 then Some('"')
    else if c == 0x5C then Some('\\')
    else if c == 0x0A then Some('n')
    else if c == 0x0D then Some('r')
    else if c == 0x09 then Some('t')
    else if c == 0x0C then Some('f')
    else if c == 0x08 then Some('b')
    else None
  }

  function HighHalf(c: CodePoint): (r: int)
    requires c >= 0x10000
    ensures IsHigh(r)
  {
    0xD800 + (c - 0x10000) / 0x400
  }

  function LowHalfOf(c: CodePoint): (r: int)
    requires c >= 0x10000
    ensures IsLow(r)
  {
    0xDC00 + (c - 0x10000) % 0x400
  }

  /** How one code point is written inside a string literal (`ensure_ascii`). */
  function Escape(c: CodePoint): string {
    if ShortEscape(c).Some? then ['\\', ShortEscape(c).value]
    else if 0x20 <= c < 0x7F then [c as char]
    else if c < 0x10000 then EscapeU(c)
    else EscapeU(HighHalf(c)) + EscapeU(LowHalfOf(c))
  }

  function EscapeAll(s: Str): string {
    if s == [] then "" else Escape(s[0]) + EscapeAll(s[1..])
  }

  function Quote(s: Str): string {
    ['"'] + EscapeAll(s) + ['"']
  }

  function Decimal(n: nat): string {
    if n < 10 then [HexDigit(n)] else Decimal(n / 10) + [HexDigit(n % 10)]
  }

  function PrintInt(n: int): string {
    if n < 0 then ['-'] + Decimal(-n) else Decimal(n)
  }

  /** The text of a value, members in the order given. */
  function Print(v: Value): string {
    match v
    case Null => "null"
    case Bool(b) => if b then "true" else "false"
    case Int(n) => PrintInt(n)
    case Float(lexeme) => lexeme
    case String(s) => Quote(s)
    case List(items) => if items == [] then "[]" else "[" + PrintItems(items) + "]"
    case Dict(members) => if members == [] then "{}" else "{" + PrintMembers(members) + "}"
    case Unserialisable => ""
  }

  function PrintItems(vs: seq<Value>): string {
    if vs == [] then "" else Print(vs[0]) + (if |vs| == 1 then "" else ", " + PrintItems(vs[1..]))
  }

  function PrintMembers(ms: seq<Member>): string {
    if ms == [] then ""
    else Quote(ms[0].key) + ": " + Print(ms[0].value)
         + (if |ms| == 1 then "" else ", " + PrintMembers(ms[1..]))
  }

  /** `payload_json`: None when `json.dumps` raises. */
  function Dumps(v: Value): Option<string> {
    if Encodable(v) then Some(Print(SortKeys(v))) else None
  }

  // ------------------------------------------------------------------ reader

  datatype Parsed<+T> = Fail | Ok(value: T, rest: string)

  predicate IsSpace(c: char) { c == ' ' || c == '\t' || c == '\n' || c == '\r' }

  function SkipSpace(s: string): (r: string)
    ensures |r| <= |s|
  {
    if s != "" && IsSpace(s[0]) then SkipSpace(s[1..]) else s
  }

  predicate IsDigit(c: char) { '0' <= c <= '9' }

  function HexValue(c: char): (r: Option<int>)
    ensures r.Some? ==> 0 <= r.value < 16
  {
    if IsDigit(c) then Some(c as int - '0' as int)
    else if 'a' <= c <= 'f' then Some(c as int - 'a' as int + 10)
    else if 'A' <= c <= 'F' then Some(c as int - 'A' as int + 10)
    else None
  }

  /** Four hexadecimal digits at the front of `s`. */
  function ParseHex4(s: string): (r: Option<int>)
    ensures r.Some? ==> 0 <= r.value < 0x10000 && |s| >= 4
  {
    if |s| < 4 then None
    else
      match (HexValue(s[0]), HexValue(s[1]), HexValue(s[2]), HexValue(s[3]))
      case (Some(a), Some(b), Some(c), Some(d)) => Some(a * 0x1000 + b * 0x100 + c * 0x10 + d)
      case _ => None
  }

  function SimpleEscape(c: char): Option<CodePoint> {
    if c == '"' then Some(0x22)
    else if c == '\\' then Some(0x5C)
    else if c == '/' then Some(0x2F)
    else if c == 'b' then Some(0x08)
    else if c == 'f' then Some(0x0C)
    else if c == 'n' then Some(0x0A)
    else if c == 'r' then Some(0x0D)
    else if c == 't' then Some(0x09)
    else None
  }

  function Combine(hi: int, lo: int): CodePoint
    requires IsHigh(hi) && IsLow(lo)
  {
    0x10000 + (hi - 0xD800) * 0x400 + (lo - 0xDC00)
  }

  /** The low half of a surrogate pair, when `s` starts with its escape. */
  function LowHalf(s: string): (r: Option<int>)
    ensures r.Some? ==> IsLow(r.value) && |s| >= 6
  {
    if |s| >= 6 && s[0] == '\\' && s[1] == 'u' && ParseHex4(s[2..]).Some? && IsLow(ParseHex4(s[2..]).value)
    then ParseHex4(s[2..]) else None
  }

  /** One escape sequence; `s` starts with its backslash. */
  function ParseEscape(s: string): (r: Parsed<CodePoint>)
    ensures r.Ok? ==> |r.rest| < |s|
  {
    if |s| < 2 then Fail
    else if s[1] == 'u' then
      match ParseHex4(s[2..])
      case None => Fail
      case Some(u) =>
        if IsHigh(u) && LowHalf(s[6..]).Some? then Ok(Combine(u, LowHalf(s[6..]).value), s[12..])
        else Ok(u, s[6..])
    else
      match SimpleEscape(s[1])
      case None => Fail
      case Some(c) => Ok(c, s[2..])
  }

  /** The inside of a string literal, up to and including the closing quote. */
  function ParseChars(s: string): (r: Parsed<Str>)
    ensures r.Ok? ==> |r.rest| < |s|
    decreases |s|
  {
    if s == "" || s[0] < ' ' then Fail
    else if s[0] == '"' then Ok([], s[1..])
    else
      var c := if s[0] == '\\' then ParseEscape(s) else Ok(s[0] as int, s[1..]);
      if c.Fail? then Fail
      else
        var tail := ParseChars(c.rest);
        if tail.Fail? then Fail else Ok([c.value] + tail.value, tail.rest)
  }

  function DigitSpan(s: string): (n: nat)
    ensures n <= |s|
  {
    if s != "" && IsDigit(s[0]) then 1 + DigitSpan(s[1..]) else 0
  }

  function DecimalValue(s: string): nat {
    if s == "" then 0
    else DecimalValue(s[..|s| - 1]) * 10 + (if IsDigit(s[|s| - 1]) then s[|s| - 1] as int - '0' as int else 0)
  }

  function FractionSpan(s: string): (n: nat)
    ensures n <= |s|
  {
    if |s| >= 2 && s[0] == '.' && IsDigit(s[1]) then 1 + DigitSpan(s[1..]) else 0
  }

  function ExponentSpan(s: string): (n: nat)
    ensures n <= |s|
  {
    if s == "" || (s[0] != 'e' && s[0] != 'E') then 0
    else
      var sign := if |s| >= 2 && (s[1] == '+' || s[1] == '-') then 1 else 0;
      var digits := DigitSpan(s[1 + sign..]);
      if digits == 0 then 0 else 1 + sign + digits
  }

  function IntSpan(s: string): (n: nat)
    ensures n <= |s|
  {
    if s != "" && s[0] == '0' then 1 else DigitSpan(s)
  }

  function SignSpan(s: string): (n: nat)
    ensures n <= |s|
  {
    if s != "" && s[0] == '-' then 1 else 0
  }

  /** Where the parts of a number at the front of `s` end: sign and integer, fraction, exponent. */
  function WholeEnd(s: string): (n: nat)
    ensures SignSpan(s) <= n <= |s|
  {
    SignSpan(s) + IntSpan(s[SignSpan(s)..])
  }

  function FractionEnd(s: string): (n: nat)
    ensures WholeEnd(s) <= n <= |s|
  {
    WholeEnd(s) + FractionSpan(s[WholeEnd(s)..])
  }

  function NumberEnd(s: string): (n: nat)
    ensures FractionEnd(s) <= n <= |s|
  {
    FractionEnd(s) + ExponentSpan(s[FractionEnd(s)..])
  }

  /** An int or, when a fraction or an exponent follows, a float. */
  function ParseNumber(s: string): (r: Parsed<Value>)
    ensures r.Ok? ==> |r.rest| < |s|
  {
    if WholeEnd(s) == SignSpan(s) then Fail
    else if NumberEnd(s) == WholeEnd(s) then
      var n: int := DecimalValue(s[SignSpan(s)..WholeEnd(s)]);
      Ok(Int(if SignSpan(s) == 1 then -n else n), s[WholeEnd(s)..])
    else Ok(Float(s[..NumberEnd(s)]), s[NumberEnd(s)..])
  }

  predicate FloatText(lexeme: string) {
    || lexeme in {"NaN", "Infinity", "-Infinity"}
    || ParseNumber(lexeme) == Ok(Float(lexeme), "")
  }

  function ParseConstant(s: string): (r: Parsed<Value>)
    ensures r.Ok? ==> |r.rest| < |s|
  {
    if "null" <= s then Ok(Null, s[4..])
    else if "true" <= s then Ok(Bool(true), s[4..])
    else if "false" <= s then Ok(Bool(false), s[5..])
    else Fail
  }

  /** The constants that Python's reader adds to JSON. */
  function ParseSpecial(s: string): (r: Parsed<Value>)
    ensures r.Ok? ==> |r.rest| < |s|
  {
    if "NaN" <= s then Ok(Float("NaN"), s[3..])
    else if "Infinity" <= s then Ok(Float("Infinity"), s[8..])
    else if "-Infinity" <= s then Ok(Float("-Infinity"), s[9..])
    else Fail
  }

  function ParseValue(s: string): (r: Parsed<Value>)
    ensures r.Ok? ==> |r.rest| < |s|
    decreases |s|, 1
  {
    if s == "" then Fail
    else if s[0] == '"' then
      match ParseChars(s[1..])
      case Fail => Fail
      case Ok(cs, rest) => Ok(String(cs), rest)
    else if s[0] == '{' then ParseObject(s[1..])
    else if s[0] == '[' then ParseArray(s[1..])
    else if ParseConstant(s).Ok? then ParseConstant(s)
    else if ParseNumber(s).Ok? then ParseNumber(s)
    else ParseSpecial(s)
  }

  /** What follows an opening brace. */
  function ParseObject(s: string): (r: Parsed<Value>)
    ensures r.Ok? ==> |r.rest| < |s|
    decreases |s|, 1
  {
    var t := SkipSpace(s);
    if t == "" then Fail
    else if t[0] == '}' then Ok(Dict([]), t[1..])
    else if t[0] == '"' then
      match ParseMembers(t[1..])
      case Fail => Fail
      case Ok(ms, rest) => Ok(Dict(ms), rest)
    else Fail
  }

  /** Members up to the closing brace; the first key's opening quote is already consumed. */
  function ParseMembers(s: string): (r: Parsed<seq<Member>>)
    ensures r.Ok? ==> |r.rest| < |s|
    decreases |s|, 0
  {
    var key := ParseChars(s);
    if key.Fail? then Fail
    else
      var colon := SkipSpace(key.rest);
      if colon == "" || colon[0] != ':' then Fail
      else
        var value := ParseValue(SkipSpace(colon[1..]));
        if value.Fail? then Fail
        else
          var m := Member(key.value, value.value);
          var t := SkipSpace(value.rest);
          if t == "" then Fail
          else if t[0] == '}' then Ok([m], t[1..])
          else if t[0] != ',' then Fail
          else
            var next := SkipSpace(t[1..]);
            if next == "" || next[0] != '"' then Fail
            else
              match ParseMembers(next[1..])
              case Fail => Fail
              case Ok(ms, rest) => Ok([m] + ms, rest)
  }

  /** What follows an opening bracket. */
  function ParseArray(s: string): (r: Parsed<Value>)
    ensures r.Ok? ==> |r.rest| < |s|
    decreases |s|, 3
  {
    var t := SkipSpace(s);
    if t == "" then Fail
    else if t[0] == ']' then Ok(List([]), t[1..])
    else
      match ParseItems(t)
      case Fail => Fail
      case Ok(vs, rest) => Ok(List(vs), rest)
  }

  /** Items up to the closing bracket. */
  function ParseItems(s: string): (r: Parsed<seq<Value>>)
    ensures r.Ok? ==> |r.rest| < |s|
    decreases |s|, 2
  {
    var value := ParseValue(s);
    if value.Fail? then Fail
    else
      var t := SkipSpace(value.rest);
      if t == "" then Fail
      else if t[0] == ']' then Ok([value.value], t[1..])
      else if t[0] != ',' then Fail
      else
        match ParseItems(SkipSpace(t[1..]))
        case Fail => Fail
        case Ok(vs, rest) => Ok([value.value] + vs, rest)
  }

  // ------------------------------------------------------------------ building dicts

  /** `d[key] = value`: an old key keeps its place and takes the new value. */
  function Put(ms: seq<Member>, m: Member): seq<Member> {
    if ms == [] then [m]
    else if ms[0].key == m.key then [m] + ms[1..]
    else [ms[0]] + Put(ms[1..], m)
  }

  function PutAll(ms: seq<Member>): seq<Member> {
    if ms == [] then [] else Put(PutAll(ms[..|ms| - 1]), ms[|ms| - 1])
  }

  /** The members that were read, turned into dicts: a repeated key is stored once, last value wins. */
  function ToDicts(v: Value): Value {
    match v
    case List(items) => List(ToDictsItems(items))
    case Dict(members) => Dict(PutAll(ToDictsMembers(members)))
    case _ => v
  }

  function ToDictsItems(vs: seq<Value>): seq<Value> {
    if vs == [] then [] else [ToDicts(vs[0])] + ToDictsItems(vs[1..])
  }

  function ToDictsMembers(ms: seq<Member>): seq<Member> {
    if ms == [] then []
    else [Member(ms[0].key, ToDicts(ms[0].value))] + ToDictsMembers(ms[1..])
  }

  /** `json.loads`: None when it raises. */
  function Loads(text: string): Option<Value> {
    match ParseValue(SkipSpace(text))
    case Fail => None
    case Ok(v, rest) => if SkipSpace(rest) == "" then Some(ToDicts(v)) else None
  }

  /** Text that `json.loads` accepts. */
  predicate JsonText(text: string) { Loads(text).Some? }

  /** What recovery writes to the ledger for a staged text: decode, then encode again. */
  function Redump(text: string): Option<string> {
    match Loads(text)
    case None => None
    case Some(v) => Dumps(v)
  }
}
