/**
 JSON text as the standard encoder writes it without whitespace and as the standard decoder
 reads it (RFC 8259).  Strings are sequences of Unicode scalar values, so an escape that
 denotes a lone surrogate is not read.  A number with a fraction or an exponent is kept as
 its spelling; the documents written by this code base contain none.
 */
module Json {
  import opened Wrappers
  import opened Digits

  datatype Json =
    | Null
    | Bool(b: bool)
    | Int(n: int)
    | Float(spelling: string)
    | Str(s: string)
    | Arr(items: seq<Json>)
    | Obj(members: seq<Member>)

  datatype Member = Member(key: string, value: Json)

  // ---------- printing ----------

  function EscapeChar(c: char, ascii: bool): (e: string)
    ensures 0 < |e|
  {
    var n := c as int;
    if c == '"' then "\\\""
    else if c == '\\' then "\\\\"
    else if c == '\n' then "\\n"
    else if c == '\r' then "\\r"
    else if c == '\t' then "\\t"
    else if n == 8 then "\\b"
    else if n == 12 then "\\f"
    else if n < 0x20 || (ascii && 0x7E < n < 0x10000) then "\\u" + Hex4(n)
    else if ascii && 0x10000 <= n then "\\u" + Hex4(HighSurrogate(n)) + "\\u" + Hex4(LowSurrogate(n))
    else [c]
  }

  function HighSurrogate(n: int): (h: nat)
    requires 0x10000 <= n < 0x110000
    ensures 0xD800 <= h < 0xDC00
  {
    0xD800 + (n - 0x10000) / 0x400
  }

  function LowSurrogate(n: int): (l: nat)
    requires 0x10000 <= n < 0x110000
    ensures 0xDC00 <= l < 0xE000
  {
    0xDC00 + (n - 0x10000) % 0x400
  }

  function EscapeAll(s: string, ascii: bool): string {
    if s == "" then "" else EscapeChar(s[0], ascii) + EscapeAll(s[1..], ascii)
  }

  function PrintString(s: string, ascii: bool): string {
    "\"" + EscapeAll(s, ascii) + "\""
  }

  function PrintInt(n: int): string {
    if n < 0 then "-" + Decimal(-n) else Decimal(n)
  }

  function Print(v: Json, ascii: bool): (t: string)
    decreases v, 1
  {
    match v
    case Null => "null"
    case Bool(b) => if b then "true" else "false"
    case Int(n) => PrintInt(n)
    case Float(t) => t
    case Str(s) => PrintString(s, ascii)
    case Arr(items) => "[" + PrintItems(items, ascii) + "]"
    case Obj(members) => "{" + PrintMembers(members, ascii) + "}"
  }

  function PrintItems(items: seq<Json>, ascii: bool): string
    decreases items, 0
  {
    if items == [] then ""
    else if |items| == 1 then Print(items[0], ascii)
    else Print(items[0], ascii) + "," + PrintItems(items[1..], ascii)
  }

  function PrintMember(m: Member, ascii: bool): string
    decreases m, 0
  {
    PrintString(m.key, ascii) + ":" + Print(m.value, ascii)
  }

  function PrintMembers(members: seq<Member>, ascii: bool): string
    decreases members, 0
  {
    if members == [] then ""
    else if |members| == 1 then PrintMember(members[0], ascii)
    else PrintMember(members[0], ascii) + "," + PrintMembers(members[1..], ascii)
  }

  // ---------- parsing ----------

  /** `Duplicate` is what the pairs hook raises when an object closes. */
  datatype Failure = Syntax | Duplicate

  datatype Parsed<+T> = Good(value: T, rest: string) | Bad(failure: Failure)

  predicate IsSpace(c: char) { c == ' ' || c == '\t' || c == '\n' || c == '\r' }

  function SkipSpace(t: string): (r: string)
    ensures |r| <= |t|
  {
    if t != "" && IsSpace(t[0]) then SkipSpace(t[1..]) else t
  }

  /** The characters of a string literal after its opening quote. */
  function ParseChars(t: string): (r: Parsed<string>)
    ensures r.Good? ==> |r.rest| < |t|
    decreases |t|
  {
    if t == "" || t[0] as int < 0x20 then Bad(Syntax)
    else if t[0] == '"' then Good("", t[1..])
    else if t[0] != '\\' then Prepend(t[0], ParseChars(t[1..]))
    else if |t| == 1 then Bad(Syntax)
    else match t[1]
      case '"' => Prepend('"', ParseChars(t[2..]))
      case '\\' => Prepend('\\', ParseChars(t[2..]))
      case '/' => Prepend('/', ParseChars(t[2..]))
      case 'n' => Prepend('\n', ParseChars(t[2..]))
      case 'r' => Prepend('\r', ParseChars(t[2..]))
      case 't' => Prepend('\t', ParseChars(t[2..]))
      case 'b' => Prepend(8 as char, ParseChars(t[2..]))
      case 'f' => Prepend(12 as char, ParseChars(t[2..]))
      case 'u' =>
        var e := ReadEscape(t[2..]);
        if e.Bad? then Bad(Syntax) else Prepend(e.value, ParseChars(e.rest))
      case _ => Bad(Syntax)
  }

  function Prepend(c: char, r: Parsed<string>): Parsed<string> {
    if r.Bad? then r else Good([c] + r.value, r.rest)
  }

  /** The hexadecimal part of a `\u` escape, a surrogate pair counting as one character. */
  function ReadEscape(t: string): (r: Parsed<char>)
    ensures r.Good? ==> |r.rest| < |t|
  {
    var h := ReadHex4(t);
    if h.None? then Bad(Syntax)
    else if h.value < 0xD800 || 0xE000 <= h.value then Good(h.value as char, t[4..])
    else if h.value < 0xDC00 && |t| >= 6 && t[4] == '\\' && t[5] == 'u' then
      var l := ReadHex4(t[6..]);
      if l.Some? && 0xDC00 <= l.value < 0xE000
      then Good((0x10000 + (h.value - 0xD800) * 0x400 + (l.value - 0xDC00)) as char, t[10..])
      else Bad(Syntax)
    else Bad(Syntax)
  }

  /** A number: an integer part without leading zeros, then an optional fraction and exponent. */
  function ParseNumber(t: string): (r: Parsed<Json>)
    ensures r.Good? ==> |r.rest| < |t|
  {
    if t != "" && t[0] == '-' then ParseUnsigned(t[1..], true) else ParseUnsigned(t, false)
  }

  function ParseUnsigned(t: string, negative: bool): (r: Parsed<Json>)
    ensures r.Good? ==> |r.rest| < |t|
  {
    var (digits, after) := TakeDigits(t);
    if digits == "" then Bad(Syntax)
    else if digits[0] == '0' then NumberTail("0", digits[1..] + after, negative)
    else NumberTail(digits, after, negative)
  }

  function NumberTail(whole: string, rest: string, negative: bool): (r: Parsed<Json>)
    requires AllDigits(whole)
    ensures r.Good? ==> |r.rest| <= |rest|
  {
    var fraction := TakeFraction(rest);
    var exponent := TakeExponent(rest[fraction..]);
    var n: int := Value(whole);
    if fraction + exponent == 0 then Good(Int(if negative then -n else n), rest)
    else Good(Float((if negative then "-" else "") + whole + rest[..fraction + exponent]), rest[fraction + exponent..])
  }

  function TakeFraction(t: string): (n: nat)
    ensures n <= |t|
  {
    if t == "" || t[0] != '.' then 0
    else
      var d := TakeDigits(t[1..]);
      if d.0 == "" then 0 else 1 + |d.0|
  }

  function TakeExponent(t: string): (n: nat)
    ensures n <= |t|
  {
    if t == "" || t[0] !in "eE" then 0
    else
      var sign := if |t| > 1 && t[1] in "+-" then 1 else 0;
      var d := TakeDigits(t[1 + sign..]);
      if d.0 == "" then 0 else 1 + sign + |d.0|
  }

  predicate DistinctKeys(members: seq<Member>) {
    forall i, j | 0 <= i < j < |members| :: members[i].key != members[j].key
  }

  /** One value at the start of `t`.  With `unique` an object that repeats a key is a failure. */
  function ParseValue(t: string, unique: bool): (r: Parsed<Json>)
    ensures r.Good? ==> |r.rest| < |t|
    decreases |t|, 1
  {
    if t == "" then Bad(Syntax)
    else if t[0] == '[' then ParseArray(SkipSpace(t[1..]), unique)
    else if t[0] == '{' then ParseObject(SkipSpace(t[1..]), unique)
    else ParseScalar(t)
  }

  function ParseScalar(t: string): (r: Parsed<Json>)
    requires t != ""
    ensures r.Good? ==> |r.rest| < |t|
  {
    if t[0] == '-' || IsDigit(t[0]) then ParseNumber(t)
    else if t[0] == '"' then
      var r := ParseChars(t[1..]);
      if r.Bad? then Bad(r.failure) else Good(Str(r.value), r.rest)
    else ParseWord(t)
  }

  function ParseWord(t: string): (r: Parsed<Json>)
    ensures r.Good? ==> |r.rest| < |t|
  {
    if "null" <= t then Good(Null, t[4..])
    else if "true" <= t then Good(Bool(true), t[4..])
    else if "false" <= t then Good(Bool(false), t[5..])
    else Bad(Syntax)
  }

  function ParseArray(t: string, unique: bool): (r: Parsed<Json>)
    ensures r.Good? ==> |r.rest| < |t|
    decreases |t|, 3
  {
    if t != "" && t[0] == ']' then Good(Arr([]), t[1..])
    else
      var r := ParseItems(t, unique);
      if r.Bad? then Bad(r.failure) else Good(Arr(r.value), r.rest)
  }

  function ParseObject(t: string, unique: bool): (r: Parsed<Json>)
    ensures r.Good? ==> |r.rest| < |t|
    decreases |t|, 4
  {
    if t != "" && t[0] == '}' then Good(Obj([]), t[1..])
    else
      var r := ParseMembers(t, unique);
      if r.Bad? then Bad(r.failure)
      else if unique && !DistinctKeys(r.value) then Bad(Duplicate)
      else Good(Obj(r.value), r.rest)
  }

  function ParseItems(t: string, unique: bool): (r: Parsed<seq<Json>>)
    ensures r.Good? ==> |r.rest| < |t|
    decreases |t|, 2
  {
    var v := ParseValue(t, unique);
    if v.Bad? then Bad(v.failure)
    else
      var t1 := SkipSpace(v.rest);
      if t1 != "" && t1[0] == ']' then Good([v.value], t1[1..])
      else if t1 != "" && t1[0] == ',' then
        var r := ParseItems(SkipSpace(t1[1..]), unique);
        if r.Bad? then r else Good([v.value] + r.value, r.rest)
      else Bad(Syntax)
  }

  function ParseMember(t: string, unique: bool): (r: Parsed<Member>)
    ensures r.Good? ==> |r.rest| < |t|
    decreases |t|, 2
  {
    if t == "" || t[0] != '"' then Bad(Syntax)
    else
      var k := ParseChars(t[1..]);
      if k.Bad? then Bad(k.failure)
      else
        var t1 := SkipSpace(k.rest);
        if t1 == "" || t1[0] != ':' then Bad(Syntax)
        else
          var v := ParseValue(SkipSpace(t1[1..]), unique);
          if v.Bad? then Bad(v.failure) else Good(Member(k.value, v.value), v.rest)
  }

  function ParseMembers(t: string, unique: bool): (r: Parsed<seq<Member>>)
    ensures r.Good? ==> |r.rest| < |t|
    decreases |t|, 3
  {
    var m := ParseMember(t, unique);
    if m.Bad? then Bad(m.failure)
    else
      var t1 := SkipSpace(m.rest);
      if t1 != "" && t1[0] == '}' then Good([m.value], t1[1..])
      else if t1 != "" && t1[0] == ',' then
        var r := ParseMembers(SkipSpace(t1[1..]), unique);
        if r.Bad? then r else Good([m.value] + r.value, r.rest)
      else Bad(Syntax)
  }

  /** A whole document. */
  function Parse(t: string, unique: bool): Result<Json, Failure> {
    var r := ParseValue(SkipSpace(t), unique);
    if r.Bad? then Err(r.failure)
    else if SkipSpace(r.rest) != "" then Err(Syntax)
    else Ok(r.value)
  }

  // ---------- parsing undoes printing ----------

  /** Values without fractional numbers; with `unique`, without repeated keys. */
  predicate FloatFree(v: Json, unique: bool)
    decreases v
  {
    match v
    case Float(_) => false
    case Arr(items) => forall x | x in items :: FloatFree(x, unique)
    case Obj(members) => (unique ==> DistinctKeys(members)) && forall m | m in members :: FloatFree(m.value, unique)
    case _ => true
  }

  /** What may follow a printed value. */
  predicate Terminated(rest: string) {
    rest == "" || rest[0] in ",]}" || IsSpace(rest[0])
  }

  lemma Split(a: string, b: string)
    ensures (a + b)[|a|..] == b && (a + b)[..|a|] == a
    ensures a != "" ==> (a + b) != "" && (a + b)[0] == a[0]
  {
  }

  lemma HeadTail<T>(s: seq<T>)
    requires s != []
    ensures [s[0]] + s[1..] == s
  {
  }

  lemma Regroup(a: string, b: string, c: string, d: string)
    ensures a + b + c + d == a + (b + (c + d)) && a + b + c == a + (b + c)
  {
  }

  lemma SurrogatesJoin(n: int)
    requires 0x10000 <= n < 0x110000
    ensures 0x10000 + (HighSurrogate(n) - 0xD800) * 0x400 + (LowSurrogate(n) - 0xDC00) == n
  {
  }

  lemma PlainEscape(n: nat, rest: string)
    requires n < 0xD800 || 0xE000 <= n < 0x10000
    ensures ReadEscape(Hex4(n) + rest) == Good(n as char, rest)
  {
    Split(Hex4(n), rest);
    ReadHex4OfHex4(n, Hex4(n) + rest);
  }

  lemma PairEscape(n: int, t: string)
    requires 0x10000 <= n < 0x110000
    requires |t| >= 10 && t[..4] == Hex4(HighSurrogate(n)) && t[4] == '\\' && t[5] == 'u' && t[6..10] == Hex4(LowSurrogate(n))
    ensures ReadEscape(t) == Good(n as char, t[10..])
  {
    ReadHex4OfHex4(HighSurrogate(n), t);
    assert t[6..][..4] == t[6..10];
    ReadHex4OfHex4(LowSurrogate(n), t[6..]);
    SurrogatesJoin(n);
  }

  lemma PlainCharParses(t: string)
    requires t != "" && t[0] as int >= 0x20 && t[0] != '"' && t[0] != '\\'
    ensures ParseChars(t) == Prepend(t[0], ParseChars(t[1..]))
  {
  }

  /** The letter behind the backslash of a two-character escape. */
  function ShortEscape(letter: char): Option<char> {
    match letter
    case '"' => Some('"')
    case '\\' => Some('\\')
    case 'n' => Some('\n')
    case 'r' => Some('\r')
    case 't' => Some('\t')
    case 'b' => Some(8 as char)
    case 'f' => Some(12 as char)
    case _ => None
  }

  lemma ShortEscapeIs(c: char)
    requires |EscapeChar(c, false)| == 2
    ensures EscapeChar(c, false)[0] == '\\' && ShortEscape(EscapeChar(c, false)[1]) == Some(c)
  {
  }

  lemma ShortEscapeReads(t: string)
    requires |t| >= 2 && t[0] == '\\' && ShortEscape(t[1]).Some?
    ensures ParseChars(t) == Prepend(ShortEscape(t[1]).value, ParseChars(t[2..]))
  {
  }

  lemma ShortEscapeParses(t: string, c: char)
    requires |t| >= 2 && t[..2] == EscapeChar(c, false)
    ensures ParseChars(t) == Prepend(c, ParseChars(t[2..]))
  {
    assert t[0] == t[..2][0] && t[1] == t[..2][1];
    ShortEscapeIs(c);
    ShortEscapeReads(t);
  }

  lemma UnicodeEscapeParses(t: string, c: char, rest: string)
    requires |t| >= 2 && t[0] == '\\' && t[1] == 'u' && ReadEscape(t[2..]) == Good(c, rest)
    ensures ParseChars(t) == Prepend(c, ParseChars(rest))
  {
  }

  lemma EscapeParses(c: char, ascii: bool, rest: string)
    ensures ParseChars(EscapeChar(c, ascii) + rest) == Prepend(c, ParseChars(rest))
  {
    var n := c as int;
    var e := EscapeChar(c, ascii);
    var t := e + rest;
    Split(e, rest);
    if |e| == 1 {
      PlainCharParses(t);
    } else if |e| == 2 {
      ShortEscapeParses(t, c);
    } else if n < 0x10000 {
      assert t[1] == e[1];
      assert t[2..] == Hex4(n) + rest;
      PlainEscape(n, rest);
      UnicodeEscapeParses(t, c, rest);
    } else {
      LongEscapeParses(c, rest);
    }
  }

  lemma LongEscapeParses(c: char, rest: string)
    requires c as int >= 0x10000
    ensures ParseChars(EscapeChar(c, true) + rest) == Prepend(c, ParseChars(rest))
  {
    var e := EscapeChar(c, true);
    var t := e + rest;
    var u := t[2..];
    assert |e| == 12 && e[..2] == "\\u" && e[2..6] == Hex4(HighSurrogate(c as int)) && e[6..8] == "\\u"
        && e[8..] == Hex4(LowSurrogate(c as int));
    assert t[0] == e[..2][0] && t[1] == e[..2][1];
    assert u[..4] == e[2..6] && u[4] == e[6..8][0] && u[5] == e[6..8][1] && u[6..10] == e[8..] && u[10..] == rest;
    PairEscape(c as int, u);
    UnicodeEscapeParses(t, c, rest);
  }

  lemma {:induction false} EscapedParses(s: string, ascii: bool, rest: string)
    ensures ParseChars(EscapeAll(s, ascii) + "\"" + rest) == Good(s, rest)
  {
    if s == "" {
      assert EscapeAll(s, ascii) + "\"" + rest == "\"" + rest;
    } else {
      var tail := EscapeAll(s[1..], ascii) + "\"" + rest;
      assert EscapeAll(s, ascii) + "\"" + rest == EscapeChar(s[0], ascii) + tail;
      EscapeParses(s[0], ascii, tail);
      EscapedParses(s[1..], ascii, rest);
      assert [s[0]] + s[1..] == s;
    }
  }

  lemma StringParses(s: string, ascii: bool, unique: bool, rest: string)
    ensures ParseValue(PrintString(s, ascii) + rest, unique) == Good(Str(s), rest)
  {
    EscapedParses(s, ascii, rest);
    var tail := EscapeAll(s, ascii) + "\"" + rest;
    assert PrintString(s, ascii) + rest == "\"" + tail;
    QuotedParses("\"" + tail, tail, unique);
  }

  lemma QuotedParses(t: string, tail: string, unique: bool)
    requires t == "\"" + tail && ParseChars(tail).Good?
    ensures ParseValue(t, unique) == Good(Str(ParseChars(tail).value), ParseChars(tail).rest)
  {
    assert t[0] == '"' && t[1..] == tail;
  }

  lemma DigitsParse(negative: bool, m: nat, rest: string)
    requires Terminated(rest)
    ensures var n: int := m; ParseUnsigned(Decimal(m) + rest, negative) == Good(Int(if negative then -n else n), rest)
  {
    TakeDigitsExact(Decimal(m), rest);
    ValueOfDecimal(m);
    if m == 0 {
      assert Decimal(0) == "0" && "0"[1..] + rest == rest;
    }
    TailParses(Decimal(m), rest, negative);
  }

  lemma TailParses(whole: string, rest: string, negative: bool)
    requires AllDigits(whole) && Terminated(rest)
    ensures var n: int := Value(whole); NumberTail(whole, rest, negative) == Good(Int(if negative then -n else n), rest)
  {
    assert rest[0..] == rest;
  }

  lemma NegativeParses(t: string)
    requires t != "" && t[0] == '-'
    ensures ParseNumber(t) == ParseUnsigned(t[1..], true)
  {
  }

  lemma PositiveParses(t: string)
    requires t != "" && t[0] != '-'
    ensures ParseNumber(t) == ParseUnsigned(t, false)
  {
  }

  lemma NumberParses(n: int, rest: string)
    requires Terminated(rest)
    ensures ParseNumber(PrintInt(n) + rest) == Good(Int(n), rest)
    ensures PrintInt(n)[0] == '-' || IsDigit(PrintInt(n)[0])
  {
    var m := if n < 0 then -n else n;
    var digits := Decimal(m) + rest;
    DigitsParse(n < 0, m, rest);
    Split(Decimal(m), rest);
    if n < 0 {
      Regroup("-", Decimal(m), rest, "");
      Split("-", digits);
      NegativeParses("-" + digits);
    } else {
      PositiveParses(digits);
    }
  }

  lemma ArrayStart(t: string, unique: bool, items: seq<Json>, rest: string)
    requires |t| >= 2 && t[0] == '[' && !IsSpace(t[1])
    requires if items == [] then t[1] == ']' && t[2..] == rest else t[1] != ']' && ParseItems(t[1..], unique) == Good(items, rest)
    ensures ParseValue(t, unique) == Good(Arr(items), rest)
  {
    assert SkipSpace(t[1..]) == t[1..];
    assert items == [] ==> t[1..][1..] == rest;
  }

  lemma ObjectStart(t: string, unique: bool, members: seq<Member>, rest: string)
    requires |t| >= 2 && t[0] == '{' && !IsSpace(t[1]) && (unique ==> DistinctKeys(members))
    requires if members == [] then t[1] == '}' && t[2..] == rest else t[1] != '}' && ParseMembers(t[1..], unique) == Good(members, rest)
    ensures ParseValue(t, unique) == Good(Obj(members), rest)
  {
    assert SkipSpace(t[1..]) == t[1..];
    assert members == [] ==> t[1..][1..] == rest;
  }

  lemma Bracketed(open: string, body: string, close: string, rest: string)
    requires |open| == |close| == 1
    ensures var t := open + body + close + rest;
      && |t| >= 2 && t[0] == open[0] && t[1..] == body + close + rest && t[1] == (body + close + rest)[0]
      && (body == "" ==> t[1] == close[0] && t[2..] == rest)
  {
  }

  lemma NumberStart(t: string, unique: bool)
    requires t != "" && (t[0] == '-' || IsDigit(t[0]))
    ensures ParseValue(t, unique) == ParseNumber(t)
  {
  }

  lemma IntParses(n: int, ascii: bool, unique: bool, rest: string)
    requires Terminated(rest)
    ensures ParseValue(Print(Int(n), ascii) + rest, unique) == Good(Int(n), rest)
    ensures PrintInt(n)[0] == '-' || IsDigit(PrintInt(n)[0])
  {
    NumberParses(n, rest);
    Split(PrintInt(n), rest);
    NumberStart(PrintInt(n) + rest, unique);
  }

  lemma WordParses(v: Json, ascii: bool, unique: bool, rest: string)
    requires v.Null? || v.Bool?
    ensures ParseValue(Print(v, ascii) + rest, unique) == Good(v, rest)
  {
    var word := Print(v, ascii);
    var t := word + rest;
    Split(word, rest);
    assert word <= t;
    assert t[0] == word[0];
  }

  lemma {:induction false} ValueParses(v: Json, ascii: bool, unique: bool, rest: string)
    requires FloatFree(v, unique) && Terminated(rest)
    ensures ParseValue(Print(v, ascii) + rest, unique) == Good(v, rest)
    ensures Print(v, ascii) != "" && !IsSpace(Print(v, ascii)[0]) && Print(v, ascii)[0] !in "]}"
    decreases v, 1
  {
    match v
    case Null => WordParses(v, ascii, unique, rest);
    case Bool(_) => WordParses(v, ascii, unique, rest);
    case Int(n) => IntParses(n, ascii, unique, rest);
    case Str(s) => StringParses(s, ascii, unique, rest);
    case Arr(items) =>
      if items != [] {
        ItemsParse(items, ascii, unique, rest);
      }
      Bracketed("[", PrintItems(items, ascii), "]", rest);
      ArrayStart(Print(v, ascii) + rest, unique, items, rest);
    case Obj(members) =>
      if members != [] {
        MembersParse(members, ascii, unique, rest);
      }
      Bracketed("{", PrintMembers(members, ascii), "}", rest);
      ObjectStart(Print(v, ascii) + rest, unique, members, rest);
  }

  lemma ItemsStep(t: string, unique: bool, v: Json, tail: string, vs: seq<Json>, rest: string)
    requires ParseValue(t, unique) == Good(v, "," + tail)
    requires tail != "" && !IsSpace(tail[0]) && ParseItems(tail, unique) == Good(vs, rest)
    ensures ParseItems(t, unique) == Good([v] + vs, rest)
  {
    Split(",", tail);
  }

  lemma ItemsLast(t: string, unique: bool, v: Json, rest: string)
    requires ParseValue(t, unique) == Good(v, "]" + rest)
    ensures ParseItems(t, unique) == Good([v], rest)
  {
    Split("]", rest);
  }

  lemma {:induction false} ItemsParse(items: seq<Json>, ascii: bool, unique: bool, rest: string)
    requires items != [] && (forall x | x in items :: FloatFree(x, unique))
    ensures var t := PrintItems(items, ascii) + "]" + rest;
      t != "" && !IsSpace(t[0]) && t[0] != ']' && ParseItems(t, unique) == Good(items, rest)
    decreases items, 1
  {
    var first := Print(items[0], ascii);
    if |items| == 1 {
      Regroup(first, "]", rest, "");
      ValueParses(items[0], ascii, unique, "]" + rest);
      Split(first, "]" + rest);
      ItemsLast(first + ("]" + rest), unique, items[0], rest);
      assert items == [items[0]];
    } else {
      ItemsCons(items, ascii, unique, rest);
    }
  }

  lemma ItemsText(items: seq<Json>, ascii: bool, rest: string)
    requires |items| > 1
    ensures PrintItems(items, ascii) + "]" + rest == Print(items[0], ascii) + ("," + (PrintItems(items[1..], ascii) + "]" + rest))
  {
    Regroup(Print(items[0], ascii), ",", PrintItems(items[1..], ascii), "]" + rest);
    Regroup(PrintItems(items, ascii), "]", rest, "");
    Regroup(PrintItems(items[1..], ascii), "]", rest, "");
  }

  lemma {:induction false} ItemsCons(items: seq<Json>, ascii: bool, unique: bool, rest: string)
    requires |items| > 1 && (forall x | x in items :: FloatFree(x, unique))
    ensures var t := PrintItems(items, ascii) + "]" + rest;
      t != "" && !IsSpace(t[0]) && t[0] != ']' && ParseItems(t, unique) == Good(items, rest)
    decreases items, 0
  {
    var first := Print(items[0], ascii);
    var others := PrintItems(items[1..], ascii);
    var tail := others + "]" + rest;
    ValueParses(items[0], ascii, unique, "," + tail);
    Split(first, "," + tail);
    ItemsParse(items[1..], ascii, unique, rest);
    ItemsStep(first + ("," + tail), unique, items[0], tail, items[1..], rest);
    HeadTail(items);
    ItemsText(items, ascii, rest);
  }

  lemma MemberStep(t: string, key: string, value: string, unique: bool, v: Json, rest: string)
    requires t != "" && t[0] == '"' && ParseChars(t[1..]) == Good(key, ":" + value)
    requires value != "" && !IsSpace(value[0]) && ParseValue(value, unique) == Good(v, rest)
    ensures ParseMember(t, unique) == Good(Member(key, v), rest)
  {
    Split(":", value);
  }

  lemma MemberText(escaped: string, printed: string, rest: string)
    ensures var t := "\"" + escaped + "\"" + ":" + printed + rest;
      t != "" && t[0] == '"' && t[1..] == escaped + "\"" + (":" + (printed + rest))
  {
  }

  lemma {:induction false} MemberParses(m: Member, ascii: bool, unique: bool, rest: string)
    requires FloatFree(m.value, unique) && Terminated(rest)
    ensures var t := PrintMember(m, ascii) + rest;
      t != "" && t[0] == '"' && ParseMember(t, unique) == Good(m, rest)
    decreases m, 2
  {
    var printed := Print(m.value, ascii);
    ValueParses(m.value, ascii, unique, rest);
    Split(printed, rest);
    EscapedParses(m.key, ascii, ":" + (printed + rest));
    MemberText(EscapeAll(m.key, ascii), printed, rest);
    MemberStep(PrintMember(m, ascii) + rest, m.key, printed + rest, unique, m.value, rest);
  }

  lemma MembersStep(t: string, unique: bool, m: Member, tail: string, ms: seq<Member>, rest: string)
    requires ParseMember(t, unique) == Good(m, "," + tail)
    requires tail != "" && !IsSpace(tail[0]) && ParseMembers(tail, unique) == Good(ms, rest)
    ensures ParseMembers(t, unique) == Good([m] + ms, rest)
  {
    Split(",", tail);
  }

  lemma MembersLast(t: string, unique: bool, m: Member, rest: string)
    requires ParseMember(t, unique) == Good(m, "}" + rest)
    ensures ParseMembers(t, unique) == Good([m], rest)
  {
    Split("}", rest);
  }

  lemma {:induction false} MembersParse(members: seq<Member>, ascii: bool, unique: bool, rest: string)
    requires members != [] && (forall m | m in members :: FloatFree(m.value, unique))
    ensures var t := PrintMembers(members, ascii) + "}" + rest;
      t != "" && t[0] == '"' && ParseMembers(t, unique) == Good(members, rest)
    decreases members, 1
  {
    var first := PrintMember(members[0], ascii);
    if |members| == 1 {
      Regroup(first, "}", rest, "");
      MemberParses(members[0], ascii, unique, "}" + rest);
      MembersLast(first + ("}" + rest), unique, members[0], rest);
      assert members == [members[0]];
    } else {
      MembersCons(members, ascii, unique, rest);
    }
  }

  lemma MembersText(members: seq<Member>, ascii: bool, rest: string)
    requires |members| > 1
    ensures PrintMembers(members, ascii) + "}" + rest
         == PrintMember(members[0], ascii) + ("," + (PrintMembers(members[1..], ascii) + "}" + rest))
  {
    Regroup(PrintMember(members[0], ascii), ",", PrintMembers(members[1..], ascii), "}" + rest);
    Regroup(PrintMembers(members, ascii), "}", rest, "");
    Regroup(PrintMembers(members[1..], ascii), "}", rest, "");
  }

  lemma {:induction false} MembersCons(members: seq<Member>, ascii: bool, unique: bool, rest: string)
    requires |members| > 1 && (forall m | m in members :: FloatFree(m.value, unique))
    ensures var t := PrintMembers(members, ascii) + "}" + rest;
      t != "" && t[0] == '"' && ParseMembers(t, unique) == Good(members, rest)
    decreases members, 0
  {
    var first := PrintMember(members[0], ascii);
    var others := PrintMembers(members[1..], ascii);
    var tail := others + "}" + rest;
    MemberParses(members[0], ascii, unique, "," + tail);
    MembersParse(members[1..], ascii, unique, rest);
    MembersStep(first + ("," + tail), unique, members[0], tail, members[1..], rest);
    HeadTail(members);
    MembersText(members, ascii, rest);
  }

  /** The decoder reads back every printed value. */
  lemma ParseOfPrint(v: Json, ascii: bool, unique: bool)
    requires FloatFree(v, unique)
    ensures Parse(Print(v, ascii), unique) == Ok(v)
  {
    ValueParses(v, ascii, unique, "");
    assert Print(v, ascii) + "" == Print(v, ascii);
  }

  /** Nor does a line feed at the end matter. */
  lemma ParseOfPrintedLine(v: Json, ascii: bool, unique: bool)
    requires FloatFree(v, unique)
    ensures Parse(Print(v, ascii) + "\n", unique) == Ok(v)
  {
    ValueParses(v, ascii, unique, "\n");
  }

  // ---------- with the pairs hook every object is a dictionary ----------

  /** A mapping holds each key once, at every level. */
  predicate IsDict(v: Json)
    decreases v
  {
    match v
    case Arr(items) => forall x | x in items :: IsDict(x)
    case Obj(members) => DistinctKeys(members) && forall m | m in members :: IsDict(m.value)
    case _ => true
  }

  lemma {:induction false} ParsedIsDict(t: string)
    requires ParseValue(t, true).Good?
    ensures IsDict(ParseValue(t, true).value)
    decreases |t|, 1
  {
    if t[0] == '[' {
      var u := SkipSpace(t[1..]);
      if u == "" || u[0] != ']' {
        ParsedItemsAreDicts(u);
      }
    } else if t[0] == '{' {
      var u := SkipSpace(t[1..]);
      if u == "" || u[0] != '}' {
        ParsedMembersAreDicts(u);
      }
    } else {
      ParsedScalar(t);
    }
  }

  predicate IsNumber(r: Parsed<Json>) {
    r.Good? ==> r.value.Int? || r.value.Float?
  }

  lemma NumberTailIsNumber(whole: string, rest: string, negative: bool)
    requires AllDigits(whole)
    ensures IsNumber(NumberTail(whole, rest, negative))
  {
  }

  lemma UnsignedIsNumber(t: string, negative: bool)
    ensures IsNumber(ParseUnsigned(t, negative))
  {
    var (digits, after) := TakeDigits(t);
    if digits != "" {
      if digits[0] == '0' {
        NumberTailIsNumber("0", digits[1..] + after, negative);
      } else {
        NumberTailIsNumber(digits, after, negative);
      }
    }
  }

  lemma ParsedScalar(t: string)
    requires ParseValue(t, true).Good? && t[0] != '[' && t[0] != '{'
    ensures !ParseValue(t, true).value.Arr? && !ParseValue(t, true).value.Obj?
  {
    if t[0] == '-' {
      NegativeParses(t);
      UnsignedIsNumber(t[1..], true);
    } else if IsDigit(t[0]) {
      PositiveParses(t);
      UnsignedIsNumber(t, false);
    }
  }

  lemma {:induction false} ParsedItemsAreDicts(t: string)
    requires ParseItems(t, true).Good?
    ensures forall x | x in ParseItems(t, true).value :: IsDict(x)
    decreases |t|, 2
  {
    ParsedIsDict(t);
    var v := ParseValue(t, true);
    var u := SkipSpace(v.rest);
    if u[0] == ',' {
      ParsedItemsAreDicts(SkipSpace(u[1..]));
    }
  }

  lemma {:induction false} ParsedMembersAreDicts(t: string)
    requires ParseMembers(t, true).Good?
    ensures forall m | m in ParseMembers(t, true).value :: IsDict(m.value)
    decreases |t|, 2
  {
    var m := ParseMember(t, true);
    var after := SkipSpace(ParseChars(t[1..]).rest);
    ParsedIsDict(SkipSpace(after[1..]));
    assert IsDict(m.value.value);
    var u := SkipSpace(m.rest);
    if u[0] == ',' {
      ParsedMembersAreDicts(SkipSpace(u[1..]));
    }
  }
}
