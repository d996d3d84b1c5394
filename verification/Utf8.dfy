/** Strict UTF-8, as sections 3 and 4 of RFC 3629 define it. */
module Utf8 {
  import opened Wrappers

  type byte = b: int | 0 <= b < 256
  type Bytes = seq<byte>

  function EncodePoint(n: int): (b: Bytes)
    requires 0 <= n < 0x110000
    ensures 1 <= |b| <= 4
  {
    if n < 0x80 then [n]
    else if n < 0x800 then [0xC0 + n / 64, 0x80 + n % 64]
    else if n < 0x10000 then [0xE0 + n / 64 / 64, 0x80 + n / 64 % 64, 0x80 + n % 64]
    else [0xF0 + n / 64 / 64 / 64, 0x80 + n / 64 / 64 % 64, 0x80 + n / 64 % 64, 0x80 + n % 64]
  }

  function EncodeChar(c: char): (b: Bytes)
    ensures 1 <= |b| <= 4
  {
    EncodePoint(c as int)
  }

  function Encode(s: string): Bytes {
    if s == "" then [] else EncodeChar(s[0]) + Encode(s[1..])
  }

  predicate Continuation(b: byte) { 0x80 <= b < 0xC0 }

  /** A code point that is a Unicode scalar value. */
  predicate IsScalar(n: int) {
    0 <= n < 0xD800 || 0xE000 <= n < 0x110000
  }

  function Join(a: int, b: int): int { a * 64 + b }

  /** The code point of the first character of `b` and the number of bytes it takes; `None` for a
      bad lead byte, a missing continuation byte, an overlong form or a surrogate. */
  function DecodePoint(b: Bytes): (r: Option<(int, nat)>)
    requires b != []
    ensures r.Some? ==> 1 <= r.value.1 <= |b| && IsScalar(r.value.0)
  {
    var b0: int := b[0];
    if b0 < 0x80 then Some((b0, 1))
    else if 0xC2 <= b0 < 0xE0 then
      if |b| < 2 || !Continuation(b[1]) then None
      else Some((Join(b0 - 0xC0, Low(b[1])), 2))
    else if 0xE0 <= b0 < 0xF0 then
      if |b| < 3 || !Continuation(b[1]) || !Continuation(b[2]) then None
      else
        var n := Join(Join(b0 - 0xE0, Low(b[1])), Low(b[2]));
        if n < 0x800 || !IsScalar(n) then None else Some((n, 3))
    else if 0xF0 <= b0 < 0xF5 then
      if |b| < 4 || !Continuation(b[1]) || !Continuation(b[2]) || !Continuation(b[3]) then None
      else
        var n := Join(Join(Join(b0 - 0xF0, Low(b[1])), Low(b[2])), Low(b[3]));
        if n < 0x10000 || !IsScalar(n) then None else Some((n, 4))
    else None
  }

  function Low(b: byte): int { b - 0x80 }

  function DecodeFirst(b: Bytes): (r: Option<(char, nat)>)
    requires b != []
    ensures r.Some? ==> 1 <= r.value.1 <= |b|
  {
    var p := DecodePoint(b);
    if p.None? then None else Some((p.value.0 as char, p.value.1))
  }

  function Decode(b: Bytes): Option<string> {
    if b == [] then Some("")
    else
      var first := DecodeFirst(b);
      if first.None? then None
      else
        var tail := Decode(b[first.value.1..]);
        if tail.None? then None else Some([first.value.0] + tail.value)
  }

  lemma JoinSplits(a: int, b: int)
    requires 0 <= b < 64
    ensures Join(a, b) / 64 == a && Join(a, b) % 64 == b
  {
  }

  lemma SplitJoins(n: int)
    ensures Join(n / 64, n % 64) == n
  {
  }

  lemma DecodePointOfEncode(n: int, rest: Bytes)
    requires IsScalar(n)
    ensures DecodePoint(EncodePoint(n) + rest) == Some((n, |EncodePoint(n)|))
  {
    var e := EncodePoint(n);
    var b := e + rest;
    assert b[0] == e[0];
    assert |e| > 1 ==> b[1] == e[1];
    assert |e| > 2 ==> b[2] == e[2];
    assert |e| > 3 ==> b[3] == e[3];
    SplitJoins(n);
    SplitJoins(n / 64);
    SplitJoins(n / 64 / 64);
  }

  lemma DecodeFirstOfEncodeChar(c: char, rest: Bytes)
    ensures DecodeFirst(EncodeChar(c) + rest) == Some((c, |EncodeChar(c)|))
  {
    DecodePointOfEncode(c as int, rest);
  }

  lemma {:induction false} DecodeOfEncode(s: string)
    ensures Decode(Encode(s)) == Some(s)
  {
    if s != "" {
      var rest := Encode(s[1..]);
      DecodeFirstOfEncodeChar(s[0], rest);
      assert (EncodeChar(s[0]) + rest)[|EncodeChar(s[0])|..] == rest;
      DecodeOfEncode(s[1..]);
      assert [s[0]] + s[1..] == s;
    }
  }

  lemma EncodeOfDecodePoint(b: Bytes)
    requires b != [] && DecodePoint(b).Some?
    ensures EncodePoint(DecodePoint(b).value.0) == b[..DecodePoint(b).value.1]
  {
    var b0: int := b[0];
    if 0xC2 <= b0 < 0xE0 {
      JoinSplits(b0 - 0xC0, Low(b[1]));
    } else if 0xE0 <= b0 < 0xF0 {
      JoinSplits(b0 - 0xE0, Low(b[1]));
      JoinSplits(Join(b0 - 0xE0, Low(b[1])), Low(b[2]));
    } else if 0xF0 <= b0 {
      JoinSplits(b0 - 0xF0, Low(b[1]));
      JoinSplits(Join(b0 - 0xF0, Low(b[1])), Low(b[2]));
      JoinSplits(Join(Join(b0 - 0xF0, Low(b[1])), Low(b[2])), Low(b[3]));
    }
  }

  lemma EncodeCharOfDecodeFirst(b: Bytes)
    requires b != [] && DecodeFirst(b).Some?
    ensures EncodeChar(DecodeFirst(b).value.0) == b[..DecodeFirst(b).value.1]
  {
    EncodeOfDecodePoint(b);
  }

  /** Decoding accepts nothing but the image of encoding. */
  lemma {:induction false} EncodeOfDecode(b: Bytes)
    requires Decode(b).Some?
    ensures Encode(Decode(b).value) == b
  {
    if b != [] {
      var k := DecodeFirst(b).value.1;
      EncodeCharOfDecodeFirst(b);
      EncodeOfDecode(b[k..]);
      assert Decode(b).value[1..] == Decode(b[k..]).value;
      assert b == b[..k] + b[k..];
    }
  }

  lemma {:induction false} EncodeConcat(s: string, t: string)
    ensures Encode(s + t) == Encode(s) + Encode(t)
  {
    if s == "" {
      assert s + t == t;
    } else {
      assert (s + t)[1..] == s[1..] + t;
      EncodeConcat(s[1..], t);
    }
  }
}
