/** Decimal and hexadecimal text of natural numbers. */
module Digits {
  import opened Wrappers

  predicate IsDigit(c: char) { '0' <= c <= '9' }

  function DigitChar(d: nat): (c: char)
    requires d < 10
    ensures IsDigit(c)
  {
    ('0' as int + d) as char
  }

  function DigitValue(c: char): (d: nat)
    requires IsDigit(c)
    ensures d < 10
  {
    c as int - '0' as int
  }

  predicate AllDigits(s: string) {
    forall i | 0 <= i < |s| :: IsDigit(s[i])
  }

  /** Shortest decimal text. */
  function Decimal(n: nat): (s: string)
    ensures AllDigits(s) && 0 < |s| && (n != 0 ==> s[0] != '0')
  {
    if n < 10 then [DigitChar(n)] else Decimal(n / 10) + [DigitChar(n % 10)]
  }

  function Value(s: string): nat
    requires AllDigits(s)
  {
    if s == "" then 0 else Value(s[..|s| - 1]) * 10 + DigitValue(s[|s| - 1])
  }

  lemma {:induction false} ValueOfDecimal(n: nat)
    ensures Value(Decimal(n)) == n
  {
    if n < 10 {
      assert [DigitChar(n)][..0] == "";
    } else {
      ValueOfDecimal(n / 10);
      assert Decimal(n)[..|Decimal(n)| - 1] == Decimal(n / 10);
    }
  }

  lemma {:induction false} ValuePositive(s: string)
    requires AllDigits(s) && 0 < |s| && s[0] != '0'
    ensures 0 < Value(s)
  {
    if |s| > 1 {
      ValuePositive(s[..|s| - 1]);
    } else {
      assert s[..0] == "";
    }
  }

  /** Digit texts without a leading zero are exactly the images of `Decimal`. */
  lemma {:induction false} DecimalOfValue(s: string)
    requires AllDigits(s) && 0 < |s| && (|s| == 1 || s[0] != '0')
    ensures Decimal(Value(s)) == s
  {
    var k := |s| - 1;
    var last := DigitValue(s[k]);
    assert s == s[..k] + [DigitChar(last)];
    if k == 0 {
      assert s[..0] == "";
    } else {
      DecimalOfValue(s[..k]);
      ValuePositive(s[..k]);
      var v := Value(s[..k]);
      assert Value(s) == v * 10 + last;
      assert Value(s) / 10 == v && Value(s) % 10 == last;
    }
  }

  function Pow10(n: nat): (p: nat)
    ensures 0 < p
  {
    if n == 0 then 1 else 10 * Pow10(n - 1)
  }

  /** The longest digit prefix of `t` and what follows it. */
  function TakeDigits(t: string): (r: (string, string))
    ensures AllDigits(r.0) && r.0 + r.1 == t && (r.1 != "" ==> !IsDigit(r.1[0]))
  {
    if t == "" || !IsDigit(t[0]) then ("", t)
    else
      var r := TakeDigits(t[1..]);
      ([t[0]] + r.0, r.1)
  }

  lemma {:induction false} TakeDigitsExact(s: string, rest: string)
    requires AllDigits(s) && (rest != "" ==> !IsDigit(rest[0]))
    ensures TakeDigits(s + rest) == (s, rest)
  {
    if s == "" {
      assert s + rest == rest;
    } else {
      assert (s + rest)[1..] == s[1..] + rest;
      TakeDigitsExact(s[1..], rest);
      assert [s[0]] + s[1..] == s;
    }
  }

  // ---------- lower-case hexadecimal ----------

  predicate IsLowerHex(c: char) { IsDigit(c) || 'a' <= c <= 'f' }

  function HexChar(d: nat): (c: char)
    requires d < 16
    ensures IsLowerHex(c) && HexValue(c) == Some(d)
  {
    if d < 10 then ('0' as int + d) as char else ('a' as int + d - 10) as char
  }

  function HexValue(c: char): (r: Option<nat>)
    ensures r.Some? ==> r.value < 16
  {
    if IsDigit(c) then Some(DigitValue(c))
    else if 'a' <= c <= 'f' then Some(c as int - 'a' as int + 10)
    else if 'A' <= c <= 'F' then Some(c as int - 'A' as int + 10)
    else None
  }

  function Hex4(n: nat): (s: string)
    requires n < 0x10000
    ensures |s| == 4
  {
    [HexChar(n / 16 / 16 / 16), HexChar(n / 16 / 16 % 16), HexChar(n / 16 % 16), HexChar(n % 16)]
  }

  function ReadHex4(t: string): (r: Option<nat>)
    ensures r.Some? ==> |t| >= 4 && r.value < 0x10000
  {
    if |t| < 4 then None else JoinHex(HexValue(t[0]), HexValue(t[1]), HexValue(t[2]), HexValue(t[3]))
  }

  function JoinHex(a: Option<nat>, b: Option<nat>, c: Option<nat>, d: Option<nat>): (r: Option<nat>)
    requires (a.Some? ==> a.value < 16) && (b.Some? ==> b.value < 16) && (c.Some? ==> c.value < 16) && (d.Some? ==> d.value < 16)
    ensures r.Some? ==> r.value < 0x10000
  {
    if a.None? || b.None? || c.None? || d.None? then None
    else Some(((a.value * 16 + b.value) * 16 + c.value) * 16 + d.value)
  }

  lemma SplitJoins(n: nat)
    ensures n / 16 * 16 + n % 16 == n
  {
  }

  lemma JoinOfSplit(n: nat)
    requires n < 0x10000
    ensures JoinHex(Some(n / 16 / 16 / 16), Some(n / 16 / 16 % 16), Some(n / 16 % 16), Some(n % 16)) == Some(n)
  {
    SplitJoins(n);
    SplitJoins(n / 16);
    SplitJoins(n / 16 / 16);
  }

  lemma ReadHex4OfHex4(n: nat, t: string)
    requires n < 0x10000 && |t| >= 4 && t[..4] == Hex4(n)
    ensures ReadHex4(t) == Some(n)
  {
    var h := t[..4];
    assert t[0] == h[0] && t[1] == h[1] && t[2] == h[2] && t[3] == h[3];
    JoinOfSplit(n);
  }
}
