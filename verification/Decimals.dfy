/**
 Quota quantities as decimal numbers: the canonical form of a decimal, its fixed-point text and
 the strict reader of such texts.
 */
module Decimals {
  import opened Digits
  import opened Wrappers

  const MAX_SIGNIFICANT_DIGITS := 128
  const MAX_TEXT_LENGTH := 256

  /** coefficient * 10^exponent */
  datatype Dec = Dec(coefficient: nat, exponent: int)

  datatype PyDecimal = Finite(negative: bool, magnitude: Dec) | NotFinite

  function TenTo(e: int): (r: real)
    ensures 0.0 < r
    decreases if e < 0 then -e else e
  {
    if e == 0 then 1.0 else if e > 0 then 10.0 * TenTo(e - 1) else TenTo(e + 1) / 10.0
  }

  function Worth(d: Dec): real {
    d.coefficient as real * TenTo(d.exponent)
  }

  function Zeros(n: nat): (z: string)
    ensures |z| == n && AllDigits(z)
  {
    if n == 0 then "" else "0" + Zeros(n - 1)
  }

  /** Fixed-point text, digits for digits. */
  function FixedText(d: Dec): string {
    var digits := Decimal(d.coefficient);
    if d.coefficient == 0 && d.exponent >= 0 then "0"
    else if d.exponent >= 0 then digits + Zeros(d.exponent)
    else
      var position := |digits| + d.exponent;
      if position <= 0 then "0." + Zeros(-position) + digits
      else digits[..position] + "." + digits[position..]
  }

  /** Without trailing zeros. */
  function Strip(d: Dec): (s: Dec)
    requires d.coefficient > 0
    ensures s.coefficient > 0 && s.coefficient % 10 != 0 && d.exponent <= s.exponent
    decreases d.coefficient
  {
    if d.coefficient % 10 != 0 then d else Strip(Dec(d.coefficient / 10, d.exponent + 1))
  }

  /** No positive exponent. */
  function Spread(d: Dec): Dec {
    if d.exponent > 0 then Dec(d.coefficient * Pow10(d.exponent), 0) else d
  }

  /** The canonical form, or nothing for a value outside the canonical limits. */
  function Canonical(value: PyDecimal): Option<Dec> {
    if value.NotFinite? || (value.negative && value.magnitude.coefficient > 0) then None
    else if value.magnitude.coefficient == 0 then Some(Dec(0, 0))
    else
      var s := Strip(value.magnitude);
      if |Decimal(s.coefficient)| > MAX_SIGNIFICANT_DIGITS || |FixedText(s)| > MAX_TEXT_LENGTH then None
      else Some(Spread(s))
  }

  predicate IsCanonical(d: Dec) {
    Canonical(Finite(false, d)) == Some(d)
  }

  // ---------- powers ----------

  lemma {:induction false} TenToNat(n: nat)
    ensures TenTo(n) == Pow10(n) as real
  {
    if n > 0 {
      TenToNat(n - 1);
    }
  }

  lemma {:induction false} TenToStep(e: int)
    ensures TenTo(e + 1) == 10.0 * TenTo(e)
  {
  }

  lemma {:induction false} TenToSum(a: int, n: nat)
    ensures TenTo(a + n) == TenTo(a) * TenTo(n)
  {
    if n > 0 {
      TenToSum(a, n - 1);
      TenToStep(a + (n - 1));
      TenToStep(n - 1);
      TenfoldProduct(TenTo(a), TenTo(n - 1));
    }
  }

  lemma TenfoldProduct(x: real, y: real)
    ensures x * (10.0 * y) == 10.0 * (x * y)
  {
  }

  // ---------- the value is kept, and decides the form ----------

  lemma TenthUp(c: nat, e: int)
    ensures Worth(Dec(c, e + 1)) == Worth(Dec(10 * c, e))
  {
    TenToStep(e);
    TenTimes(c, TenTo(e));
  }

  lemma {:induction false} StripKeepsWorth(d: Dec)
    requires d.coefficient > 0
    ensures Worth(Strip(d)) == Worth(d)
    decreases d.coefficient
  {
    if d.coefficient % 10 == 0 {
      var c := d.coefficient / 10;
      StripKeepsWorth(Dec(c, d.exponent + 1));
      TenthUp(c, d.exponent);
      assert d == Dec(10 * c, d.exponent);
    }
  }

  lemma TenTimes(c: nat, t: real)
    ensures c as real * (10.0 * t) == (10 * c) as real * t
  {
  }

  lemma SpreadKeepsWorth(d: Dec)
    ensures Worth(Spread(d)) == Worth(d)
  {
    if d.exponent > 0 {
      TenToNat(d.exponent);
      CastProduct(d.coefficient, Pow10(d.exponent));
    }
  }

  lemma CastProduct(a: nat, b: nat)
    ensures (a * b) as real == a as real * b as real
  {
  }

  /** Two numbers without trailing zeros that are worth the same are the same. */
  lemma StrippedAreUnique(a: Dec, b: Dec)
    requires a.coefficient % 10 != 0 && b.coefficient % 10 != 0
    requires Worth(a) == Worth(b) && a.exponent <= b.exponent
    ensures a == b
  {
    var n := b.exponent - a.exponent;
    WorthAt(b.coefficient, a.exponent, n);
    assert b == Dec(b.coefficient, a.exponent + n);
    SameExponent(a.coefficient, b.coefficient * Pow10(n), a.exponent);
    NoFactorTen(b.coefficient, n);
  }

  lemma SameExponent(a: nat, b: nat, e: int)
    requires Worth(Dec(a, e)) == Worth(Dec(b, e))
    ensures a == b
  {
    var t := TenTo(e);
    assert Worth(Dec(a, e)) == a as real * t;
    assert Worth(Dec(b, e)) == b as real * t;
    Cancel(a, b, t);
  }

  lemma NoFactorTen(b: nat, n: nat)
    ensures n > 0 ==> (b * Pow10(n)) % 10 == 0
    ensures n == 0 ==> b * Pow10(n) == b
  {
    if n > 0 {
      MultipleOfTen(b, Pow10(n - 1));
    }
  }

  /** Moving powers of ten from the exponent to the coefficient. */
  lemma {:induction false} WorthAt(c: nat, e: int, n: nat)
    ensures Worth(Dec(c, e + n)) == Worth(Dec(c * Pow10(n), e))
    decreases n
  {
    if n > 0 {
      TenToStep(e + (n - 1));
      TenTimes(c, TenTo(e + (n - 1)));
      WorthAt(10 * c, e, n - 1);
      ShiftTen(c, Pow10(n - 1));
    }
  }

  lemma ShiftTen(c: nat, p: nat)
    ensures (10 * c) * p == c * (10 * p)
  {
  }

  lemma Cancel(a: nat, b: nat, t: real)
    requires t > 0.0 && a as real * t == b as real * t
    ensures a == b
  {
    assert (a as real - b as real) * t == 0.0;
  }

  lemma MultipleOfTen(b: nat, p: nat)
    ensures (b * (10 * p)) % 10 == 0
  {
    assert b * (10 * p) == 10 * (b * p);
  }

  lemma {:induction false} WorthPositive(d: Dec)
    ensures d.coefficient == 0 <==> Worth(d) == 0.0
  {
    if d.coefficient > 0 {
      assert d.coefficient as real * TenTo(d.exponent) > 0.0;
    }
  }

  /** Canonicalisation keeps the value. */
  lemma CanonicalKeepsWorth(value: PyDecimal)
    requires Canonical(value).Some?
    ensures Worth(Canonical(value).value) == Worth(value.magnitude)
  {
    if value.magnitude.coefficient > 0 {
      StripKeepsWorth(value.magnitude);
      SpreadKeepsWorth(Strip(value.magnitude));
    }
  }

  /** One form per value: whatever is worth the same is canonicalised, or refused, alike. */
  lemma CanonicalDependsOnWorth(a: Dec, b: Dec)
    requires Worth(a) == Worth(b)
    ensures Canonical(Finite(false, a)) == Canonical(Finite(false, b))
  {
    WorthPositive(a);
    WorthPositive(b);
    if a.coefficient > 0 {
      StripKeepsWorth(a);
      StripKeepsWorth(b);
      if Strip(a).exponent <= Strip(b).exponent {
        StrippedAreUnique(Strip(a), Strip(b));
      } else {
        StrippedAreUnique(Strip(b), Strip(a));
      }
    }
  }

  /** Canonicalising twice changes nothing. */
  lemma CanonicalIsIdempotent(value: PyDecimal)
    requires Canonical(value).Some?
    ensures IsCanonical(Canonical(value).value)
  {
    CanonicalKeepsWorth(value);
    CanonicalDependsOnWorth(Canonical(value).value, value.magnitude);
  }

  // ---------- texts ----------

  /** Reads `[sign] digits [. digits] [exponent]`; other words and spellings give nothing. */
  function ReadDecimal(t: string): Option<PyDecimal> {
    if t != "" && t[0] in "+-" then ReadUnsigned(t[1..], t[0] == '-') else ReadUnsigned(t, false)
  }

  function ReadUnsigned(t: string, negative: bool): Option<PyDecimal> {
    var (whole, after) := TakeDigits(t);
    if after != "" && after[0] == '.' then
      var (fraction, tail) := TakeDigits(after[1..]);
      Assemble(whole, fraction, tail, negative)
    else Assemble(whole, "", after, negative)
  }

  function Assemble(whole: string, fraction: string, tail: string, negative: bool): Option<PyDecimal>
    requires AllDigits(whole) && AllDigits(fraction)
  {
    var exponent := ReadExponent(tail);
    if whole + fraction == "" || exponent.None? then None
    else Some(Finite(negative, Dec(Value(whole + fraction), exponent.value - |fraction|)))
  }

  function ReadExponent(t: string): Option<int> {
    if t == "" then Some(0)
    else if t[0] !in "eE" then None
    else
      var signed := |t| > 1 && t[1] in "+-";
      var digits := t[if signed then 2 else 1..];
      if digits == "" || !AllDigits(digits) then None
      else
        var n: int := Value(digits);
        Some(if signed && t[1] == '-' then -n else n)
  }

  /** The strict reader: only the text its value is rendered as. */
  function ParseCanonical(t: string): Option<Dec> {
    if t == "" || |t| > MAX_TEXT_LENGTH then None
    else
      var parsed := ReadDecimal(t);
      var canonical := if parsed.None? then None else Canonical(parsed.value);
      if canonical.None? || FixedText(canonical.value) != t then None else canonical
  }

  lemma {:induction false} AppendZero(m: nat)
    requires m > 0
    ensures Decimal(10 * m) == Decimal(m) + "0"
  {
    assert (10 * m) / 10 == m && (10 * m) % 10 == 0;
  }

  lemma {:induction false} ZerosEnd(n: nat)
    ensures Zeros(n + 1) == Zeros(n) + "0"
  {
    if n == 0 {
      assert Zeros(1) == "0" + Zeros(0);
    } else {
      ZerosEnd(n - 1);
      assert "0" + (Zeros(n - 1) + "0") == ("0" + Zeros(n - 1)) + "0";
    }
  }

  lemma {:induction false} DecimalOfShifted(c: nat, n: nat)
    requires c > 0
    ensures Decimal(c * Pow10(n)) == Decimal(c) + Zeros(n)
  {
    if n == 0 {
      assert Decimal(c) + "" == Decimal(c);
    } else {
      var m := c * Pow10(n - 1);
      assert c * Pow10(n) == 10 * m;
      DecimalOfShifted(c, n - 1);
      AppendZero(m);
      ZerosEnd(n - 1);
      assert (Decimal(c) + Zeros(n - 1)) + "0" == Decimal(c) + (Zeros(n - 1) + "0");
    }
  }

  lemma SpreadKeepsText(d: Dec)
    requires d.coefficient > 0
    ensures FixedText(Spread(d)) == FixedText(d)
  {
    if d.exponent > 0 {
      DecimalOfShifted(d.coefficient, d.exponent);
      var s := Spread(d);
      assert Decimal(s.coefficient) + Zeros(0) == Decimal(s.coefficient);
    }
  }

  lemma {:induction false} LeadingZeros(z: string, t: string)
    requires AllDigits(z) && AllDigits(t) && (forall i | 0 <= i < |z| :: z[i] == '0')
    ensures AllDigits(z + t) && Value(z + t) == Value(t)
    decreases |z| + |t|
  {
    var w := z + t;
    if t != "" {
      assert w[..|w| - 1] == z + t[..|t| - 1];
      LeadingZeros(z, t[..|t| - 1]);
    } else if z != "" {
      assert w[..|w| - 1] == z[..|z| - 1] + "";
      LeadingZeros(z[..|z| - 1], "");
    }
  }

  lemma {:induction false} ZerosAreZeros(n: nat)
    ensures forall i | 0 <= i < n :: Zeros(n)[i] == '0'
  {
    if n > 0 {
      ZerosAreZeros(n - 1);
    }
  }

  lemma UnsignedStart(t: string)
    requires t != "" && IsDigit(t[0])
    ensures ReadDecimal(t) == ReadUnsigned(t, false)
  {
  }

  lemma AssembleDigits(whole: string, fraction: string)
    requires AllDigits(whole) && AllDigits(fraction) && whole != ""
    ensures Assemble(whole, fraction, "", false) == Some(Finite(false, Dec(Value(whole + fraction), -|fraction|)))
  {
  }

  lemma ReadPoint(whole: string, fraction: string)
    requires AllDigits(whole) && AllDigits(fraction) && whole != ""
    ensures ReadDecimal(whole + ("." + fraction)) == Some(Finite(false, Dec(Value(whole + fraction), -|fraction|)))
  {
    var tail := "." + fraction;
    var t := whole + tail;
    assert t[0] == whole[0];
    UnsignedStart(t);
    TakeDigitsExact(whole, tail);
    assert tail[1..] == fraction;
    assert fraction + "" == fraction;
    TakeDigitsExact(fraction, "");
    AssembleDigits(whole, fraction);
  }

  lemma ReadWhole(whole: string)
    requires AllDigits(whole) && whole != ""
    ensures ReadDecimal(whole) == Some(Finite(false, Dec(Value(whole), 0)))
  {
    UnsignedStart(whole);
    assert whole + "" == whole;
    TakeDigitsExact(whole, "");
    AssembleDigits(whole, "");
  }

  /** Fixed-point text reads back as the number it came from, written without positive exponent. */
  lemma ReadOfFixedText(d: Dec)
    requires d.coefficient > 0
    ensures ReadDecimal(FixedText(d)) == Some(Finite(false, Spread(d)))
  {
    if d.exponent >= 0 {
      ReadOfWholeText(d);
    } else if |Decimal(d.coefficient)| + d.exponent <= 0 {
      ReadOfSmallText(d);
    } else {
      ReadOfMixedText(d);
    }
  }

  lemma ReadOfWholeText(d: Dec)
    requires d.coefficient > 0 && d.exponent >= 0
    ensures ReadDecimal(FixedText(d)) == Some(Finite(false, Spread(d)))
  {
    SpreadKeepsText(d);
    var c := Spread(d).coefficient;
    assert Decimal(c) + Zeros(0) == Decimal(c);
    ReadWhole(Decimal(c));
    ValueOfDecimal(c);
  }

  lemma SmallText(z: string, digits: string)
    ensures "0." + z + digits == "0" + ("." + (z + digits))
    ensures "0" + (z + digits) == ("0" + z) + digits
  {
  }

  lemma SmallValue(n: nat, digits: string)
    requires AllDigits(digits)
    ensures AllDigits("0" + (Zeros(n) + digits)) && Value("0" + (Zeros(n) + digits)) == Value(digits)
  {
    ZerosAreZeros(n);
    SmallText(Zeros(n), digits);
    LeadingZeros("0" + Zeros(n), digits);
  }

  lemma SmallFixedText(d: Dec, n: nat)
    requires d.coefficient > 0 && d.exponent < 0 && n == -(|Decimal(d.coefficient)| + d.exponent)
    ensures FixedText(d) == "0" + ("." + (Zeros(n) + Decimal(d.coefficient)))
  {
    SmallText(Zeros(n), Decimal(d.coefficient));
  }

  lemma ReadOfSmallText(d: Dec)
    requires d.coefficient > 0 && d.exponent < 0 && |Decimal(d.coefficient)| + d.exponent <= 0
    ensures ReadDecimal(FixedText(d)) == Some(Finite(false, d))
  {
    var digits := Decimal(d.coefficient);
    ValueOfDecimal(d.coefficient);
    var n := -(|digits| + d.exponent);
    SmallFixedText(d, n);
    ReadPoint("0", Zeros(n) + digits);
    SmallValue(n, digits);
  }

  lemma MixedFixedText(d: Dec, p: nat)
    requires d.coefficient > 0 && d.exponent < 0 < p && p == |Decimal(d.coefficient)| + d.exponent
    ensures var digits := Decimal(d.coefficient); FixedText(d) == digits[..p] + ("." + digits[p..])
  {
  }

  lemma ReadOfMixedText(d: Dec)
    requires d.coefficient > 0 && d.exponent < 0 < |Decimal(d.coefficient)| + d.exponent
    ensures ReadDecimal(FixedText(d)) == Some(Finite(false, d))
  {
    var digits := Decimal(d.coefficient);
    ValueOfDecimal(d.coefficient);
    var p := |digits| + d.exponent;
    MixedFixedText(d, p);
    ReadPoint(digits[..p], digits[p..]);
    assert digits[..p] + digits[p..] == digits;
  }

  /** The reader undoes the rendering of every accepted value. */
  lemma ParseOfRendered(value: PyDecimal)
    requires Canonical(value).Some?
    ensures var d := Canonical(value).value; ParseCanonical(FixedText(d)) == Some(d)
  {
    var d := Canonical(value).value;
    CanonicalIsIdempotent(value);
    if d.coefficient > 0 {
      SpreadKeepsText(Strip(value.magnitude));
      ReadOfFixedText(d);
    } else {
      ReadWhole("0");
      assert "0"[..0] == "";
    }
  }

  /** A text without superfluous characters: no leading zero before a digit, no trailing zero after
      the point, no sign, no exponent. */
  predicate Terse(t: string) {
    exists point: nat | point <= |t| :: TerseAt(t, point)
  }

  predicate TerseAt(t: string, point: nat)
    requires point <= |t|
  {
    && 0 < point && AllDigits(t[..point]) && (t[0] == '0' ==> point == 1)
    && (point == |t| || (t[point] == '.' && point + 1 < |t| && AllDigits(t[point + 1..]) && t[|t| - 1] != '0'))
  }

  lemma TerseWhole(t: string)
    requires AllDigits(t) && t != "" && (t[0] == '0' ==> |t| == 1)
    ensures Terse(t)
  {
    assert t[..|t|] == t;
    assert TerseAt(t, |t|);
  }

  lemma TersePoint(whole: string, fraction: string)
    requires AllDigits(whole) && AllDigits(fraction) && whole != "" && (whole[0] == '0' ==> |whole| == 1)
    requires fraction != "" && fraction[|fraction| - 1] != '0'
    ensures Terse(whole + "." + fraction)
  {
    var t := whole + "." + fraction;
    assert t[..|whole|] == whole && t[|whole| + 1..] == fraction && t[|t| - 1] == fraction[|fraction| - 1];
    assert TerseAt(t, |whole|);
  }

  lemma LastDigit(c: nat)
    requires c % 10 != 0
    ensures Decimal(c)[|Decimal(c)| - 1] != '0'
  {
  }

  /** What is rendered is terse. */
  lemma RenderedIsTerse(d: Dec)
    requires d.coefficient % 10 != 0 || (d.coefficient == 0 && d.exponent >= 0)
    ensures Terse(FixedText(d))
  {
    var digits := Decimal(d.coefficient);
    if d.coefficient == 0 {
      TerseWhole("0");
    } else if d.exponent >= 0 {
      TerseWhole(digits + Zeros(d.exponent));
    } else {
      LastDigit(d.coefficient);
      var p := |digits| + d.exponent;
      if p <= 0 {
        assert FixedText(d) == "0" + "." + (Zeros(-p) + digits);
        TersePoint("0", Zeros(-p) + digits);
      } else {
        TersePoint(digits[..p], digits[p..]);
      }
    }
  }

  lemma SpreadOfStripped(d: Dec)
    requires d.coefficient > 0 && d.exponent == 0
    ensures Spread(Strip(d)) == d
  {
    StripKeepsWorth(d);
    SpreadKeepsWorth(Strip(d));
    SameExponent(Spread(Strip(d)).coefficient, d.coefficient, 0);
  }

  lemma {:induction false} FrontZeros(f: string)
    requires AllDigits(f) && Value(f) > 0
    ensures var digits := Decimal(Value(f)); |digits| <= |f| && f == Zeros(|f| - |digits|) + digits
  {
    if f == "" {
      assert false;
    } else if f[0] != '0' {
      DecimalOfValue(f);
      assert Zeros(0) + f == f;
    } else {
      assert f == "0" + f[1..];
      LeadingZeros("0", f[1..]);
      FrontZeros(f[1..]);
      var digits := Decimal(Value(f));
      assert f == ("0" + Zeros(|f| - 1 - |digits|)) + digits;
    }
  }

  lemma {:induction false} LastValue(t: string)
    requires AllDigits(t) && t != ""
    ensures Value(t) % 10 == DigitValue(t[|t| - 1])
  {
  }

  /** A terse text is the text of the number it reads as. */
  lemma TerseIsRendered(t: string)
    requires Terse(t)
    ensures var r := ReadDecimal(t);
      && r.Some? && r.value.Finite? && !r.value.negative
      && (r.value.magnitude.coefficient == 0 ==> t == "0")
      && (r.value.magnitude.coefficient > 0 ==> FixedText(Strip(r.value.magnitude)) == t)
  {
    var point: nat :| point <= |t| && TerseAt(t, point);
    if point == |t| {
      assert t[..point] == t;
      TerseWholeIsRendered(t);
    } else {
      assert t == t[..point] + ("." + t[point + 1..]);
      TersePointIsRendered(t[..point], t[point + 1..]);
    }
  }

  lemma TerseWholeIsRendered(t: string)
    requires AllDigits(t) && t != "" && (t[0] == '0' ==> |t| == 1)
    ensures ReadDecimal(t) == Some(Finite(false, Dec(Value(t), 0)))
    ensures if Value(t) == 0 then t == "0" else FixedText(Strip(Dec(Value(t), 0))) == t
  {
    ReadWhole(t);
    DecimalOfValue(t);
    if Value(t) > 0 {
      var d := Dec(Value(t), 0);
      SpreadOfStripped(d);
      SpreadKeepsText(Strip(d));
      assert t + Zeros(0) == t;
    }
  }

  lemma TersePointIsRendered(whole: string, fraction: string)
    requires AllDigits(whole) && AllDigits(fraction) && whole != "" && (whole[0] == '0' ==> |whole| == 1)
    requires fraction != "" && fraction[|fraction| - 1] != '0'
    ensures AllDigits(whole + fraction) && Value(whole + fraction) % 10 != 0
    ensures var d := Dec(Value(whole + fraction), -|fraction|);
      ReadDecimal(whole + ("." + fraction)) == Some(Finite(false, d)) && FixedText(Strip(d)) == whole + ("." + fraction)
  {
    LastOfPoint(whole, fraction);
    ReadPoint(whole, fraction);
    StrippedPointIsRendered(whole, fraction, Value(whole + fraction));
  }

  lemma StrippedPointIsRendered(whole: string, fraction: string, v: nat)
    requires AllDigits(whole) && AllDigits(fraction) && whole != "" && (whole[0] == '0' ==> |whole| == 1)
    requires fraction != "" && v % 10 != 0 && v == Value(whole + fraction)
    ensures FixedText(Strip(Dec(v, -|fraction|))) == whole + ("." + fraction)
  {
    PointTextIsRendered(whole, fraction, v);
  }

  lemma LastOfPoint(whole: string, fraction: string)
    requires AllDigits(whole) && AllDigits(fraction) && fraction != "" && fraction[|fraction| - 1] != '0'
    ensures AllDigits(whole + fraction) && Value(whole + fraction) % 10 != 0
  {
    var t := whole + fraction;
    assert t[|t| - 1] == fraction[|fraction| - 1];
    LastValue(t);
  }

  lemma PointTextIsRendered(whole: string, fraction: string, v: nat)
    requires AllDigits(whole) && AllDigits(fraction) && whole != "" && (whole[0] == '0' ==> |whole| == 1)
    requires fraction != "" && 0 < v && v == Value(whole + fraction)
    ensures FixedText(Dec(v, -|fraction|)) == whole + ("." + fraction)
  {
    if whole[0] != '0' {
      assert (whole + fraction)[0] == whole[0];
      DecimalOfValue(whole + fraction);
      LargeTextIsRendered(whole, fraction, v);
    } else {
      assert whole == "0";
      LeadingZeros("0", fraction);
      SmallTextIsRendered(fraction, v);
    }
  }

  lemma LargeTextIsRendered(whole: string, fraction: string, v: nat)
    requires AllDigits(fraction) && whole != "" && fraction != "" && 0 < v && Decimal(v) == whole + fraction
    ensures FixedText(Dec(v, -|fraction|)) == whole + ("." + fraction)
  {
    MixedFixedText(Dec(v, -|fraction|), |whole|);
    assert (whole + fraction)[..|whole|] == whole && (whole + fraction)[|whole|..] == fraction;
  }

  lemma SmallTextIsRendered(fraction: string, v: nat)
    requires AllDigits(fraction) && 0 < v == Value(fraction)
    ensures FixedText(Dec(v, -|fraction|)) == "0" + ("." + fraction)
  {
    FrontZeros(fraction);
    var n := |fraction| - |Decimal(v)|;
    assert fraction == Zeros(n) + Decimal(v);
    SmallFixedText(Dec(v, -|fraction|), n);
  }

  /** The digits of the number a text reads as, without zeros at either end. */
  function SignificantDigits(t: string): nat {
    var r := ReadDecimal(t);
    if r.None? || r.value.NotFinite? || r.value.magnitude.coefficient == 0 then 1
    else |Decimal(Strip(r.value.magnitude).coefficient)|
  }

  /** The strict reader accepts exactly the terse texts within the two limits. */
  lemma ParseAcceptsExactly(t: string)
    ensures ParseCanonical(t).Some? <==>
      Terse(t) && |t| <= MAX_TEXT_LENGTH && SignificantDigits(t) <= MAX_SIGNIFICANT_DIGITS
    ensures ParseCanonical(t).Some? ==> IsCanonical(ParseCanonical(t).value) && FixedText(ParseCanonical(t).value) == t
  {
    if ParseCanonical(t).Some? {
      var value := ReadDecimal(t).value;
      CanonicalIsIdempotent(value);
      if value.magnitude.coefficient > 0 {
        SpreadKeepsText(Strip(value.magnitude));
        RenderedIsTerse(Strip(value.magnitude));
      } else {
        RenderedIsTerse(Dec(0, 0));
      }
    } else if Terse(t) {
      TerseIsRendered(t);
      var d := ReadDecimal(t).value.magnitude;
      if d.coefficient > 0 {
        SpreadKeepsText(Strip(d));
      }
    }
  }

  // ---------- the pattern of the cache ----------

  /** `0`, or digits without a leading zero and optionally a point and more digits. */
  predicate CachePattern(t: string) {
    || t == "0"
    || (t != "" && '1' <= t[0] <= '9' &&
          var (whole, after) := TakeDigits(t);
          after == "" || (after[0] == '.' && |after| > 1 && AllDigits(after[1..])))
  }

  lemma {:induction false} DigitCount(c: nat, n: nat)
    requires c > 0
    ensures |Decimal(c)| > n <==> c >= Pow10(n)
    decreases n
  {
    if n > 0 && c >= 10 {
      DigitCount(c / 10, n - 1);
    }
  }

  /** Not every canonical quantity is cacheable: the pattern accepts its text exactly when it is zero
      or at least one. */
  lemma CacheableExactly(d: Dec)
    requires IsCanonical(d)
    ensures d.exponent <= 0
    ensures CachePattern(FixedText(d)) <==> d.coefficient == 0 || d.coefficient >= Pow10(-d.exponent)
  {
    var digits := Decimal(d.coefficient);
    if d.coefficient > 0 {
      DigitCount(d.coefficient, -d.exponent);
      if d.exponent == 0 {
        assert digits + Zeros(0) == digits && digits + "" == digits;
        TakeDigitsExact(digits, "");
      } else {
        PatternOfPoint(d);
      }
    }
  }

  lemma PatternOfPoint(d: Dec)
    requires d.coefficient > 0 && d.exponent < 0
    ensures CachePattern(FixedText(d)) <==> |Decimal(d.coefficient)| + d.exponent > 0
  {
    var digits := Decimal(d.coefficient);
    var p := |digits| + d.exponent;
    if p > 0 {
      var tail := "." + digits[p..];
      assert FixedText(d) == digits[..p] + tail;
      TakeDigitsExact(digits[..p], tail);
      assert tail[1..] == digits[p..];
    }
  }

  /** One half is a quantity the model accepts and the cache does not. */
  lemma HalfIsNotCacheable(half: Dec)
    requires half == Dec(5, -1)
    ensures IsCanonical(half) && !CachePattern(FixedText(half))
  {
    RenderedLengthIsLength(half);
    CacheableExactly(half);
    assert Pow10(-half.exponent) == 10 * Pow10(-half.exponent - 1);
  }

  // ---------- the canonicalisation loop ----------

  /** The length of the fixed-point text, from the number of digits and the exponent alone. */
  function RenderedLength(count: nat, exponent: int): int {
    var position := count + exponent;
    if position <= 0 then 2 - position + count else if position >= count then position else count + 1
  }

  lemma RenderedLengthIsLength(d: Dec)
    requires d.coefficient > 0
    ensures RenderedLength(|Decimal(d.coefficient)|, d.exponent) == |FixedText(d)|
  {
  }

  /** Without the zeros, and then the point, that a text with a point may end in. */
  function Trim(t: string): string {
    if '.' !in t then t
    else
      var u := DropZeros(t);
      if u != "" && u[|u| - 1] == '.' then u[..|u| - 1] else u
  }

  function DropZeros(t: string): string {
    if t != "" && t[|t| - 1] == '0' then DropZeros(t[..|t| - 1]) else t
  }

  lemma TrimKeepsStripped(d: Dec)
    requires d.coefficient % 10 != 0
    ensures Trim(FixedText(d)) == FixedText(d)
  {
    LastDigit(d.coefficient);
    var t := FixedText(d);
    if d.exponent >= 0 {
      assert AllDigits(t);
      assert forall i | 0 <= i < |t| :: t[i] != '.';
    } else {
      assert t[|t| - 1] == Decimal(d.coefficient)[|Decimal(d.coefficient)| - 1];
    }
  }

  method CanonicalDecimal(value: PyDecimal) returns (r: Option<Dec>)
    ensures r == Canonical(value)
  {
    if value.NotFinite? || (value.negative && value.magnitude.coefficient > 0) {
      return None;
    }
    if value.magnitude.coefficient == 0 {
      return Some(Dec(0, 0));
    }
    var digits, exponent := Decimal(value.magnitude.coefficient), value.magnitude.exponent;
    ghost var c := value.magnitude.coefficient;
    while digits[|digits| - 1] == '0'
      invariant 0 < c && digits == Decimal(c) && Strip(Dec(c, exponent)) == Strip(value.magnitude)
      decreases |digits|
    {
      assert c % 10 == 0 && c >= 10;
      digits := digits[..|digits| - 1];
      c := c / 10;
      exponent := exponent + 1;
    }
    ValueOfDecimal(c);
    var stripped := Dec(Value(digits), exponent);
    assert c % 10 != 0;
    RenderedLengthIsLength(stripped);
    if |digits| > MAX_SIGNIFICANT_DIGITS || RenderedLength(|digits|, exponent) > MAX_TEXT_LENGTH {
      return None;
    }
    var canonical := Trim(FixedText(stripped));
    TrimKeepsStripped(stripped);
    ReadOfFixedText(stripped);
    if |canonical| > MAX_TEXT_LENGTH {
      return None;
    }
    var read := ReadDecimal(canonical);
    r := Some(read.value.magnitude);
  }
}
