/**
 The remaining percentage of a quota: a division rounded half-even to 34 digits, scaled by 100 in
 the same arithmetic, and its text.
 */
module Percentage {
  import opened Decimals
  import opened Digits
  import opened Wrappers

  const PRECISION := 34
  const MAX_PERCENT_TEXT := 128

  // ---------- rounding to an integer ----------

  /** roundTiesToEven, section 4.3.1 of IEEE 754-2008, to an integer. */
  function RoundHalfEven(x: real): int {
    var f := x.Floor;
    var r := x - f as real;
    if r < 0.5 || (r == 0.5 && f % 2 == 0) then f else f + 1
  }

  /** The result is a nearest integer, and the even one of two. */
  lemma RoundingIsNearest(x: real, z: int)
    ensures var r := RoundHalfEven(x);
      && -0.5 <= r as real - x <= 0.5
      && ((r as real - x == 0.5 || r as real - x == -0.5) ==> r % 2 == 0)
      && (x == z as real ==> r == z)
  {
  }

  lemma RoundingIsMonotone(x: real, y: real)
    requires x <= y
    ensures RoundHalfEven(x) <= RoundHalfEven(y)
  {
    assert x.Floor <= y.Floor;
  }

  // ---------- the quotient, to any number of significant digits ----------

  /** The number of decimal places at which the quotient has `top` as a lower bound. */
  function Scale(n: nat, d: nat, top: nat, k: nat): (s: nat)
    requires 0 < n
    ensures k <= s && n * Pow10(s) >= top * d
    ensures s > k ==> n * Pow10(s - 1) < top * d
    decreases top * d - n * Pow10(k)
  {
    if n * Pow10(k) >= top * d then k
    else
      TenfoldGrows(n, Pow10(k));
      Scale(n, d, top, k + 1)
  }

  lemma TenfoldGrows(n: nat, p: nat)
    requires 0 < n && 0 < p
    ensures n * p < n * (10 * p)
  {
    assert n * (10 * p) == 10 * (n * p);
  }

  function Ratio(n: nat, d: nat): real
    requires 0 < d
  {
    n as real / d as real
  }

  function Places(n: nat, d: nat, digits: nat): nat
    requires 0 < n && 0 < digits
  {
    Scale(n, d, Pow10(digits - 1), digits - 1)
  }

  /** n/d moved by its places and rounded. */
  function Coefficient(n: nat, d: nat, digits: nat): (c: nat)
    requires 0 < n <= d && 0 < digits
    ensures Pow10(digits - 1) <= c <= 10 * Pow10(digits - 1)
  {
    ScaledRange(n, d, digits);
    RoundHalfEven(Moved(Ratio(n, d), Places(n, d, digits)))
  }

  /** x * 10^k */
  function Moved(x: real, k: nat): real {
    if k == 0 then x else 10.0 * Moved(x, k - 1)
  }

  lemma {:induction false} MovedOrder(x: real, y: real, k: nat)
    requires x <= y
    ensures Moved(x, k) <= Moved(y, k)
  {
    if k > 0 {
      MovedOrder(x, y, k - 1);
    }
  }

  lemma {:induction false} MovedGrows(x: real, k: nat, more: nat)
    requires 0.0 <= x
    ensures 0.0 <= Moved(x, k) <= Moved(x, k + more)
    decreases k + more
  {
    if more > 0 {
      MovedGrows(x, k, more - 1);
    } else if k > 0 {
      MovedGrows(x, k - 1, 0);
    }
  }

  lemma {:induction false} MovedTimes(x: real, d: nat, n: nat, k: nat)
    requires x * d as real == n as real
    ensures Moved(x, k) * d as real == (n * Pow10(k)) as real
  {
    if k > 0 {
      MovedTimes(x, d, n, k - 1);
      var y := Moved(x, k - 1);
      assert (10.0 * y) * d as real == 10.0 * (y * d as real);
      assert n * Pow10(k) == 10 * (n * Pow10(k - 1));
    }
  }

  /** n/d to `digits` digits; a coefficient that rounds up to one digit more is written with one
      place less. */
  function Quotient(n: nat, d: nat, digits: nat): (q: Dec)
    requires 0 < d && n <= d && 0 < digits
    ensures q.coefficient < Pow10(digits)
  {
    if n == 0 then Dec(0, 0)
    else
      var top := Pow10(digits - 1);
      var k: int := Places(n, d, digits);
      var c := Coefficient(n, d, digits);
      if c == 10 * top then Dec(top, 1 - k) else Dec(c, -k)
  }

  lemma RealOrder(x: real, y: real, d: real)
    requires 0.0 < d
    ensures x >= y <==> x * d >= y * d
  {
    if x >= y {
      assert (x - y) * d >= 0.0;
    } else {
      assert (y - x) * d > 0.0;
    }
  }

  lemma MovedAtLeast(n: nat, d: nat, k: nat, q: nat)
    requires 0 < d
    ensures n * Pow10(k) >= q * d <==> Moved(Ratio(n, d), k) >= q as real
  {
    MovedTimes(Ratio(n, d), d, n, k);
    TimesAtLeast(Moved(Ratio(n, d), k), q, d, n * Pow10(k));
  }

  lemma TimesAtLeast(x: real, q: nat, d: nat, a: nat)
    requires 0 < d && x * d as real == a as real
    ensures a >= q * d <==> x >= q as real
  {
    CastProduct(q, d);
    RealOrder(x, q as real, d as real);
  }

  /** The coefficient before and after rounding. */
  lemma ScaledRange(n: nat, d: nat, digits: nat)
    requires 0 < n <= d && 0 < digits
    ensures var top := Pow10(digits - 1);
      var k := Places(n, d, digits);
      && top as real <= Moved(Ratio(n, d), k) < (10 * top) as real
      && top <= RoundHalfEven(Moved(Ratio(n, d), k)) <= 10 * top
  {
    var top := Pow10(digits - 1);
    var k := Places(n, d, digits);
    var y := Moved(Ratio(n, d), k);
    UpperScale(n, d, digits, k);
    MovedAtLeast(n, d, k, top);
    MovedAtLeast(n, d, k, 10 * top);
    RoundingIsNearest(top as real, top);
    RoundingIsMonotone(top as real, y);
    RoundingIsNearest((10 * top) as real, 10 * top);
    RoundingIsMonotone(y, (10 * top) as real);
  }

  lemma UpperScale(n: nat, d: nat, digits: nat, k: nat)
    requires 0 < n <= d && 0 < digits && k == Places(n, d, digits)
    ensures n * Pow10(k) < 10 * Pow10(digits - 1) * d
  {
    var top := Pow10(digits - 1);
    if k == digits - 1 {
      Products(n, d, top);
    } else {
      Tenfold(n, Pow10(k - 1), top * d);
    }
  }

  lemma Tenfold(n: nat, p: nat, bound: nat)
    requires n * p < bound
    ensures n * (10 * p) < 10 * bound
  {
    assert n * (10 * p) == 10 * (n * p);
  }

  lemma Products(n: nat, d: nat, p: nat)
    requires 0 < n <= d && 0 < p
    ensures n * p < 10 * p * d
  {
    assert n * p <= d * p;
    assert d * p < 10 * (d * p);
    assert 10 * p * d == 10 * (d * p);
  }

  // ---------- what the quotient is worth ----------

  /** The quotient is worth its coefficient moved back by its places, and is off the true ratio by
      at most half a unit in the last place. */
  lemma QuotientWorth(n: nat, d: nat, digits: nat)
    requires 0 < n <= d && 0 < digits
    ensures var k: int := Places(n, d, digits);
      var c := Coefficient(n, d, digits);
      && Worth(Quotient(n, d, digits)) == Worth(Dec(c, -k))
      && -0.5 <= c as real - Moved(Ratio(n, d), k) <= 0.5
  {
    var k: int := Places(n, d, digits);
    var top := Pow10(digits - 1);
    WorthAt(top, -k, 1);
    assert top * Pow10(1) == 10 * top;
    RoundingIsNearest(Moved(Ratio(n, d), k), 0);
  }

  lemma WorthOrder(a: nat, b: nat, e: int)
    requires a <= b
    ensures Worth(Dec(a, e)) <= Worth(Dec(b, e))
  {
    assert (b as real - a as real) * TenTo(e) >= 0.0;
  }

  lemma {:induction false} WorthOrderPlaces(c: nat, e: int, n: nat)
    ensures Worth(Dec(c, e)) <= Worth(Dec(c, e + n))
    decreases n
  {
    if n > 0 {
      WorthOrderPlaces(c, e, n - 1);
      TenToStep(e + (n - 1));
      TenTimes(c, TenTo(e + (n - 1)));
      assert Worth(Dec(c, e + n)) == (10 * c) as real * TenTo(e + (n - 1));
      WorthOrder(c, 10 * c, e + (n - 1));
    }
  }

  lemma PlacesAntitone(n1: nat, d1: nat, n2: nat, d2: nat, digits: nat)
    requires 0 < n1 <= d1 && 0 < n2 <= d2 && 0 < digits
    requires Ratio(n1, d1) <= Ratio(n2, d2)
    ensures Places(n2, d2, digits) <= Places(n1, d1, digits)
  {
    var k1, k2 := Places(n1, d1, digits), Places(n2, d2, digits);
    if k1 < k2 {
      var top := Pow10(digits - 1);
      MovedAtLeast(n1, d1, k1, top);
      PositiveRatio(n1, d1);
      MovedOrder(Ratio(n1, d1), Ratio(n2, d2), k1);
      MovedGrows(Ratio(n2, d2), k1, k2 - 1 - k1);
      MovedAtLeast(n2, d2, k2 - 1, top);
    }
  }

  /** A larger ratio never gets a smaller quotient. */
  lemma QuotientIsMonotone(n1: nat, d1: nat, n2: nat, d2: nat, digits: nat)
    requires 0 < d1 && n1 <= d1 && 0 < d2 && n2 <= d2 && 0 < digits
    requires Ratio(n1, d1) <= Ratio(n2, d2)
    ensures Worth(Quotient(n1, d1, digits)) <= Worth(Quotient(n2, d2, digits))
  {
    if n1 == 0 {
      assert Worth(Quotient(n1, d1, digits)) == 0.0;
      WorthOrder(0, Quotient(n2, d2, digits).coefficient, Quotient(n2, d2, digits).exponent);
    } else {
      PositiveRatio(n1, d1);
      PositiveRatio(n2, d2);
      QuotientOrder(n1, d1, n2, d2, digits);
    }
  }

  lemma PositiveRatio(n: nat, d: nat)
    requires 0 < d
    ensures 0 < n <==> 0.0 < Ratio(n, d)
  {
  }

  lemma QuotientOrder(n1: nat, d1: nat, n2: nat, d2: nat, digits: nat)
    requires 0 < n1 <= d1 && 0 < n2 <= d2 && 0 < digits
    requires Ratio(n1, d1) <= Ratio(n2, d2)
    ensures Worth(Quotient(n1, d1, digits)) <= Worth(Quotient(n2, d2, digits))
  {
    QuotientWorth(n1, d1, digits);
    QuotientWorth(n2, d2, digits);
    PlacesAntitone(n1, d1, n2, d2, digits);
    if Places(n1, d1, digits) == Places(n2, d2, digits) {
      SamePlacesOrder(n1, d1, n2, d2, digits);
    } else {
      OtherPlacesOrder(Coefficient(n1, d1, digits), Places(n1, d1, digits), Coefficient(n2, d2, digits), Places(n2, d2, digits), Pow10(digits - 1));
    }
  }

  lemma SamePlacesOrder(n1: nat, d1: nat, n2: nat, d2: nat, digits: nat)
    requires 0 < n1 <= d1 && 0 < n2 <= d2 && 0 < digits
    requires Ratio(n1, d1) <= Ratio(n2, d2) && Places(n1, d1, digits) == Places(n2, d2, digits)
    ensures var k: int := Places(n1, d1, digits);
      Worth(Dec(Coefficient(n1, d1, digits), -k)) <= Worth(Dec(Coefficient(n2, d2, digits), -k))
  {
    var k: int := Places(n1, d1, digits);
    MovedOrder(Ratio(n1, d1), Ratio(n2, d2), k);
    RoundingIsMonotone(Moved(Ratio(n1, d1), k), Moved(Ratio(n2, d2), k));
    WorthOrder(Coefficient(n1, d1, digits), Coefficient(n2, d2, digits), -k);
  }

  lemma OtherPlacesOrder(c1: nat, k1: int, c2: nat, k2: int, top: nat)
    requires c1 <= 10 * top && top <= c2 && k2 < k1
    ensures Worth(Dec(c1, -k1)) <= Worth(Dec(c2, -k2))
  {
    WorthOrder(c1, 10 * top, -k1);
    WorthAt(top, -k1, 1);
    assert top * Pow10(1) == 10 * top;
    WorthOrderPlaces(top, 1 - k1, k1 - 1 - k2);
    WorthOrder(top, c2, -k2);
  }

  // ---------- scaling by 100 ----------

  /** The nearest number with at most `digits` digits, as every operation rounds its result. */
  function RoundTo(d: Dec, digits: nat): Dec {
    var excess := |Decimal(d.coefficient)| - digits;
    if excess <= 0 then d
    else Dec(Rounded(d.coefficient, excess), d.exponent + excess)
  }

  function Rounded(c: nat, excess: nat): (r: nat) {
    var x := c as real / Pow10(excess) as real;
    RoundingOfNonNegative(x);
    RoundHalfEven(x)
  }

  lemma RoundingOfNonNegative(x: real)
    ensures x >= 0.0 ==> RoundHalfEven(x) >= 0
  {
  }

  function TimesHundred(q: Dec, digits: nat): Dec {
    RoundTo(Dec(q.coefficient * 100, q.exponent), digits)
  }

  lemma RoundedExactly(c: nat, excess: nat, m: nat)
    requires c == m * Pow10(excess)
    ensures Rounded(c, excess) == m
  {
    var p := Pow10(excess);
    CastProduct(m, p);
    Dividing(c as real, m as real, p as real);
    RoundingIsNearest(m as real, m);
  }

  lemma Dividing(a: real, m: real, p: real)
    requires 0.0 < p && a == m * p
    ensures a / p == m
  {
  }

  lemma TwoMoreDigits(c: nat)
    requires 0 < c
    ensures |Decimal(c * 100)| == |Decimal(c)| + 2
  {
    AppendZero(c);
    AppendZero(10 * c);
    assert 10 * (10 * c) == c * 100;
  }

  /** The scaling never rounds: it is exact, and stays within the digits of the quotient. */
  lemma ScalingIsExact(q: Dec, digits: nat)
    requires 2 <= digits && q.coefficient < Pow10(digits)
    ensures var r := TimesHundred(q, digits);
      Worth(r) == Worth(Dec(q.coefficient * 100, q.exponent)) && |Decimal(r.coefficient)| <= digits
  {
    var c := q.coefficient;
    if c > 0 {
      DigitCount(c, digits);
      TwoMoreDigits(c);
      var excess := |Decimal(c * 100)| - digits;
      if excess == 1 {
        assert Pow10(1) == 10 && c * 100 == (10 * c) * 10;
        RoundedExactly(c * 100, 1, 10 * c);
        AppendZero(c);
        WorthAt(10 * c, q.exponent, 1);
      } else if excess == 2 {
        assert Pow10(2) == 100;
        RoundedExactly(c * 100, 2, c);
        WorthAt(c, q.exponent, 2);
      }
    }
  }

  // ---------- the percentage of a window ----------

  /** numerator and denominator of remaining / limit over a common exponent */
  function Common(d: Dec, other: Dec): nat {
    if d.exponent <= other.exponent then d.coefficient else d.coefficient * Pow10(d.exponent - other.exponent)
  }

  /** Whether a percentage is defined: a positive limit and no more remaining than that. */
  predicate Comparable(limit: Dec, remaining: Dec) {
    0 < Common(limit, remaining) && Common(remaining, limit) <= Common(limit, remaining)
  }

  function Percent(limit: Dec, remaining: Dec): Dec
    requires Comparable(limit, remaining)
  {
    TimesHundred(Quotient(Common(remaining, limit), Common(limit, remaining), PRECISION), PRECISION)
  }

  function TrueRatio(limit: Dec, remaining: Dec): real
    requires 0 < limit.coefficient
  {
    WorthPositive(limit);
    Worth(remaining) / Worth(limit)
  }

  function Lower(a: int, b: int): int { if a <= b then a else b }

  lemma CommonWorth(d: Dec, other: Dec)
    ensures Worth(d) == Worth(Dec(Common(d, other), Lower(d.exponent, other.exponent)))
  {
    if d.exponent > other.exponent {
      WorthAt(d.coefficient, other.exponent, d.exponent - other.exponent);
    }
  }

  /** A percentage is defined exactly for a share of a positive limit, all of it included. */
  lemma ComparableExactly(limit: Dec, remaining: Dec)
    ensures Comparable(limit, remaining) <==> 0.0 < Worth(limit) && Worth(remaining) <= Worth(limit)
  {
    CommonWorth(limit, remaining);
    CommonWorth(remaining, limit);
    var t := TenTo(Lower(limit.exponent, remaining.exponent));
    WorthsCompare(Common(remaining, limit), Common(limit, remaining), t, Worth(remaining), Worth(limit));
  }

  lemma WorthsCompare(a: nat, b: nat, t: real, v: real, w: real)
    requires 0.0 < t && v == a as real * t && w == b as real * t
    ensures 0 < b && a <= b <==> 0.0 < w && v <= w
  {
    Rescaled(0, b, t);
    Rescaled(a, b, t);
  }

  lemma Rescaled(a: nat, b: nat, t: real)
    requires 0.0 < t
    ensures a < b <==> a as real * t < b as real * t
    ensures a <= b <==> a as real * t <= b as real * t
  {
    if a < b {
      assert (b as real - a as real) * t > 0.0;
    } else {
      assert (a as real - b as real) * t >= 0.0;
      if a > b {
        assert (a as real - b as real) * t > 0.0;
      }
    }
  }

  lemma RatioOfWorths(n: nat, d: nat, e: int)
    requires 0 < d
    ensures Worth(Dec(d, e)) > 0.0 && Worth(Dec(n, e)) / Worth(Dec(d, e)) == Ratio(n, d)
  {
    CommonFactor(n as real, d as real, TenTo(e));
  }

  lemma CommonFactor(n: real, d: real, t: real)
    requires 0.0 < d && 0.0 < t
    ensures 0.0 < d * t && (n * t) / (d * t) == n / d
  {
    assert (n / d) * (d * t) == n * t;
  }

  /** The comparison and the ratio are those of the values. */
  lemma RatioIsTrue(limit: Dec, remaining: Dec)
    requires Comparable(limit, remaining)
    ensures 0 < limit.coefficient
    ensures TrueRatio(limit, remaining) == Ratio(Common(remaining, limit), Common(limit, remaining))
  {
    CommonWorth(limit, remaining);
    CommonWorth(remaining, limit);
    RatioOfWorths(Common(remaining, limit), Common(limit, remaining), Lower(limit.exponent, remaining.exponent));
  }

  // ---------- the main properties ----------

  lemma WholeQuotient(digits: nat)
    requires 0 < digits
    ensures Worth(Quotient(1, 1, digits)) == 1.0
  {
    var top := Pow10(digits - 1);
    var k: int := digits - 1;
    assert Places(1, 1, digits) == digits - 1;
    MovedTimes(1.0, 1, 1, digits - 1);
    RoundingIsNearest(top as real, top);
    assert Coefficient(1, 1, digits) == top;
    WorthAt(1, -k, digits - 1);
    assert 1 * Pow10(digits - 1) == top;
  }

  lemma HundredTimes(c: nat, e: int)
    ensures Worth(Dec(c * 100, e)) == 100.0 * Worth(Dec(c, e))
  {
    assert (c * 100) as real == 100.0 * c as real;
  }

  /** Scaling by 100 is exact, the result lies in 0..100 and has at most 34 digits. */
  lemma PercentIsExactAndBounded(limit: Dec, remaining: Dec)
    requires Comparable(limit, remaining)
    ensures var q := Quotient(Common(remaining, limit), Common(limit, remaining), PRECISION);
      Worth(Percent(limit, remaining)) == 100.0 * Worth(q)
    ensures 0.0 <= Worth(Percent(limit, remaining)) <= 100.0
    ensures |Decimal(Percent(limit, remaining).coefficient)| <= PRECISION
  {
    BoundedAt(Common(remaining, limit), Common(limit, remaining), PRECISION);
  }

  lemma BoundedAt(n: nat, d: nat, digits: nat)
    requires 0 < d && n <= d && 2 <= digits
    ensures var r := TimesHundred(Quotient(n, d, digits), digits);
      && Worth(r) == 100.0 * Worth(Quotient(n, d, digits))
      && 0.0 <= Worth(r) <= 100.0 && |Decimal(r.coefficient)| <= digits
  {
    var q := Quotient(n, d, digits);
    ScalingIsExact(q, digits);
    HundredTimes(q.coefficient, q.exponent);
    WorthOrder(0, q.coefficient, q.exponent);
    AtMostOne(n, d);
    QuotientIsMonotone(n, d, 1, 1, digits);
    WholeQuotient(digits);
  }

  lemma AtMostOne(n: nat, d: nat)
    requires 0 < d && n <= d
    ensures Ratio(n, d) <= Ratio(1, 1)
  {
  }

  /** r1 / l1 < r2 / l2, compared without dividing */
  predicate SmallerShare(l1: Dec, r1: Dec, l2: Dec, r2: Dec) {
    Worth(r1) * Worth(l2) < Worth(r2) * Worth(l1)
  }

  lemma TrueRatioOrder(l1: Dec, r1: Dec, l2: Dec, r2: Dec)
    requires 0 < l1.coefficient && 0 < l2.coefficient && !SmallerShare(l2, r2, l1, r1)
    ensures TrueRatio(l1, r1) <= TrueRatio(l2, r2)
  {
    WorthPositive(l1);
    WorthPositive(l2);
    WorthOrder(0, l1.coefficient, l1.exponent);
    WorthOrder(0, l2.coefficient, l2.exponent);
    CrossMultiply(Worth(r1), Worth(l1), Worth(r2), Worth(l2));
  }

  /** A true ratio that is no smaller never shows a smaller percentage. */
  lemma PercentIsMonotone(l1: Dec, r1: Dec, l2: Dec, r2: Dec)
    requires Comparable(l1, r1) && Comparable(l2, r2) && !SmallerShare(l2, r2, l1, r1)
    ensures Worth(Percent(l1, r1)) <= Worth(Percent(l2, r2))
  {
    RatioIsTrue(l1, r1);
    RatioIsTrue(l2, r2);
    TrueRatioOrder(l1, r1, l2, r2);
    PercentIsExactAndBounded(l1, r1);
    PercentIsExactAndBounded(l2, r2);
    QuotientIsMonotone(Common(r1, l1), Common(l1, r1), Common(r2, l2), Common(l2, r2), PRECISION);
  }

  lemma CrossMultiply(a: real, b: real, c: real, d: real)
    requires 0.0 < b && 0.0 < d && a * d <= c * b
    ensures a / b <= c / d
  {
    assert (a / b) * (b * d) == a * d;
    assert (c / d) * (b * d) == c * b;
    RealOrder(c / d, a / b, b * d);
  }

  // ---------- the text ----------

  /** The number written without trailing zeros and without positive exponent. */
  function Plain(d: Dec): Dec {
    if d.coefficient == 0 then Dec(0, 0) else Spread(Strip(d))
  }

  function RemovePoint(t: string): string {
    if t == "" then "" else (if t[0] == '.' then "" else [t[0]]) + RemovePoint(t[1..])
  }

  function WithoutFrontZeros(t: string): string {
    if t != "" && t[0] == '0' then WithoutFrontZeros(t[1..]) else t
  }

  function ShownDigits(t: string): nat {
    var digits := WithoutFrontZeros(RemovePoint(t));
    if digits == "" then 1 else |digits|
  }

  /** The text of a percentage, unless it would not fit. */
  function PercentText(limit: Dec, remaining: Dec): Option<string> {
    if !Comparable(limit, remaining) then None
    else
      var value := Percent(limit, remaining);
      if !(0.0 <= Worth(value) <= 100.0) then None
      else
        var text := Trim(FixedText(value));
        if |text| + 1 > MAX_PERCENT_TEXT || ShownDigits(text) > PRECISION then None else Some(text)
  }

  lemma OneMoreZero(c: nat, e: int)
    requires 0 < c && e < -1
    ensures FixedText(Dec(10 * c, e)) == FixedText(Dec(c, e + 1)) + "0"
  {
    AppendZero(c);
    var digits := Decimal(c);
    var p := |digits| + e + 1;
    if p <= 0 {
      SmallFixedText(Dec(10 * c, e), -p);
      SmallFixedText(Dec(c, e + 1), -p);
      EndingSmall(Zeros(-p), digits);
    } else {
      MixedFixedText(Dec(10 * c, e), p);
      MixedFixedText(Dec(c, e + 1), p);
      EndingMixed(digits, p);
    }
  }

  lemma EndingSmall(z: string, digits: string)
    ensures "0" + ("." + (z + (digits + "0"))) == "0" + ("." + (z + digits)) + "0"
  {
  }

  lemma EndingMixed(digits: string, p: nat)
    requires p <= |digits|
    ensures (digits + "0")[..p] + ("." + (digits + "0")[p..]) == digits[..p] + ("." + digits[p..]) + "0"
  {
  }

  lemma PointZero(c: nat)
    requires 0 < c
    ensures FixedText(Dec(10 * c, -1)) == Decimal(c) + ".0"
  {
    AppendZero(c);
    var digits := Decimal(c);
    assert (digits + "0")[..|digits|] == digits && (digits + "0")[|digits|..] == "0";
    assert digits + "." + "0" == digits + ".0";
  }

  lemma TrimWithPoint(t: string)
    requires '.' in t
    ensures Trim(t + "0") == Trim(t)
  {
    var u := t + "0";
    assert u[..|u| - 1] == t;
  }

  lemma TrimPointZero(digits: string)
    ensures Trim(digits + ".0") == digits
  {
    var t, u := digits + ".0", digits + ".";
    assert t[|digits|] == '.' && t[|t| - 1] == '0' && t[..|t| - 1] == u;
    assert u[|u| - 1] == '.' && u[..|u| - 1] == digits;
    assert DropZeros(t) == u;
  }

  lemma HasPoint(d: Dec)
    requires 0 < d.coefficient && d.exponent < 0
    ensures '.' in FixedText(d)
  {
    var digits := Decimal(d.coefficient);
    var p := |digits| + d.exponent;
    if p <= 0 {
      assert FixedText(d)[1] == '.';
    } else {
      assert FixedText(d)[p] == '.';
    }
  }

  /** Trimming the text writes the number plainly: the text depends on the value alone. */
  lemma {:induction false} TrimIsPlain(d: Dec)
    requires 0 < d.coefficient && d.exponent < 0
    ensures Trim(FixedText(d)) == FixedText(Plain(d))
    decreases d.coefficient
  {
    if d.coefficient % 10 != 0 {
      TrimKeepsStripped(d);
    } else {
      var c := d.coefficient / 10;
      assert d == Dec(10 * c, d.exponent);
      if d.exponent < -1 {
        TrimIsPlain(Dec(c, d.exponent + 1));
        TrimOneMore(c, d.exponent);
      } else {
        TrimOfWhole(c);
      }
      PlainOfTenfold(c, d.exponent);
    }
  }

  lemma PlainOfTenfold(c: nat, e: int)
    requires 0 < c
    ensures Plain(Dec(10 * c, e)) == Plain(Dec(c, e + 1))
  {
    assert (10 * c) % 10 == 0 && (10 * c) / 10 == c;
  }

  lemma TrimOneMore(c: nat, e: int)
    requires 0 < c && e < -1
    ensures Trim(FixedText(Dec(10 * c, e))) == Trim(FixedText(Dec(c, e + 1)))
  {
    OneMoreZero(c, e);
    HasPoint(Dec(c, e + 1));
    TrimWithPoint(FixedText(Dec(c, e + 1)));
  }

  lemma TrimOfWhole(c: nat)
    requires 0 < c
    ensures Trim(FixedText(Dec(10 * c, -1))) == FixedText(Plain(Dec(c, 0)))
  {
    PointZero(c);
    TrimPointZero(Decimal(c));
    SpreadOfStripped(Dec(c, 0));
    assert Decimal(c) + Zeros(0) == Decimal(c);
  }

  lemma WholeHasNoPoint(d: Dec)
    requires 0 < d.coefficient && 0 <= d.exponent
    ensures Trim(FixedText(d)) == FixedText(Plain(d))
  {
    var t := FixedText(d);
    assert AllDigits(t) && forall i | 0 <= i < |t| :: t[i] != '.';
    SpreadKeepsText(d);
    StripKeepsWorth(d);
    SpreadKeepsWorth(d);
    SpreadKeepsWorth(Strip(d));
    SameExponent(Spread(d).coefficient, Plain(d).coefficient, 0);
  }

  lemma TextIsPlain(d: Dec)
    requires d.coefficient == 0 ==> d.exponent >= 0
    ensures Trim(FixedText(d)) == FixedText(Plain(d))
  {
    if d.coefficient > 0 && d.exponent < 0 {
      TrimIsPlain(d);
    } else if d.coefficient > 0 {
      WholeHasNoPoint(d);
    }
  }

  // ---------- the digits shown ----------

  lemma {:induction false} RemoveNothing(t: string)
    requires AllDigits(t)
    ensures RemovePoint(t) == t
  {
    if t != "" {
      RemoveNothing(t[1..]);
      assert [t[0]] + t[1..] == t;
    }
  }

  lemma {:induction false} RemoveOne(a: string, b: string)
    requires AllDigits(a) && AllDigits(b)
    ensures RemovePoint(a + ("." + b)) == a + b
  {
    var t := a + ("." + b);
    if a == "" {
      assert t == "." + b && t[1..] == b;
      RemoveNothing(b);
    } else {
      assert t[1..] == a[1..] + ("." + b);
      RemoveOne(a[1..], b);
      assert [a[0]] + (a[1..] + b) == a + b;
    }
  }

  lemma {:induction false} FrontZerosGo(z: string, t: string)
    requires (forall i | 0 <= i < |z| :: z[i] == '0') && (t != "" ==> t[0] != '0')
    ensures WithoutFrontZeros(z + t) == t
  {
    if z == "" {
      assert z + t == t;
    } else {
      assert (z + t)[1..] == z[1..] + t;
      FrontZerosGo(z[1..], t);
    }
  }

  /** The digits shown are those of the coefficient. */
  lemma ShownDigitsCount(d: Dec)
    requires d.exponent <= 0 && (d.coefficient == 0 ==> d.exponent == 0)
    ensures ShownDigits(FixedText(d)) == |Decimal(d.coefficient)|
  {
    var digits := Decimal(d.coefficient);
    if d.coefficient == 0 {
      assert FixedText(d) == "0" && "0"[1..] == "";
      RemoveNothing("0");
    } else if d.exponent == 0 {
      assert digits + Zeros(0) == digits;
      RemoveNothing(digits);
    } else if |digits| + d.exponent > 0 {
      ShownMixed(d);
    } else {
      ShownSmall(d);
    }
  }

  lemma ShownMixed(d: Dec)
    requires 0 < d.coefficient && d.exponent < 0 < |Decimal(d.coefficient)| + d.exponent
    ensures ShownDigits(FixedText(d)) == |Decimal(d.coefficient)|
  {
    var digits := Decimal(d.coefficient);
    var p := |digits| + d.exponent;
    MixedFixedText(d, p);
    RemoveOne(digits[..p], digits[p..]);
    assert digits[..p] + digits[p..] == digits;
  }

  lemma ShownSmall(d: Dec)
    requires 0 < d.coefficient && d.exponent < 0 && |Decimal(d.coefficient)| + d.exponent <= 0
    ensures ShownDigits(FixedText(d)) == |Decimal(d.coefficient)|
  {
    var digits := Decimal(d.coefficient);
    var n := -(|digits| + d.exponent);
    SmallFixedText(d, n);
    RemoveOne("0", Zeros(n) + digits);
    SmallText(Zeros(n), digits);
    ZerosAreZeros(n);
    FrontZerosGo("0" + Zeros(n), digits);
  }

  lemma {:induction false} StripHasNoMoreDigits(d: Dec)
    requires 0 < d.coefficient
    ensures |Decimal(Strip(d).coefficient)| <= |Decimal(d.coefficient)|
    decreases d.coefficient
  {
    if d.coefficient % 10 == 0 {
      StripHasNoMoreDigits(Dec(d.coefficient / 10, d.exponent + 1));
    }
  }

  /** A number up to 100 written plainly shows no more digits than its coefficient had, or three. */
  lemma PlainDigits(d: Dec, digits: nat)
    requires |Decimal(d.coefficient)| <= digits && 3 <= digits && Worth(d) <= 100.0
    ensures |Decimal(Plain(d).coefficient)| <= digits
  {
    if d.coefficient > 0 {
      StripHasNoMoreDigits(d);
      if Strip(d).exponent >= 0 {
        StripKeepsWorth(d);
        SpreadKeepsWorth(Strip(d));
        assert Worth(Plain(d)) == Plain(d).coefficient as real * 1.0;
        AtMostHundred(Plain(d).coefficient);
      }
    }
  }

  lemma AtMostHundred(c: nat)
    requires c <= 100
    ensures |Decimal(c)| <= 3
  {
    assert c / 10 <= 10;
  }

  /** The two last guards never fire and the text is exact: it is refused for its length alone, and
      reads back as the percentage. */
  lemma PercentTextMeaning(limit: Dec, remaining: Dec)
    requires Comparable(limit, remaining)
    ensures var value := Percent(limit, remaining);
      var text := FixedText(Plain(value));
      && PercentText(limit, remaining) == (if |text| + 1 > MAX_PERCENT_TEXT then None else Some(text))
      && ReadDecimal(text) == Some(Finite(false, Plain(value))) && Worth(Plain(value)) == Worth(value)
  {
    var value := Percent(limit, remaining);
    PercentIsExactAndBounded(limit, remaining);
    ZeroPercent(limit, remaining);
    TextIsPlain(value);
    PlainDigits(value, PRECISION);
    ShownDigitsCount(Plain(value));
    if value.coefficient > 0 {
      SpreadKeepsText(Strip(value));
      ReadOfFixedText(Plain(value));
      StripKeepsWorth(value);
      SpreadKeepsWorth(Strip(value));
    } else {
      WorthPositive(value);
      ReadWhole("0");
      assert "0"[..0] == "";
    }
  }

  lemma ZeroPercent(limit: Dec, remaining: Dec)
    requires Comparable(limit, remaining)
    ensures Percent(limit, remaining).coefficient == 0 ==> Percent(limit, remaining).exponent == 0
  {
    HundredOfPositive(Quotient(Common(remaining, limit), Common(limit, remaining), PRECISION), PRECISION);
    QuotientOfPositive(Common(remaining, limit), Common(limit, remaining), PRECISION);
  }

  lemma QuotientOfPositive(n: nat, d: nat, digits: nat)
    requires 0 < d && n <= d && 0 < digits
    ensures Quotient(n, d, digits).coefficient == 0 ==> Quotient(n, d, digits).exponent == 0
  {
  }

  lemma HundredOfPositive(q: Dec, digits: nat)
    requires 2 <= digits && q.coefficient < Pow10(digits)
    ensures TimesHundred(q, digits).coefficient == 0 ==> TimesHundred(q, digits) == q
  {
    ScalingIsExact(q, digits);
    WorthPositive(TimesHundred(q, digits));
    WorthPositive(Dec(q.coefficient * 100, q.exponent));
  }

  /** What a text is worth when read again. */
  function TextWorth(text: string): real {
    var r := ReadDecimal(text);
    if r.Some? && r.value.Finite? then Worth(r.value.magnitude) else 0.0
  }

  lemma TextWorthIsPercent(limit: Dec, remaining: Dec, text: string)
    requires PercentText(limit, remaining) == Some(text)
    ensures Comparable(limit, remaining) && TextWorth(text) == Worth(Percent(limit, remaining))
  {
    PercentTextMeaning(limit, remaining);
  }

  /** A text that shows strictly less stands for a strictly smaller share. */
  lemma SmallerTextSmallerShare(l1: Dec, r1: Dec, t1: string, l2: Dec, r2: Dec, t2: string)
    requires PercentText(l1, r1) == Some(t1) && PercentText(l2, r2) == Some(t2) && TextWorth(t1) < TextWorth(t2)
    ensures SmallerShare(l1, r1, l2, r2)
  {
    TextWorthIsPercent(l1, r1, t1);
    TextWorthIsPercent(l2, r2, t2);
    if !SmallerShare(l1, r1, l2, r2) {
      PercentIsMonotone(l2, r2, l1, r1);
    }
  }
}
