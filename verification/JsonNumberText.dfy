/** How a number is written, and when it is too large for a double. */
module JsonNumberText {
  import opened JsonText
  import opened JsonNumbers

  predicate AllDigits(t: Text) { forall i | 0 <= i < |t| :: 48 <= t[i] <= 57 }

  function WithPoint(fraction: Text): Text { if fraction == [] then [] else [46] + fraction }

  function WithMark(mark: Text, digits: Text): Text { if digits == [] then [] else mark + digits }

  predicate Mark(mark: Text) { mark in {[69], [101], [69, 43], [101, 43], [69, 45], [101, 45]} }

  /** A minus or none, digits without a leading zero, a point and digits or neither,
      an exponent or none (section 6 of RFC 8259). */
  predicate Parts(t: Text, negative: bool, whole: Text, fraction: Text, mark: Text, digits: Text) {
    && t == (if negative then [45] else []) + (whole + (WithPoint(fraction) + WithMark(mark, digits)))
    && whole != [] && AllDigits(whole) && (|whole| > 1 ==> whole[0] != 48)
    && AllDigits(fraction) && AllDigits(digits) && Mark(mark)
  }

  predicate NoDigit(t: Text) { t == [] || !IsDigit(t[0]) }

  lemma {:induction false} DigitsFirst(a: Text, k: Text)
    requires AllDigits(a) && NoDigit(k)
    ensures SkipDigits(a + k) == k && Leading(a + k) == a
  {
    if a == [] {
      assert a + k == k;
    } else {
      assert (a + k)[0] == a[0] && (a + k)[1..] == a[1..] + k;
      DigitsFirst(a[1..], k);
      assert [a[0]] + a[1..] == a;
    }
  }

  lemma {:induction false} SkipsTheLeading(t: Text)
    ensures t == Leading(t) + SkipDigits(t) && AllDigits(Leading(t)) && NoDigit(SkipDigits(t))
  {
    if t != [] && IsDigit(t[0]) {
      SkipsTheLeading(t[1..]);
      assert t == [t[0]] + t[1..];
    } else {
      assert t == [] + t;
    }
  }

  // ---- The exponent -----------------------------------------------------------------------

  function Signed(mark: Text, digits: Text): int
    requires AllDigits(digits)
  {
    if digits == [] then 0 else if 45 in mark then -(DigitsValue(digits) as int) else DigitsValue(digits)
  }

  lemma ExponentIs(mark: Text, digits: Text)
    requires Mark(mark) && AllDigits(digits)
    ensures var t := WithMark(mark, digits); IsExponent(t) && NoDigit(t) && ExponentOf(t) == Signed(mark, digits)
    ensures WithMark(mark, digits) == [] || WithMark(mark, digits)[0] != 46
  {
    if digits != [] {
      var t := mark + digits;
      DigitsFirst(digits, []);
      assert digits + [] == digits;
      if |mark| == 1 {
        assert t[1] == digits[0] && t[1..] == digits;
      } else {
        assert t[1] == mark[1] && t[2..] == digits;
      }
    }
  }

  lemma {:induction false} OnlyDigits(t: Text)
    requires SkipDigits(t) == []
    ensures AllDigits(t)
  {
    SkipsTheLeading(t);
    assert Leading(t) + [] == Leading(t);
  }

  lemma ExponentHas(t: Text) returns (mark: Text, digits: Text)
    requires IsExponent(t)
    ensures Mark(mark) && AllDigits(digits) && t == WithMark(mark, digits)
  {
    if t == [] {
      mark, digits := [69], [];
    } else {
      var n := if |t| > 1 && (t[1] == 43 || t[1] == 45) then 2 else 1;
      mark, digits := t[..n], t[n..];
      OnlyDigits(digits);
      assert t == mark + digits;
      if n == 1 { assert mark == [t[0]]; } else { assert mark == [t[0], t[1]]; }
    }
  }

  // ---- The fraction -------------------------------------------------------------------------

  lemma FractionIs(fraction: Text, tail: Text)
    requires AllDigits(fraction) && IsExponent(tail) && NoDigit(tail) && (tail == [] || tail[0] != 46)
    ensures var t := WithPoint(fraction) + tail;
      IsFraction(t) && NoDigit(t) && Fraction(t) == fraction && AfterFraction(t) == tail
  {
    var t := WithPoint(fraction) + tail;
    if fraction == [] {
      assert t == tail;
    } else {
      assert t[0] == 46 && t[1] == fraction[0] && t[1..] == fraction + tail;
      DigitsFirst(fraction, tail);
    }
  }

  lemma FractionHas(t: Text) returns (fraction: Text, mark: Text, digits: Text)
    requires IsFraction(t)
    ensures AllDigits(fraction) && Mark(mark) && AllDigits(digits)
    ensures t == WithPoint(fraction) + WithMark(mark, digits)
  {
    if t != [] && t[0] == 46 {
      SkipsTheLeading(t[1..]);
      fraction := Leading(t[1..]);
      mark, digits := ExponentHas(SkipDigits(t[1..]));
      assert t == [46] + t[1..];
    } else {
      fraction := [];
      mark, digits := ExponentHas(t);
      assert t == [] + t;
    }
  }

  // ---- The number -----------------------------------------------------------------------------

  predicate Unmarked(u: Text, whole: Text, fraction: Text, mark: Text, digits: Text) {
    && u == whole + (WithPoint(fraction) + WithMark(mark, digits))
    && whole != [] && AllDigits(whole) && (|whole| > 1 ==> whole[0] != 48)
    && AllDigits(fraction) && AllDigits(digits) && Mark(mark)
  }

  /** The digits read as one number, scaled by the exponent less the places after
      the point. */
  function Value(whole: Text, fraction: Text, mark: Text, digits: Text): Decimal
    requires AllDigits(whole) && AllDigits(fraction) && AllDigits(digits)
  {
    Decimal(DigitsValue(whole + fraction), Signed(mark, digits) - |fraction|)
  }

  lemma UnsignedIs(u: Text, whole: Text, fraction: Text, mark: Text, digits: Text)
    requires Unmarked(u, whole, fraction, mark, digits)
    ensures IsUnsigned(u) && u[0] != 45 && DecimalOf(u) == Value(whole, fraction, mark, digits)
  {
    var tail := WithMark(mark, digits);
    var rest := WithPoint(fraction) + tail;
    ExponentIs(mark, digits);
    FractionIs(fraction, tail);
    DigitsFirst(whole, rest);
    assert u[0] == whole[0];
    if whole[0] == 48 { assert u[1..] == rest; }
  }

  lemma UnsignedHas(u: Text) returns (whole: Text, fraction: Text, mark: Text, digits: Text)
    requires IsUnsigned(u)
    ensures Unmarked(u, whole, fraction, mark, digits)
  {
    var rest;
    whole, rest := WholeHas(u);
    fraction, mark, digits := FractionHas(rest);
  }

  lemma WholeHas(u: Text) returns (whole: Text, rest: Text)
    requires IsUnsigned(u)
    ensures u == whole + rest && IsFraction(rest)
    ensures whole != [] && AllDigits(whole) && (|whole| > 1 ==> whole[0] != 48)
  {
    if u[0] == 48 {
      whole, rest := [u[0]], u[1..];
    } else {
      SkipsTheLeading(u);
      whole, rest := Leading(u), SkipDigits(u);
    }
  }

  lemma UnitsAre(u: Text, whole: Text, fraction: Text, mark: Text, digits: Text)
    requires Unmarked(u, whole, fraction, mark, digits)
    ensures forall i | 0 <= i < |u| :: IsNumberUnit(u[i])
  {
    assert forall i | 0 <= i < |mark| :: IsNumberUnit(mark[i]);
    var tail := WithMark(mark, digits);
    assert forall i | 0 <= i < |tail| :: IsNumberUnit(tail[i]);
    var rest := WithPoint(fraction) + tail;
    assert forall i | 0 <= i < |rest| :: IsNumberUnit(rest[i]);
  }

  /** The number texts are exactly the texts of these parts. */
  lemma NumberExactlyWhen(t: Text)
    ensures IsNumber(t) <==>
      exists negative, whole, fraction, mark, digits :: Parts(t, negative, whole, fraction, mark, digits)
  {
    if negative, whole, fraction, mark, digits :| Parts(t, negative, whole, fraction, mark, digits) {
      NumberIs(t, negative, whole, fraction, mark, digits);
    }
    if IsNumber(t) {
      var negative := t != [] && t[0] == 45;
      var u := if negative then t[1..] else t;
      var whole, fraction, mark, digits := UnsignedHas(u);
      assert t == (if negative then [45] else []) + u;
      assert Parts(t, negative, whole, fraction, mark, digits);
    }
  }

  /** A text of these parts is a number, of the value its parts give. */
  lemma NumberIs(t: Text, negative: bool, whole: Text, fraction: Text, mark: Text, digits: Text)
    requires Parts(t, negative, whole, fraction, mark, digits)
    ensures IsNumber(t) && DecimalOf(t) == Value(whole, fraction, mark, digits)
  {
    var u := whole + (WithPoint(fraction) + WithMark(mark, digits));
    UnsignedIs(u, whole, fraction, mark, digits);
    UnitsAre(u, whole, fraction, mark, digits);
    if negative {
      assert t[0] == 45 && t[1..] == u;
    } else {
      assert t == u;
    }
  }

  // ---- Too large ----------------------------------------------------------------------------------

  function Scaled(base: real, n: int): real
    requires base > 0.0
    decreases if n < 0 then -n else n
  {
    if n == 0 then 1.0 else if n > 0 then base * Scaled(base, n - 1) else Scaled(base, n + 1) / base
  }

  lemma {:induction false} PowerIs(base: nat, n: nat)
    requires base > 0
    ensures Power(base, n) as real == Scaled(base as real, n)
  {
    if n > 0 {
      PowerIs(base, n - 1);
      assert Power(base, n) as real == base as real * Power(base, n - 1) as real;
    }
  }

  lemma {:induction false} InverseIs(base: real, n: nat, down: real)
    requires base > 0.0 && down == Scaled(base, -(n as int))
    ensures Scaled(base, n) > 0.0 && down * Scaled(base, n) == 1.0
  {
    if n > 0 {
      var above := Scaled(base, 1 - (n as int));
      InverseIs(base, n - 1, above);
      Cancels(base, Scaled(base, n - 1), above);
    }
  }

  lemma Cancels(base: real, up: real, down: real)
    requires base > 0.0 && up > 0.0 && down * up == 1.0
    ensures base * up > 0.0 && (down / base) * (base * up) == 1.0
  {
    var d := down / base;
    assert d * base == down;
    assert d * (base * up) == (d * base) * up;
  }

  lemma Scales(d: real, up: real, down: real, limit: real)
    requires up > 0.0 && down * up == 1.0
    ensures d * down >= limit <==> d >= limit * up
  {
    assert (d * down) * up == d * (down * up) == d;
    if d * down >= limit { assert (d * down) * up >= limit * up; }
    if d * down < limit { assert (d * down) * up < limit * up; }
  }

  lemma AtLeastUp(d: Decimal, limit: int, n: nat)
    requires d.exponent == n
    ensures AtLeast(d, limit) <==> d.digits as real * Scaled(10.0, n) >= limit as real
  {
    var p := Power(10, n);
    PowerIs(10, n);
    assert (d.digits * p) as real == d.digits as real * p as real;
  }

  lemma AtLeastDown(d: Decimal, limit: int, n: nat, down: real)
    requires d.exponent == -(n as int) && n > 0 && down == Scaled(10.0, d.exponent)
    ensures AtLeast(d, limit) <==> d.digits as real * down >= limit as real
  {
    var p := Power(10, n);
    PowerIs(10, n);
    InverseIs(10.0, n, down);
    Scales(d.digits as real, Scaled(10.0, n), down, limit as real);
    assert (limit * p) as real == limit as real * p as real;
  }

  lemma AtLeastIs(d: Decimal, limit: int, factor: real)
    requires factor == Scaled(10.0, d.exponent)
    ensures AtLeast(d, limit) <==> d.digits as real * factor >= limit as real
  {
    if d.exponent >= 0 { AtLeastUp(d, limit, d.exponent); } else { AtLeastDown(d, limit, -d.exponent, factor); }
  }

  lemma LimitIs(bits: nat)
    requires bits >= 54
    ensures Limit(bits) as real == Scaled(2.0, bits) - Scaled(2.0, bits - 54)
  {
    PowerIs(2, bits);
    PowerIs(2, bits - 54);
  }

  /** A value reaches the limit exactly when it is at least half way from the largest
      number of `bits` bits to the next power of two. */
  lemma ReachesExactlyWhen(d: Decimal, bits: nat, scale: real, high: real, low: real)
    requires bits >= 54 && scale == Scaled(10.0, d.exponent)
    requires high == Scaled(2.0, bits) && low == Scaled(2.0, bits - 54)
    ensures AtLeast(d, Limit(bits)) <==> d.digits as real * scale >= high - low
  {
    var limit := Limit(bits);
    LimitIs(bits);
    assert limit as real == high - low;
    AtLeastIs(d, limit, scale);
  }

  /** A number's text overflows exactly when its value reaches the limit at 1024. */
  lemma OverflowIsAtLimit(t: Text, d: Decimal, bits: nat)
    requires d == DecimalOf(t) && bits == 1024
    ensures Overflows(t) <==> AtLeast(d, Limit(bits))
  {
  }
}
