/** Numerals with fractions and exponents are read as the numbers that they denote. */
module JsonNumbers {
  import opened CStrings
  import opened Digits
  import opened JsonParse
  import opened JsonRoundTrip
  import opened JsonSpelling
  import opened Options

  // Powers of ten

  lemma {:induction false} TenToSum(a: nat, b: nat)
    ensures TenTo(a + b) == TenTo(a) * TenTo(b)
    decreases a
  {
    if a > 0 {
      TenToSum(a - 1, b);
      Scale10(TenTo(a - 1), TenTo(b));
    }
  }

  lemma Scale10(x: real, y: real)
    ensures 10.0 * (x * y) == 10.0 * x * y
  {
  }

  lemma {:induction false} ScaledUp(n: nat, k: nat)
    ensures Scaled(n, k) == n as real * TenTo(k)
    decreases k
  {
    if k > 0 {
      ScaledUp(n, k - 1);
      Swap(n as real, TenTo(k - 1));
    }
  }

  lemma Swap(x: real, y: real)
    ensures 10.0 * (x * y) == x * (10.0 * y)
  {
  }

  lemma {:induction false} ScaledDown(n: nat, k: nat)
    ensures TenTo(k) > 0.0 && Scaled(n, -(k as int)) == n as real / TenTo(k)
    decreases k
  {
    TenToPositive(k);
    if k > 0 {
      ScaledDown(n, k - 1);
      DivideTwice(n as real, TenTo(k - 1), 10.0);
    }
  }

  lemma DivideTwice(x: real, y: real, z: real)
    requires y > 0.0 && z > 0.0
    ensures z * y > 0.0 && x / y / z == x / (z * y)
  {
    var q := x / y / z;
    assert q * z == x / y;
    assert q * z * y == x;
    assert q * (z * y) == x;
  }

  lemma Cancel(x: real, y: real)
    requires y > 0.0
    ensures x * y / y == x
  {
  }

  // Parts of numerals

  predicate Joins(whole: real, x: real, t: real, y: real) {
    whole == x * t + y
  }

  lemma {:induction false} ValueOfJoined(a: string, b: string)
    requires AllDigits(a) && AllDigits(b)
    ensures Joins(DecimalValue(a + b) as real, DecimalValue(a) as real, TenTo(|b|), DecimalValue(b) as real)
    decreases |b|
  {
    if b == [] {
      assert a + b == a && TenTo(0) == 1.0 && DecimalValue(b) == 0;
    } else {
      hide Joins;
      var last := |b| - 1;
      assert (a + b)[..|a| + last] == a + b[..last] && (a + b)[|a| + last] == b[last];
      ValueOfJoined(a, b[..last]);
      LastDigit(b);
      LastDigit(a + b);
      assert TenTo(|b|) == 10.0 * TenTo(last);
      hide DecimalValue, TenTo, AllDigits;
      OneMoreDigit(DecimalValue(a + b[..last]) as real, DecimalValue(a) as real, TenTo(last),
                   DecimalValue(b[..last]) as real, (b[last] as int - '0' as int) as real);
    }
  }

  lemma OneMoreDigit(w: real, x: real, t: real, y: real, d: real)
    requires Joins(w, x, t, y)
    ensures Joins(w * 10.0 + d, x, 10.0 * t, y * 10.0 + d)
  {
  }

  lemma LastDigit(s: string)
    requires AllDigits(s) && s != []
    ensures var last := |s| - 1;
            DecimalValue(s) as real == DecimalValue(s[..last]) as real * 10.0 + (s[last] as int - '0' as int) as real
  {
  }

  /** What follows the digits in front of the point does not go on with a digit. */
  lemma TailIsNoDigit(n: Num, rest: string)
    requires NumOk(n) && Delimited(rest)
    ensures !IsDigit(At(ExponentTo(n.exponent, rest), 0)) && At(ExponentTo(n.exponent, rest), 0) != '.'
    ensures !IsDigit(At(FractionTo(n.fraction, ExponentTo(n.exponent, rest)), 0))
  {
  }

  lemma WholeIsRead(whole: string, rest: string)
    requires AllDigits(whole) && whole != [] && (|whole| > 1 ==> whole[0] != '0') && !IsDigit(At(rest, 0))
    ensures NumberWhole(whole + rest) == Parsed(if whole == "0" then "" else whole, rest)
  {
    var s := whole + rest;
    assert s[0] == whole[0] && IsDigit(whole[0]);
    if whole[0] == '0' {
      assert whole == "0" && s[1..] == rest;
    } else {
      RunOfDigits(whole, rest);
      assert s[..|whole|] == whole && s[|whole|..] == rest;
    }
  }

  lemma FractionIsRead(f: Option<string>, rest: string)
    requires f.Some? ==> AllDigits(f.value) && f.value != []
    requires !IsDigit(At(rest, 0)) && At(rest, 0) != '.'
    ensures NumberFraction(FractionTo(f, rest)) == Parsed(if f.Some? then f.value else "", rest)
  {
    if f.Some? {
      var s, t := FractionTo(f, rest), f.value + rest;
      assert s[0] == '.' && s[1..] == t && s[1] == t[0] == f.value[0] && IsDigit(f.value[0]);
      RunOfDigits(f.value, rest);
      assert t[..|f.value|] == f.value && t[|f.value|..] == rest;
    }
  }

  lemma ExponentIsRead(e: Exponent, rest: string)
    requires e.letter in ['e', 'E'] && AllDigits(e.digits) && e.digits != [] && Delimited(rest)
    ensures NumberExponent(ExponentTo(Some(e), rest))
            == Parsed(if e.sign == Minus then -(DecimalValue(e.digits) as int) else DecimalValue(e.digits), rest)
  {
    var s, t := ExponentTo(Some(e), rest), e.digits + rest;
    assert t[0] == e.digits[0] && IsDigit(t[0]);
    SignIs(e, t);
    RunOfDigits(e.digits, rest);
    assert t[..|e.digits|] == e.digits && t[|e.digits|..] == rest;
    hide DigitRun, DecimalValue, ExponentTo;
  }

  lemma SignIs(e: Exponent, t: string)
    requires t != [] && IsDigit(t[0])
    ensures var s := [e.letter] + (SignText(e.sign) + t);
            && |s| >= 2 && s[0] == e.letter
            && match e.sign
               case NoSign => IsDigit(s[1]) && s[1..] == t
               case Plus => s[1] == '+' && s[2..] == t
               case Minus => s[1] == '-' && s[2..] == t
  {
    var s := [e.letter] + (SignText(e.sign) + t);
    assert s[1..] == SignText(e.sign) + t;
    if e.sign == NoSign {
      assert "" + t == t;
    }
  }

  // The value

  predicate Scales(m: real, t: real, n: real) {
    m * t == n
  }

  /** The digits on both sides of the point as one number. */
  lemma MantissaIs(n: Num)
    requires NumOk(n)
    ensures var f := if n.fraction.Some? then n.fraction.value else "";
            AllDigits(n.whole + f) && Scales(Mantissa(n), TenTo(|f|), DecimalValue(n.whole + f) as real)
  {
    if n.fraction.None? {
      assert n.whole + "" == n.whole && TenTo(0) == 1.0;
      Once(DecimalValue(n.whole) as real);
      hide *;
    } else {
      var f := n.fraction.value;
      TenToPositive(|f|);
      ValueOfJoined(n.whole, f);
      var x, y, t := DecimalValue(n.whole) as real, DecimalValue(f) as real, TenTo(|f|);
      assert Mantissa(n) == x + y / t;
      hide *;
      Undo(x, y, t, DecimalValue(n.whole + f) as real);
    }
  }

  lemma Once(x: real)
    ensures Scales(x, 1.0, x)
  {
  }

  lemma Undo(x: real, y: real, t: real, w: real)
    requires t > 0.0 && Joins(w, x, t, y)
    ensures Scales(x + y / t, t, w)
  {
  }

  // A mantissa of `f` digits behind the point, times or divided by a power of ten

  lemma ScaledRight(n: nat, f: nat, m: real, k: nat)
    requires Scales(m, TenTo(f), n as real) && k >= f
    ensures Scaled(n, k - f) == m * TenTo(k)
  {
    ScaledUp(n, k - f);
    TenToSum(f, k - f);
    Regroup(m, TenTo(f), TenTo(k - f));
  }

  lemma ScaledLeft(n: nat, f: nat, m: real, k: nat)
    requires Scales(m, TenTo(f), n as real) && k < f
    ensures Scaled(n, k - f) == m * TenTo(k)
  {
    ScaledDown(n, f - k);
    TenToSum(k, f - k);
    Regroup(m, TenTo(k), TenTo(f - k));
    Cancel(m * TenTo(k), TenTo(f - k));
  }

  lemma ScaledTimes(n: nat, f: nat, m: real, k: nat)
    requires Scales(m, TenTo(f), n as real)
    ensures Scaled(n, k - f) == m * TenTo(k)
  {
    hide *;
    if k >= f {
      ScaledRight(n, f, m, k);
    } else {
      ScaledLeft(n, f, m, k);
    }
  }

  lemma ScaledOver(n: nat, f: nat, m: real, k: nat)
    requires Scales(m, TenTo(f), n as real)
    ensures TenTo(k) > 0.0 && Scaled(n, -(k as int) - f) == m / TenTo(k)
  {
    TenToPositive(k);
    TenToPositive(f);
    ScaledDown(n, k + f);
    TenToSum(k, f);
    DivideTwice(m * TenTo(f), TenTo(f), TenTo(k));
    Cancel(m, TenTo(f));
  }

  lemma ScaledOnly(n: nat, f: nat, m: real)
    requires Scales(m, TenTo(f), n as real)
    ensures Scaled(n, -(f as int)) == m
  {
    TenToPositive(f);
    ScaledDown(n, f);
    Cancel(m, TenTo(f));
  }

  lemma Regroup(x: real, y: real, z: real)
    ensures x * y * z == x * (y * z)
  {
  }

  lemma {:induction false} LeadingZero(fraction: string)
    requires AllDigits(fraction)
    ensures DecimalValue("0" + fraction) == DecimalValue(fraction)
    decreases |fraction|
  {
    if fraction == [] {
      assert "0" + fraction == "0";
      assert "0"[..0] == [];
    } else {
      var last := |fraction| - 1;
      assert ("0" + fraction)[..|fraction|] == "0" + fraction[..last];
      LeadingZero(fraction[..last]);
    }
  }

  /** The exponent that a numeral is read with. */
  function Power(e: Option<Exponent>): int {
    if e.None? then 0
    else
      var k: int := if AllDigits(e.value.digits) then DecimalValue(e.value.digits) else 0;
      if e.value.sign == Minus then -k else k
  }

  function Behind(n: Num): string {
    if n.fraction.Some? then n.fraction.value else ""
  }

  lemma SizeIs(n: Num)
    requires NumOk(n)
    ensures AllDigits(n.whole + Behind(n))
    ensures Scaled(DecimalValue(n.whole + Behind(n)), Power(n.exponent) - |Behind(n)|) == Size(n)
  {
    MantissaIs(n);
    assert Behind(n) == if n.fraction.Some? then n.fraction.value else "";
    hide *;
    var d, k := DecimalValue(n.whole + Behind(n)), |Behind(n)|;
    if n.exponent.None? {
      SizeWithout(n, d, k);
    } else if n.exponent.value.sign == Minus {
      SizeDown(n, d, k);
    } else {
      SizeUp(n, d, k);
    }
  }

  lemma SizeWithout(n: Num, d: nat, k: nat)
    requires NumOk(n) && n.exponent.None? && Scales(Mantissa(n), TenTo(k), d as real)
    ensures Scaled(d, Power(n.exponent) - k) == Size(n)
  {
    hide Mantissa, TenTo, DecimalValue, Scales, Scaled;
    ScaledOnly(d, k, Mantissa(n));
  }

  lemma SizeDown(n: Num, d: nat, k: nat)
    requires NumOk(n) && n.exponent.Some? && n.exponent.value.sign == Minus
    requires Scales(Mantissa(n), TenTo(k), d as real)
    ensures Scaled(d, Power(n.exponent) - k) == Size(n)
  {
    hide Mantissa, TenTo, DecimalValue, Scales, Scaled;
    ScaledOver(d, k, Mantissa(n), DecimalValue(n.exponent.value.digits));
  }

  lemma SizeUp(n: Num, d: nat, k: nat)
    requires NumOk(n) && n.exponent.Some? && n.exponent.value.sign != Minus
    requires Scales(Mantissa(n), TenTo(k), d as real)
    ensures Scaled(d, Power(n.exponent) - k) == Size(n)
  {
    hide Mantissa, TenTo, DecimalValue, Scales, Scaled;
    ScaledTimes(d, k, Mantissa(n), DecimalValue(n.exponent.value.digits));
  }

  /** What is kept of the digits in front of the point denotes the same. */
  lemma KeptDigits(whole: string, f: string)
    requires AllDigits(whole) && AllDigits(f)
    ensures var kept := if whole == "0" then "" else whole;
            AllDigits(kept + f) && AllDigits(whole + f) && DecimalValue(kept + f) == DecimalValue(whole + f)
  {
    if whole == "0" {
      LeadingZero(f);
      assert "" + f == f;
    }
  }

  function Kept(n: Num): string {
    if n.whole == "0" then "" else n.whole
  }

  lemma PartsAreRead(n: Num, rest: string)
    requires NumOk(n) && Delimited(rest)
    ensures var u := ExponentTo(n.exponent, rest);
            var t := FractionTo(n.fraction, u);
            && NumberWhole(n.whole + t) == Parsed(Kept(n), t)
            && NumberFraction(t) == Parsed(Behind(n), u)
            && NumberExponent(u) == Parsed(Power(n.exponent), rest)
  {
    hide NumberWhole, NumberFraction, NumberExponent, Power;
    TailIsNoDigit(n, rest);
    WholeIsRead(n.whole, FractionTo(n.fraction, ExponentTo(n.exponent, rest)));
    FractionIsRead(n.fraction, ExponentTo(n.exponent, rest));
    ExponentOrNone(n.exponent, rest);
  }

  lemma KeptSize(n: Num)
    requires NumOk(n)
    ensures AllDigits(Kept(n) + Behind(n))
    ensures Scaled(DecimalValue(Kept(n) + Behind(n)), Power(n.exponent) - |Behind(n)|) == Size(n)
  {
    KeptDigits(n.whole, Behind(n));
    assert Kept(n) == if n.whole == "0" then "" else n.whole;
    hide *;
    SizeIs(n);
  }

  /** Every numeral is read to its end as the number that it denotes. */
  lemma NumIsRead(n: Num, rest: string)
    requires NumOk(n) && Delimited(rest)
    ensures ParseNumber(NumTo(n, rest)) == Parsed(NumMeans(n), rest)
  {
    hide *;
    var u := ExponentTo(n.exponent, rest);
    var t := FractionTo(n.fraction, u);
    PartsAreRead(n, rest);
    KeptSize(n);
    SignAndDigits(n, rest);
    NumberFromParts(NumTo(n, rest), n.negative, n.whole + t, Kept(n), t, Behind(n), u, Power(n.exponent), rest);
    NumMeansSize(n);
  }

  lemma NumMeansSize(n: Num)
    requires NumOk(n)
    ensures NumMeans(n) == if n.negative then -Size(n) else Size(n)
  {
  }

  lemma NumberFromParts(s: string, negative: bool, v: string, w: string, t: string, f: string, u: string, x: int,
                        rest: string)
    requires (At(s, 0) == '-' <==> negative) && (if negative then s[1..] else s) == v
    requires NumberWhole(v) == Parsed(w, t) && NumberFraction(t) == Parsed(f, u) && NumberExponent(u) == Parsed(x, rest)
    ensures AllDigits(w) && AllDigits(f) && AllDigits(w + f)
    ensures var size := Scaled(DecimalValue(w + f), x - |f|);
            ParseNumber(s) == Parsed(if negative then -size else size, rest)
  {
    hide NumberWhole, NumberFraction, NumberExponent, Scaled, DecimalValue;
  }

  lemma SignAndDigits(n: Num, rest: string)
    requires NumOk(n)
    ensures var s, t := NumTo(n, rest), FractionTo(n.fraction, ExponentTo(n.exponent, rest));
            (At(s, 0) == '-' <==> n.negative) && (if n.negative then s[1..] else s) == n.whole + t
  {
    hide FractionTo, ExponentTo;
    var t := FractionTo(n.fraction, ExponentTo(n.exponent, rest));
    assert IsDigit(n.whole[0]) && (n.whole + t)[0] == n.whole[0];
    if !n.negative {
      assert "" + (n.whole + t) == n.whole + t;
    }
  }

  lemma ExponentOrNone(e: Option<Exponent>, rest: string)
    requires e.Some? ==> e.value.letter in ['e', 'E'] && AllDigits(e.value.digits) && e.value.digits != []
    requires Delimited(rest)
    ensures NumberExponent(ExponentTo(e, rest)) == Parsed(Power(e), rest)
  {
    if e.Some? {
      ExponentIsRead(e.value, rest);
    }
  }
}
