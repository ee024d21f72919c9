/** `strtou128`: what it reads in each base, and when it reports an overflow. */
module Uint128Parse {
  import opened CStrings
  import opened Digits
  import opened Uint128

  datatype Errno = Unset | EINVAL | ERANGE

  /** `isspace` in the C locale. */
  predicate IsSpace(c: char) {
    c == ' ' || 9 <= c as int <= 13
  }

  /** The value of a digit or letter, or -1. */
  function DigitValue(c: char): (d: int)
    ensures -1 <= d < 36
  {
    if '0' <= c <= '9' then c as int - '0' as int
    else if 'a' <= c <= 'z' then c as int - 'a' as int + 10
    else if 'A' <= c <= 'Z' then c as int - 'A' as int + 10
    else -1
  }

  predicate IsDigitIn(c: char, base: nat) {
    0 <= DigitValue(c) < base
  }

  predicate AllDigitsIn(s: string, base: nat) {
    forall i :: 0 <= i < |s| ==> IsDigitIn(s[i], base)
  }

  /** The number that a run of digits denotes. */
  function Value(s: string, base: nat): nat
    requires AllDigitsIn(s, base)
  {
    if s == [] then 0 else Value(s[..|s| - 1], base) * base + DigitValue(s[|s| - 1])
  }

  /** Where the run of digits that begins at `i` ends. */
  function RunEnd(s: string, i: nat, base: nat): (e: nat)
    requires i <= |s|
    ensures i <= e <= |s| && AllDigitsIn(s[i..e], base) && !IsDigitIn(At(s, e), base)
    decreases |s| - i
  {
    if i < |s| && IsDigitIn(s[i], base) then
      var e := RunEnd(s, i + 1, base);
      assert s[i..e] == [s[i]] + s[i + 1..e];
      e
    else i
  }

  function SpacesEnd(s: string, i: nat): (e: nat)
    requires i <= |s|
    ensures i <= e <= |s|
    decreases |s| - i
  {
    if i < |s| && IsSpace(s[i]) then SpacesEnd(s, i + 1) else i
  }

  /** Where the digits begin: behind the sign and, in base 16 and 2, a prefix. */
  function DigitsStart(s: string, i: nat, base: nat): (d: nat)
    requires i <= |s|
    ensures i <= d <= |s|
  {
    var j := if At(s, i) == '+' then i + 1 else i;
    if base == 16 && At(s, j) == '0' && At(s, j + 1) in ['x', 'X'] then j + 2
    else if base == 2 && At(s, j) == '0' && At(s, j + 1) in ['b', 'B'] then j + 2
    else j
  }

  /** A longer run denotes no smaller number. */
  lemma {:induction false} ValueGrows(s: string, k: nat, base: nat)
    requires base > 0 && AllDigitsIn(s, base) && k <= |s|
    ensures AllDigitsIn(s[..k], base) && Value(s[..k], base) <= Value(s, base)
    decreases |s| - k
  {
    if k == |s| {
      assert s[..k] == s;
    } else {
      var t := s[..|s| - 1];
      ValueGrows(t, k, base);
      assert t[..k] == s[..k];
      NoSmaller(Value(t, base), base);
    }
  }

  lemma NoSmaller(v: nat, base: nat)
    requires base > 0
    ensures v <= v * base
  {
  }

  /** The test in front of the multiplication is the one for the result behind it. */
  lemma CutoffIsExact(result: nat, digit: nat, base: nat)
    requires 0 < base && digit < base
    ensures (result > MAX / base || (result == MAX / base && digit > MAX % base)) <==> result * base + digit > MAX
  {
    var cutoff, cutlim := MAX / base, MAX % base;
    assert MAX == cutoff * base + cutlim;
    if result > cutoff {
      assert result * base >= (cutoff + 1) * base;
    } else if result < cutoff {
      assert (result + 1) * base <= cutoff * base;
    }
  }

  method StrToU128(str: string, base: int) returns (value: nat, end: nat, errno: Errno)
    ensures end <= |str| && value <= MAX
    ensures !(2 <= base <= 36) ==> value == 0 && end == 0 && errno == EINVAL
    ensures 2 <= base <= 36 ==>
              var i := SpacesEnd(str, 0);
              if i == |str| then value == 0 && end == i && errno == Unset
              else if str[i] == '-' then value == 0 && end == i && errno == ERANGE
              else
                var d := DigitsStart(str, i, base);
                var e := RunEnd(str, d, base);
                (errno == ERANGE <==> Value(str[d..e], base) > MAX)
                && (errno == Unset ==> value == Value(str[d..e], base) && end == e)
                && (errno == ERANGE ==> value == MAX && end < e)
                && errno != EINVAL
  {
    hide Value, RunEnd;
    if base < 2 || base > 36 {
      return 0, 0, EINVAL;
    }
    end := 0;
    while end < |str| && IsSpace(str[end])
      invariant end <= |str| && SpacesEnd(str, end) == SpacesEnd(str, 0)
    {
      end := end + 1;
    }
    if end == |str| {
      return 0, end, Unset;
    }
    if str[end] == '+' {
      end := end + 1;
    } else if str[end] == '-' {
      return 0, end, ERANGE;
    }
    if base == 16 && At(str, end) == '0' && (At(str, end + 1) == 'x' || At(str, end + 1) == 'X') {
      end := end + 2;
    } else if base == 2 && At(str, end) == '0' && (At(str, end + 1) == 'b' || At(str, end + 1) == 'B') {
      end := end + 2;
    }
    value, end, errno := ReadDigits(str, end, base);
  }

  method ReadDigits(str: string, start: nat, base: nat) returns (value: nat, end: nat, errno: Errno)
    requires 2 <= base <= 36 && start <= |str|
    ensures value <= MAX && end <= |str| && errno != EINVAL
    ensures var e := RunEnd(str, start, base);
            (errno == ERANGE <==> Value(str[start..e], base) > MAX)
            && (errno == Unset ==> value == Value(str[start..e], base) && end == e)
            && (errno == ERANGE ==> value == MAX && end < e)
  {
    var cutoff, cutlim := MAX / base, MAX % base;
    ghost var e := RunEnd(str, start, base);
    ghost var run := str[start..e];
    value, end, errno := 0, start, Unset;
    while end < |str|
      invariant start <= end <= e && RunEnd(str, end, base) == e
      invariant value <= MAX && AllDigitsIn(run[..end - start], base) && value == Value(run[..end - start], base)
    {
      var digit := DigitValue(str[end]);
      if digit < 0 || digit >= base {
        break;
      }
      OneMoreDigit(run, end - start, base);
      CutoffIsExact(value, digit, base);
      if value > cutoff || (value == cutoff && digit > cutlim) {
        return MAX, end, ERANGE;
      }
      value := value * base + digit;
      end := end + 1;
    }
    assert end == e && run[..end - start] == run;
  }

  /** The number of a run that is one digit longer, and that the whole run is not below it. */
  lemma OneMoreDigit(run: string, k: nat, base: nat)
    requires base > 0 && AllDigitsIn(run, base) && k < |run|
    ensures AllDigitsIn(run[..k], base) && AllDigitsIn(run[..k + 1], base)
    ensures Value(run[..k + 1], base) == Value(run[..k], base) * base + DigitValue(run[k]) <= Value(run, base)
  {
    assert run[..k + 1][..k] == run[..k];
    ValueGrows(run, k + 1, base);
  }

  // Reading back what the formatter writes

  lemma {:induction false} SameDecimalValue(s: string)
    requires AllDigits(s)
    ensures AllDigitsIn(s, 10) && Value(s, 10) == DecimalValue(s)
    decreases |s|
  {
    if s != [] {
      SameDecimalValue(s[..|s| - 1]);
    }
  }

  lemma {:induction false} WholeRun(s: string, i: nat)
    requires AllDigits(s) && i <= |s|
    ensures RunEnd(s, i, 10) == |s|
    decreases |s| - i
  {
    if i < |s| {
      WholeRun(s, i + 1);
    }
  }

  /** A text of decimal digits is read from its first to its last character. */
  lemma ReadsDecimal(s: string)
    requires AllDigits(s) && s != []
    ensures SpacesEnd(s, 0) == 0 && s[0] != '-' && DigitsStart(s, 0, 10) == 0
    ensures RunEnd(s, 0, 10) == |s| && s[0..|s|] == s
    ensures AllDigitsIn(s, 10) && Value(s, 10) == DecimalValue(s)
  {
    assert IsDigit(s[0]);
    WholeRun(s, 0);
    SameDecimalValue(s);
  }

  /** Parsing a decimal numeral gives its number exactly if that is a 128-bit one. */
  method ParseDecimal(s: string) returns (value: nat, errno: Errno)
    requires AllDigits(s) && s != []
    ensures errno == Unset <==> DecimalValue(s) <= MAX
    ensures value == if DecimalValue(s) <= MAX then DecimalValue(s) else MAX
  {
    ReadsDecimal(s);
    hide RunEnd, Value, SpacesEnd;
    var end;
    value, end, errno := StrToU128(s, 10);
  }

  /** Every 128-bit value is read back from the text that the formatter writes for it. */
  method RoundTrip(u: nat, buffer: array<char>) returns (value: nat, errno: Errno)
    requires u <= MAX && buffer.Length >= 40
    modifies buffer
    ensures value == u && errno == Unset
  {
    FitsIn39(u);
    DecimalIsDigits(u);
    hide Decimal;
    assert Starts(buffer, "");
    var written := FormatU128(u, buffer, 0, "");
    assert "" + Decimal(u) == Decimal(u);
    value, errno := ParseDecimal(buffer[..written]);
  }

  lemma FitsIn39(u: nat)
    requires u <= MAX
    ensures |Decimal(u)| <= 39
  {
    Nineteen();
    PowSplit(19, 19);
    assert Pow10(38) == D38;
    assert Pow10(39) == 10 * Pow10(38);
    DecimalLength(u, 39);
  }
}
