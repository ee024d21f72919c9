/** Every numeral of every base, spelled out, is read as the number that it denotes. */
module Uint128Numerals {
  import opened CStrings
  import opened Numerals
  import opened Uint128
  import opened Uint128Parse

  /** A spelled digit has its value, and no other character is a digit of the base. */
  lemma SpelledDigit(c: char, d: nat)
    requires IsDigitOf(c, d)
    ensures DigitValue(c) == d
  {
    DigitIs(d);
  }

  /** A character that is not a digit of the base. */
  ghost predicate NoDigit(c: char, base: nat) {
    forall d: nat :: d < base ==> !IsDigitOf(c, d)
  }

  lemma OtherCharacter(c: char, base: nat)
    requires base <= 36 && NoDigit(c, base)
    ensures !IsDigitIn(c, base)
  {
    if IsDigitIn(c, base) {
      var d: nat := DigitValue(c);
      DigitIs(d);
      assert IsDigitOf(c, d);
    }
  }

  lemma {:induction false} SpelledValue(s: string, ds: seq<nat>, base: nat)
    requires base <= 36 && Spells(s, ds) && DigitsBelow(ds, base)
    ensures AllDigitsIn(s, base) && Value(s, base) == Horner(ds, base)
    decreases |s|
  {
    forall i | 0 <= i < |s|
      ensures IsDigitIn(s[i], base)
    {
      SpelledDigit(s[i], ds[i]);
    }
    if s != [] {
      var last := |s| - 1;
      SpelledDigit(s[last], ds[last]);
      SpelledValue(s[..last], ds[..last], base);
    }
  }

  /** The run of digits ends behind the numeral. */
  lemma {:induction false} SpelledRun(str: string, i: nat, e: nat, base: nat)
    requires i <= e <= |str| && AllDigitsIn(str[i..e], base) && !IsDigitIn(At(str, e), base)
    ensures RunEnd(str, i, base) == e
    decreases e - i
  {
    if i < e {
      assert str[i..e][0] == str[i] && str[i..e][1..] == str[i + 1..e];
      SpelledRun(str, i + 1, e, base);
    }
  }

  lemma {:induction false} SpelledSpaces(str: string, i: nat, e: nat)
    requires i <= e < |str| && (forall k :: i <= k < e ==> IsSpace(str[k])) && !IsSpace(str[e])
    ensures SpacesEnd(str, i) == e
    decreases e - i
  {
    if i < e {
      SpelledSpaces(str, i + 1, e);
    }
  }

  /** White space of the C locale. */
  predicate IsWhite(space: string) {
    forall i :: 0 <= i < |space| ==> space[i] in [' ', '\t', '\n', 11 as char, 12 as char, '\r']
  }

  /** `0x` or `0X` in base 16, `0b` or `0B` in base 2, or nothing. */
  predicate IsPrefix(prefix: string, base: nat) {
    prefix == "" || (base == 16 && prefix in ["0x", "0X"]) || (base == 2 && prefix in ["0b", "0B"])
  }

  /** White space, a plus sign or none, a prefix or none, a numeral, and something that does not continue it. */
  datatype Spelled = Spelled(space: string, plus: bool, prefix: string, numeral: string, rest: string)

  function Text(w: Spelled): string {
    w.space + (if w.plus then "+" else "") + w.prefix + w.numeral + w.rest
  }

  function Start(w: Spelled): nat {
    |w.space| + (if w.plus then 1 else 0) + |w.prefix|
  }

  /**
   The numeral is spelled with digits of the base and not continued; without a prefix it does not look like one, as a
   single zero in front of an `x` or a `b` does.
   */
  ghost predicate Regular(w: Spelled, ds: seq<nat>, base: nat) {
    && 2 <= base <= 36 && IsWhite(w.space) && IsPrefix(w.prefix, base)
    && ds != [] && DigitsBelow(ds, base) && Spells(w.numeral, ds)
    && (w.rest == [] || NoDigit(w.rest[0], base))
    && (w.prefix == "" && w.numeral == "0" && w.rest != [] ==>
          !(base == 16 && w.rest[0] in ['x', 'X']) && !(base == 2 && w.rest[0] in ['b', 'B']))
  }

  lemma TextIs(w: Spelled)
    ensures var str, p := Text(w), Start(w);
            && |str| == p + |w.numeral| + |w.rest|
            && str[..|w.space|] == w.space && str[p..p + |w.numeral|] == w.numeral && str[p + |w.numeral|..] == w.rest
            && str[p - |w.prefix|..p] == w.prefix
            && (w.plus ==> str[|w.space|] == '+')
  {
  }

  /** The white space ends where something else begins. */
  lemma SpaceIs(w: Spelled, ds: seq<nat>, base: nat)
    requires Regular(w, ds, base)
    ensures var str, i := Text(w), |w.space|;
            SpacesEnd(str, 0) == i && i < |str| && str[i] != '-' && (str[i] == '+' <==> w.plus)
  {
    var str, i, p := Text(w), |w.space|, Start(w);
    TextIs(w);
    SpelledDigit(w.numeral[0], ds[0]);
    assert !w.plus && w.prefix == "" ==> w.numeral[0] == str[p..p + |w.numeral|][0] == str[i];
    assert !w.plus && w.prefix != "" ==> w.prefix[0] == str[p - |w.prefix|..p][0] == str[i];
    forall k | 0 <= k < i
      ensures IsSpace(str[k])
    {
      assert str[k] == str[..i][k] == w.space[k];
    }
    hide Text;
    SpelledSpaces(str, 0, i);
  }

  lemma PrefixIs(w: Spelled, ds: seq<nat>, base: nat)
    requires Regular(w, ds, base) && w.prefix != ""
    ensures var str, p := Text(w), Start(w);
            && |w.prefix| == 2 && p >= 2 && At(str, p - 2) == '0'
            && ((base == 16 && At(str, p - 1) in ['x', 'X']) || (base == 2 && At(str, p - 1) in ['b', 'B']))
  {
    var str, p := Text(w), Start(w);
    TextIs(w);
    hide Text, Spells, IsWhite, NoDigit;
    assert str[p - |w.prefix|..p] == w.prefix;
    assert str[p - 2] == w.prefix[0] && str[p - 1] == w.prefix[1];
  }

  /** Where the digits begin. */
  lemma StartIs(w: Spelled, ds: seq<nat>, base: nat)
    requires Regular(w, ds, base)
    ensures var str, i := Text(w), |w.space|;
            && SpacesEnd(str, 0) == i && i < |str| && str[i] != '-' && (str[i] == '+' <==> w.plus)
            && DigitsStart(str, i, base) == Start(w)
  {
    SpaceIs(w, ds, base);
    assert Start(w) <= |Text(w)| by { TextIs(w); }
    hide Text, SpacesEnd, Spells, IsWhite, NoDigit, Regular, DigitsStart, IsPrefix;
    var str, i := Text(w), |w.space|;
    if w.prefix == "" {
      NoPrefix(w, ds, base);
    } else {
      PrefixIs(w, ds, base);
    }
    Started(str, i, |w.prefix|, base);
  }

  lemma Started(str: string, i: nat, k: nat, base: nat)
    requires i < |str| && k in {0, 2}
    requires var p := (if str[i] == '+' then i + 1 else i) + k;
             p <= |str|
             && if k == 0 then
                  At(str, p) == '0' ==> !(base == 16 && At(str, p + 1) in ['x', 'X'])
                                        && !(base == 2 && At(str, p + 1) in ['b', 'B'])
                else
                  At(str, p - 2) == '0'
                  && ((base == 16 && At(str, p - 1) in ['x', 'X']) || (base == 2 && At(str, p - 1) in ['b', 'B']))
    ensures DigitsStart(str, i, base) == (if str[i] == '+' then i + 1 else i) + k
  {
  }

  lemma NoPrefix(w: Spelled, ds: seq<nat>, base: nat)
    requires Regular(w, ds, base) && w.prefix == ""
    ensures var str, p := Text(w), Start(w);
            At(str, p) == '0' ==> !(base == 16 && At(str, p + 1) in ['x', 'X'])
                                  && !(base == 2 && At(str, p + 1) in ['b', 'B'])
  {
    var str, p := Text(w), Start(w);
    TextIs(w);
    assert w.numeral[0] == str[p..p + |w.numeral|][0] == str[p];
    if |w.numeral| > 1 {
      SpelledDigit(w.numeral[1], ds[1]);
      assert w.numeral[1] == str[p..p + |w.numeral|][1] == str[p + 1];
    } else if w.rest != [] {
      assert w.rest[0] == str[p + 1];
      assert w.numeral == [w.numeral[0]];
    }
  }

  /** Where they end, and what they denote. */
  lemma RunIs(w: Spelled, ds: seq<nat>, base: nat)
    requires Regular(w, ds, base)
    ensures var str, p := Text(w), Start(w);
            var e := p + |w.numeral|;
            && e <= |str| && RunEnd(str, p, base) == e
            && AllDigitsIn(str[p..e], base) && Value(str[p..e], base) == Horner(ds, base)
  {
    var str, p := Text(w), Start(w);
    var e := p + |w.numeral|;
    TextIs(w);
    SpelledValue(w.numeral, ds, base);
    if w.rest != [] {
      assert At(str, e) == w.rest[0];
      OtherCharacter(w.rest[0], base);
    }
    SpelledRun(str, p, e, base);
  }

  /** Every numeral is read to its end as the number that it denotes, up to the largest one, and as that one beyond. */
  method ReadNumeral(w: Spelled, ghost ds: seq<nat>, base: nat) returns (value: nat, end: nat, errno: Errno)
    requires Regular(w, ds, base)
    ensures Horner(ds, base) <= MAX ==>
              value == Horner(ds, base) && end == Start(w) + |w.numeral| && errno == Unset
    ensures Horner(ds, base) > MAX ==> value == MAX && errno == ERANGE
  {
    StartIs(w, ds, base);
    RunIs(w, ds, base);
    hide RunEnd, SpacesEnd, Value, Horner, Text, Start;
    value, end, errno := StrToU128(Text(w), base);
  }

  /** Every number has such a numeral in every base, and is read back from it. */
  method ReadNumber(v: nat, base: nat, w: Spelled) returns (value: nat, end: nat, errno: Errno)
    requires v <= MAX && base >= 2 && Regular(w, DigitsOf(v, base), base)
    ensures value == v && end == Start(w) + |w.numeral| && errno == Unset
  {
    DigitsDenote(v, base);
    value, end, errno := ReadNumeral(w, DigitsOf(v, base), base);
  }
}
