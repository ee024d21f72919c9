/** Every string token that is spelled out is found with its length. */
module TomlWords {
  import opened CStrings
  import opened Digits
  import opened Numerals
  import opened Options
  import opened TomlSpelling
  import opened TomlTokens

  /** What may follow a token: a mark, in keys also a point, a blank, the end of a line, a comment, or nothing. */
  predicate Ends(rest: string, isValue: bool) {
    rest == [] || rest[0] in [' ', '\t', '\r', '\n', '#', ',', '=', ']', '}'] || (rest[0] == '.' && !isValue)
  }

  /** Nor, behind spaces, something that could go on with a date. */
  predicate EndsStamp(rest: string) {
    rest == [] || (if rest[0] == ' ' then EndsStamp(rest[1..]) else !InTimestamp(rest[0]))
  }

  /** The text has `x` at index `p` and then `rest`. */
  predicate Has(text: string, p: nat, x: string, rest: string) {
    p <= |text| && text[p..] == x + rest
  }

  lemma HasAt(text: string, p: nat, x: string, rest: string, i: nat)
    requires Has(text, p, x, rest) && i < |x|
    ensures p + i < |text| && text[p + i] == x[i] && At(text, p + i) == x[i]
  {
    assert text[p + i] == text[p..][i];
  }

  lemma HasBehind(text: string, p: nat, x: string, rest: string)
    requires Has(text, p, x, rest)
    ensures p + |x| + |rest| == |text| && text[p + |x|..] == rest && At(text, p + |x|) == At(rest, 0)
  {
    assert text[p + |x|..] == text[p..][|x|..];
    if rest != [] {
      assert text[p + |x|] == text[p..][|x|];
    }
  }

  // Bare words

  lemma {:induction false} BareEnd(text: string, p: nat, x: string, rest: string, k: nat, dot: bool)
    requires Has(text, p, x, rest) && Ends(rest, !dot) && k <= |x| && forall i :: 0 <= i < |x| ==> InLiteral(x[i], dot)
    ensures LiteralEnd(text, p + k, dot) == p + |x|
    decreases |x| - k
  {
    HasBehind(text, p, x, rest);
    if k < |x| {
      HasAt(text, p, x, rest, k);
      BareEnd(text, p, x, rest, k + 1, dot);
    }
  }

  lemma BareIsNoDate(text: string, p: nat, x: string, rest: string)
    requires Has(text, p, x, rest) && Ends(rest, false) && x != [] && !DateShape(x)
    requires forall i :: 0 <= i < |x| ==> IsBareChar(x[i])
    ensures !IsDate(text, p) && !IsTime(text, p)
  {
    BareIsNoTime(text, p, x, rest);
    if |x| < 10 {
      ShortIsNoDate(text, p, x, rest);
    } else {
      LongIsNoDate(text, p, x, rest);
    }
  }

  lemma BareIsNoTime(text: string, p: nat, x: string, rest: string)
    requires Has(text, p, x, rest) && Ends(rest, false) && x != [] && forall i :: 0 <= i < |x| ==> IsBareChar(x[i])
    ensures !IsTime(text, p)
  {
    HasBehind(text, p, x, rest);
    HasAt(text, p, x, rest, 0);
    if |x| > 2 {
      HasAt(text, p, x, rest, 2);
    }
    assert |x| <= 2 ==> !IsDigit(At(text, p + |x|)) && At(text, p + |x|) != ':';
  }

  /** What follows the word is no part of a date. */
  lemma ShortIsNoDate(text: string, p: nat, x: string, rest: string)
    requires Has(text, p, x, rest) && Ends(rest, false) && |x| < 10
    ensures !IsDate(text, p)
  {
    HasBehind(text, p, x, rest);
    var c := At(text, p + |x|);
    assert c == At(rest, 0) && !IsDigit(c) && c != '-';
  }

  lemma LongIsNoDate(text: string, p: nat, x: string, rest: string)
    requires Has(text, p, x, rest) && |x| >= 10 && !DateShape(x)
    ensures !IsDate(text, p)
  {
    forall i: nat | i < 10
      ensures At(text, p + i) == x[i]
    {
      HasAt(text, p, x, rest, i);
    }
    if IsDate(text, p) {
      forall i | i in {0, 1, 2, 3, 5, 6, 8, 9}
        ensures '0' <= x[i] <= '9'
      {
        assert IsDigit(At(text, p + i));
      }
    }
  }

  lemma BareIsFound(text: string, p: nat, x: string, rest: string, isValue: bool)
    requires Has(text, p, x, rest) && Ends(rest, isValue) && IsBare(x, isValue)
    ensures StringLen(text, p, !isValue) == Some(|x|)
  {
    BareIsNoDate(text, p, x, rest);
    BareEnd(text, p, x, rest, 0, !isValue);
    HasAt(text, p, x, rest, 0);
    hide IsDate, IsTime, LiteralEnd;
  }

  // Dates and times

  lemma {:induction false} StampEnd(text: string, p: nat, x: string, rest: string, k: nat)
    requires Has(text, p, x, rest) && k <= |x| && forall i :: 0 <= i < |x| ==> InTimestamp(x[i])
    ensures TimestampEnd(text, p + k) == TimestampEnd(text, p + |x|)
    decreases |x| - k
  {
    if k < |x| {
      HasAt(text, p, x, rest, k);
      StampEnd(text, p, x, rest, k + 1);
    }
  }

  lemma {:induction false} SpacesBehind(text: string, q: nat, rest: string)
    requires q <= |text| && text[q..] == rest && EndsStamp(rest)
    ensures var e := TimestampEnd(text, q); forall i :: q <= i < e ==> text[i] == ' '
    decreases |rest|
  {
    if rest != [] && rest[0] == ' ' {
      assert text[q] == rest[0] && text[q + 1..] == rest[1..];
      SpacesBehind(text, q + 1, rest[1..]);
    } else if rest != [] {
      assert text[q] == rest[0];
    }
  }

  lemma {:induction false} SpacesTrimmed(text: string, p: nat, q: nat, e: nat)
    requires p < q <= e <= |text| && text[q - 1] != ' ' && forall i :: q <= i < e ==> text[i] == ' '
    ensures Trimmed(text, p, e) == q
    decreases e
  {
    if e > q {
      SpacesTrimmed(text, p, q, e - 1);
    }
  }

  lemma StampIsDate(text: string, p: nat, x: string, rest: string)
    requires Has(text, p, x, rest) && IsStamp(x)
    ensures IsDigit(At(text, p)) && (IsDate(text, p) || IsTime(text, p))
  {
    forall i: nat | i < |x|
      ensures At(text, p + i) == x[i]
    {
      HasAt(text, p, x, rest, i);
    }
  }

  lemma StampIsFound(text: string, p: nat, x: string, rest: string)
    requires Has(text, p, x, rest) && EndsStamp(rest) && IsStamp(x)
    ensures StringLen(text, p, false) == Some(|x|)
  {
    HasBehind(text, p, x, rest);
    StampIsDate(text, p, x, rest);
    StampEnd(text, p, x, rest, 0);
    SpacesBehind(text, p + |x|, rest);
    HasAt(text, p, x, rest, |x| - 1);
    hide IsDate, IsTime, TimestampEnd, EndsStamp, DateShape, TimeShape;
    SpacesTrimmed(text, p, p + |x|, TimestampEnd(text, p));
    hide Trimmed;
  }

  // Quoted strings

  lemma {:induction false} LiteralStringEnd(text: string, p: nat, x: string, rest: string, k: nat)
    requires Has(text, p, x, rest) && IsLiteralString(x) && 1 <= k < |x|
    ensures PlainEnd(text, p + k) == p + |x| - 1
    decreases |x| - k
  {
    HasAt(text, p, x, rest, k);
    if k < |x| - 1 {
      LiteralStringEnd(text, p, x, rest, k + 1);
    }
  }

  lemma LiteralStringIsFound(text: string, p: nat, x: string, rest: string, dot: bool)
    requires Has(text, p, x, rest) && Ends(rest, false) && IsLiteralString(x)
    ensures StringLen(text, p, dot) == Some(|x|)
  {
    HasBehind(text, p, x, rest);
    HasAt(text, p, x, rest, 0);
    HasAt(text, p, x, rest, 1);
    HasAt(text, p, x, rest, |x| - 1);
    LiteralStringEnd(text, p, x, rest, 1);
    assert !Three(text, p, '\'') && !Three(text, p, '\"');
    hide PlainEnd, QuotedEnd, ThreeAt, TripleLen, LiteralEnd;
  }

  lemma CapitalIsHex(h: string, i: nat)
    requires IsCapitalHex(h) && i < |h|
    ensures IsHex(h[i])
  {
    var d: nat :| d < 16 && h[i] == UPPER[d];
    DigitIs(d);
  }

  /** Past the digits of an escape sequence. */
  lemma {:induction false} HexPassed(text: string, q: nat, h: string, rest: string, k: nat)
    requires Has(text, q, h, rest) && IsCapitalHex(h) && k <= |h|
    ensures q + |h| <= |text|
    ensures QuotedEnd(text, q + k, |h| - k, false) == QuotedEnd(text, q + |h|, 0, false)
    decreases |h| - k
  {
    HasBehind(text, q, h, rest);
    if k < |h| {
      HasAt(text, q, h, rest, k);
      CapitalIsHex(h, k);
      HexPassed(text, q, h, rest, k + 1);
    }
  }

  lemma EscapePassed(text: string, q: nat, c: char, rest: string)
    requires Has(text, q, ['\\', c], rest) && HexOf(c).Some?
    ensures q + 2 <= |text| && QuotedEnd(text, q, 0, false) == QuotedEnd(text, q + 2, HexOf(c).value, false)
  {
    HasAt(text, q, ['\\', c], rest, 0);
    HasAt(text, q, ['\\', c], rest, 1);
  }

  /** What stands between the quotes is passed. */
  lemma {:induction false} BodyPassed(text: string, q: nat, s: string, rest: string)
    requires Has(text, q, s, "\"" + rest) && IsBasicBody(s)
    ensures QuotedEnd(text, q, 0, false) == Some(q + |s|)
    decreases |s|
  {
    HasBehind(text, q, s, "\"" + rest);
    if s == [] {
      assert text[q] == '\"';
    } else if s[0] !in ['\"', '\\', '\n'] && !("\'\'\'" <= s) && IsBasicBody(s[1..]) {
      PlainPassed(text, q, s, rest);
      HasRest(text, q, s, "\"" + rest, 1);
      BodyPassed(text, q + 1, s[1..], rest);
    } else {
      EscapedPassed(text, q, s, rest);
    }
  }

  lemma HasRest(text: string, q: nat, s: string, rest: string, k: nat)
    requires Has(text, q, s, rest) && k <= |s|
    ensures Has(text, q + k, s[k..], rest) && Has(text, q, s[..k], s[k..] + rest)
  {
    assert s == s[..k] + s[k..];
    assert text[q + k..] == text[q..][k..] == s[k..] + rest;
    assert s[..k] + (s[k..] + rest) == s + rest;
  }

  /** A single character, which does not begin three single quotes, whatever follows the string. */
  lemma PlainPassed(text: string, q: nat, s: string, rest: string)
    requires Has(text, q, s, "\"" + rest) && s != [] && s[0] !in ['\"', '\\', '\n'] && !("\'\'\'" <= s)
    ensures q < |text| && QuotedEnd(text, q, 0, false) == QuotedEnd(text, q + 1, 0, false)
  {
    HasAt(text, q, s, "\"" + rest, 0);
    HasBehind(text, q, s, "\"" + rest);
    if |s| >= 3 {
      HasAt(text, q, s, "\"" + rest, 1);
      HasAt(text, q, s, "\"" + rest, 2);
      assert "\'\'\'" <= s <==> s[0] == '\'' && s[1] == '\'' && s[2] == '\'';
    } else if |s| == 2 {
      assert At(text, q + 2) == '\"';
    } else {
      assert At(text, q + 1) == '\"';
    }
  }

  lemma {:induction false} EscapedPassed(text: string, q: nat, s: string, rest: string)
    requires Has(text, q, s, "\"" + rest) && IsBasicBody(s) && |s| >= 2 && s[0] == '\\'
    ensures QuotedEnd(text, q, 0, false) == Some(q + |s|)
    decreases |s|, 0
  {
    var k := if s[1] == 'u' then 6 else if s[1] == 'U' then 10 else 2;
    var c := s[1];
    HasRest(text, q, s, "\"" + rest, 2);
    assert s[..2] == ['\\', c];
    EscapePassed(text, q, c, s[2..] + ("\"" + rest));
    if k > 2 {
      HasRest(text, q, s, "\"" + rest, k);
      HexOfEscape(text, q, s, "\"" + rest, k);
    }
    HasRest(text, q, s, "\"" + rest, k);
    BodyPassed(text, q + k, s[k..], rest);
  }

  lemma HexOfEscape(text: string, q: nat, s: string, rest: string, k: nat)
    requires Has(text, q, s, rest) && k in {6, 10} && k <= |s| && IsCapitalHex(s[2..k])
    ensures q + k <= |text| && QuotedEnd(text, q + 2, k - 2, false) == QuotedEnd(text, q + k, 0, false)
  {
    var h := s[2..k];
    HasRest(text, q, s, rest, 2);
    assert s[2..] == h + s[k..];
    assert h + (s[k..] + rest) == s[2..] + rest;
    HexPassed(text, q + 2, h, s[k..] + rest, 0);
  }

  lemma BasicStringIsFound(text: string, p: nat, x: string, rest: string, dot: bool)
    requires Has(text, p, x, rest) && Ends(rest, false) && IsBasicString(x)
    ensures StringLen(text, p, dot) == Some(|x|)
  {
    var s := x[1..|x| - 1];
    assert x == "\"" + s + "\"";
    HasRest(text, p, x, rest, 1);
    assert x[1..] == s + "\"";
    assert s + "\"" + rest == s + ("\"" + rest);
    BodyPassed(text, p + 1, s, rest);
    HasBehind(text, p, x, rest);
    HasAt(text, p, x, rest, 0);
    HasAt(text, p, x, rest, |x| - 1);
    NotThreeQuotes(text, p, x, rest);
    assert !Three(text, p, '\'');
    hide PlainEnd, QuotedEnd, ThreeAt, TripleLen, LiteralEnd, IsBasicBody;
  }

  lemma NotThreeQuotes(text: string, p: nat, x: string, rest: string)
    requires Has(text, p, x, rest) && Ends(rest, false) && IsBasicString(x)
    ensures !Three(text, p, '\"')
  {
    HasBehind(text, p, x, rest);
    HasAt(text, p, x, rest, 1);
    if |x| > 2 {
      assert x[1] == x[1..|x| - 1][0];
    }
  }

  // Strings between three quotes

  lemma ThreeIs(text: string, p: nat, x: string, rest: string, i: nat, quote: char)
    requires Has(text, p, x, rest) && Ends(rest, false) && quote in ['\'', '\"'] && i < |x|
    ensures Three(text, p + i, quote) <==> ThreeIn(x, i, quote)
  {
    HasBehind(text, p, x, rest);
    HasAt(text, p, x, rest, i);
    if i + 1 < |x| {
      HasAt(text, p, x, rest, i + 1);
    }
    if i + 2 < |x| {
      HasAt(text, p, x, rest, i + 2);
    }
  }

  /** The first three quotes are found, from which on there is nothing else. */
  lemma {:induction false} ThreeIsFound(text: string, p: nat, x: string, rest: string, k: nat, quote: char)
    requires Has(text, p, x, rest) && Ends(rest, false) && quote in ['\'', '\"']
    requires k + 3 <= |x| && ThreeIn(x, |x| - 3, quote)
    ensures p + k <= |text|
    ensures var r := ThreeAt(text, p + k, quote);
            && r.Some? && p + k <= r.value <= p + |x| - 3 && ThreeIn(x, r.value - p, quote)
    decreases |x| - k
  {
    HasBehind(text, p, x, rest);
    HasAt(text, p, x, rest, k);
    ThreeIs(text, p, x, rest, k, quote);
    hide Ends;
    if !ThreeIn(x, k, quote) {
      ThreeIsFound(text, p, x, rest, k + 1, quote);
    }
  }

  lemma {:induction false} LastThreeIs(text: string, p: nat, x: string, rest: string, k: nat, quote: char)
    requires Has(text, p, x, rest) && Ends(rest, false) && quote in ['\'', '\"']
    requires k + 3 <= |x| && QuotesFrom(x, k, quote)
    ensures p + |x| <= |text| && LastThree(text, p + k, quote) == p + |x| - 3
    decreases |x| - k
  {
    HasBehind(text, p, x, rest);
    if k + 3 < |x| {
      HasAt(text, p, x, rest, k + 3);
      LastThreeIs(text, p, x, rest, k + 1, quote);
    }
  }

  lemma LongLiteralIsFound(text: string, p: nat, x: string, rest: string, dot: bool)
    requires Has(text, p, x, rest) && Ends(rest, false) && IsLongLiteral(x)
    ensures StringLen(text, p, dot) == Some(|x|)
  {
    HasAt(text, p, x, rest, 0);
    ThreeIs(text, p, x, rest, 0, '\'');
    ThreeIsFound(text, p, x, rest, 3, '\'');
    var q := ThreeAt(text, p + 3, '\'').value;
    LastThreeIs(text, p, x, rest, q - p, '\'');
    hide PlainEnd, QuotedEnd, ThreeAt, TripleLen, LiteralEnd, LastThree;
  }

  lemma {:induction false} TripleIsFound(text: string, p: nat, x: string, rest: string, k: nat)
    requires Has(text, p, x, rest) && Ends(rest, false) && 3 <= k <= |x| - 3 && IsLongString(x)
    ensures p + k <= |text|
    ensures var r := TripleEnd(text, p + k);
            r.Some? && p + k <= r.value <= p + |x| - 3 && QuotesFrom(x, r.value - p, '\"')
    decreases |x| - k
  {
    hide IsLongBody, ThreeAt, Has, Ends, QuotesFrom;
    ThreeIsFound(text, p, x, rest, k, '\"');
    var i := ThreeAt(text, p + k, '\"').value - p;
    HasAt(text, p, x, rest, i - 1);
    if x[i - 1] == '\\' {
      EarlierThree(x, i);
      TripleIsFound(text, p, x, rest, i + 1);
    }
  }

  /** Three quotes behind a backslash are not the last ones. */
  lemma EarlierThree(x: string, i: nat)
    requires IsLongString(x) && 3 <= i <= |x| - 3 && x[i - 1] == '\\'
    ensures i < |x| - 3
  {
    hide IsLongBody;
  }

  lemma LongStringIsFound(text: string, p: nat, x: string, rest: string, dot: bool)
    requires Has(text, p, x, rest) && Ends(rest, false) && IsLongString(x)
    ensures StringLen(text, p, dot) == Some(|x|)
  {
    hide PlainEnd, QuotedEnd, ThreeAt, TripleEnd, LiteralEnd, LastThree, EscapesOk, Has, Ends, IsLongBody, QuotesFrom;
    ThreeIs(text, p, x, rest, 0, '\'');
    ThreeIs(text, p, x, rest, 0, '\"');
    hide Three;
    TripleIsFound(text, p, x, rest, 3);
    var q := TripleEnd(text, p + 3).value;
    LastThreeIs(text, p, x, rest, q - p, '\"');
    HasBehind(text, p, x, rest);
    BetweenQuotes(text, p, x, rest);
  }

  lemma BetweenQuotes(text: string, p: nat, x: string, rest: string)
    requires Has(text, p, x, rest) && IsLongString(x)
    ensures p + |x| <= |text| && EscapesOk(text, p + 3, p + |x| - 3, 0, false)
  {
    hide ThreeIn, QuotesFrom, IsLongBody, EscapesOk, Has;
    var s, end := x[3..|x| - 3], x[|x| - 3..];
    HasBehind(text, p, x, rest);
    HasRest(text, p, x, rest, 3);
    Regrouped(x, rest);
    HasSame(text, p + 3, x[3..], rest, s, end + rest);
    LongBodyPassed(text, p + 3, s, end + rest);
  }

  lemma Regrouped(x: string, rest: string)
    requires |x| >= 6
    ensures x[3..] + rest == x[3..|x| - 3] + (x[|x| - 3..] + rest)
  {
    assert x[3..] == x[3..|x| - 3] + x[|x| - 3..];
  }

  lemma HasSame(text: string, q: nat, x: string, rest: string, y: string, more: string)
    requires Has(text, q, x, rest) && x + rest == y + more
    ensures Has(text, q, y, more)
  {
  }

  /** The escape sequences of a text are complete. */
  lemma {:induction false} LongBodyPassed(text: string, q: nat, s: string, rest: string)
    requires Has(text, q, s, rest) && IsLongBody(s)
    ensures q + |s| <= |text| && EscapesOk(text, q, q + |s|, 0, false)
    decreases |s|
  {
    HasBehind(text, q, s, rest);
    if s == [] {
    } else if s[0] != '\\' {
      HasAt(text, q, s, rest, 0);
      HasRest(text, q, s, rest, 1);
      LongBodyPassed(text, q + 1, s[1..], rest);
    } else if EndsLine(s[1..]) && s[1] !in ['b', 't', 'n', 'f', 'r', '\"', '\\', 'u', 'U'] {
      LineIsContinued(text, q, s, rest);
      HasRest(text, q, s, rest, 2);
      LongBodyPassed(text, q + 2, s[2..], rest);
    } else {
      var k := if s[1] == 'u' then 6 else if s[1] == 'U' then 10 else 2;
      LongEscapePassed(text, q, s, rest, k);
      HasRest(text, q, s, rest, k);
      LongBodyPassed(text, q + k, s[k..], rest);
    }
  }

  lemma LongEscapePassed(text: string, q: nat, s: string, rest: string, k: nat)
    requires k in {2, 6, 10} && Has(text, q, s, rest) && |s| >= k && s[0] == '\\'
    requires if k == 2 then s[1] in ['b', 't', 'n', 'f', 'r', '\"', '\\']
             else s[1] == (if k == 6 then 'u' else 'U') && IsCapitalHex(s[2..k])
    ensures q + |s| <= |text| && EscapesOk(text, q, q + |s|, 0, false) == EscapesOk(text, q + k, q + |s|, 0, false)
  {
    HasBehind(text, q, s, rest);
    HasAt(text, q, s, rest, 0);
    HasAt(text, q, s, rest, 1);
    assert EscapesOk(text, q, q + |s|, 0, false) == EscapesOk(text, q + 2, q + |s|, k - 2, false);
    if k > 2 {
      HexLies(text, q, s, rest, k);
      LongHexPassed(text, q + 2, s[2..k], q + |s|, 0);
    }
  }

  lemma HexLies(text: string, q: nat, s: string, rest: string, k: nat)
    requires Has(text, q, s, rest) && 2 <= k <= |s|
    ensures forall i :: 0 <= i < k - 2 ==> q + 2 + i < |text| && text[q + 2 + i] == s[2..k][i]
  {
    forall i | 0 <= i < k - 2
      ensures q + 2 + i < |text| && text[q + 2 + i] == s[2..k][i]
    {
      HasAt(text, q, s, rest, i + 2);
    }
  }

  lemma {:induction false} LongHexPassed(text: string, q: nat, h: string, to: nat, k: nat)
    requires IsCapitalHex(h) && k <= |h| && q + |h| <= to <= |text|
    requires forall i :: 0 <= i < |h| ==> text[q + i] == h[i]
    ensures EscapesOk(text, q + k, to, |h| - k, false) == EscapesOk(text, q + |h|, to, 0, false)
    decreases |h| - k
  {
    if k < |h| {
      CapitalIsHex(h, k);
      LongHexPassed(text, q, h, to, k + 1);
    }
  }

  lemma {:induction false} LineEndIsFound(text: string, q: nat, s: string, rest: string)
    requires Has(text, q, s, rest) && EndsLine(s)
    ensures At(text, BlankEnd(text, q)) == '\n'
    decreases |s|
  {
    HasAt(text, q, s, rest, 0);
    if s[0] != '\n' {
      HasRest(text, q, s, rest, 1);
      LineEndIsFound(text, q + 1, s[1..], rest);
    }
  }

  /** A backslash at the end of a line. */
  lemma LineIsContinued(text: string, q: nat, s: string, rest: string)
    requires Has(text, q, s, rest) && |s| >= 2 && s[0] == '\\' && EndsLine(s[1..])
    ensures q + |s| <= |text| && EscapesOk(text, q, q + |s|, 0, false) == EscapesOk(text, q + 2, q + |s|, 0, false)
  {
    HasBehind(text, q, s, rest);
    HasAt(text, q, s, rest, 0);
    HasAt(text, q, s, rest, 1);
    HasRest(text, q, s, rest, 1);
    LineEndIsFound(text, q + 1, s[1..], rest);
    assert s[1] in ['\n', ' ', '\t', '\r'];
    assert EscapesOk(text, q, q + |s|, 0, false) == EscapesOk(text, q + 1, q + |s|, 0, true);
  }

  /** Every token is found, and begins like one. */
  lemma WordIsFound(text: string, p: nat, x: string, rest: string, isValue: bool)
    requires Has(text, p, x, rest) && Ends(rest, isValue) && (isValue ==> EndsStamp(rest)) && IsWord(x, isValue)
    ensures StringLen(text, p, !isValue) == Some(|x|)
    ensures x != [] && KindOf(x[0], !isValue) == STRING && !IsBlank(x[0]) && x[0] != '#'
  {
    WordStarts(x, isValue);
    hide StringLen, Ends, EndsStamp, KindOf, Has;
    if IsBare(x, isValue) {
      BareIsFound(text, p, x, rest, isValue);
    } else if IsLiteralString(x) {
      LiteralStringIsFound(text, p, x, rest, !isValue);
    } else if IsBasicString(x) {
      BasicStringIsFound(text, p, x, rest, !isValue);
    } else if IsStamp(x) {
      StampIsFound(text, p, x, rest);
    } else if IsLongLiteral(x) {
      LongLiteralIsFound(text, p, x, rest, !isValue);
    } else {
      LongStringIsFound(text, p, x, rest, !isValue);
    }
  }

  lemma WordStarts(x: string, isValue: bool)
    requires IsWord(x, isValue)
    ensures x != [] && KindOf(x[0], !isValue) == STRING && !IsBlank(x[0]) && x[0] != '#'
  {
    hide IsBasicBody, IsLongBody;
  }
}
